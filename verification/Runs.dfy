/** Whole runs: any sequence of backups, deletions and retention sweeps, each of which may have been
    cut off after any of its calls. */
module Runs {
  import opened Entities
  import opened ObjectKeys
  import opened Catalogue
  import opened Backups
  import opened Recovery
  import opened Retention

  datatype Op = Backup(initial: BackupRecord, dump: Dump) | Delete(id: string) | Retention

  /** `x` can be found at some point of the operation begun in `a`, its end included. These are the
      relations the methods of the use cases are proved to keep to. */
  ghost predicate Step(digest: Bytes -> string, op: Op, a: Snapshot, x: Snapshot) {
    match op
    case Backup(r, dump) =>
      IsInitial(r) && Fresh(a, r, dump) && ParentChosen(a.records, r) && BackupCut(digest, a, x, r, dump)
    case Delete(id) =>
      DeleteCut(a, x, id)
    case Retention =>
      OnlyDeleted(a, x)
  }

  /** An installation starts with no records, whatever is in the bucket. */
  ghost predicate Initial(a: Snapshot) {
    a.records == map[]
  }

  ghost predicate IsRun(digest: Bytes -> string, states: seq<Snapshot>, ops: seq<Op>) {
    && |states| == |ops| + 1
    && Initial(states[0])
    && forall i | 0 <= i < |ops| :: Step(digest, ops[i], states[i], states[i + 1])
  }

  lemma StepKeepsConsistent(digest: Bytes -> string, op: Op, a: Snapshot, x: Snapshot)
    requires Consistent(a) && NoFullBetween(a.records) && Step(digest, op, a, x)
    ensures Consistent(x) && NoFullBetween(x.records)
  {
    match op
    case Backup(r, dump) =>
      BackupKeepsConsistent(digest, a, x, r, dump);
      BackupKeepsNoFullBetween(digest, a, x, r, dump);
    case Delete(id) =>
      var ids := if id in a.records then Family(a, id) else {};
      DeletingKeepsConsistent(a, x, ids);
      DeletingKeepsNoFullBetween(a, x, ids);
    case Retention =>
      DeletingKeepsConsistent(a, x, a.records.Keys);
      DeletingKeepsNoFullBetween(a, x, a.records.Keys);
  }

  lemma NothingRecorded(a: Snapshot)
    requires Initial(a)
    ensures Consistent(a) && NoFullBetween(a.records)
  {
  }

  /** Every state of every run satisfies the invariant: no log is orphaned, records are named only
      once completed, and no full lies between a log and its parent. */
  lemma {:induction false} RunsAreSafe(digest: Bytes -> string, states: seq<Snapshot>, ops: seq<Op>, i: nat)
    requires IsRun(digest, states, ops) && i < |states|
    ensures Consistent(states[i]) && NoFullBetween(states[i].records)
  {
    hide Step, Consistent, NoFullBetween;
    if i == 0 {
      NothingRecorded(states[0]);
    } else {
      RunsAreSafe(digest, states, ops, i - 1);
      assert Step(digest, ops[i - 1], states[i - 1], states[i]);
      StepKeepsConsistent(digest, ops[i - 1], states[i - 1], states[i]);
    }
  }

  /** No backup of the run uses a key that is in use. */
  ghost predicate KeysUnused(states: seq<Snapshot>, ops: seq<Op>)
    requires |states| == |ops| + 1
  {
    forall i | 0 <= i < |ops| && ops[i].Backup? :: KeyUnused(states[i], ops[i].initial, ops[i].dump)
  }

  lemma StepKeepsKeys(digest: Bytes -> string, op: Op, a: Snapshot, x: Snapshot)
    requires Consistent(a) && KeysApart(a.records) && ContentsMatch(digest, a) && Step(digest, op, a, x)
    requires op.Backup? ==> KeyUnused(a, op.initial, op.dump)
    ensures KeysApart(x.records) && ContentsMatch(digest, x)
  {
    match op
    case Backup(r, dump) =>
      BackupKeepsKeysApart(digest, a, x, r, dump);
      BackupKeepsContents(digest, a, x, r, dump);
    case Delete(id) =>
      var ids := if id in a.records then Family(a, id) else {};
      DeletingKeepsKeysApart(a, x, ids);
      DeletingKeepsContents(digest, a, x, ids);
    case Retention =>
      DeletingKeepsKeysApart(a, x, a.records.Keys);
      DeletingKeepsContents(digest, a, x, a.records.Keys);
  }

  /** In every state of every such run live chains share no keys, and sizes and hashes are true. */
  lemma {:induction false} RunsKeepKeysApart(digest: Bytes -> string, states: seq<Snapshot>, ops: seq<Op>, i: nat)
    requires IsRun(digest, states, ops) && KeysUnused(states, ops) && i < |states|
    ensures KeysApart(states[i].records) && ContentsMatch(digest, states[i])
  {
    if i > 0 {
      RunsKeepKeysApart(digest, states, ops, i - 1);
      RunsAreSafe(digest, states, ops, i - 1);
      assert Step(digest, ops[i - 1], states[i - 1], states[i]);
      StepKeepsKeys(digest, ops[i - 1], states[i - 1], states[i]);
    }
  }

  /** No backup of the run has a slash in the name of its instance or database. */
  ghost predicate KeysFit(ops: seq<Op>) {
    forall i | 0 <= i < |ops| && ops[i].Backup? :: Fitting(ops[i].initial, ops[i].dump)
  }

  lemma StepKeepsKeysProduced(digest: Bytes -> string, op: Op, a: Snapshot, x: Snapshot)
    requires KeysProduced(a) && Step(digest, op, a, x) && (op.Backup? ==> Fitting(op.initial, op.dump))
    ensures KeysProduced(x)
  {
    match op
    case Backup(r, dump) =>
      BackupKeepsKeysProduced(digest, a, x, r, dump);
    case Delete(id) =>
      DeletingKeepsKeysProduced(a, x, if id in a.records then Family(a, id) else {});
    case Retention =>
      DeletingKeepsKeysProduced(a, x, a.records.Keys);
  }

  /** In every state of every such run that starts on a bucket of the adapters all keys are as the adapters
      form them. */
  lemma {:induction false} RunsKeepKeysProduced(
    digest: Bytes -> string, states: seq<Snapshot>, ops: seq<Op>, i: nat)
    requires IsRun(digest, states, ops) && KeysFit(ops) && i < |states|
    requires AdapterBucket(states[0].prefix, states[0].objects.Keys)
    ensures KeysProduced(states[i])
  {
    hide Step, KeysProduced;
    if i == 0 {
      NoKeysRecorded(states[0]);
    } else {
      RunsKeepKeysProduced(digest, states, ops, i - 1);
      assert Step(digest, ops[i - 1], states[i - 1], states[i]);
      StepKeepsKeysProduced(digest, ops[i - 1], states[i - 1], states[i]);
    }
  }

  lemma NoKeysRecorded(a: Snapshot)
    requires Initial(a) && AdapterBucket(a.prefix, a.objects.Keys)
    ensures KeysProduced(a)
  {
  }

  /** No operation changes an existing record except by expiring it. */
  lemma StepOnlyExpires(digest: Bytes -> string, op: Op, a: Snapshot, x: Snapshot, k: string)
    requires Step(digest, op, a, x) && k in a.records
    ensures k in x.records && (x.records[k] == a.records[k] || x.records[k] == Expire(a.records[k]))
  {
    if op.Backup? && x.records != a.records {
      assert x.records == a.records[op.initial.id := x.records[op.initial.id]];
    }
  }

  /** The history of a record once written: it is never removed, and all that can still happen to it
      is that it expires. */
  lemma {:induction false} RecordsOnlyExpire(
    digest: Bytes -> string, states: seq<Snapshot>, ops: seq<Op>, i: nat, j: nat, k: string)
    requires IsRun(digest, states, ops) && i <= j < |states| && k in states[i].records
    ensures k in states[j].records
    ensures states[j].records[k] == states[i].records[k] || states[j].records[k] == Expire(states[i].records[k])
  {
    hide Step;
    if i < j {
      RecordsOnlyExpire(digest, states, ops, i, j - 1, k);
      assert Step(digest, ops[j - 1], states[j - 1], states[j]);
      StepOnlyExpires(digest, ops[j - 1], states[j - 1], states[j], k);
    }
  }

  /** A backup that is completed in any later state was dumped by commands that all exited successfully,
      on every engine but SQL Server. */
  lemma RunsCompletedExited(digest: Bytes -> string, states: seq<Snapshot>, ops: seq<Op>, i: nat, j: nat)
    requires IsRun(digest, states, ops) && i < j < |states| && ops[i].Backup?
    requires ops[i].initial.engine != SQLServer && DumpOf(ops[i].initial.engine, ops[i].dump)
    requires ops[i].initial.id in states[j].records && ops[i].initial.id in states[i + 1].records
    requires states[j].records[ops[i].initial.id].status == Completed
    ensures Exited(ops[i].dump)
  {
    RecordsOnlyExpire(digest, states, ops, i + 1, j, ops[i].initial.id);
    assert Step(digest, ops[i], states[i], states[i + 1]);
    CompletedMeansExitedUnlessSqlServer(digest, states[i], ops[i].initial);
  }

  lemma PicksAgree(
    a: Snapshot, instanceID: string, database: string, time: Time, best: BackupRecord, points: map<string, string>,
    chain: seq<BackupRecord>)
    requires Consistent(a) && NoFullBetween(a.records) && Folded(database) != "master"
    requires forall k | k in a.records && a.records[k].status == Completed
                 && OfDatabase(a.records[k], instanceID, database) :: a.records[k].startedAt <= time
    requires PointInTime(a.records, instanceID, database, time, Some(best))
    requires LatestPoints(a.records, instanceID, points) && Chain(a.records, best, chain)
    ensures database in points && points[database] == best.id
    ensures chain[|chain| - 1] == best
    ensures forall k | k in a.records && a.records[k].CompletedLog() && a.records[k].parentBackupID == chain[0].id ::
              a.records[k] in chain
  {
    hide NoFullBetween;
    PointInTimeAgrees(a, instanceID, database, time, Some(best), points);
    NewestHasFull(a, best);
    var p :| LatestPointOf(a.records, instanceID, database, p, points[database]);
    NewestIsInNewestChain(a, best, p);
    if !best.IsFull() {
      ChainOfLog(a, best, chain);
    }
    ChainOfLatestPoint(a, instanceID, database, best.id, p, chain);
  }

  /** In every state of every run, restoring to a late enough point in time picks what "restore all"
      picks, and the chain then applied is the full and all its completed logs, ending with the pick. */
  lemma RestorePicksAgree(
    digest: Bytes -> string, states: seq<Snapshot>, ops: seq<Op>, i: nat, instanceID: string, database: string,
    time: Time, best: BackupRecord, points: map<string, string>, chain: seq<BackupRecord>)
    requires IsRun(digest, states, ops) && i < |states| && Folded(database) != "master"
    requires forall k | k in states[i].records && states[i].records[k].status == Completed
                 && OfDatabase(states[i].records[k], instanceID, database) :: states[i].records[k].startedAt <= time
    requires PointInTime(states[i].records, instanceID, database, time, Some(best))
    requires LatestPoints(states[i].records, instanceID, points)
    requires Chain(states[i].records, best, chain)
    ensures database in points && points[database] == best.id
    ensures chain[|chain| - 1] == best
    ensures forall k | k in states[i].records && states[i].records[k].CompletedLog()
                && states[i].records[k].parentBackupID == chain[0].id :: states[i].records[k] in chain
  {
    RunsAreSafe(digest, states, ops, i);
    PicksAgree(states[i], instanceID, database, time, best, points, chain);
  }
}
