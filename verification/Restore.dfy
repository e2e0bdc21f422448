/** Restoring (application/usecases/restore_usecase.go) onto a database whose state is abstract
    (adapters/database/sqlserver/adapter.go). */
module Restore {
  import opened Entities
  import opened ObjectKeys
  import opened Catalogue
  import opened Backups
  import opened Recovery
  import opened Sorting
  import opened World

  // ---- the database restored to ----

  /** `Before` is whatever the database was before the restore. Otherwise the backups applied so far
      are known: with NORECOVERY the database keeps waiting for logs, with RECOVERY it is online. */
  datatype DbState = Before | Restoring(applied: seq<string>) | Online(applied: seq<string>)

  function Applied(s: DbState): seq<string> {
    if s.Before? then [] else s.applied
  }

  /** One RESTORE statement that reached the server. */
  datatype Statement = Statement(backupID: string, log: bool, recovery: bool)

  class TargetDatabase {
    var state: DbState
    ghost var issued: seq<Statement>
    /** How many calls have failed. */
    ghost var failures: nat

    constructor ()
      ensures state == Before && issued == [] && failures == 0
    {
      state, issued, failures := Before, [], 0;
    }

    /** RESTORE DATABASE ... WITH REPLACE. Sending the file may fail, and so may the statement, before
        or after its effect; a failed statement may leave the database waiting with nothing applied. */
    method Restore(backupID: string, noRecovery: bool) returns (ok: bool)
      modifies this
      ensures issued == old(issued) || issued == old(issued) + [Statement(backupID, false, !noRecovery)]
      ensures
        var done := if noRecovery then Restoring([backupID]) else Online([backupID]);
        if ok then issued != old(issued) && state == done
        else state == old(state) || (issued != old(issued) && (state == done || state == Restoring([])))
      ensures if ok then failures == old(failures) else failures == old(failures) + 1
    {
      failures := failures + 1;
      var sent: bool := *;
      if !sent {
        return false;
      }
      issued := issued + [Statement(backupID, false, !noRecovery)];
      ok := *;
      var effect: bool, begun: bool := *, *;
      if ok || effect {
        state := if noRecovery then Restoring([backupID]) else Online([backupID]);
      } else if begun {
        state := Restoring([]);
      }
      failures := if ok then failures - 1 else failures;
    }

    /** RESTORE LOG, which the server refuses unless the database is waiting for logs. */
    method RestoreLog(backupID: string, recovery: bool) returns (ok: bool)
      modifies this
      ensures issued == old(issued) || issued == old(issued) + [Statement(backupID, true, recovery)]
      ensures ok ==> issued != old(issued) && old(state).Restoring?
      ensures state == old(state) ||
              (&& issued != old(issued) && old(state).Restoring?
               && state == (if recovery then Online(old(state).applied + [backupID])
                            else Restoring(old(state).applied + [backupID])))
      ensures ok ==> state != old(state) && failures == old(failures)
      ensures !ok ==> failures == old(failures) + 1
    {
      failures := failures + 1;
      var sent: bool := *;
      if !sent {
        return false;
      }
      issued := issued + [Statement(backupID, true, recovery)];
      if !state.Restoring? {
        return false;
      }
      ok := *;
      var effect: bool := *;
      if ok || effect {
        var applied := state.applied + [backupID];
        state := if recovery then Online(applied) else Restoring(applied);
      }
      failures := if ok then failures - 1 else failures;
    }
  }

  function IdsOf(chain: seq<BackupRecord>): (ids: seq<string>)
    ensures |ids| == |chain|
    ensures forall i | 0 <= i < |chain| :: ids[i] == chain[i].id
  {
    seq(|chain|, i requires 0 <= i < |chain| => chain[i].id)
  }

  /** The statements a replay of `chain` issues, if none fails to reach the server. */
  function Statements(chain: seq<BackupRecord>): (s: seq<Statement>)
    ensures |s| == |chain|
  {
    seq(|chain|, i requires 0 <= i < |chain| => Statement(chain[i].id, i > 0, i == |chain| - 1))
  }

  predicate ObjectsPresent(prefix: string, objects: map<string, Bytes>, chain: seq<BackupRecord>) {
    forall i | 0 <= i < |chain| :: FullKey(prefix, chain[i].fileName) in objects
  }

  /** Where the database is after the first `n` elements of the chain `ids`. */
  function AfterReplaying(ids: seq<string>, n: nat): DbState
    requires n <= |ids|
  {
    if n == 0 then Before else if n == |ids| then Online(ids) else Restoring(ids[..n])
  }

  /** How a replay of `chain` may end. RECOVERY goes only with the last element; on success the whole
      chain is applied and the database online; on failure it is where some proper prefix left it
      (or waiting with nothing applied), unless only the answer to the last statement was lost. The
      recorded IDs are what was applied, or that and the one element that failed. */
  ghost predicate Replayed(
    chain: seq<BackupRecord>, db: DbState, issued: seq<Statement>, recorded: seq<string>, ok: bool) {
    var ids := IdsOf(chain);
    && issued <= Statements(chain)
    && |recorded| <= |ids| && recorded == ids[..|recorded|]
    && (if ok then
          recorded == ids && db == AfterReplaying(ids, |ids|) && issued == Statements(chain)
        else
          || (recorded == [] && db == Before && issued == [])
          || (recorded != [] && db == Restoring([]) && |recorded| == 1)
          || (recorded != [] && db == AfterReplaying(ids, |recorded| - 1))
          || (recorded != [] && db == AfterReplaying(ids, |recorded|)))
  }

  /** What that means: the database never comes online with part of the chain, RECOVERY is given to
      the last element only, and the recorded IDs exceed what was applied by at most the element that
      failed. */
  lemma ReplayOutcome(chain: seq<BackupRecord>, db: DbState, issued: seq<Statement>, recorded: seq<string>, ok: bool)
    requires chain != [] && Replayed(chain, db, issued, recorded, ok)
    ensures db.Online? ==> db.applied == IdsOf(chain)
    ensures ok ==> db.Online?
    ensures forall i | 0 <= i < |issued| ::
              issued[i].backupID == chain[i].id && (issued[i].recovery <==> i == |chain| - 1)
    ensures recorded == Applied(db) || exists failed :: recorded == Applied(db) + [failed]
  {
    assert forall i | 0 <= i < |issued| :: issued[i] == Statements(chain)[i];
    RecordedOrOneMore(IdsOf(chain), db, recorded);
  }

  lemma RecordedOrOneMore(ids: seq<string>, db: DbState, recorded: seq<string>)
    requires |recorded| <= |ids| && recorded == ids[..|recorded|]
    requires || db == AfterReplaying(ids, |recorded|)
             || (recorded != [] && db == AfterReplaying(ids, |recorded| - 1))
             || (|recorded| == 1 && db == Restoring([]))
    ensures recorded == Applied(db) || exists failed :: recorded == Applied(db) + [failed]
  {
    var n := |recorded|;
    AppliedAfter(ids, n);
    if n > 0 {
      AppliedAfter(ids, n - 1);
      OneMore(ids, n - 1);
      assert n == 1 ==> ids[..n] == [] + [ids[0]];
    }
  }

  /** The first element of the chain whose object is not in the bucket; the length of the chain if all
      are there. */
  function FirstMissing(prefix: string, objects: map<string, Bytes>, chain: seq<BackupRecord>): (m: nat)
    ensures m <= |chain| && forall i | 0 <= i < m :: FullKey(prefix, chain[i].fileName) in objects
    ensures m < |chain| ==> FullKey(prefix, chain[m].fileName) !in objects
    ensures m == |chain| <==> ObjectsPresent(prefix, objects, chain)
  {
    if chain == [] || FullKey(prefix, chain[0].fileName) !in objects then
      0
    else
      FirstMissing(prefix, objects, chain[1..]) + 1
  }

  /** How a replay ends when no call fails: before the first element whose object is missing, which is
      recorded all the same. */
  ghost predicate CleanReplay(
    prefix: string, objects: map<string, Bytes>, chain: seq<BackupRecord>, db: DbState, issued: seq<Statement>,
    recorded: seq<string>, ok: bool)
  {
    var ids, m := IdsOf(chain), FirstMissing(prefix, objects, chain);
    && (ok <==> m == |chain|)
    && db == AfterReplaying(ids, m) && issued == Statements(chain)[..m]
    && recorded == if m < |chain| then ids[..m + 1] else ids
  }

  /** The outcome of a replay; `clean` if no call failed. */
  ghost predicate ReplayOf(
    prefix: string, objects: map<string, Bytes>, chain: seq<BackupRecord>, db: DbState, issued: seq<Statement>,
    recorded: seq<string>, ok: bool, clean: bool)
  {
    && Replayed(chain, db, issued, recorded, ok)
    && (ok ==> ObjectsPresent(prefix, objects, chain))
    && (clean ==>
          && CleanReplay(prefix, objects, chain, db, issued, recorded, ok)
          && (recorded == Applied(db) <==> ObjectsPresent(prefix, objects, chain)))
  }

  /** Unless a call fails, the recorded IDs are those applied exactly if every object is in the bucket.
      Otherwise the replay stops, and one more is recorded: the first whose object is missing. */
  lemma RecordedIffPresent(
    prefix: string, objects: map<string, Bytes>, chain: seq<BackupRecord>, db: DbState, issued: seq<Statement>,
    recorded: seq<string>, ok: bool)
    requires chain != [] && CleanReplay(prefix, objects, chain, db, issued, recorded, ok)
    ensures recorded == Applied(db) <==> ObjectsPresent(prefix, objects, chain)
    ensures ok <==> ObjectsPresent(prefix, objects, chain)
    ensures !ObjectsPresent(prefix, objects, chain) ==>
              var m := FirstMissing(prefix, objects, chain);
              recorded == Applied(db) + [chain[m].id] && Applied(db) == IdsOf(chain)[..m] && !db.Online?
  {
    var ids, m := IdsOf(chain), FirstMissing(prefix, objects, chain);
    AppliedAfter(ids, m);
    if m < |chain| {
      OneMore(ids, m);
    }
  }

  lemma AppliedAfter(ids: seq<string>, n: nat)
    requires n <= |ids|
    ensures Applied(AfterReplaying(ids, n)) == ids[..n]
    ensures ids[..|ids|] == ids
  {
  }

  lemma OneMore(ids: seq<string>, n: nat)
    requires n < |ids|
    ensures ids[..n + 1] == ids[..n] + [ids[n]] && ids[..n + 1] != ids[..n]
  {
    assert |ids[..n + 1]| != |ids[..n]|;
  }

  /** The first `i` elements have been applied. */
  ghost predicate Replaying(
    prefix: string, objects: map<string, Bytes>, chain: seq<BackupRecord>, i: nat, db: DbState,
    issued: seq<Statement>, recorded: seq<string>)
  {
    && i <= |chain| && recorded == IdsOf(chain)[..i] && issued == Statements(chain)[..i]
    && db == AfterReplaying(IdsOf(chain), i)
    && forall j | 0 <= j < i :: FullKey(prefix, chain[j].fileName) in objects
  }

  lemma ReplayStarts(prefix: string, objects: map<string, Bytes>, chain: seq<BackupRecord>)
    ensures Replaying(prefix, objects, chain, 0, Before, [], [])
  {
  }

  lemma ReplayingTo(
    prefix: string, objects: map<string, Bytes>, chain: seq<BackupRecord>, i: nat, db: DbState,
    issued: seq<Statement>, recorded: seq<string>)
    requires Replaying(prefix, objects, chain, i, db, issued, recorded)
    ensures db == AfterReplaying(IdsOf(chain), i) && issued == Statements(chain)[..i]
  {
  }

  lemma ReplayContinues(
    prefix: string, objects: map<string, Bytes>, chain: seq<BackupRecord>, i: nat, db: DbState,
    issued: seq<Statement>, recorded: seq<string>, db': DbState, issued': seq<Statement>, recorded': seq<string>)
    requires Replaying(prefix, objects, chain, i, db, issued, recorded) && i < |chain|
    requires db' == AfterReplaying(IdsOf(chain), i + 1) && issued' == Statements(chain)[..i + 1]
    requires recorded' == recorded + [chain[i].id] && FullKey(prefix, chain[i].fileName) in objects
    ensures Replaying(prefix, objects, chain, i + 1, db', issued', recorded')
  {
    OneMore(IdsOf(chain), i);
  }

  lemma FirstMissingIs(prefix: string, objects: map<string, Bytes>, chain: seq<BackupRecord>, i: nat)
    requires i < |chain| && forall j | 0 <= j < i :: FullKey(prefix, chain[j].fileName) in objects
    requires FullKey(prefix, chain[i].fileName) !in objects
    ensures FirstMissing(prefix, objects, chain) == i
  {
  }

  /** The element at `i` could not be applied. */
  lemma ReplayStopped(
    prefix: string, objects: map<string, Bytes>, chain: seq<BackupRecord>, i: nat, db: DbState,
    issued: seq<Statement>, recorded: seq<string>, db': DbState, issued': seq<Statement>, recorded': seq<string>,
    clean: bool)
    requires Replaying(prefix, objects, chain, i, db, issued, recorded) && i < |chain|
    requires recorded' == recorded + [chain[i].id] && (issued' == issued || issued' == Statements(chain)[..i + 1])
    requires db' == db || db' == AfterReplaying(IdsOf(chain), i + 1) || (i == 0 && db' == Restoring([]))
    requires clean ==> db' == db && issued' == issued && FullKey(prefix, chain[i].fileName) !in objects
    ensures ReplayOf(prefix, objects, chain, db', issued', recorded', false, clean)
  {
    OneMore(IdsOf(chain), i);
    if clean {
      FirstMissingIs(prefix, objects, chain, i);
      RecordedIffPresent(prefix, objects, chain, db', issued', recorded', false);
    }
  }

  lemma ReplayDone(
    prefix: string, objects: map<string, Bytes>, chain: seq<BackupRecord>, db: DbState, issued: seq<Statement>,
    recorded: seq<string>)
    requires chain != [] && Replaying(prefix, objects, chain, |chain|, db, issued, recorded)
    ensures ReplayOf(prefix, objects, chain, db, issued, recorded, true, true)
  {
    assert IdsOf(chain)[..|chain|] == IdsOf(chain) && Statements(chain)[..|chain|] == Statements(chain);
    RecordedIffPresent(prefix, objects, chain, db, issued, recorded, true);
  }

  /** A state in which it happens: the only element's object is missing. Nothing is applied, and its
      ID is recorded. */
  lemma MissingObjectRecorded(prefix: string, r: BackupRecord)
    ensures CleanReplay(prefix, map[], [r], Before, [], [r.id], false)
    ensures Applied(Before) == [] != [r.id]
  {
    assert FirstMissing(prefix, map[], [r]) == 0;
  }

  // ---- the audit record ----

  datatype RestoreRecord = RestoreRecord(
    id: string, instanceID: string, instanceName: string, databaseName: string, targetBackupID: string,
    chainBackupIDs: seq<string>, status: BackupStatus, errorMessage: string, startedAt: Time, completedAt: Option<Time>)

  class RestoreRecordRepository {
    var restores: map<string, RestoreRecord>
    /** How many calls have failed. */
    ghost var failures: nat

    constructor ()
      ensures restores == map[] && failures == 0
    {
      restores, failures := map[], 0;
    }

    method Put(rec: RestoreRecord) returns (ok: bool)
      modifies this
      ensures ok ==> rec.id != "" && restores == old(restores)[rec.id := rec] && failures == old(failures)
      ensures !ok ==> restores == old(restores) && (failures > old(failures) || rec.id == "")
      ensures old(failures) <= failures <= old(failures) + 1
    {
      if rec.id == "" {
        return false;
      }
      ok := *;
      if ok {
        restores := restores[rec.id := rec];
      } else {
        failures := failures + 1;
      }
    }
  }

  /** `r` is the audit record of this attempt. */
  predicate AuditOf(
    r: RestoreRecord, restoreID: string, target: Instance, database: string, backupID: string, startedAt: Time)
  {
    && r.id == restoreID && r.instanceID == target.id && r.instanceName == target.name && r.databaseName == database
    && r.targetBackupID == backupID && r.startedAt == startedAt
  }

  /** Its last form. */
  predicate Concluded(r: RestoreRecord, ok: bool, recorded: seq<string>, finishedAt: Time) {
    r.completedAt == Some(finishedAt) && r.chainBackupIDs == recorded && r.status == if ok then Completed else Failed
  }

  /** Its first form. */
  predicate Begun(r: RestoreRecord) {
    r.completedAt == None && r.chainBackupIDs == [] && r.status == Running && r.errorMessage == ""
  }

  class RestoreUseCase {
    const backend: Backend
    const history: RestoreRecordRepository

    constructor (backend: Backend, history: RestoreRecordRepository)
      ensures this.backend == backend && this.history == history
    {
      this.backend, this.history := backend, history;
    }

    /** The chain to apply for `target`. */
    method BuildChain(target: BackupRecord) returns (ok: bool, chain: seq<BackupRecord>)
      requires backend.Valid()
      modifies backend`failures
      ensures ok ==> Chain(backend.records, target, chain)
      ensures !ok ==>
                || backend.failures > old(backend.failures)
                || (!target.IsFull() && target.parentBackupID !in backend.records)
      ensures backend.failures >= old(backend.failures)
    {
      if target.IsFull() {
        return true, [target];
      }
      chain := [];
      var full;
      ok, full := backend.FindByID(target.parentBackupID);
      if !ok {
        return;
      }
      var all;
      ok, all := backend.FindByInstance(target.instanceID);
      if !ok {
        return;
      }
      var logs := SelectLogs(all, full, target);
      var sorted := SortByStart(logs);
      SortedSame(logs, sorted);
      assert target.parentBackupID == full.id;
      forall r ensures r in sorted <==>
          r.id in backend.records && backend.records[r.id] == r && InReplay(r, target) {
        assert r in sorted <==> r in all && InReplay(r, target);
      }
      forall i, j | 0 <= i < j < |sorted| ensures sorted[i].id != sorted[j].id {
        assert sorted[i] in sorted && sorted[j] in sorted;
      }
      chain := [full] + sorted;
      assert chain[1..] == sorted;
      ok := true;
    }

    /** The loop of `buildChain` over the records of the instance. */
    method SelectLogs(
      all: seq<BackupRecord>, full: BackupRecord, target: BackupRecord) returns (logs: seq<BackupRecord>)
      requires target.parentBackupID == full.id
      requires forall i, j | 0 <= i < j < |all| :: all[i].id != all[j].id
      requires forall r | r in all :: r.instanceID == target.instanceID
      ensures Distinct(logs) && forall r :: r in logs <==> r in all && InReplay(r, target)
    {
      logs := [];
      for i := 0 to |all|
        invariant Distinct(logs) && forall r :: r in logs <==> r in all[..i] && InReplay(r, target)
      {
        var r := all[i];
        assert all[..i + 1] == all[..i] + [r];
        assert r !in all[..i];
        if r.parentBackupID == full.id && r.status == Completed && r.startedAt <= target.startedAt {
          logs := logs + [r];
        }
      }
      assert all[..|all|] == all;
    }

    /** Downloads and applies the element at `i`. */
    method ReplayNext(chain: seq<BackupRecord>, i: nat, engine: EngineType, db: TargetDatabase) returns (ok: bool)
      requires i < |chain| && (|chain| > 1 ==> engine == SQLServer)
      requires db.state == AfterReplaying(IdsOf(chain), i) && db.issued == Statements(chain)[..i]
      modifies db, backend`failures
      ensures ok ==>
                && db.state == AfterReplaying(IdsOf(chain), i + 1) && db.issued == Statements(chain)[..i + 1]
                && FullKey(backend.prefix, chain[i].fileName) in backend.objects
                && backend.failures == old(backend.failures) && db.failures == old(db.failures)
      ensures !ok ==>
                && (db.issued == old(db.issued) || db.issued == Statements(chain)[..i + 1])
                && (|| db.state == old(db.state) || db.state == AfterReplaying(IdsOf(chain), i + 1)
                    || (i == 0 && db.state == Restoring([])))
      ensures !ok && backend.failures == old(backend.failures) && db.failures == old(db.failures) ==>
                && db.state == old(db.state) && db.issued == old(db.issued)
                && FullKey(backend.prefix, chain[i].fileName) !in backend.objects
      ensures backend.failures >= old(backend.failures) && db.failures >= old(db.failures)
    {
      ghost var ids := IdsOf(chain);
      assert ids[..i + 1] == ids[..i] + [ids[i]] && (i + 1 == |ids| ==> ids[..i + 1] == ids);
      assert Statements(chain)[..i + 1] == Statements(chain)[..i] + [Statements(chain)[i]];
      var content;
      ok, content := backend.Download(chain[i].fileName);
      if ok {
        var isLast := i == |chain| - 1;
        if i == 0 {
          ok := db.Restore(chain[i].id, !isLast && engine == SQLServer);
        } else {
          ok := db.RestoreLog(chain[i].id, isLast);
        }
      }
    }

    /** The replay loop of `RestoreBackup`. */
    method Replay(chain: seq<BackupRecord>, engine: EngineType, db: TargetDatabase)
      returns (ok: bool, recorded: seq<string>)
      requires chain != [] && (|chain| > 1 ==> engine == SQLServer)
      requires db.state == Before && db.issued == []
      modifies db, backend`failures
      ensures ReplayOf(backend.prefix, backend.objects, chain, db.state, db.issued, recorded, ok,
                       backend.failures == old(backend.failures) && db.failures == old(db.failures))
      ensures backend.failures >= old(backend.failures)
    {
      hide Replaying, ReplayOf;
      recorded, ok := [], true;
      ReplayStarts(backend.prefix, backend.objects, chain);
      for i := 0 to |chain|
        invariant ok && Replaying(backend.prefix, backend.objects, chain, i, db.state, db.issued, recorded)
        invariant backend.failures == old(backend.failures) && db.failures == old(db.failures)
      {
        ghost var state, issued, before := db.state, db.issued, recorded;
        recorded := recorded + [chain[i].id];
        ReplayingTo(backend.prefix, backend.objects, chain, i, state, issued, before);
        ok := ReplayNext(chain, i, engine, db);
        if !ok {
          ReplayStopped(backend.prefix, backend.objects, chain, i, state, issued, before, db.state, db.issued, recorded,
                        backend.failures == old(backend.failures) && db.failures == old(db.failures));
          return;
        }
        ReplayContinues(backend.prefix, backend.objects, chain, i, state, issued, before, db.state, db.issued,
                        recorded);
      }
      ReplayDone(backend.prefix, backend.objects, chain, db.state, db.issued, recorded);
    }

    /** Makes the chain for `rec` and replays it. `noted` is the audit record with the IDs filled in. */
    method ApplyChain(rec: BackupRecord, engine: EngineType, db: TargetDatabase, record: RestoreRecord)
      returns (ok: bool, ghost chain: seq<BackupRecord>, ghost recorded: seq<string>, noted: RestoreRecord)
      requires backend.Valid() && backend.hasFactory && db.state == Before && db.issued == []
      modifies db, backend`failures
      ensures chain == [] ==> !ok && db.state == Before && db.issued == [] && recorded == []
      ensures chain != [] ==>
                && (if engine == SQLServer then Chain(backend.records, rec, chain) else chain == [rec])
                && ReplayOf(backend.prefix, backend.objects, chain, db.state, db.issued, recorded, ok,
                            backend.failures == old(backend.failures) && db.failures == old(db.failures))
      ensures backend.failures >= old(backend.failures)
      ensures backend.failures == old(backend.failures) && backend.clientBuilds
                && (rec.IsFull() || rec.parentBackupID in backend.records) ==>
                chain != []
      ensures chain != [] ==> backend.clientBuilds
      ensures noted == record.(chainBackupIDs := recorded)
    {
      chain, recorded := [], [];
      var links, applied := [rec], [];
      ok := true;
      if engine == SQLServer {
        ok, links := BuildChain(rec);
      }
      if ok {
        ok := backend.NewStorage();
        if ok {
          chain := links;
          ok, applied := Replay(links, engine, db);
          recorded := applied;
        }
      }
      noted := record.(chainBackupIDs := applied);
    }

    /** Restores one backup, with everything it chains from, and leaves an audit record. Whether the
        record can be written is ignored. `restoreID` and the clock are parameters. */
    method RestoreBackup(
      backupID: string, target: Instance, database: string, db: TargetDatabase,
      restoreID: string, startedAt: Time, finishedAt: Time)
      returns (ok: bool, ghost chain: seq<BackupRecord>, ghost recorded: seq<string>, ghost begun: bool)
      requires backend.Valid() && backend.hasFactory && db.state == Before && db.issued == []
      modifies db, history, backend`failures
      ensures backupID !in backend.records ==> !ok
      // a chain was made exactly if it could be, and then replayed
      ensures chain == [] ==> !ok && db.state == Before && db.issued == [] && recorded == []
      ensures chain != [] ==>
                && backupID in backend.records
                && (if target.engine == SQLServer then Chain(backend.records, backend.records[backupID], chain)
                    else chain == [backend.records[backupID]])
                && ReplayOf(backend.prefix, backend.objects, chain, db.state, db.issued, recorded, ok,
                            backend.failures == old(backend.failures) && db.failures == old(db.failures))
      ensures backend.failures >= old(backend.failures)
      ensures backend.failures == old(backend.failures) && backend.Reachable() && backupID in backend.records ==>
                var rec := backend.records[backupID];
                rec.IsFull() || rec.parentBackupID in backend.records ==> chain != []
      ensures chain != [] ==> backend.Reachable()
      // at most the audit record of this attempt is written, and the last form of it tells the outcome
      ensures history.restores == old(history.restores)
              || (&& restoreID in history.restores
                  && history.restores == old(history.restores)[restoreID := history.restores[restoreID]]
                  && AuditOf(history.restores[restoreID], restoreID, target, database, backupID, startedAt)
                  && (|| Begun(history.restores[restoreID])
                      || Concluded(history.restores[restoreID], ok, recorded, finishedAt)))
      // unless it cannot be written, it is there once the attempt has `begun`
      ensures begun && history.failures == old(history.failures) && restoreID != "" ==>
                && restoreID in history.restores
                && AuditOf(history.restores[restoreID], restoreID, target, database, backupID, startedAt)
                && Concluded(history.restores[restoreID], ok, recorded, finishedAt)
      ensures !begun ==> !ok && chain == [] && history.restores == old(history.restores)
      ensures backend.failures == old(backend.failures) ==>
                (begun <==> backupID in backend.records && backend.configured)
      ensures begun ==> backupID in backend.records && backend.configured
    {
      begun := false;
      chain, recorded := [], [];
      var rec;
      ok, rec := backend.FindByID(backupID);
      if !ok {
        return;
      }
      ok := backend.GetS3Config();
      if !ok {
        return;
      }
      ok := backend.Attempt(); // the connection to the target
      if !ok {
        return;
      }
      begun := true;
      var record := RestoreRecord(restoreID, target.id, target.name, database, backupID, [], Running, "", startedAt,
                                  None);
      var _ := history.Put(record);
      ok, chain, recorded, record := ApplyChain(rec, target.engine, db, record);
      record := record.(completedAt := Some(finishedAt), status := if ok then Completed else Failed);
      var _ := history.Put(record);
    }

    /** The selection loop of `RestorePointInTime`. */
    method SelectPointInTime(
      instanceID: string, database: string, time: Time) returns (ok: bool, best: Option<BackupRecord>)
      requires backend.Valid()
      modifies backend`failures
      ensures ok ==> PointInTime(backend.records, instanceID, database, time, best)
      ensures ok ==> backend.failures == old(backend.failures)
      ensures !ok ==> backend.failures > old(backend.failures)
    {
      best := None;
      var all;
      ok, all := backend.FindByInstance(instanceID);
      if !ok {
        return;
      }
      for i := 0 to |all|
        invariant best.None? ==>
                    forall j | 0 <= j < i && all[j].databaseName == database && all[j].status == Completed ::
                      all[j].startedAt > time
        invariant best.Some? ==>
                    && best.value in all && best.value.databaseName == database && best.value.status == Completed
                    && best.value.startedAt <= time
                    && forall j | 0 <= j < i && all[j].databaseName == database && all[j].status == Completed
                         && all[j].startedAt <= time :: all[j].startedAt <= best.value.startedAt
      {
        var r := all[i];
        if r.databaseName == database && r.status == Completed && r.startedAt <= time {
          if best.None? || r.startedAt > best.value.startedAt {
            best := Some(r);
          }
        }
      }
      forall k | k in backend.records && backend.records[k].instanceID == instanceID
        ensures backend.records[k] in all
      {
      }
    }

    /** Restores a database of `inst` in place to the newest backup not after `time`. */
    method RestorePointInTime(
      inst: Instance, database: string, time: Time, db: TargetDatabase,
      restoreID: string, startedAt: Time, finishedAt: Time)
      returns (ok: bool, ghost best: Option<BackupRecord>, ghost chain: seq<BackupRecord>, ghost recorded: seq<string>)
      requires backend.Valid() && backend.hasFactory && Consistent(backend.Now()) && db.state == Before
      requires db.issued == []
      modifies db, history, backend`failures
      ensures AppliesUpTo(backend.Now(), inst, database, time, best, chain)
      ensures if chain == [] then !ok && db.state == Before && db.issued == [] && recorded == []
              else ReplayOf(backend.prefix, backend.objects, chain, db.state, db.issued, recorded, ok,
                            backend.failures == old(backend.failures) && db.failures == old(db.failures))
      // without failures a chain is made and replayed exactly if there is such a backup and S3 is reached
      ensures backend.failures >= old(backend.failures)
      ensures backend.failures == old(backend.failures) ==>
                && PointInTime(backend.records, inst.id, database, time, best)
                && (chain != [] <==> best.Some? && backend.Reachable())
    {
      ghost var a := backend.Now();
      best, chain, recorded := None, [], [];
      var found;
      ok, found := SelectPointInTime(inst.id, database, time);
      if ok && found.Some? {
        best := found;
        PickHasParent(a, inst.id, database, time, found.value);
        hide ReplayOf, PointInTime;
        ghost var begun;
        ok, chain, recorded, begun :=
          RestoreBackup(found.value.id, inst, database, db, restoreID, startedAt, finishedAt);
        ChainForTime(a, inst, database, time, found.value, chain);
      } else {
        ok := false;
      }
    }

    /** The newest completed full of each database but master, among the records of one instance. */
    method LatestFulls(all: seq<BackupRecord>) returns (latest: map<string, BackupRecord>)
      ensures forall db | db in latest :: NewestFull(all, |all|, db, latest[db])
      ensures forall r | r in all && r.CompletedFull() && Folded(r.databaseName) != "master" ::
                r.databaseName in latest
    {
      latest := map[];
      for i := 0 to |all|
        invariant forall db | db in latest :: NewestFull(all, i, db, latest[db])
        invariant forall j | 0 <= j < i && all[j].CompletedFull() && Folded(all[j].databaseName) != "master" ::
                    all[j].databaseName in latest
      {
        var r := all[i];
        MasterIsFolded(r.databaseName);
        if r.IsFull() && r.status == Completed && !IsMaster(r.databaseName) {
          if r.databaseName !in latest || r.startedAt > latest[r.databaseName].startedAt {
            latest := latest[r.databaseName := r];
          }
        }
      }
    }

    /** Maps every database but master to its latest recovery point. */
    method LatestRestorePoints(instanceID: string) returns (ok: bool, points: map<string, string>)
      requires backend.Valid()
      modifies backend`failures
      ensures ok ==> LatestPoints(backend.records, instanceID, points)
      ensures !ok ==> backend.failures > old(backend.failures)
    {
      points := map[];
      var all;
      ok, all := backend.FindByInstance(instanceID);
      if !ok {
        return;
      }
      var latest := LatestFulls(all);
      var byID := IndexByID(all);
      points := NewestPoints(all, byID, latest);
      forall db | db in latest ensures NewestPoint(all, |all|, latest[db], points[db]) {
        assert byID[points[db]] in all;
      }
      PointsFound(backend.records, instanceID, all, latest, points);
    }

    /** The last two loops of `latestRestorePoints`: starts from the fulls and moves on to later logs
        of their chains. */
    method NewestPoints(
      all: seq<BackupRecord>, byID: map<string, BackupRecord>, latest: map<string, BackupRecord>)
      returns (points: map<string, string>)
      requires forall j | 0 <= j < |all| :: all[j].id in byID && byID[all[j].id] == all[j]
      requires forall db | db in latest ::
                 latest[db].databaseName == db && latest[db].id in byID && byID[latest[db].id] == latest[db]
      ensures points.Keys == latest.Keys
      ensures forall db | db in latest ::
                points[db] in byID && NewestOf(all, |all|, latest[db], byID[points[db]])
    {
      points := map db | db in latest :: latest[db].id;
      for i := 0 to |all|
        invariant points.Keys == latest.Keys
        invariant forall db | db in latest :: points[db] in byID && NewestOf(all, i, latest[db], byID[points[db]])
      {
        ghost var was := points;
        points := MoveOn(points, byID, latest, all[i]);
        forall db | db in latest ensures NewestOf(all, i + 1, latest[db], byID[points[db]]) {
          NewestOfStep(all, i, latest[db], byID[was[db]]);
        }
      }
    }

    /** The body of that loop: a completed log of a newest full replaces an older choice. */
    method MoveOn(
      points: map<string, string>, byID: map<string, BackupRecord>, latest: map<string, BackupRecord>, r: BackupRecord)
      returns (moved: map<string, string>)
      requires points.Keys == latest.Keys && r.id in byID && byID[r.id] == r
      requires forall db | db in latest :: latest[db].databaseName == db && points[db] in byID
      ensures moved.Keys == latest.Keys
      ensures forall db | db in latest ::
                moved[db] in byID && byID[moved[db]] == LaterOf(byID[points[db]], r, latest[db])
    {
      moved := points;
      if r.status == Completed && !r.IsFull() && r.databaseName in latest
        && r.parentBackupID == latest[r.databaseName].id
        && r.startedAt > byID[points[r.databaseName]].startedAt {
        moved := moved[r.databaseName := r.id];
      }
    }

    method IndexByID(all: seq<BackupRecord>) returns (byID: map<string, BackupRecord>)
      requires forall i, j | 0 <= i < j < |all| :: all[i].id != all[j].id
      ensures forall j | 0 <= j < |all| :: all[j].id in byID && byID[all[j].id] == all[j]
      ensures forall k | k in byID :: byID[k] in all && byID[k].id == k
    {
      byID := map[];
      for i := 0 to |all|
        invariant forall j | 0 <= j < i :: all[j].id in byID && byID[all[j].id] == all[j]
        invariant forall k | k in byID :: byID[k] in all && byID[k].id == k
      {
        byID := byID[all[i].id := all[i]];
      }
    }
  }

  lemma PickHasParent(a: Snapshot, instanceID: string, database: string, time: Time, best: BackupRecord)
    requires Consistent(a) && PointInTime(a.records, instanceID, database, time, Some(best))
    ensures best.IsFull() || best.parentBackupID in a.records
  {
  }

  /** What is applied for a point in time: a chain that ends with the newest completed backup not
      after `time`, with nothing in it later than `time`. It is the chain of that backup on SQL Server
      and that backup alone elsewhere. */
  ghost predicate AppliesUpTo(
    a: Snapshot, inst: Instance, database: string, time: Time, best: Option<BackupRecord>, chain: seq<BackupRecord>)
  {
    match best
    case None => chain == []
    case Some(b) =>
      && PointInTime(a.records, inst.id, database, time, best)
      && (chain != [] ==>
            && (forall i | 0 <= i < |chain| :: chain[i].startedAt <= time)
            && chain[|chain| - 1] == b
            && if inst.engine == SQLServer then Chain(a.records, b, chain) else chain == [b])
  }

  lemma ChainForTime(
    a: Snapshot, inst: Instance, database: string, time: Time, best: BackupRecord, chain: seq<BackupRecord>)
    requires Consistent(a) && PointInTime(a.records, inst.id, database, time, Some(best))
    requires chain != [] ==> if inst.engine == SQLServer then Chain(a.records, best, chain) else chain == [best]
    ensures AppliesUpTo(a, inst, database, time, Some(best), chain)
  {
    if chain != [] && inst.engine == SQLServer {
      ChainWithinTime(a, inst.id, database, time, best, chain);
      if !best.IsFull() {
        ChainOfLog(a, best, chain);
      }
    }
  }

  /** `f` is the newest completed full of `db` among the first `n` of `all`. */
  ghost predicate NewestFull(all: seq<BackupRecord>, n: nat, db: string, f: BackupRecord)
    requires n <= |all|
  {
    && f in all && f.CompletedFull() && f.databaseName == db && Folded(db) != "master"
    && forall j | 0 <= j < n && all[j].CompletedFull() && all[j].databaseName == db :: all[j].startedAt <= f.startedAt
  }

  predicate ChainedTo(r: BackupRecord, f: BackupRecord) {
    r.CompletedLog() && r.databaseName == f.databaseName && r.parentBackupID == f.id
  }

  /** `id` names the newest of `f` and the logs chained off it among the first `n` of `all`. */
  ghost predicate NewestPoint(all: seq<BackupRecord>, n: nat, f: BackupRecord, id: string)
    requires n <= |all|
  {
    exists p :: p in all && p.id == id && NewestOf(all, n, f, p)
  }

  ghost predicate NewestOf(all: seq<BackupRecord>, n: nat, f: BackupRecord, p: BackupRecord)
    requires n <= |all|
  {
    && (p == f || ChainedTo(p, f))
    && f.startedAt <= p.startedAt
    && forall j | 0 <= j < n && ChainedTo(all[j], f) :: all[j].startedAt <= p.startedAt
  }

  /** The later of the choice `p` and the record `r`, if that belongs to the chain of `f`. */
  function LaterOf(p: BackupRecord, r: BackupRecord, f: BackupRecord): BackupRecord {
    if ChainedTo(r, f) && r.startedAt > p.startedAt then r else p
  }

  lemma NewestOfStep(all: seq<BackupRecord>, n: nat, f: BackupRecord, p: BackupRecord)
    requires n < |all| && NewestOf(all, n, f, p)
    ensures NewestOf(all, n + 1, f, LaterOf(p, all[n], f))
  {
  }

  lemma PointsFound(
    records: map<string, BackupRecord>, instanceID: string, all: seq<BackupRecord>,
    latest: map<string, BackupRecord>, points: map<string, string>)
    requires Keyed(records) && Lists(all, records, (r: BackupRecord) => r.instanceID == instanceID)
    requires forall db | db in latest :: NewestFull(all, |all|, db, latest[db])
    requires forall r | r in all && r.CompletedFull() && Folded(r.databaseName) != "master" ::
                r.databaseName in latest
    requires points.Keys == latest.Keys
    requires forall db | db in latest :: NewestPoint(all, |all|, latest[db], points[db])
    ensures LatestPoints(records, instanceID, points)
  {
    forall db ensures db in points <==> Folded(db) != "master" && HasFull(records, instanceID, db) {
      if k :| k in records && records[k].CompletedFull() && OfDatabase(records[k], instanceID, db) {
        assert records[k] in all;
      }
      if db in points {
        var f := latest[db];
        assert f in all;
        assert records[f.id] == f;
      }
    }
    forall db | db in points ensures LatestPoint(records, instanceID, db, points[db]) {
      PointFound(records, instanceID, all, db, latest[db], points[db]);
    }
  }

  lemma PointFound(
    records: map<string, BackupRecord>, instanceID: string, all: seq<BackupRecord>, db: string, f: BackupRecord,
    id: string)
    requires Keyed(records) && Lists(all, records, (r: BackupRecord) => r.instanceID == instanceID)
    requires NewestFull(all, |all|, db, f) && NewestPoint(all, |all|, f, id)
    ensures LatestPoint(records, instanceID, db, id)
  {
    var p :| p in all && p.id == id && NewestOf(all, |all|, f, p);
    assert f in all && records[f.id] == f && records[id] == p;
    forall k | k in records && records[k].instanceID == instanceID
      ensures exists j :: 0 <= j < |all| && all[j] == records[k]
    {
      assert records[k] in all;
    }
    forall k | InChainOf(records, f, k) ensures records[k].startedAt <= p.startedAt {
      if k != f.id {
        assert ChainedTo(records[k], f);
      }
    }
    assert LatestPointOf(records, instanceID, db, f, id);
  }
}
