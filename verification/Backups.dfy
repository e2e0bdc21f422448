/** What one backup may do to the catalogue and the bucket, and why that keeps the invariant. */
module Backups {
  import opened Entities
  import opened ObjectKeys
  import opened Catalogue

  const NANOS_PER_DAY := 86_400_000_000_000

  datatype Instance = Instance(id: string, name: string, engine: EngineType, enabled: bool, excluded: set<string>)

  /** What the database adapter hands over: nothing, or a key and a stream. `piped` is whether closing the
      pipe succeeds, and `exits` says of each command behind it whether it exits successfully. */
  datatype Dump = NoDump(error: string) | Dump(key: string, content: Bytes, piped: bool, exits: seq<bool>)

  /** Redis dumps in memory, MySQL and MariaDB pipe `mysqldump` into `gzip`. */
  function Commands(engine: EngineType): nat {
    match engine
    case Redis => 0
    case MySQL => 2
    case MariaDB => 2
    case _ => 1
  }

  predicate DumpOf(engine: EngineType, dump: Dump) {
    dump.Dump? && |dump.exits| == Commands(engine)
  }

  /** Whether `Close` of the engine's reader returns no error. SQL Server's waits for the command, and drops
      what it says. */
  predicate Closes(engine: EngineType, dump: Dump)
    requires dump.Dump?
  {
    match engine
    case Redis => true
    case SQLServer => dump.piped
    case _ => dump.piped && false !in dump.exits
  }

  /** Every command behind the dump exited successfully. */
  predicate Exited(dump: Dump)
    requires dump.Dump?
  {
    forall i | 0 <= i < |dump.exits| :: dump.exits[i]
  }

  /** What the environment contributes to one backup: a generated ID, the clock readings, and the
      dump. */
  datatype Job = Job(id: string, startedAt: Time, expiryFrom: Time, finishedAt: Time, dump: Dump)

  function RunningRecord(
    inst: Instance, database: string, kind: BackupType, parent: string, retainDays: int, job: Job): BackupRecord
  {
    BackupRecord(job.id, inst.id, inst.name, database, "", inst.engine, kind, parent, 0, "", Running, "",
                 job.startedAt, None, job.expiryFrom + retainDays * NANOS_PER_DAY, retainDays, 0)
  }

  function CompletedRecord(r: BackupRecord, key: string, size: int, hash: string, now: Time): BackupRecord {
    r.(fileName := key, status := Completed, sizeBytes := size, hashSHA256 := hash,
       completedAt := Some(now), durationMs := Milliseconds(now - r.startedAt))
  }

  /** The objects of `x` are those of `a` except perhaps for the one at `key`. */
  predicate SameElsewhere(a: Snapshot, x: Snapshot, key: string) {
    x.objects - {FullKey(a.prefix, key)} == a.objects - {FullKey(a.prefix, key)}
  }

  /** What the record `r` of a starting backup can become. It is completed, and given its file name,
      only if its stream was closed without error; size and hash are those of the dump. */
  ghost predicate Becomes(digest: Bytes -> string, r: BackupRecord, dump: Dump, s: BackupRecord) {
    match s.status
    case Running =>
      s == r
    case Failed =>
      s.completedAt.Some? && s == WithStatus(r, Failed, s.errorMessage, s.completedAt.value)
    case Completed =>
      && dump.Dump? && Closes(r.engine, dump) && s.completedAt.Some?
      && s == CompletedRecord(r, dump.key, |dump.content|, digest(dump.content), s.completedAt.value)
    case _ =>
      false
  }

  /** What can be found at any point of the backup whose initial record is `r`: nothing yet, or its
      record; completed only once the whole dump is in the bucket. */
  ghost predicate BackupCut(digest: Bytes -> string, a: Snapshot, x: Snapshot, r: BackupRecord, dump: Dump) {
    && x.prefix == a.prefix
    && (if dump.NoDump? then x.objects == a.objects else SameElsewhere(a, x, dump.key))
    && (x.records == a.records || Recorded(digest, a, x, r, dump))
  }

  /** The backup of `r`, begun in `a`, has reached `x` over the trace `t`. */
  ghost predicate BackingUp(
    digest: Bytes -> string, a: Snapshot, x: Snapshot, t: seq<Snapshot>, n: nat, r: BackupRecord, dump: Dump)
  {
    && n <= |t|
    && BackupCut(digest, a, x, r, dump)
    && forall i | n <= i < |t| :: BackupCut(digest, a, t[i], r, dump)
  }

  lemma BackupStarts(digest: Bytes -> string, a: Snapshot, t: seq<Snapshot>, r: BackupRecord, dump: Dump)
    ensures BackingUp(digest, a, a, t, |t|, r, dump)
  {
  }

  /** One more state on the trace. */
  lemma BackupAdvances(
    digest: Bytes -> string, a: Snapshot, b: Snapshot, x: Snapshot, u: seq<Snapshot>, v: seq<Snapshot>, n: nat,
    r: BackupRecord, dump: Dump)
    requires BackingUp(digest, a, b, u, n, r, dump) && BackupCut(digest, a, x, r, dump)
    requires v == u || v == u + [x]
    ensures BackingUp(digest, a, x, v, n, r, dump)
  {
  }

  ghost predicate Recorded(digest: Bytes -> string, a: Snapshot, x: Snapshot, r: BackupRecord, dump: Dump) {
    && r.id in x.records
    && x.records == a.records[r.id := x.records[r.id]]
    && Becomes(digest, r, dump, x.records[r.id])
    && (x.records[r.id].status == Completed ==>
          && FullKey(a.prefix, dump.key) in x.objects
          && x.objects[FullKey(a.prefix, dump.key)] == dump.content)
  }

  /** The newest completed full of a database, by start time; none if there is none. */
  ghost predicate LatestFull(
    records: map<string, BackupRecord>, instanceID: string, database: string, latest: Option<BackupRecord>) {
    match latest
    case None =>
      forall k | k in records && records[k].CompletedFull() ::
        !(records[k].instanceID == instanceID && records[k].databaseName == database)
    case Some(f) =>
      && f.id in records && records[f.id] == f && f.CompletedFull()
      && f.instanceID == instanceID && f.databaseName == database
      && forall k | k in records && records[k].CompletedFull()
           && records[k].instanceID == instanceID && records[k].databaseName == database ::
           records[k].startedAt <= f.startedAt
  }

  /** A full has no parent; a log chains from the newest completed full of its database. */
  ghost predicate ParentChosen(records: map<string, BackupRecord>, r: BackupRecord) {
    if r.IsFull() then
      r.parentBackupID == ""
    else
      && r.parentBackupID in records
      && LatestFull(records, r.instanceID, r.databaseName, Some(records[r.parentBackupID]))
  }

  /** What the environment guarantees about a new backup: a fresh ID, a start after every earlier
      one, and some key. */
  ghost predicate Fresh(a: Snapshot, r: BackupRecord, dump: Dump) {
    && r.id != "" && r.id !in a.records
    && (forall k | k in a.records :: a.records[k].startedAt < r.startedAt)
    && (dump.Dump? ==> dump.key != "")
  }

  /** Its key has the form its adapter gives to slash-free names. */
  ghost predicate Fitting(r: BackupRecord, dump: Dump) {
    dump.Dump? ==> KeyFits(r.engine, r.IsFull(), dump.key)
  }

  /** No completed backup has its key, nor has any record of another chain whose full is still there.
      The key of a backup deleted within the same minute may be used again. */
  ghost predicate KeyUnused(a: Snapshot, r: BackupRecord, dump: Dump) {
    dump.Dump? ==>
      forall k | k in a.records && a.records[k].fileName == dump.key ::
        && a.records[k].status != Completed
        && (InLiveChain(a.records, k) ==> a.records[k].Owner() == r.Owner())
  }

  predicate IsInitial(r: BackupRecord) {
    r.status == Running && r.fileName == ""
  }

  /** The record a backup leaves has the identity, the parent and the start of the initial one. */
  ghost predicate GrownFrom(a: Snapshot, x: Snapshot, r: BackupRecord, dump: Dump, s: BackupRecord) {
    && x.records == a.records[r.id := s]
    && s.id == r.id && s.instanceID == r.instanceID && s.databaseName == r.databaseName && s.engine == r.engine
    && s.backupType == r.backupType && s.parentBackupID == r.parentBackupID && s.startedAt == r.startedAt
    && (if s.status == Completed then dump.Dump? && s.fileName == dump.key
        else s.status in {Running, Failed} && s.fileName == "")
  }

  lemma NewKeyElsewhere(prefix: string, engine: EngineType, full: bool, key: string)
    requires KeyFits(engine, full, key) && FullKey(prefix, "sqlserver/") <= FullKey(prefix, key)
    ensures IsSqlKey(key)
  {
    FullKeyPrefix(prefix, "sqlserver/", key);
    if engine != SQLServer {
      OtherEngineElsewhere(engine, full, key);
      assert false;
    }
  }

  lemma BackupKeepsBucket(digest: Bytes -> string, a: Snapshot, x: Snapshot, r: BackupRecord, dump: Dump)
    requires AdapterBucket(a.prefix, a.objects.Keys) && BackupCut(digest, a, x, r, dump) && Fitting(r, dump)
    ensures AdapterBucket(x.prefix, x.objects.Keys)
  {
    forall o | o in x.objects && FullKey(x.prefix, "sqlserver/") <= o
      ensures exists key :: IsSqlKey(key) && o == FullKey(x.prefix, key)
    {
      if dump.Dump? && o == FullKey(a.prefix, dump.key) {
        NewKeyElsewhere(a.prefix, r.engine, r.IsFull(), dump.key);
      } else {
        if dump.Dump? {
          assert o in x.objects - {FullKey(a.prefix, dump.key)};
        }
        assert o in a.objects;
      }
    }
  }

  lemma GrowthKeepsFiles(a: Snapshot, x: Snapshot, r: BackupRecord, dump: Dump, s: BackupRecord)
    requires Keyed(a.records) && FilesNamed(a.records) && StartsDistinct(a.records)
    requires GrownFrom(a, x, r, dump, s) && Fresh(a, r, dump)
    ensures Keyed(x.records) && FilesNamed(x.records) && StartsDistinct(x.records)
  {
  }

  lemma GrowthKeepsNoOrphan(a: Snapshot, x: Snapshot, r: BackupRecord, dump: Dump, s: BackupRecord)
    requires Keyed(a.records) && NoOrphan(a.records)
    requires GrownFrom(a, x, r, dump, s) && Fresh(a, r, dump) && ParentChosen(a.records, r)
    ensures NoOrphan(x.records)
  {
    forall k | k in x.records
      ensures
        var q := x.records[k];
        if q.IsFull() then q.parentBackupID == ""
        else q.parentBackupID in x.records && Parent(x.records[q.parentBackupID], q)
    {
      if k != r.id && !a.records[k].IsFull() {
        assert Parent(a.records[a.records[k].parentBackupID], a.records[k]);
        assert a.records[k].parentBackupID != r.id;
      }
    }
  }

  /** A new log lies directly after the newest full. */
  lemma NoFullBeforeNewLog(a: Snapshot, x: Snapshot, r: BackupRecord, dump: Dump, s: BackupRecord, f: string)
    requires Keyed(a.records) && NoOrphan(a.records) && GrownFrom(a, x, r, dump, s) && Fresh(a, r, dump)
    requires ParentChosen(a.records, r) && !r.IsFull() && f in x.records && x.records[f].CompletedFull()
    requires x.records[f].instanceID == s.instanceID && x.records[f].databaseName == s.databaseName
    ensures s.parentBackupID in x.records && x.records[f].startedAt <= x.records[s.parentBackupID].startedAt
  {
    assert f != r.id && x.records[f] == a.records[f];
  }

  /** A new full lies after every log. */
  lemma NewFullAfterLogs(a: Snapshot, x: Snapshot, r: BackupRecord, dump: Dump, s: BackupRecord, k: string, f: string)
    requires NoFullBetween(a.records) && NoOrphan(a.records) && GrownFrom(a, x, r, dump, s) && Fresh(a, r, dump)
    requires k in a.records && a.records[k].CompletedLog() && f in x.records && x.records[f].CompletedFull()
    requires x.records[f].instanceID == a.records[k].instanceID
    requires x.records[f].databaseName == a.records[k].databaseName
    ensures a.records[k].parentBackupID in a.records
    ensures !(a.records[a.records[k].parentBackupID].startedAt < x.records[f].startedAt < a.records[k].startedAt)
  {
    if f == r.id {
      assert a.records[k].startedAt < r.startedAt;
    } else {
      assert x.records[f] == a.records[f];
    }
  }

  lemma NothingComesBetween(
    a: Snapshot, x: Snapshot, r: BackupRecord, dump: Dump, s: BackupRecord, k: string, f: string)
    requires Keyed(a.records) && NoOrphan(a.records) && NoFullBetween(a.records)
    requires GrownFrom(a, x, r, dump, s) && Fresh(a, r, dump) && ParentChosen(a.records, r)
    requires k in x.records && f in x.records && x.records[k].CompletedLog() && x.records[f].CompletedFull()
    requires x.records[f].instanceID == x.records[k].instanceID
    requires x.records[f].databaseName == x.records[k].databaseName && x.records[k].parentBackupID in x.records
    ensures !(x.records[x.records[k].parentBackupID].startedAt < x.records[f].startedAt < x.records[k].startedAt)
  {
    hide NoFullBetween;
    if k == r.id {
      NoFullBeforeNewLog(a, x, r, dump, s, f);
    } else {
      NewFullAfterLogs(a, x, r, dump, s, k, f);
    }
  }

  lemma GrowthKeepsNoFullBetween(a: Snapshot, x: Snapshot, r: BackupRecord, dump: Dump, s: BackupRecord)
    requires Keyed(a.records) && NoOrphan(a.records) && NoFullBetween(a.records)
    requires GrownFrom(a, x, r, dump, s) && Fresh(a, r, dump) && ParentChosen(a.records, r)
    ensures NoFullBetween(x.records)
  {
    hide Keyed, NoOrphan, GrownFrom, Fresh, ParentChosen;
    forall k, f | k in x.records && f in x.records
      && x.records[k].CompletedLog() && x.records[f].CompletedFull()
      && x.records[f].instanceID == x.records[k].instanceID
      && x.records[f].databaseName == x.records[k].databaseName
      && x.records[k].parentBackupID in x.records
      ensures !(x.records[x.records[k].parentBackupID].startedAt < x.records[f].startedAt < x.records[k].startedAt)
    {
      NothingComesBetween(a, x, r, dump, s, k, f);
    }
  }

  lemma GrowthKeepsKeys(a: Snapshot, x: Snapshot, r: BackupRecord, dump: Dump, s: BackupRecord)
    requires GrownFrom(a, x, r, dump, s) && Fitting(r, dump)
    requires forall k | k in a.records && a.records[k].fileName != "" ::
               KeyFits(a.records[k].engine, a.records[k].IsFull(), a.records[k].fileName)
    ensures forall k | k in x.records && x.records[k].fileName != "" ::
              KeyFits(x.records[k].engine, x.records[k].IsFull(), x.records[k].fileName)
  {
  }

  /** Nothing old belongs to the chain of a new full. */
  lemma OldChain(a: Snapshot, x: Snapshot, r: BackupRecord, dump: Dump, s: BackupRecord, l: string)
    requires Keyed(a.records) && NoOrphan(a.records) && GrownFrom(a, x, r, dump, s) && Fresh(a, r, dump)
    requires l in a.records && InLiveChain(x.records, l)
    ensures l != r.id && x.records[l] == a.records[l] && InLiveChain(a.records, l)
  {
    assert a.records[l].Owner() in a.records;
  }

  lemma GrowthKeepsKeysApart(a: Snapshot, x: Snapshot, r: BackupRecord, dump: Dump, s: BackupRecord)
    requires Keyed(a.records) && NoOrphan(a.records) && KeysApart(a.records)
    requires GrownFrom(a, x, r, dump, s) && Fresh(a, r, dump) && KeyUnused(a, r, dump)
    ensures KeysApart(x.records)
  {
    forall k, l | k in x.records && l in x.records && x.records[k].status == Completed && InLiveChain(x.records, l)
      && x.records[k].fileName != "" && x.records[l].fileName == x.records[k].fileName
      ensures x.records[l].Owner() == x.records[k].Owner()
    {
      if l != r.id {
        OldChain(a, x, r, dump, s, l);
      }
    }
  }

  /** A backup, cut anywhere, keeps the invariant. */
  lemma BackupKeepsConsistent(digest: Bytes -> string, a: Snapshot, x: Snapshot, r: BackupRecord, dump: Dump)
    requires Consistent(a) && IsInitial(r) && BackupCut(digest, a, x, r, dump)
    requires Fresh(a, r, dump) && ParentChosen(a.records, r)
    ensures Consistent(x)
  {
    if x.records != a.records {
      var s := x.records[r.id];
      assert GrownFrom(a, x, r, dump, s);
      GrowthKeepsFiles(a, x, r, dump, s);
      GrowthKeepsNoOrphan(a, x, r, dump, s);
    }
  }

  /** Started after every other backup, it comes between no log and its parent. */
  lemma BackupKeepsNoFullBetween(digest: Bytes -> string, a: Snapshot, x: Snapshot, r: BackupRecord, dump: Dump)
    requires Keyed(a.records) && NoOrphan(a.records) && NoFullBetween(a.records)
    requires IsInitial(r) && BackupCut(digest, a, x, r, dump) && Fresh(a, r, dump) && ParentChosen(a.records, r)
    ensures NoFullBetween(x.records)
  {
    if x.records != a.records {
      assert GrownFrom(a, x, r, dump, x.records[r.id]);
      GrowthKeepsNoFullBetween(a, x, r, dump, x.records[r.id]);
    }
  }

  /** With slash-free names keys stay as the adapters form them. */
  lemma BackupKeepsKeysProduced(digest: Bytes -> string, a: Snapshot, x: Snapshot, r: BackupRecord, dump: Dump)
    requires KeysProduced(a) && IsInitial(r) && BackupCut(digest, a, x, r, dump) && Fitting(r, dump)
    ensures KeysProduced(x)
  {
    BackupKeepsBucket(digest, a, x, r, dump);
    if x.records != a.records {
      assert GrownFrom(a, x, r, dump, x.records[r.id]);
      GrowthKeepsKeys(a, x, r, dump, x.records[r.id]);
    }
  }

  /** Under a key that is not in use it keeps keys apart. */
  lemma BackupKeepsKeysApart(digest: Bytes -> string, a: Snapshot, x: Snapshot, r: BackupRecord, dump: Dump)
    requires Keyed(a.records) && NoOrphan(a.records) && KeysApart(a.records)
    requires IsInitial(r) && BackupCut(digest, a, x, r, dump) && Fresh(a, r, dump) && KeyUnused(a, r, dump)
    ensures KeysApart(x.records)
  {
    if x.records != a.records {
      assert GrownFrom(a, x, r, dump, x.records[r.id]);
      GrowthKeepsKeysApart(a, x, r, dump, x.records[r.id]);
    }
  }

  lemma ElsewhereUnchanged(a: Snapshot, x: Snapshot, key: string, o: string)
    requires SameElsewhere(a, x, key) && o != FullKey(a.prefix, key)
    ensures o in x.objects <==> o in a.objects
    ensures o in a.objects ==> x.objects[o] == a.objects[o]
  {
    assert o in x.objects <==> o in x.objects - {FullKey(a.prefix, key)};
    assert o in a.objects <==> o in a.objects - {FullKey(a.prefix, key)};
    if o in a.objects {
      assert (a.objects - {FullKey(a.prefix, key)})[o] == (x.objects - {FullKey(a.prefix, key)})[o];
    }
  }

  /** And the sizes and hashes of completed backups true. */
  lemma BackupKeepsContents(digest: Bytes -> string, a: Snapshot, x: Snapshot, r: BackupRecord, dump: Dump)
    requires ContentsMatch(digest, a) && Keyed(a.records) && IsInitial(r)
    requires BackupCut(digest, a, x, r, dump) && r.id !in a.records && KeyUnused(a, r, dump)
    ensures ContentsMatch(digest, x)
  {
    forall k | k in x.records && x.records[k].status == Completed && Present(x, x.records[k])
      ensures
        var content := x.objects[FullKey(x.prefix, x.records[k].fileName)];
        x.records[k].sizeBytes == |content| && x.records[k].hashSHA256 == digest(content)
    {
      if k in a.records {
        assert x.records[k] == a.records[k];
        if dump.Dump? {
          FullKeyInjective(a.prefix, a.records[k].fileName, dump.key);
          ElsewhereUnchanged(a, x, dump.key, FullKey(a.prefix, a.records[k].fileName));
        }
        assert Present(a, a.records[k]);
      }
    }
  }

  // ---- what a completed record says about the dump ----

  /** On SQL Server it may have been cut short: whatever the `content` that came before the command failed,
      the backup is completed with it. */
  lemma SqlServerCompletesFailedDump(
    digest: Bytes -> string, a: Snapshot, r: BackupRecord, key: string, content: Bytes, now: Time)
    returns (x: Snapshot, dump: Dump)
    requires IsInitial(r) && r.engine == SQLServer && r.id !in a.records
    ensures BackupCut(digest, a, x, r, dump) && DumpOf(r.engine, dump) && !Exited(dump)
    ensures dump.key == key && dump.content == content
    ensures x.records == a.records[r.id := CompletedRecord(r, key, |content|, digest(content), now)]
  {
    dump := Dump(key, content, true, [false]);
    var o := FullKey(a.prefix, key);
    x := a.(records := a.records[r.id := CompletedRecord(r, key, |content|, digest(content), now)],
            objects := a.objects[o := content]);
    assert x.objects - {o} == a.objects - {o};
    assert !dump.exits[0];
  }

  /** That every completed backup was dumped by commands that all exited successfully holds exactly of
      the other engines. */
  lemma CompletedMeansExitedUnlessSqlServer(digest: Bytes -> string, a: Snapshot, r: BackupRecord)
    requires IsInitial(r) && r.id !in a.records
    ensures (forall x, dump | DumpOf(r.engine, dump) && BackupCut(digest, a, x, r, dump) && r.id in x.records
                       && x.records[r.id].status == Completed :: Exited(dump))
        <==> r.engine != SQLServer
  {
    if r.engine == SQLServer {
      var x, dump := SqlServerCompletesFailedDump(digest, a, r, "", [], ZERO_TIME);
      assert x.records[r.id].status == Completed;
    }
  }

  // ---- one backup that was asked for ----

  /** What is to be backed up, and how. */
  datatype Order = Order(inst: Instance, database: string, kind: BackupType, retainDays: int, job: Job)

  /** `r` is the record of that backup, whatever has become of it. */
  predicate MadeFor(o: Order, r: BackupRecord) {
    && r.id == o.job.id && r.startedAt == o.job.startedAt
    && r.instanceID == o.inst.id && r.instanceName == o.inst.name && r.engine == o.inst.engine
    && r.databaseName == o.database && r.backupType == o.kind
    && r.retainDays == o.retainDays && r.expiresAt == o.job.expiryFrom + o.retainDays * 86_400_000_000_000
    && (r.fileName == "" || (o.job.dump.Dump? && r.fileName == o.job.dump.key))
    && (r.status != Completed ==> r.fileName == "" && r.sizeBytes == 0 && r.hashSHA256 == "")
    && (r.status == Running ==> r.completedAt == None && r.durationMs == 0 && r.errorMessage == "")
  }

  /** How it ends when no call fails: completed exactly if there is a dump whose stream was closed without
      error, failed otherwise. */
  ghost predicate BackedUp(digest: Bytes -> string, o: Order, x: Snapshot) {
    && o.job.id in x.records
    && var r := x.records[o.job.id];
    && MadeFor(o, r) && r.completedAt == Some(o.job.finishedAt)
    && (o.job.startedAt <= o.job.finishedAt ==> r.durationMs == (o.job.finishedAt - o.job.startedAt) / 1_000_000)
    && if o.job.dump.Dump? && Closes(o.inst.engine, o.job.dump) then
         && r.status == Completed && r.fileName == o.job.dump.key
         && r.sizeBytes == |o.job.dump.content| && r.hashSHA256 == digest(o.job.dump.content)
         && r.errorMessage == ""
       else
         && r.status == Failed
         && (o.job.dump.NoDump? ==> r.errorMessage == o.job.dump.error)
  }

  /** And what is then under its key: the dump, or nothing. */
  ghost predicate Stored(o: Order, x: Snapshot) {
    o.job.dump.Dump? ==>
      var key := FullKey(x.prefix, o.job.dump.key);
      if Closes(o.inst.engine, o.job.dump) then
        key in x.objects && x.objects[key] == o.job.dump.content
      else
        key !in x.objects
  }

  function RunningFor(o: Order, parent: string): BackupRecord {
    RunningRecord(o.inst, o.database, o.kind, parent, o.retainDays, o.job)
  }

  lemma MadeStays(digest: Bytes -> string, o: Order, parent: string, s: BackupRecord)
    requires Becomes(digest, RunningFor(o, parent), o.job.dump, s)
    ensures MadeFor(o, s) && s.parentBackupID == parent
  {
  }

  /** What `BackedUp` asks for is what completing or failing the record leaves. */
  lemma EndsBackedUp(digest: Bytes -> string, o: Order, parent: string, x: Snapshot)
    requires o.job.id in x.records
    requires var r, s, dump := RunningFor(o, parent), x.records[o.job.id], o.job.dump;
             if dump.Dump? && Closes(o.inst.engine, dump) then
               s == CompletedRecord(r, dump.key, |dump.content|, digest(dump.content), o.job.finishedAt)
             else
               s == WithStatus(r, Failed, if dump.NoDump? then dump.error else s.errorMessage, o.job.finishedAt)
    ensures BackedUp(digest, o, x)
  {
  }

  // ---- the databases of one instance ----

  /** One run: what is asked for, and what the environment contributes for each database. */
  datatype Batch = Batch(inst: Instance, databases: seq<string>, kind: BackupType, retainDays: int, jobs: seq<Job>)
  {
    predicate Whole() {
      |jobs| == |databases|
    }

    function Nth(j: nat): Order
      requires Whole() && j < |jobs|
    {
      Order(inst, databases[j], kind, retainDays, jobs[j])
    }
  }

  /** What the environment guarantees about the backups of one run: each is fresh, and they are
      distinct and in increasing time among themselves. */
  ghost predicate JobsFresh(a: Snapshot, jobs: seq<Job>) {
    && (forall i, k | 0 <= i < |jobs| && k in a.records ::
          a.records[k].startedAt < jobs[i].startedAt && k != jobs[i].id)
    && (forall i | 0 <= i < |jobs| :: jobs[i].id != "" && (jobs[i].dump.Dump? ==> jobs[i].dump.key != ""))
    && (forall i, j | 0 <= i < j < |jobs| :: jobs[i].id != jobs[j].id && jobs[i].startedAt < jobs[j].startedAt)
  }

  /** Their keys have the form the adapter gives to slash-free names. */
  ghost predicate JobKeysFit(batch: Batch) {
    forall i | 0 <= i < |batch.jobs| && batch.jobs[i].dump.Dump? ::
      KeyFits(batch.inst.engine, batch.kind != Log, batch.jobs[i].dump.key)
  }

  /** Their keys are neither those of completed backups or live chains nor the same. */
  ghost predicate JobKeysUnused(a: Snapshot, jobs: seq<Job>) {
    && (forall i, k | 0 <= i < |jobs| && jobs[i].dump.Dump? && k in a.records
                  && a.records[k].fileName == jobs[i].dump.key ::
          a.records[k].status != Completed && !InLiveChain(a.records, k))
    && (forall i, j | 0 <= i < j < |jobs| && jobs[i].dump.Dump? && jobs[j].dump.Dump? ::
          jobs[i].dump.key != jobs[j].dump.key)
  }

  /** What is known of the keys of a run: that none is in use, and that they have the adapter's form. */
  datatype KeyFacts = KeyFacts(unused: bool, fitting: bool)

  ghost function KeysOfRun(digest: Bytes -> string, a: Snapshot, batch: Batch): KeyFacts {
    KeyFacts(KeysApart(a.records) && ContentsMatch(digest, a) && JobKeysUnused(a, batch.jobs),
             KeysProduced(a) && JobKeysFit(batch))
  }

  /** What can be found at any point of a run, the first `n` databases having been begun with: everything
      that was there, and backups as asked for of databases that are not excluded, each log with the newest
      full of its database as parent. With unused keys, keys stay apart and sizes and hashes true. */
  ghost predicate RunCut(
    digest: Bytes -> string, a: Snapshot, x: Snapshot, batch: Batch, n: nat, keys: KeyFacts)
    requires batch.Whole() && n <= |batch.jobs|
  {
    && Consistent(x) && x.prefix == a.prefix && RunRecords(a, x, batch, n)
    && (NoFullBetween(a.records) ==> NoFullBetween(x.records))
    && (keys.unused ==> KeysApart(x.records) && ContentsMatch(digest, x))
    && (keys.fitting ==> KeysProduced(x))
  }

  ghost predicate RunRecords(a: Snapshot, x: Snapshot, batch: Batch, n: nat)
    requires batch.Whole() && n <= |batch.jobs|
  {
    && RecordsKept(a, x)
    && forall k | k in x.records && k !in a.records :: exists j :: 0 <= j < n && OfRun(a, x.records[k], k, batch, j)
  }

  ghost predicate RecordsKept(a: Snapshot, x: Snapshot) {
    forall k | k in a.records :: k in x.records && x.records[k] == a.records[k]
  }

  ghost predicate OfRun(a: Snapshot, r: BackupRecord, k: string, batch: Batch, j: nat)
    requires batch.Whole() && j < |batch.jobs|
  {
    r.id == k && MadeFor(batch.Nth(j), r) && batch.databases[j] !in batch.inst.excluded && ParentChosen(a.records, r)
  }

  /** The backups of a run are all of one kind, so the newest full is the same throughout. */
  lemma ParentChosenEarlier(a: Snapshot, b: Snapshot, r: BackupRecord)
    requires RecordsKept(a, b)
    requires forall k | k in b.records && k !in a.records :: b.records[k].backupType == r.backupType
    requires ParentChosen(b.records, r)
    ensures ParentChosen(a.records, r)
  {
  }

  lemma NextJobFresh(a: Snapshot, b: Snapshot, batch: Batch, n: nat, r: BackupRecord)
    requires batch.Whole() && n < |batch.jobs| && JobsFresh(a, batch.jobs) && RunRecords(a, b, batch, n)
    requires r.id == batch.jobs[n].id && r.startedAt == batch.jobs[n].startedAt
    ensures Fresh(b, r, batch.jobs[n].dump)
  {
    forall k | k in b.records ensures b.records[k].startedAt < r.startedAt && k != r.id {
      if k !in a.records {
        var i :| 0 <= i < n && OfRun(a, b.records[k], k, batch, i);
      }
    }
  }

  lemma NextJobUnused(a: Snapshot, b: Snapshot, batch: Batch, n: nat, r: BackupRecord)
    requires Keyed(a.records) && NoOrphan(a.records) && batch.Whole() && n < |batch.jobs|
    requires JobsFresh(a, batch.jobs) && JobKeysUnused(a, batch.jobs) && RunRecords(a, b, batch, n)
    ensures KeyUnused(b, r, batch.jobs[n].dump)
  {
    var dump := batch.jobs[n].dump;
    if dump.Dump? {
      forall k | k in b.records && b.records[k].fileName == dump.key
        ensures b.records[k].status != Completed && !InLiveChain(b.records, k)
      {
        NewKeysDiffer(a, b, batch, n, k);
        OldChainStays(a, b, k);
      }
    }
  }

  lemma NewKeysDiffer(a: Snapshot, b: Snapshot, batch: Batch, n: nat, k: string)
    requires batch.Whole() && n < |batch.jobs| && batch.jobs[n].dump.Dump? && batch.jobs[n].dump.key != ""
    requires JobKeysUnused(a, batch.jobs) && RunRecords(a, b, batch, n)
    requires k in b.records && b.records[k].fileName == batch.jobs[n].dump.key
    ensures k in a.records
  {
  }

  lemma OldChainStays(a: Snapshot, b: Snapshot, k: string)
    requires Keyed(a.records) && NoOrphan(a.records) && k in a.records && RecordsKept(a, b)
    ensures InLiveChain(b.records, k) <==> InLiveChain(a.records, k)
  {
    assert a.records[k].Owner() in a.records;
  }

  /** A backup adds its record and changes no other. */
  lemma JobFrame(digest: Bytes -> string, b: Snapshot, x: Snapshot, o: Order, parent: string)
    requires BackupCut(digest, b, x, RunningFor(o, parent), o.job.dump) && o.job.id !in b.records
    ensures RecordsKept(b, x)
    ensures forall k | k in x.records && k !in b.records ::
              k == o.job.id && MadeFor(o, x.records[k]) && x.records[k].parentBackupID == parent
  {
    if x.records != b.records {
      MadeStays(digest, o, parent, x.records[o.job.id]);
    }
  }

  lemma JobRecords(
    digest: Bytes -> string, a: Snapshot, b: Snapshot, x: Snapshot, batch: Batch, n: nat, parent: string)
    requires batch.Whole() && n < |batch.jobs| && RunRecords(a, b, batch, n)
    requires BackupCut(digest, b, x, RunningFor(batch.Nth(n), parent), batch.jobs[n].dump)
    requires batch.jobs[n].id !in b.records && ParentChosen(b.records, RunningFor(batch.Nth(n), parent))
    requires batch.databases[n] !in batch.inst.excluded
    ensures RunRecords(a, x, batch, n + 1)
  {
    var o := batch.Nth(n);
    JobFrame(digest, b, x, o, parent);
    forall k | k in b.records && k !in a.records ensures b.records[k].backupType == batch.kind {
      var j :| 0 <= j < n && OfRun(a, b.records[k], k, batch, j);
    }
    ParentChosenEarlier(a, b, RunningFor(o, parent));
    forall k | k in x.records && k !in a.records
      ensures exists j :: 0 <= j < n + 1 && OfRun(a, x.records[k], k, batch, j)
    {
      if k in b.records {
        var j :| 0 <= j < n && OfRun(a, b.records[k], k, batch, j);
        assert OfRun(a, x.records[k], k, batch, j);
      } else {
        SameParent(a.records, RunningFor(o, parent), x.records[k]);
        assert OfRun(a, x.records[k], k, batch, n);
      }
    }
  }

  lemma SameParent(records: map<string, BackupRecord>, r: BackupRecord, s: BackupRecord)
    requires ParentChosen(records, r) && s.parentBackupID == r.parentBackupID && s.backupType == r.backupType
    requires s.instanceID == r.instanceID && s.databaseName == r.databaseName
    ensures ParentChosen(records, s)
  {
  }

  lemma JobCut(
    digest: Bytes -> string, a: Snapshot, b: Snapshot, x: Snapshot, batch: Batch, n: nat, parent: string,
    keys: KeyFacts)
    requires batch.Whole() && n < |batch.jobs| && RunCut(digest, a, b, batch, n, keys)
    requires batch.databases[n] !in batch.inst.excluded
    requires
      var r, dump := RunningFor(batch.Nth(n), parent), batch.jobs[n].dump;
      && BackupCut(digest, b, x, r, dump) && Fresh(b, r, dump) && ParentChosen(b.records, r)
      && (keys.unused ==> KeyUnused(b, r, dump)) && (keys.fitting ==> Fitting(r, dump))
    ensures RunCut(digest, a, x, batch, n + 1, keys)
  {
    hide Consistent, RunRecords, NoFullBetween, KeysApart, ContentsMatch, KeysProduced, BackupCut, Fresh, ParentChosen;
    hide KeyUnused, Fitting;
    var r, dump := RunningFor(batch.Nth(n), parent), batch.jobs[n].dump;
    JobNew(digest, b, x, r, dump);
    BackupKeepsConsistent(digest, b, x, r, dump);
    JobRecords(digest, a, b, x, batch, n, parent);
    if NoFullBetween(b.records) {
      BackupKeepsNoFullBetween(digest, b, x, r, dump);
    }
    if keys.unused {
      BackupKeepsKeysApart(digest, b, x, r, dump);
      BackupKeepsContents(digest, b, x, r, dump);
    }
    if keys.fitting {
      BackupKeepsKeysProduced(digest, b, x, r, dump);
    }
  }

  lemma JobNew(digest: Bytes -> string, b: Snapshot, x: Snapshot, r: BackupRecord, dump: Dump)
    requires Consistent(b) && BackupCut(digest, b, x, r, dump) && Fresh(b, r, dump)
    ensures r.id !in b.records && x.prefix == b.prefix && Keyed(b.records) && NoOrphan(b.records)
  {
  }

  /** Beginning with one more database changes nothing yet. */
  lemma RunCutLater(digest: Bytes -> string, a: Snapshot, x: Snapshot, batch: Batch, n: nat, keys: KeyFacts)
    requires batch.Whole() && n < |batch.jobs| && RunCut(digest, a, x, batch, n, keys)
    ensures RunCut(digest, a, x, batch, n + 1, keys)
  {
  }
}
