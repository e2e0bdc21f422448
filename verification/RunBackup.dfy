/** Running backups (application/usecases/run_backup.go). */
module RunBackup {
  import opened Entities
  import opened ObjectKeys
  import opened Catalogue
  import opened Backups
  import opened Recovery
  import opened Streams
  import opened World

  lemma FullStays(a: Snapshot, b: Snapshot, instanceID: string, database: string)
    requires forall k | k in a.records :: k in b.records && b.records[k] == a.records[k]
    ensures HasFull(a.records, instanceID, database) ==> HasFull(b.records, instanceID, database)
  {
    if k :| k in a.records && a.records[k].CompletedFull() && OfDatabase(a.records[k], instanceID, database) {
      assert b.records[k].CompletedFull() && OfDatabase(b.records[k], instanceID, database);
    }
  }

  /** A database is backed up unless it is excluded, or a log has no full to chain from. */
  ghost predicate Eligible(a: Snapshot, batch: Batch, j: nat)
    requires batch.Whole() && j < |batch.jobs|
  {
    && batch.databases[j] !in batch.inst.excluded
    && (batch.kind == Full || HasFull(a.records, batch.inst.id, batch.databases[j]))
  }

  /** The first `n` databases have been dealt with: those that are to be backed up have been, except for
      `stuck`, and of the others there is no record. */
  ghost predicate AllTried(
    digest: Bytes -> string, a: Snapshot, x: Snapshot, batch: Batch, n: nat, stuck: set<nat>)
    requires batch.Whole() && n <= |batch.jobs|
  {
    forall j | 0 <= j < n ::
      if !Eligible(a, batch, j) then
        batch.jobs[j].id !in x.records
      else
        j in stuck || (BackedUp(digest, batch.Nth(j), x) && (JobKeysUnused(a, batch.jobs) ==> Stored(batch.Nth(j), x)))
  }

  /** From `b` to `x` at most the record and the object of the job at `n` have come. */
  ghost predicate OnlyJob(b: Snapshot, x: Snapshot, job: Job) {
    && x.prefix == b.prefix && RecordsKept(b, x)
    && (forall k | k in x.records && k !in b.records :: k == job.id)
    && if job.dump.Dump? then SameElsewhere(b, x, job.dump.key) else x.objects == b.objects
  }

  lemma BackedUpStays(digest: Bytes -> string, b: Snapshot, x: Snapshot, job: Job, o: Order)
    requires OnlyJob(b, x, job) && BackedUp(digest, o, b)
    ensures BackedUp(digest, o, x)
  {
  }

  lemma StoredStays(b: Snapshot, x: Snapshot, job: Job, o: Order)
    requires OnlyJob(b, x, job) && Stored(o, b)
    requires job.dump.Dump? && o.job.dump.Dump? ==> job.dump.key != o.job.dump.key
    ensures Stored(o, x)
  {
    if job.dump.Dump? && o.job.dump.Dump? {
      FullKeyInjective(b.prefix, job.dump.key, o.job.dump.key);
      ElsewhereUnchanged(b, x, job.dump.key, FullKey(b.prefix, o.job.dump.key));
    }
  }

  lemma OneMoreTried(
    digest: Bytes -> string, a: Snapshot, b: Snapshot, x: Snapshot, batch: Batch, n: nat, stuck: set<nat>,
    late: set<nat>)
    requires batch.Whole() && n < |batch.jobs| && JobsFresh(a, batch.jobs)
    requires AllTried(digest, a, b, batch, n, stuck) && OnlyJob(b, x, batch.jobs[n]) && stuck <= late
    requires if !Eligible(a, batch, n) then
               batch.jobs[n].id !in x.records
             else
               n in late || (BackedUp(digest, batch.Nth(n), x) && Stored(batch.Nth(n), x))
    ensures AllTried(digest, a, x, batch, n + 1, late)
  {
    hide OnlyJob, BackedUp, Stored, Eligible;
    forall j | 0 <= j < n
      ensures !Eligible(a, batch, j) ==> batch.jobs[j].id !in x.records
      ensures Eligible(a, batch, j) && j !in stuck ==>
                && BackedUp(digest, batch.Nth(j), x)
                && (JobKeysUnused(a, batch.jobs) ==> Stored(batch.Nth(j), x))
    {
      if !Eligible(a, batch, j) {
        NoOtherRecord(b, x, batch.jobs[n], batch.jobs[j].id);
      } else if j !in stuck {
        BackedUpStays(digest, b, x, batch.jobs[n], batch.Nth(j));
        if JobKeysUnused(a, batch.jobs) {
          StoredStays(b, x, batch.jobs[n], batch.Nth(j));
        }
      }
    }
  }

  lemma NoOtherRecord(b: Snapshot, x: Snapshot, job: Job, k: string)
    requires OnlyJob(b, x, job) && k !in b.records && k != job.id
    ensures k !in x.records
  {
  }

  lemma NothingDone(b: Snapshot, job: Job)
    ensures OnlyJob(b, b, job)
  {
  }

  lemma RunStarts(digest: Bytes -> string, a: Snapshot, batch: Batch, keys: KeyFacts)
    requires Consistent(a) && batch.Whole() && keys == KeysOfRun(digest, a, batch)
    ensures RunCut(digest, a, a, batch, 0, keys) && AllTried(digest, a, a, batch, 0, {})
  {
  }

  /** A run, the first `i` databases of which have been dealt with, has reached `x` over the trace `t`. */
  ghost predicate RunningTo(
    digest: Bytes -> string, a: Snapshot, x: Snapshot, t: seq<Snapshot>, n: nat, batch: Batch, i: nat, keys: KeyFacts)
  {
    && n <= |t| && batch.Whole() && i <= |batch.jobs|
    && RunCut(digest, a, x, batch, i, keys)
    && forall j | n <= j < |t| :: RunCut(digest, a, t[j], batch, i, keys)
  }

  lemma RunPasses(
    digest: Bytes -> string, a: Snapshot, x: Snapshot, t: seq<Snapshot>, n: nat, batch: Batch, i: nat, keys: KeyFacts)
    requires RunningTo(digest, a, x, t, n, batch, i, keys) && i < |batch.jobs|
    ensures RunningTo(digest, a, x, t, n, batch, i + 1, keys)
  {
    hide RunCut;
    RunCutLater(digest, a, x, batch, i, keys);
    forall j | n <= j < |t| ensures RunCut(digest, a, t[j], batch, i + 1, keys) {
      RunCutLater(digest, a, t[j], batch, i, keys);
    }
  }

  /** The backups of a run being of one kind, a log run adds no full. */
  lemma SameFulls(a: Snapshot, x: Snapshot, batch: Batch, n: nat, database: string)
    requires batch.Whole() && n <= |batch.jobs| && RunRecords(a, x, batch, n) && batch.kind == Log
    ensures HasFull(a.records, batch.inst.id, database) <==> HasFull(x.records, batch.inst.id, database)
  {
    FullStays(a, x, batch.inst.id, database);
    forall k | k in x.records && x.records[k].CompletedFull() ensures k in a.records {
      if k !in a.records {
        NewIsLog(a, x, batch, n, k);
      }
    }
  }

  lemma NewIsLog(a: Snapshot, x: Snapshot, batch: Batch, n: nat, k: string)
    requires batch.Whole() && n <= |batch.jobs| && RunRecords(a, x, batch, n) && batch.kind == Log
    requires k in x.records && k !in a.records
    ensures !x.records[k].IsFull()
  {
    var j :| 0 <= j < n && OfRun(a, x.records[k], k, batch, j);
  }

  lemma EligibleNow(
    digest: Bytes -> string, a: Snapshot, x: Snapshot, t: seq<Snapshot>, n: nat, batch: Batch, i: nat, keys: KeyFacts)
    requires RunningTo(digest, a, x, t, n, batch, i, keys) && i < |batch.jobs| && JobsFresh(a, batch.jobs)
    ensures batch.kind == Log ==> (Eligible(a, batch, i) <==> Eligible(x, batch, i))
    ensures batch.jobs[i].id !in x.records && batch.jobs[i].id != ""
  {
    hide RunRecords, JobsFresh;
    if batch.kind == Log {
      SameFulls(a, x, batch, i, batch.databases[i]);
    }
    NotYet(a, x, batch, i);
  }

  lemma NotYet(a: Snapshot, x: Snapshot, batch: Batch, i: nat)
    requires batch.Whole() && i < |batch.jobs| && RunRecords(a, x, batch, i) && JobsFresh(a, batch.jobs)
    ensures batch.jobs[i].id !in x.records && batch.jobs[i].id != ""
  {
    forall k | k in x.records ensures k != batch.jobs[i].id {
      if k !in a.records {
        var j :| 0 <= j < i && OfRun(a, x.records[k], k, batch, j);
      }
    }
  }

  lemma RunContinues(
    digest: Bytes -> string, a: Snapshot, b: Snapshot, x: Snapshot, u: seq<Snapshot>, v: seq<Snapshot>, n: nat,
    batch: Batch, i: nat, parent: string, keys: KeyFacts)
    requires Consistent(a) && JobsFresh(a, batch.jobs) && keys == KeysOfRun(digest, a, batch)
    requires RunningTo(digest, a, b, u, n, batch, i, keys) && i < |batch.jobs|
    requires batch.databases[i] !in batch.inst.excluded && u <= v
    requires ParentChosen(b.records, RunningFor(batch.Nth(i), parent))
    requires BackingUp(digest, b, x, v, |u|, RunningFor(batch.Nth(i), parent), batch.jobs[i].dump)
    ensures RunningTo(digest, a, x, v, n, batch, i + 1, keys)
  {
    hide BackupCut, ParentChosen, KeyUnused, Fresh, JobsFresh, JobKeysUnused, NoFullBetween, KeysApart, ContentsMatch;
    var r, dump := RunningFor(batch.Nth(i), parent), batch.jobs[i].dump;
    NextJobFresh(a, b, batch, i, r);
    if keys.unused {
      NextJobUnused(a, b, batch, i, r);
    }
    RunPasses(digest, a, b, u, n, batch, i, keys);
    JobCut(digest, a, b, x, batch, i, parent, keys);
    forall j | n <= j < |v| ensures RunCut(digest, a, v[j], batch, i + 1, keys) {
      if j < |u| {
        assert v[j] == u[j];
      } else {
        JobCut(digest, a, b, v[j], batch, i, parent, keys);
      }
    }
  }

  lemma OnlyBackup(digest: Bytes -> string, b: Snapshot, x: Snapshot, o: Order, parent: string)
    requires BackupCut(digest, b, x, RunningFor(o, parent), o.job.dump) && o.job.id !in b.records
    ensures OnlyJob(b, x, o.job)
  {
  }

  lemma RunCutAtEnd(digest: Bytes -> string, a: Snapshot, batch: Batch, keys: KeyFacts)
    requires batch.Whole() && RunCut(digest, a, a, batch, 0, keys)
    ensures RunCut(digest, a, a, batch, |batch.jobs|, keys)
  {
  }

  lemma ExcludedPasses(
    digest: Bytes -> string, a: Snapshot, x: Snapshot, t: seq<Snapshot>, n: nat, batch: Batch, i: nat, keys: KeyFacts,
    stuck: set<nat>)
    requires RunningTo(digest, a, x, t, n, batch, i, keys) && i < |batch.jobs| && JobsFresh(a, batch.jobs)
    requires batch.databases[i] in batch.inst.excluded && AllTried(digest, a, x, batch, i, stuck)
    ensures RunningTo(digest, a, x, t, n, batch, i + 1, keys) && AllTried(digest, a, x, batch, i + 1, stuck)
  {
    hide RunCut, AllTried, OnlyJob;
    EligibleNow(digest, a, x, t, n, batch, i, keys);
    RunPasses(digest, a, x, t, n, batch, i, keys);
    NothingDone(x, batch.jobs[i]);
    OneMoreTried(digest, a, x, x, batch, i, stuck, stuck);
  }

  class RunBackupUseCase {
    const backend: Backend
    const digest: Bytes -> string

    constructor (backend: Backend, digest: Bytes -> string)
      ensures this.backend == backend && this.digest == digest
    {
      this.backend, this.digest := backend, digest;
    }

    /** Marks the running record failed; whether that succeeds is ignored. */
    method MarkFailed(r: BackupRecord, message: string, now: Time, ghost a: Snapshot, ghost n: nat, ghost dump: Dump)
      requires backend.Valid() && IsInitial(r) && r.id != ""
      requires BackingUp(digest, a, backend.Now(), backend.trace, n, r, dump)
      requires backend.records == a.records[r.id := r]
      modifies backend
      ensures backend.Valid() && old(backend.trace) <= backend.trace && backend.objects == old(backend.objects)
      ensures BackingUp(digest, a, backend.Now(), backend.trace, n, r, dump)
      ensures backend.failures >= old(backend.failures)
      ensures backend.failures == old(backend.failures) ==>
                r.id in backend.records && backend.records[r.id] == WithStatus(r, Failed, message, now)
    {
      ghost var b, u := backend.Now(), backend.trace;
      var ok := backend.UpdateStatus(r.id, Failed, message, now);
      if ok {
        assert backend.records == a.records[r.id := WithStatus(r, Failed, message, now)];
      }
      BackupAdvances(digest, a, b, backend.Now(), u, backend.trace, n, r, dump);
    }

    /** Uploads the dump through the hashing reader, and removes it again if closing it reports that
        it failed. */
    method StoreDump(r: BackupRecord, dump: Dump, ghost a: Snapshot, ghost n: nat)
      returns (ok: bool, size: nat, hash: string)
      requires backend.Valid() && dump.Dump? && IsInitial(r)
      requires BackingUp(digest, a, backend.Now(), backend.trace, n, r, dump)
      requires backend.records == a.records[r.id := r]
      modifies backend
      ensures backend.Valid() && old(backend.trace) <= backend.trace && backend.records == old(backend.records)
      ensures BackingUp(digest, a, backend.Now(), backend.trace, n, r, dump)
      ensures backend.failures >= old(backend.failures)
      ensures ok ==>
                && Closes(r.engine, dump) && size == |dump.content| && hash == digest(dump.content)
                && FullKey(backend.prefix, dump.key) in backend.objects
                && backend.objects[FullKey(backend.prefix, dump.key)] == dump.content
      ensures backend.failures == old(backend.failures) ==>
                && (ok <==> Closes(r.engine, dump))
                && (!ok ==> FullKey(backend.prefix, dump.key) !in backend.objects)
    {
      ghost var b, u := backend.Now(), backend.trace;
      var hr := new HashingReader(dump.content, digest);
      ok, size := backend.Upload(dump.key, hr);
      hash := hr.Sum();
      assert dump.content[..|dump.content|] == dump.content && dump.content[0..] == dump.content;
      assert SameElsewhere(a, backend.Now(), dump.key);
      BackupAdvances(digest, a, b, backend.Now(), u, backend.trace, n, r, dump);
      if ok && !Closes(r.engine, dump) {
        b, u := backend.Now(), backend.trace;
        var removed := backend.DeleteObject(dump.key);
        assert SameElsewhere(a, backend.Now(), dump.key);
        BackupAdvances(digest, a, b, backend.Now(), u, backend.trace, n, r, dump);
        ok := false;
      }
    }

    /** Tags the object and completes the record. */
    method Complete(
      r: BackupRecord, size: nat, hash: string, now: Time, ghost a: Snapshot, ghost n: nat, dump: Dump)
      returns (ok: bool)
      requires backend.Valid() && IsInitial(r) && dump.Dump? && Closes(r.engine, dump)
      requires size == |dump.content| && hash == digest(dump.content)
      requires FullKey(backend.prefix, dump.key) in backend.objects
      requires backend.objects[FullKey(backend.prefix, dump.key)] == dump.content
      requires BackingUp(digest, a, backend.Now(), backend.trace, n, r, dump)
      requires backend.records == a.records[r.id := r]
      modifies backend
      ensures backend.Valid() && old(backend.trace) <= backend.trace
      ensures BackingUp(digest, a, backend.Now(), backend.trace, n, r, dump)
      ensures ok ==> r.id in backend.records && backend.objects == old(backend.objects)
                     && backend.records[r.id] == CompletedRecord(r, dump.key, size, hash, now)
      ensures !ok ==> backend.failures > old(backend.failures) || r.id == ""
      ensures backend.failures >= old(backend.failures)
    {
      var _ := backend.Attempt(); // tagging the object
      ghost var b, u := backend.Now(), backend.trace;
      ok := backend.Update(CompletedRecord(r, dump.key, size, hash, now));
      BackupAdvances(digest, a, b, backend.Now(), u, backend.trace, n, r, dump);
    }

    /** Records, dumps, uploads and completes one backup. */
    method BackupDatabase(
      inst: Instance, database: string, kind: BackupType, parent: string, retainDays: int, job: Job)
      returns (ok: bool)
      requires backend.Valid()
      modifies backend
      ensures backend.Valid() && old(backend.trace) <= backend.trace
      ensures BackingUp(digest, old(backend.Now()), backend.Now(), backend.trace, |old(backend.trace)|,
                        RunningRecord(inst, database, kind, parent, retainDays, job), job.dump)
      ensures ok ==> job.id in backend.records && backend.records[job.id].status == Completed
      ensures backend.failures >= old(backend.failures)
      // without failures it is completed exactly if the dump closes, with the dump in the bucket, and
      // otherwise failed, with nothing there
      ensures backend.failures == old(backend.failures) && job.id != "" ==>
                var o := Order(inst, database, kind, retainDays, job);
                && BackedUp(digest, o, backend.Now()) && Stored(o, backend.Now())
                && backend.records[job.id].parentBackupID == parent
                && (ok <==> job.dump.Dump? && Closes(inst.engine, job.dump))
      // which it does if every command exited successfully, and but for SQL Server only then
      ensures backend.failures == old(backend.failures) && job.id != "" && DumpOf(inst.engine, job.dump) ==>
                && (job.dump.piped && (forall i | 0 <= i < |job.dump.exits| :: job.dump.exits[i]) ==> ok)
                && (ok && inst.engine != SQLServer ==> forall i | 0 <= i < |job.dump.exits| :: job.dump.exits[i])
                && (ok && inst.engine != Redis ==> job.dump.piped) && (inst.engine == Redis ==> ok)
    {
      hide BackingUp, BackedUp;
      ghost var a, u := backend.Now(), backend.trace;
      ghost var n, o := |u|, Order(inst, database, kind, retainDays, job);
      var record := RunningRecord(inst, database, kind, parent, retainDays, job);
      BackupStarts(digest, a, u, record, job.dump);
      ok := backend.Save(record);
      BackupAdvances(digest, a, a, backend.Now(), u, backend.trace, n, record, job.dump);
      if !ok {
        return;
      }
      var size, hash := 0, "";
      ok := job.dump.Dump?;
      if ok {
        ok, size, hash := StoreDump(record, job.dump, a, n);
      }
      if ok {
        ok := Complete(record, size, hash, job.finishedAt, a, n, job.dump);
      } else {
        MarkFailed(record, if job.dump.NoDump? then job.dump.error else "", job.finishedAt, a, n, job.dump);
      }
      if backend.failures == old(backend.failures) && job.id != "" {
        EndsBackedUp(digest, o, parent, backend.Now());
      }
    }

    /** The newest completed full backup of a database. */
    method LatestCompletedFull(instanceID: string, database: string) returns (ok: bool, latest: Option<BackupRecord>)
      requires backend.Valid()
      modifies backend`failures
      ensures ok ==> LatestFull(backend.records, instanceID, database, latest)
      ensures !ok ==> backend.failures > old(backend.failures)
      ensures backend.failures >= old(backend.failures)
    {
      latest := None;
      var all;
      ok, all := backend.FindByInstance(instanceID);
      if !ok {
        return;
      }
      for i := 0 to |all|
        invariant latest.None? ==>
                    forall j | 0 <= j < i :: !(all[j].CompletedFull() && all[j].databaseName == database)
        invariant latest.Some? ==>
                    && latest.value in all && latest.value.CompletedFull() && latest.value.databaseName == database
                    && forall j | 0 <= j < i && all[j].CompletedFull() && all[j].databaseName == database ::
                         all[j].startedAt <= latest.value.startedAt
      {
        var r := all[i];
        if r.databaseName == database && r.status == Completed && r.IsFull() {
          if latest.None? || r.startedAt > latest.value.startedAt {
            latest := Some(r);
          }
        }
      }
      forall k | k in backend.records && backend.records[k].instanceID == instanceID
        ensures backend.records[k] in all
      {
      }
    }

    /** One database of a run. A log backup needs a completed full to chain from; without one, or if
        it cannot be looked up, the database is passed over. `base` is the number of failures at the start of
        the run; each database in `stuck` accounts for one. */
    method BackupNext(
      inst: Instance, databases: seq<string>, i: nat, kind: BackupType, retainDays: int, jobs: seq<Job>,
      ghost a: Snapshot, ghost n: nat, ghost keys: KeyFacts, ghost stuck: set<nat>, ghost base: nat)
      returns (ok: bool, ghost late: set<nat>)
      requires backend.Valid() && kind in {Full, Log} && |jobs| == |databases| && i < |jobs|
      requires Consistent(a) && JobsFresh(a, jobs)
      requires keys == KeysOfRun(digest, a, Batch(inst, databases, kind, retainDays, jobs))
      requires databases[i] !in inst.excluded && base + |stuck| <= backend.failures
      requires
        var batch := Batch(inst, databases, kind, retainDays, jobs);
        && RunningTo(digest, a, backend.Now(), backend.trace, n, batch, i, keys)
        && AllTried(digest, a, backend.Now(), batch, i, stuck)
      modifies backend
      ensures backend.Valid() && old(backend.trace) <= backend.trace
      ensures
        var batch := Batch(inst, databases, kind, retainDays, jobs);
        && RunningTo(digest, a, backend.Now(), backend.trace, n, batch, i + 1, keys)
        && AllTried(digest, a, backend.Now(), batch, i + 1, late)
      ensures base + |late| <= backend.failures
      ensures kind == Log && !HasFull(old(backend.records), inst.id, databases[i]) ==>
                backend.Now() == old(backend.Now())
    {
      hide Consistent, JobsFresh, KeysOfRun, RunningTo, AllTried, BackedUp, Stored, OnlyJob;
      ghost var b, u, batch := backend.Now(), backend.trace, Batch(inst, databases, kind, retainDays, jobs);
      ghost var o := batch.Nth(i);
      EligibleNow(digest, a, b, u, n, batch, i, keys);
      ok, late := kind != Log, stuck;
      var parent := "";
      if kind == Log {
        var latest;
        ok, latest := LatestCompletedFull(inst.id, databases[i]);
        ok := ok && latest.Some?;
        if ok {
          parent := latest.value.id;
        }
      }
      if ok {
        ok := BackupDatabase(inst, databases[i], kind, parent, retainDays, jobs[i]);
        RunContinues(digest, a, b, backend.Now(), u, backend.trace, n, batch, i, parent, keys);
        OnlyBackup(digest, b, backend.Now(), o, parent);
      } else {
        RunPasses(digest, a, b, u, n, batch, i, keys);
        NothingDone(b, jobs[i]);
      }
      if backend.failures > old(backend.failures) {
        late := late + {i};
      }
      OneMoreTried(digest, a, b, backend.Now(), batch, i, stuck, late);
    }

    /** Backs up every database of an instance; the failure of one does not stop the rest. `jobs`
        supplies the ID, the clock and the dump of each. Once it has `begun`, each failing call holds up one
        database at most (`stuck`). */
    method RunForInstance(inst: Instance, databases: seq<string>, kind: BackupType, retainDays: int, jobs: seq<Job>)
      returns (ghost stuck: set<nat>, ghost begun: bool)
      requires backend.Valid() && backend.hasFactory && kind in {Full, Log} && |jobs| == |databases|
      requires Consistent(backend.Now()) && JobsFresh(backend.Now(), jobs)
      modifies backend
      ensures backend.Valid() && old(backend.trace) <= backend.trace
      // sizes and hashes stay true, and keys apart, if they were and the keys of the run are unused
      ensures
        var batch := Batch(inst, databases, kind, retainDays, jobs);
        var keys := KeysOfRun(digest, old(backend.Now()), batch);
        && RunCut(digest, old(backend.Now()), backend.Now(), batch, |jobs|, keys)
        && forall j | |old(backend.trace)| <= j < |backend.trace| ::
             RunCut(digest, old(backend.Now()), backend.trace[j], batch, |jobs|, keys)
      // every database that is to be backed up has been, but for those that are stuck
      ensures begun ==>
                && AllTried(digest, old(backend.Now()), backend.Now(),
                            Batch(inst, databases, kind, retainDays, jobs), |jobs|, stuck)
                && |stuck| <= backend.failures - old(backend.failures)
      ensures begun ==> inst.enabled && (kind == Full || inst.engine == SQLServer) && backend.Reachable()
      ensures !begun ==> backend.Now() == old(backend.Now())
      ensures !begun && inst.enabled && (kind == Full || inst.engine == SQLServer) && backend.Reachable() ==>
                backend.failures > old(backend.failures)
    {
      hide Consistent, JobsFresh, KeysOfRun, RunCut, AllTried;
      ghost var a, n, batch := backend.Now(), |backend.trace|, Batch(inst, databases, kind, retainDays, jobs);
      ghost var keys := KeysOfRun(digest, a, batch);
      RunStarts(digest, a, batch, keys);
      begun, stuck := false, {};
      var ready := inst.enabled && (kind != Log || inst.engine == SQLServer);
      if ready {
        ready := backend.GetS3Config();
      }
      if ready {
        ready := backend.NewStorage();
      }
      if ready {
        ready := backend.Attempt(); // connecting to the instance and listing its databases
      }
      if !ready {
        RunCutAtEnd(digest, a, batch, keys);
        return;
      }
      begun := true;
      for i := 0 to |databases|
        invariant backend.Valid() && old(backend.trace) <= backend.trace
        invariant RunningTo(digest, a, backend.Now(), backend.trace, n, batch, i, keys)
        invariant AllTried(digest, a, backend.Now(), batch, i, stuck)
        invariant old(backend.failures) + |stuck| <= backend.failures
      {
        if databases[i] !in inst.excluded {
          var done;
          done, stuck :=
            BackupNext(inst, databases, i, kind, retainDays, jobs, a, n, keys, stuck, old(backend.failures));
        } else {
          ExcludedPasses(digest, a, backend.Now(), backend.trace, n, batch, i, keys, stuck);
        }
      }
    }
  }
}
