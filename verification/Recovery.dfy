/** What restore picks: recovery points, points in time and chains, as relations on the catalogue. */
module Recovery {
  import opened Entities
  import opened Catalogue
  import opened Backups
  import opened Retention
  import opened Sorting
  import opened Sparing

  /** `strings.EqualFold(name, "master")`. Unicode folding also takes the long s for an s. */
  predicate IsMaster(name: string) {
    && |name| == 6
    && name[0] in {'m', 'M'} && name[1] in {'a', 'A'} && name[2] in {'s', 'S', '\U{017F}'}
    && name[3] in {'t', 'T'} && name[4] in {'e', 'E'} && name[5] in {'r', 'R'}
  }

  /** Simple case folding: capital letters to small ones, and the long s to s. */
  function Fold(c: char): char {
    if 'A' <= c <= 'Z' then (c as int - 'A' as int + 'a' as int) as char else if c == '\U{017F}' then 's' else c
  }

  function Folded(name: string): string {
    seq(|name|, i requires 0 <= i < |name| => Fold(name[i]))
  }

  /** Exactly the names that fold to "master" are taken for it. */
  lemma MasterIsFolded(name: string)
    ensures IsMaster(name) <==> Folded(name) == "master"
  {
    if |name| == 6 {
      assert forall i | 0 <= i < 6 :: Folded(name)[i] == Fold(name[i]);
      assert Folded(name) == "master" ==> forall i | 0 <= i < 6 :: Fold(name[i]) == "master"[i];
    } else {
      assert |Folded(name)| != |"master"|;
    }
  }

  predicate OfDatabase(r: BackupRecord, instanceID: string, database: string) {
    r.instanceID == instanceID && r.databaseName == database
  }

  /** The newest completed backup of a database started no later than `time`. */
  ghost predicate PointInTime(
    records: map<string, BackupRecord>, instanceID: string, database: string, time: Time, best: Option<BackupRecord>)
  {
    match best
    case None =>
      forall k | k in records && records[k].status == Completed && OfDatabase(records[k], instanceID, database) ::
        records[k].startedAt > time
    case Some(b) =>
      && b.id in records && records[b.id] == b && b.status == Completed && OfDatabase(b, instanceID, database)
      && b.startedAt <= time
      && forall k | k in records && records[k].status == Completed && OfDatabase(records[k], instanceID, database)
           && records[k].startedAt <= time :: records[k].startedAt <= b.startedAt
  }

  /** `k` is the full `f` or a completed log chained off it. */
  ghost predicate InChainOf(records: map<string, BackupRecord>, f: BackupRecord, k: string) {
    && k in records
    && (k == f.id || (records[k].CompletedLog() && records[k].parentBackupID == f.id
                      && OfDatabase(records[k], f.instanceID, f.databaseName)))
  }

  /** The newest member of the chain of the newest completed full. */
  ghost predicate LatestPoint(records: map<string, BackupRecord>, instanceID: string, database: string, id: string) {
    exists f :: LatestPointOf(records, instanceID, database, f, id)
  }

  ghost predicate LatestPointOf(
    records: map<string, BackupRecord>, instanceID: string, database: string, f: BackupRecord, id: string)
  {
    && LatestFull(records, instanceID, database, Some(f))
    && InChainOf(records, f, id)
    && forall k | InChainOf(records, f, k) :: records[k].startedAt <= records[id].startedAt
  }

  ghost predicate HasFull(records: map<string, BackupRecord>, instanceID: string, database: string) {
    exists k :: k in records && records[k].CompletedFull() && OfDatabase(records[k], instanceID, database)
  }

  /** The recovery point of every database of an instance that has a completed full, except master. */
  ghost predicate LatestPoints(records: map<string, BackupRecord>, instanceID: string, points: map<string, string>) {
    && (forall database :: 
          database in points <==> Folded(database) != "master" && HasFull(records, instanceID, database))
    && (forall database | database in points :: LatestPoint(records, instanceID, database, points[database]))
  }

  // ---- the two ways of picking agree ----

  /** `b` is the newest completed backup of its database. */
  ghost predicate NewestBackup(records: map<string, BackupRecord>, b: BackupRecord) {
    && b.id in records && records[b.id] == b && b.status == Completed
    && forall k | k in records && records[k].status == Completed
         && OfDatabase(records[k], b.instanceID, b.databaseName) ::
         records[k].startedAt <= b.startedAt
  }

  /** The newest completed backup of a database is the newest member of the chain of the newest full
      exactly if it belongs to that chain. */
  lemma NewestIsLatestPointIffInChain(a: Snapshot, b: BackupRecord, f: BackupRecord)
    requires Keyed(a.records) && NoOrphan(a.records) && StartsDistinct(a.records) && NewestBackup(a.records, b)
    requires LatestFull(a.records, b.instanceID, b.databaseName, Some(f))
    ensures LatestPoint(a.records, b.instanceID, b.databaseName, b.id) <==> b.Owner() == f.id
  {
    if b.Owner() == f.id {
      assert LatestPointOf(a.records, b.instanceID, b.databaseName, f, b.id);
    }
    if LatestPoint(a.records, b.instanceID, b.databaseName, b.id) {
      var g :| LatestPointOf(a.records, b.instanceID, b.databaseName, g, b.id);
      assert g.startedAt == f.startedAt;
      assert g == f;
    }
  }

  /** There is such a full. */
  lemma NewestHasFull(a: Snapshot, b: BackupRecord)
    requires Keyed(a.records) && NoOrphan(a.records) && NewestBackup(a.records, b)
    ensures HasFull(a.records, b.instanceID, b.databaseName)
  {
    assert Parent(a.records[b.Owner()], b) || b.IsFull();
    assert a.records[b.Owner()].CompletedFull();
  }

  /** It does as long as no full lies between a log and its parent: a log of an older full would have
      the newest full between itself and its parent. */
  lemma NewestIsInNewestChain(a: Snapshot, b: BackupRecord, f: BackupRecord)
    requires Consistent(a) && NoFullBetween(a.records) && NewestBackup(a.records, b)
    requires LatestFull(a.records, b.instanceID, b.databaseName, Some(f))
    ensures b.Owner() == f.id
  {
    if b.IsFull() {
      assert b.startedAt == f.startedAt;
    } else {
      var p := a.records[b.parentBackupID];
      assert Parent(p, b) && f.id != b.id && f.startedAt != b.startedAt;
      assert p.startedAt == f.startedAt;
    }
  }

  lemma LatestPointUnique(a: Snapshot, instanceID: string, database: string, i: string, j: string)
    requires Keyed(a.records) && StartsDistinct(a.records)
    requires LatestPoint(a.records, instanceID, database, i) && LatestPoint(a.records, instanceID, database, j)
    ensures i == j
  {
    var f :| LatestPointOf(a.records, instanceID, database, f, i);
    var g :| LatestPointOf(a.records, instanceID, database, g, j);
    assert f.startedAt == g.startedAt;
    assert f == g;
  }

  /** Restoring to a late enough point in time finds a backup when "restore all" has a recovery point,
      exactly if the database is not master or has none; and they are then the same exactly if the newest
      backup belongs to the chain of the newest full `f`. */
  lemma PointInTimeAgrees(
    a: Snapshot, instanceID: string, database: string, time: Time, best: Option<BackupRecord>,
    points: map<string, string>)
    requires Consistent(a)
    requires forall k | k in a.records && a.records[k].status == Completed
               && OfDatabase(a.records[k], instanceID, database) ::
               a.records[k].startedAt <= time
    requires PointInTime(a.records, instanceID, database, time, best) && LatestPoints(a.records, instanceID, points)
    ensures (best.Some? <==> database in points) <==> (Folded(database) != "master" || best.None?)
    ensures forall f | best.Some? && database in points && LatestFull(a.records, instanceID, database, Some(f)) ::
              points[database] == best.value.id <==> best.value.Owner() == f.id
  {
    if best.Some? {
      NewestHasFull(a, best.value);
      if database in points {
        forall f | LatestFull(a.records, instanceID, database, Some(f))
          ensures points[database] == best.value.id <==> best.value.Owner() == f.id
        {
          SamePick(a, instanceID, database, best.value, f, points[database]);
        }
      }
    }
  }

  lemma SamePick(
    a: Snapshot, instanceID: string, database: string, b: BackupRecord, f: BackupRecord, point: string)
    requires Consistent(a) && NewestBackup(a.records, b) && OfDatabase(b, instanceID, database)
    requires LatestFull(a.records, instanceID, database, Some(f)) && LatestPoint(a.records, instanceID, database, point)
    ensures point == b.id <==> b.Owner() == f.id
  {
    hide LatestFull, LatestPoint, NewestBackup;
    NewestIsLatestPointIffInChain(a, b, f);
    if b.Owner() == f.id {
      LatestPointUnique(a, instanceID, database, b.id, point);
    }
  }

  // ---- chains ----

  /** The logs to replay for the log `target`. */
  predicate InReplay(r: BackupRecord, target: BackupRecord) {
    && r.parentBackupID == target.parentBackupID && r.status == Completed
    && r.startedAt <= target.startedAt && r.instanceID == target.instanceID
  }

  /** What `buildChain` may return for `target`. */
  ghost predicate Chain(records: map<string, BackupRecord>, target: BackupRecord, chain: seq<BackupRecord>) {
    if target.IsFull() then
      chain == [target]
    else
      && target.parentBackupID in records
      && |chain| >= 1 && chain[0] == records[target.parentBackupID]
      && Sorted(chain[1..])
      && (forall r :: r in chain[1..] <==> r.id in records && records[r.id] == r && InReplay(r, target))
      && (forall i, j | 1 <= i < j < |chain| :: chain[i].id != chain[j].id)
  }

  lemma ChainElements(a: Snapshot, target: BackupRecord, chain: seq<BackupRecord>)
    requires Consistent(a) && target.id in a.records && a.records[target.id] == target && !target.IsFull()
    requires Chain(a.records, target, chain)
    ensures forall i | 1 <= i < |chain| ::
              && chain[i].id in a.records && a.records[chain[i].id] == chain[i] && InReplay(chain[i], target)
              && !chain[i].IsFull() && Parent(chain[0], chain[i])
    ensures forall i, j | 1 <= i < j < |chain| :: chain[i].startedAt < chain[j].startedAt
  {
    forall i | 1 <= i < |chain|
      ensures
        && chain[i].id in a.records && a.records[chain[i].id] == chain[i] && InReplay(chain[i], target)
        && !chain[i].IsFull() && Parent(chain[0], chain[i])
    {
      assert chain[i] == chain[1..][i - 1];
      assert chain[i] in chain[1..];
    }
    forall i, j | 1 <= i < j < |chain| ensures chain[i].startedAt < chain[j].startedAt {
      assert chain[1..][i - 1].startedAt <= chain[1..][j - 1].startedAt;
      assert chain[i].id != chain[j].id;
    }
  }

  lemma ChainEnd(a: Snapshot, target: BackupRecord, chain: seq<BackupRecord>)
    requires Consistent(a) && target.id in a.records && a.records[target.id] == target && !target.IsFull()
    requires Chain(a.records, target, chain)
    ensures target.status == Completed <==> chain[|chain| - 1] == target
  {
    ChainElements(a, target, chain);
    assert chain[0] != target;
    if target.status == Completed {
      assert target in chain[1..];
      NewestIsLast(chain[1..], target);
      assert chain[1..][|chain| - 2] == chain[|chain| - 1];
    } else if |chain| > 1 {
      assert InReplay(chain[|chain| - 1], target);
    }
  }

  lemma NewestIsLast(s: seq<BackupRecord>, r: BackupRecord)
    requires StrictlySorted(s) && r in s && forall i | 0 <= i < |s| :: s[i].startedAt <= r.startedAt
    ensures s[|s| - 1] == r
  {
    var i :| 0 <= i < |s| && s[i] == r;
  }

  /** The chain of a stored log: its parent full, then completed logs of that full and database, in
      strictly increasing time, none later than the target. It ends with the target exactly if the
      target is completed. */
  lemma ChainOfLog(a: Snapshot, target: BackupRecord, chain: seq<BackupRecord>)
    requires Consistent(a) && target.id in a.records && a.records[target.id] == target && !target.IsFull()
    requires Chain(a.records, target, chain)
    ensures StrictlySorted(chain)
    ensures chain[0].IsFull() && chain[0].id == target.parentBackupID
    ensures forall i | 1 <= i < |chain| ::
              && chain[i].CompletedLog() && chain[i].parentBackupID == chain[0].id
              && OfDatabase(chain[i], target.instanceID, target.databaseName)
    ensures forall i | 0 <= i < |chain| :: chain[i].startedAt <= target.startedAt
    ensures target.status == Completed <==> chain[|chain| - 1] == target
  {
    assert Parent(chain[0], target);
    ChainElements(a, target, chain);
    ChainEnd(a, target, chain);
  }

  /** On a recovery point the chain is the whole history of the newest full. */
  lemma ChainOfLatestPoint(
    a: Snapshot, instanceID: string, database: string, id: string, f: BackupRecord, chain: seq<BackupRecord>)
    requires Consistent(a) && LatestPointOf(a.records, instanceID, database, f, id)
    requires Chain(a.records, a.records[id], chain)
    ensures chain[0] == f
    ensures forall k | k in a.records && a.records[k].CompletedLog() && a.records[k].parentBackupID == f.id ::
              a.records[k] in chain
  {
    forall k | k in a.records && a.records[k].CompletedLog() && a.records[k].parentBackupID == f.id
      ensures a.records[k] in chain
    {
      assert Parent(f, a.records[k]);
      assert InChainOf(a.records, f, k);
      assert a.records[k].startedAt <= a.records[id].startedAt;
      assert a.records[id].startedAt > f.startedAt;
      assert id != f.id;
      assert a.records[k] in chain[1..];
    }
  }

  /** Nothing in the chain applied for a point in time starts after it. */
  lemma ChainWithinTime(
    a: Snapshot, instanceID: string, database: string, time: Time, b: BackupRecord, chain: seq<BackupRecord>)
    requires Consistent(a) && PointInTime(a.records, instanceID, database, time, Some(b)) && Chain(a.records, b, chain)
    ensures forall i | 0 <= i < |chain| :: chain[i].startedAt <= time
  {
    if !b.IsFull() {
      ChainOfLog(a, b, chain);
    }
  }

  // ---- retention does not change what restore picks ----

  lemma LatestFullStays(a: Snapshot, x: Snapshot, instanceID: string, database: string, f: BackupRecord)
    requires PartlyWithout(a, x, a.records.Keys) && LatestFull(a.records, instanceID, database, Some(f))
    requires x.records[f.id] == f
    ensures LatestFull(x.records, instanceID, database, Some(f))
  {
    forall k | k in x.records && x.records[k].CompletedFull() ensures x.records[k] == a.records[k] {
    }
  }

  /** The chain of `f` is in `x` what it is in `a`, record by record. */
  ghost predicate ChainKept(a: Snapshot, x: Snapshot, f: BackupRecord) {
    && (forall k | k in a.records && a.records[k].Owner() == f.id :: k in x.records && x.records[k] == a.records[k])
    && (forall k | k in x.records && x.records[k].Owner() == f.id :: k in a.records && x.records[k] == a.records[k])
  }

  lemma RemovalKeepsChain(b: Snapshot, x: Snapshot, c: string, f: BackupRecord)
    requires Keyed(b.records) && NoOrphan(b.records) && c in b.records && b.records[c].IsFull() && c != f.id
    requires PartlyWithout(b, x, Family(b, c))
    ensures ChainKept(b, x, f)
  {
    forall k | k in b.records ensures x.records[k].Owner() == b.records[k].Owner() {
      OwnerStays(b, x, k);
    }
    forall k | k in b.records && b.records[k].Owner() == f.id ensures x.records[k] == b.records[k] {
      if k in Family(b, c) {
        FamilyOwner(b, c, k);
      }
    }
  }

  /** A checked deletion is never that of the newest full of a database. */
  lemma NewestNotRemoved(
    d: Removal, cutoffs: Cutoffs, gs: set<GroupKey>, instanceID: string, database: string, f: BackupRecord)
    requires Checked(d, cutoffs, gs) && LatestFull(d.before.records, instanceID, database, Some(f))
    ensures d.id != f.id
  {
    if d.id == f.id {
      NewestHasNoNewer(d.before, instanceID, database, f);
      assert false;
    }
  }

  lemma NewestHasNoNewer(b: Snapshot, instanceID: string, database: string, f: BackupRecord)
    requires LatestFull(b.records, instanceID, database, Some(f))
    ensures FoundNewer(b, f.id) == {}
  {
  }

  lemma ChainKeptTransitive(a: Snapshot, b: Snapshot, x: Snapshot, f: BackupRecord)
    requires ChainKept(a, b, f) && ChainKept(b, x, f)
    ensures ChainKept(a, x, f)
  {
  }

  lemma RemovalKeepsLatestFull(
    a: Snapshot, d: Removal, x: Snapshot, cutoffs: Cutoffs, gs: set<GroupKey>, instanceID: string, database: string,
    f: BackupRecord)
    requires Keyed(d.before.records) && NoOrphan(d.before.records) && Checked(d, cutoffs, gs) && Removing(d, x)
    requires LatestFull(d.before.records, instanceID, database, Some(f)) && ChainKept(a, d.before, f)
    ensures LatestFull(x.records, instanceID, database, Some(f)) && ChainKept(a, x, f)
  {
    NewestNotRemoved(d, cutoffs, gs, instanceID, database, f);
    RemovalKeepsChain(d.before, x, d.id, f);
    ChainKeptTransitive(a, d.before, x, f);
    assert f.Owner() == f.id;
    PartlyWithoutAll(d.before, x, Family(d.before, d.id));
    LatestFullStays(d.before, x, instanceID, database, f);
  }

  lemma PartlyWithoutAll(b: Snapshot, x: Snapshot, ids: set<string>)
    requires PartlyWithout(b, x, ids)
    ensures PartlyWithout(b, x, b.records.Keys)
  {
  }

  /** A sweep, cut anywhere and whatever keys are shared, leaves the newest full of a database the
      newest, with the chain it had. */
  lemma {:induction false} SweepKeepsLatestFull(
    a: Snapshot, x: Snapshot, ds: seq<Removal>, cutoffs: Cutoffs, gs: set<GroupKey>,
    instanceID: string, database: string, f: BackupRecord)
    requires Consistent(a) && DeletionRun(a, x, ds) && AllChecked(ds, cutoffs, gs)
    requires LatestFull(a.records, instanceID, database, Some(f))
    ensures LatestFull(x.records, instanceID, database, Some(f)) && ChainKept(a, x, f)
    decreases |ds|
  {
    if ds != [] {
      var n := |ds| - 1;
      LastRemoval(a, x, ds);
      SweepKeepsLatestFull(a, ds[n].before, ds[..n], cutoffs, gs, instanceID, database, f);
      BeforeConsistent(a, ds[n].before, ds[..n]);
      assert Checked(ds[n], cutoffs, gs);
      RemovalKeepsLatestFull(a, ds[n], x, cutoffs, gs, instanceID, database, f);
    }
  }

  lemma BeforeConsistent(a: Snapshot, b: Snapshot, ds: seq<Removal>)
    requires Consistent(a) && DeletionRun(a, b, ds)
    ensures Keyed(b.records) && NoOrphan(b.records)
    ensures KeysApart(a.records) ==> KeysApart(b.records)
  {
    RunIsPartly(a, b, ds);
    DeletingKeepsKeyed(a, b);
    DeletingKeepsNoOrphan(a, b, a.records.Keys);
    if KeysApart(a.records) {
      DeletingKeepsKeysApart(a, b, a.records.Keys);
    }
  }

  lemma RemovalKeepsFull(
    d: Removal, x: Snapshot, cutoffs: Cutoffs, gs: set<GroupKey>, instanceID: string, database: string)
    requires Keyed(d.before.records) && NoOrphan(d.before.records) && Checked(d, cutoffs, gs) && Removing(d, x)
    ensures HasFull(d.before.records, instanceID, database) ==> HasFull(x.records, instanceID, database)
  {
    var b := d.before;
    if k :| k in b.records && b.records[k].CompletedFull() && OfDatabase(b.records[k], instanceID, database) {
      if k != d.id {
        NotInOtherFamily(b, d.id, k);
        assert x.records[k].CompletedFull() && OfDatabase(x.records[k], instanceID, database);
      } else {
        var e :| e in FoundNewer(b, d.id);
        NotInOtherFamily(b, d.id, e);
        assert x.records[e].CompletedFull() && OfDatabase(x.records[e], instanceID, database);
      }
    }
  }

  lemma NoNewFulls(a: Snapshot, x: Snapshot, instanceID: string, database: string)
    requires PartlyWithout(a, x, a.records.Keys) && HasFull(x.records, instanceID, database)
    ensures HasFull(a.records, instanceID, database)
  {
    var k :| k in x.records && x.records[k].CompletedFull() && OfDatabase(x.records[k], instanceID, database);
    assert a.records[k] == x.records[k];
  }

  lemma {:induction false} SweepKeepsFull(
    a: Snapshot, x: Snapshot, ds: seq<Removal>, cutoffs: Cutoffs, gs: set<GroupKey>, instanceID: string,
    database: string)
    requires Consistent(a) && DeletionRun(a, x, ds) && AllChecked(ds, cutoffs, gs)
    ensures HasFull(a.records, instanceID, database) ==> HasFull(x.records, instanceID, database)
    decreases |ds|
  {
    if ds != [] {
      var n := |ds| - 1;
      LastRemoval(a, x, ds);
      SweepKeepsFull(a, ds[n].before, ds[..n], cutoffs, gs, instanceID, database);
      BeforeConsistent(a, ds[n].before, ds[..n]);
      assert Checked(ds[n], cutoffs, gs);
      RemovalKeepsFull(ds[n], x, cutoffs, gs, instanceID, database);
    }
  }

  lemma SweepKeepsPoint(
    a: Snapshot, x: Snapshot, ds: seq<Removal>, cutoffs: Cutoffs, gs: set<GroupKey>,
    instanceID: string, database: string, id: string)
    requires Consistent(a) && DeletionRun(a, x, ds) && AllChecked(ds, cutoffs, gs)
    requires LatestPoint(a.records, instanceID, database, id)
    ensures LatestPoint(x.records, instanceID, database, id)
  {
    var f :| LatestPointOf(a.records, instanceID, database, f, id);
    SweepKeepsLatestFull(a, x, ds, cutoffs, gs, instanceID, database, f);
    forall k ensures InChainOf(x.records, f, k) <==> InChainOf(a.records, f, k)
      ensures InChainOf(a.records, f, k) ==> k in x.records && x.records[k] == a.records[k]
    {
      ChainMemberStays(a, x, f, k);
    }
    PointOfSameChain(a.records, x.records, instanceID, database, f, id);
  }

  lemma ChainMemberStays(a: Snapshot, x: Snapshot, f: BackupRecord, k: string)
    requires f.IsFull() && f.id in a.records && a.records[f.id] == f && ChainKept(a, x, f)
    ensures InChainOf(x.records, f, k) <==> InChainOf(a.records, f, k)
    ensures InChainOf(a.records, f, k) ==> k in x.records && x.records[k] == a.records[k]
  {
    assert f.Owner() == f.id;
    if InChainOf(a.records, f, k) {
      assert a.records[k].Owner() == f.id;
    }
    if InChainOf(x.records, f, k) && k != f.id {
      assert x.records[k].Owner() == f.id;
    }
  }

  lemma PointOfSameChain(
    records: map<string, BackupRecord>, later: map<string, BackupRecord>, instanceID: string, database: string,
    f: BackupRecord, id: string)
    requires LatestPointOf(records, instanceID, database, f, id) && LatestFull(later, instanceID, database, Some(f))
    requires forall k :: InChainOf(later, f, k) <==> InChainOf(records, f, k)
    requires forall k | InChainOf(records, f, k) :: k in later && later[k] == records[k]
    ensures LatestPoint(later, instanceID, database, id)
  {
    assert LatestPointOf(later, instanceID, database, f, id);
  }

  /** The recovery points are the same before and at any point of a retention sweep, whatever fails. */
  lemma SweepKeepsPoints(
    a: Snapshot, x: Snapshot, ds: seq<Removal>, cutoffs: Cutoffs, gs: set<GroupKey>, instanceID: string,
    before: map<string, string>, now: map<string, string>)
    requires Consistent(a) && DeletionRun(a, x, ds) && AllChecked(ds, cutoffs, gs)
    requires LatestPoints(a.records, instanceID, before) && LatestPoints(x.records, instanceID, now)
    ensures before == now
  {
    hide Consistent, DeletionRun, AllChecked, LatestPoint, HasFull;
    forall database ensures database in before <==> database in now {
      SameDatabases(a, x, ds, cutoffs, gs, instanceID, database);
    }
    forall database | database in before ensures before[database] == now[database] {
      PointStays(a, x, ds, cutoffs, gs, instanceID, database, before[database], now[database]);
    }
    SameMap(before, now);
  }

  lemma SameDatabases(
    a: Snapshot, x: Snapshot, ds: seq<Removal>, cutoffs: Cutoffs, gs: set<GroupKey>, instanceID: string,
    database: string)
    requires Consistent(a) && DeletionRun(a, x, ds) && AllChecked(ds, cutoffs, gs)
    ensures HasFull(a.records, instanceID, database) <==> HasFull(x.records, instanceID, database)
  {
    hide Consistent, DeletionRun, AllChecked;
    SweepKeepsFull(a, x, ds, cutoffs, gs, instanceID, database);
    RunIsPartly(a, x, ds);
    if HasFull(x.records, instanceID, database) {
      NoNewFulls(a, x, instanceID, database);
    }
  }

  lemma SameMap(m: map<string, string>, n: map<string, string>)
    requires forall k :: k in m <==> k in n
    requires forall k | k in m :: m[k] == n[k]
    ensures m == n
  {
  }

  lemma PointStays(
    a: Snapshot, x: Snapshot, ds: seq<Removal>, cutoffs: Cutoffs, gs: set<GroupKey>, instanceID: string,
    database: string, i: string, j: string)
    requires Consistent(a) && DeletionRun(a, x, ds) && AllChecked(ds, cutoffs, gs)
    requires LatestPoint(a.records, instanceID, database, i) && LatestPoint(x.records, instanceID, database, j)
    ensures i == j
  {
    RunIsPartly(a, x, ds);
    DeletingKeepsFiles(a, x, a.records.Keys);
    SweepKeepsPoint(a, x, ds, cutoffs, gs, instanceID, database, i);
    LatestPointUnique(x, instanceID, database, i, j);
  }

  lemma ReplayedLog(a: Snapshot, target: BackupRecord, chain: seq<BackupRecord>, r: BackupRecord)
    requires NoOrphan(a.records) && Keyed(a.records) && !target.IsFull() && Chain(a.records, target, chain)
    requires target.id in a.records && a.records[target.id] == target
    ensures r in chain[1..] <==>
              && r.id in a.records && a.records[r.id] == r && r.Owner() == target.parentBackupID && r.CompletedLog()
              && InReplay(r, target)
  {
  }

  lemma LogsStrictlySorted(a: Snapshot, target: BackupRecord, chain: seq<BackupRecord>)
    requires Consistent(a) && target.id in a.records && a.records[target.id] == target && !target.IsFull()
    requires Chain(a.records, target, chain)
    ensures StrictlySorted(chain[1..])
  {
    ChainElements(a, target, chain);
  }

  /** Chains of the same log are the same if its whole family is. */
  lemma SameFamilySameChain(
    a: Snapshot, x: Snapshot, target: BackupRecord, before: seq<BackupRecord>, now: seq<BackupRecord>)
    requires Consistent(a) && Consistent(x) && !target.IsFull()
    requires target.id in a.records && a.records[target.id] == target
    requires target.id in x.records && x.records[target.id] == target
    requires Chain(a.records, target, before) && Chain(x.records, target, now)
    requires a.records[target.parentBackupID] == x.records[target.parentBackupID]
    requires forall k | k in a.records && a.records[k].Owner() == target.parentBackupID ::
               k in x.records && x.records[k] == a.records[k]
    requires forall k | k in x.records && x.records[k].Owner() == target.parentBackupID ::
               k in a.records && x.records[k] == a.records[k]
    ensures before == now
  {
    LogsStrictlySorted(a, target, before);
    LogsStrictlySorted(x, target, now);
    forall r ensures r in before[1..] <==> r in now[1..] {
      ReplayedLog(a, target, before, r);
      ReplayedLog(x, target, now, r);
    }
    SortedUnique(before[1..], now[1..]);
    HeadAndTail(before, now);
  }

  lemma HeadAndTail(s: seq<BackupRecord>, t: seq<BackupRecord>)
    requires |s| >= 1 && |t| >= 1 && s[0] == t[0] && s[1..] == t[1..]
    ensures s == t
  {
    assert s == [s[0]] + s[1..] && t == [t[0]] + t[1..];
  }

  lemma ChainInFamily(a: Snapshot, target: BackupRecord, chain: seq<BackupRecord>, r: BackupRecord)
    requires Consistent(a) && target.id in a.records && a.records[target.id] == target
    requires Chain(a.records, target, chain) && r in chain && target.status == Completed
    ensures r.id in a.records && a.records[r.id] == r && r.Owner() == target.Owner() && r.status == Completed
  {
    if !target.IsFull() {
      if r in chain[1..] {
        ReplayedLog(a, target, chain, r);
      } else {
        assert r == chain[0];
        assert Parent(r, target);
      }
    }
  }

  /** With keys apart, no object of that chain is lost either. */
  lemma {:induction false} SweepKeepsObjects(
    a: Snapshot, x: Snapshot, ds: seq<Removal>, cutoffs: Cutoffs, gs: set<GroupKey>,
    instanceID: string, database: string, f: BackupRecord, r: BackupRecord)
    requires Consistent(a) && KeysApart(a.records) && DeletionRun(a, x, ds) && AllChecked(ds, cutoffs, gs)
    requires LatestFull(a.records, instanceID, database, Some(f))
    requires r.id in a.records && a.records[r.id] == r && r.Owner() == f.id && r.status == Completed
    ensures Present(x, r) <==> Present(a, r)
    decreases |ds|
  {
    if ds != [] {
      var n := |ds| - 1;
      LastRemoval(a, x, ds);
      SweepKeepsObjects(a, ds[n].before, ds[..n], cutoffs, gs, instanceID, database, f, r);
      SweepKeepsLatestFull(a, ds[n].before, ds[..n], cutoffs, gs, instanceID, database, f);
      BeforeConsistent(a, ds[n].before, ds[..n]);
      assert Checked(ds[n], cutoffs, gs);
      RemovalKeepsObject(ds[n], x, cutoffs, gs, instanceID, database, f, r);
    }
  }

  lemma RemovalKeepsObject(
    d: Removal, x: Snapshot, cutoffs: Cutoffs, gs: set<GroupKey>, instanceID: string, database: string,
    f: BackupRecord, r: BackupRecord)
    requires Keyed(d.before.records) && NoOrphan(d.before.records) && KeysApart(d.before.records)
    requires Checked(d, cutoffs, gs) && Removing(d, x) && LatestFull(d.before.records, instanceID, database, Some(f))
    requires r.id in d.before.records && d.before.records[r.id] == r && r.Owner() == f.id && r.status == Completed
    ensures Present(x, r) <==> Present(d.before, r)
  {
    NewestNotRemoved(d, cutoffs, gs, instanceID, database, f);
    if Touched(d.before, x, r.id) {
      TouchedInFamily(d.before, x, d.id, r.id);
    }
  }

  /** And so is the chain made from each of them, with keys apart down to the objects it needs. */
  lemma SweepKeepsChains(
    a: Snapshot, x: Snapshot, ds: seq<Removal>, cutoffs: Cutoffs, gs: set<GroupKey>,
    instanceID: string, database: string, id: string, before: seq<BackupRecord>, now: seq<BackupRecord>)
    requires Consistent(a) && DeletionRun(a, x, ds) && AllChecked(ds, cutoffs, gs)
    requires LatestPoint(a.records, instanceID, database, id) && id in x.records
    requires Chain(a.records, a.records[id], before) && Chain(x.records, x.records[id], now)
    ensures before == now
    ensures KeysApart(a.records) ==> forall r | r in before :: Present(x, r) <==> Present(a, r)
  {
    var f :| LatestPointOf(a.records, instanceID, database, f, id);
    SweepKeepsLatestFull(a, x, ds, cutoffs, gs, instanceID, database, f);
    var target := a.records[id];
    assert target.Owner() == f.id && f.Owner() == f.id;
    assert target.status == Completed && x.records[id] == target;
    if !target.IsFull() {
      RunIsPartly(a, x, ds);
      DeletingKeepsConsistent(a, x, a.records.Keys);
      SameFamilySameChain(a, x, target, before, now);
    }
    if KeysApart(a.records) {
      forall r | r in before ensures Present(x, r) <==> Present(a, r) {
        ChainInFamily(a, target, before, r);
        SweepKeepsObjects(a, x, ds, cutoffs, gs, instanceID, database, f, r);
      }
    }
  }

  // ---- the date-based half of the daily run does ----

  /** What it deletes of the chain of `f`. */
  lemma ChainOutdated(a: Snapshot, now: Time, f: BackupRecord, k: string)
    requires Keyed(a.records) && NoOrphan(a.records) && f.id in a.records && a.records[f.id] == f && f.IsFull()
    requires InChainOf(a.records, f, k)
    ensures k in WithChildren(a, Outdated(a, now)) <==> k in Outdated(a, now) || f.id in Outdated(a, now)
  {
  }

  /** The newest full and its newest completed log not being deleted, the recovery point stays. */
  lemma PointStaysByDate(
    a: Snapshot, b: Snapshot, ids: set<string>, instanceID: string, database: string, f: BackupRecord, id: string)
    requires Keyed(a.records) && PartlyWithout(a, b, ids) && LatestPointOf(a.records, instanceID, database, f, id)
    requires f.id !in ids && id !in ids
    ensures LatestPoint(b.records, instanceID, database, id)
  {
    PartlyWithoutAll(a, b, ids);
    LatestFullStays(a, b, instanceID, database, f);
    forall k | InChainOf(b.records, f, k) ensures b.records[k].startedAt <= b.records[id].startedAt {
      assert b.records[k].startedAt == a.records[k].startedAt && InChainOf(a.records, f, k);
    }
    assert LatestPointOf(b.records, instanceID, database, f, id);
  }

  lemma ExpiredIsNoPoint(records: map<string, BackupRecord>, instanceID: string, database: string, id: string)
    requires id in records && records[id].status == Expired
    ensures !LatestPoint(records, instanceID, database, id)
  {
  }

  lemma ExpiredStays(b: Snapshot, x: Snapshot, id: string)
    requires PartlyWithout(b, x, b.records.Keys) && id in b.records && b.records[id].status == Expired
    ensures id in x.records && x.records[id].status == Expired
  {
  }

  lemma SweptPointStays(
    a: Snapshot, b: Snapshot, x: Snapshot, ds: seq<Removal>, cutoffs: Cutoffs, gs: set<GroupKey>, ids: set<string>,
    instanceID: string, database: string, f: BackupRecord, id: string)
    requires Consistent(a) && PartlyWithout(a, b, ids) && Cascaded(a, b) && DeletionRun(b, x, ds)
    requires AllChecked(ds, cutoffs, gs) && LatestPointOf(a.records, instanceID, database, f, id)
    requires f.id !in ids && id !in ids
    ensures LatestPoint(x.records, instanceID, database, id)
  {
    hide LatestPoint, LatestPointOf, DeletionRun, AllChecked, Cascaded, PartlyWithout, Consistent;
    ConsistentHas(a);
    PointStaysByDate(a, b, ids, instanceID, database, f, id);
    DeletingKeepsConsistent(a, b, ids);
    SweepKeepsPoint(b, x, ds, cutoffs, gs, instanceID, database, id);
  }

  lemma ConsistentHas(a: Snapshot)
    requires Consistent(a)
    ensures Keyed(a.records) && NoOrphan(a.records)
  {
  }

  lemma ChildrenDeleted(a: Snapshot, cs: set<string>, reachable: bool)
    requires Keyed(a.records) && NoOrphan(a.records)
    ensures PartlyWithout(a, Deleted(a, WithChildren(a, cs), reachable), WithChildren(a, cs))
    ensures Cascaded(a, Deleted(a, WithChildren(a, cs), reachable))
  {
    WithoutIsPartly(a, WithChildren(a, cs));
  }

  /** Without failures the daily run keeps the recovery point of a database exactly if neither that nor
      the full of its chain is outdated; backups of SQL Server never are. */
  lemma DailyRunKeepsPointIff(
    a: Snapshot, b: Snapshot, x: Snapshot, ds: seq<Removal>, cutoffs: Cutoffs, gs: set<GroupKey>, now: Time,
    reachable: bool, instanceID: string, database: string, f: BackupRecord, id: string)
    requires Consistent(a) && b == Deleted(a, WithChildren(a, Outdated(a, now)), reachable)
    requires DeletionRun(b, x, ds) && AllChecked(ds, cutoffs, gs)
    requires LatestPointOf(a.records, instanceID, database, f, id)
    ensures LatestPoint(x.records, instanceID, database, id) <==>
              f.id !in Outdated(a, now) && id !in Outdated(a, now)
  {
    hide LatestPoint, DeletionRun, AllChecked, Cascaded, Outdated, WithChildren;
    var ids := WithChildren(a, Outdated(a, now));
    ChainOutdated(a, now, f, f.id);
    ChainOutdated(a, now, f, id);
    if f.id !in ids && id !in ids {
      ChildrenDeleted(a, Outdated(a, now), reachable);
      SweptPointStays(a, b, x, ds, cutoffs, gs, ids, instanceID, database, f, id);
    } else {
      assert b.records[id].status == Expired;
      RunIsPartly(b, x, ds);
      ExpiredStays(b, x, id);
      ExpiredIsNoPoint(x.records, instanceID, database, id);
    }
  }

}
