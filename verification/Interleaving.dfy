/** Log backups and the retention sweep running side by side, call by call.

    The scheduler runs both from the same process, so their calls interleave. For one database this
    machine has a log backup in flight, a sweep with its checks, and new full backups starting, failing
    and completing; the bucket may change at any time. There is no manual deletion. `bound` is how many
    new fulls may complete between the moment the log picked its parent and the moment the sweep takes
    its snapshot. */
module Interleaving {
  import opened Entities
  import opened ObjectKeys
  import opened Catalogue
  import opened Backups
  import opened Recovery
  import opened Retention
  import opened Sorting
  import opened Sweep

  /** The log backup: after choosing its parent, and after saving its running record `r`, which it
      keeps in memory. */
  datatype LogBackup = NoLog | Selected(parent: string) | InFlight(r: BackupRecord)

  /** The sweep: about to consider `rest[0]`; counting the fulls found after it, having tested those
      before `next`; about to list its logs; or deleting first the logs `kids` and then `rest[0]`. */
  datatype SweepState =
    | Resting
    | Considering(rest: seq<BackupRecord>)
    | Counting(rest: seq<BackupRecord>, next: nat, verified: nat)
    | Listing(rest: seq<BackupRecord>)
    | Cascading(rest: seq<BackupRecord>, kids: seq<string>)

  /** `objects` is the bucket by bare key, `fulls` the full backups of the database under way, `cutoff`
      the start of the sweep's retention window, and `arrived` counts the fulls completed since the log
      chose its parent. */
  datatype Config = Config(
    records: map<string, BackupRecord>, objects: set<string>, fulls: set<string>, log: LogBackup,
    sweep: SweepState, cutoff: Time, arrived: nat)

  datatype Event =
    | SelectParent(f: BackupRecord)
    | SaveLog(r: BackupRecord)
    | AbandonLog
    | FailLog(message: string, now: Time)
    | CompleteLog(key: string, size: int, hash: string, now: Time)
    | SaveFull(r: BackupRecord)
    | AbandonFull(id: string)
    | FailFull(id: string, message: string, now: Time)
    | CompleteFull(id: string, key: string, size: int, hash: string, now: Time)
    | TakeSnapshot(rest: seq<BackupRecord>, cutoff: Time)
    | BeginCount
    | TestFull(listed: bool)
    | Choose
    | ListLogs(kids: seq<string>)
    | ExpireLog
    | ExpireFull
    | StopSweep
    | Bucket(objects: set<string>)
    | Elsewhere(records: map<string, BackupRecord>)

  predicate Of(r: BackupRecord, g: GroupKey) {
    OfDatabase(r, g.instanceID, g.database)
  }

  predicate FullOf(r: BackupRecord, g: GroupKey) {
    r.IsFull() && Of(r, g)
  }

  /** The oldest-first listing of the completed SQL Server fulls of `g`. */
  ghost predicate SnapshotOf(rest: seq<BackupRecord>, records: map<string, BackupRecord>, g: GroupKey) {
    && StrictlySorted(rest)
    && forall r :: r in rest <==> r.id in records && records[r.id] == r && Swept(r) && Of(r, g)
  }

  /** What the existence test says of a full: a listing that fails says no. */
  ghost predicate TestFinds(c: Config, r: BackupRecord, listed: bool) {
    listed && r.fileName != "" && exists o :: o in c.objects && Matches("", o, r.fileName)
  }

  predicate UnderWay(g: GroupKey, c: Config, id: string) {
    id in c.fulls && id in c.records && FullOf(c.records[id], g) && c.records[id].status == Running
  }

  /** One call of one of the processes. */
  ghost predicate Next(g: GroupKey, bound: nat, e: Event, c: Config, d: Config) {
    match e
    // the log backup: latestCompletedFull, Save, a failed Save, UpdateStatus, Update of the whole record
    case SelectParent(f) =>
      && c.log.NoLog? && LatestFull(c.records, g.instanceID, g.database, Some(f))
      && d == c.(log := Selected(f.id), arrived := 0)
    case SaveLog(r) =>
      && c.log.Selected? && r.id !in c.records && r.id != "" && IsInitial(r) && !r.IsFull()
      && Of(r, g) && r.parentBackupID == c.log.parent
      && d == c.(records := c.records[r.id := r], log := InFlight(r))
    case AbandonLog =>
      d == c.(log := NoLog)
    case FailLog(message, now) =>
      && c.log.InFlight? && c.log.r.id in c.records
      && d == c.(records := c.records[c.log.r.id := WithStatus(c.records[c.log.r.id], Failed, message, now)],
                 log := NoLog)
    case CompleteLog(key, size, hash, now) =>
      && c.log.InFlight?
      && d == c.(records := c.records[c.log.r.id := CompletedRecord(c.log.r, key, size, hash, now)], log := NoLog)
    // new full backups of the database
    case SaveFull(r) =>
      && r.id !in c.records && r.id != "" && IsInitial(r) && r.IsFull() && Of(r, g) && r.parentBackupID == ""
      && (forall k | k in c.records && c.records[k].IsFull() && Of(c.records[k], g) ::
            c.records[k].startedAt != r.startedAt)
      && d == c.(records := c.records[r.id := r], fulls := c.fulls + {r.id})
    case AbandonFull(id) =>
      d == c.(fulls := c.fulls - {id})
    case FailFull(id, message, now) =>
      && UnderWay(g, c, id)
      && d == c.(records := c.records[id := WithStatus(c.records[id], Failed, message, now)], fulls := c.fulls - {id})
    case CompleteFull(id, key, size, hash, now) =>
      && UnderWay(g, c, id)
      && d == c.(records := c.records[id := CompletedRecord(c.records[id], key, size, hash, now)],
                 fulls := c.fulls - {id}, arrived := c.arrived + 1)
    // the sweep of the database: FindAll and sort, the cutoff, the existence tests of the fulls after the
    // candidate, FindAll again, and the deletions
    case TakeSnapshot(rest, cutoff) =>
      && c.sweep.Resting? && (!c.log.NoLog? ==> c.arrived <= bound)
      && SnapshotOf(rest, c.records, g)
      && d == c.(sweep := Considering(rest), cutoff := cutoff)
    case BeginCount =>
      && c.sweep.Considering? && c.sweep.rest != [] && c.sweep.rest[0].startedAt < c.cutoff
      && d == c.(sweep := Counting(c.sweep.rest, 1, 0))
    case TestFull(listed) =>
      && c.sweep.Counting? && c.sweep.next < |c.sweep.rest|
      && d == c.(sweep := Counting(c.sweep.rest, c.sweep.next + 1,
                                   c.sweep.verified
                                   + if TestFinds(c, c.sweep.rest[c.sweep.next], listed) then 1 else 0))
    case Choose =>
      && c.sweep.Counting? && c.sweep.next == |c.sweep.rest| && c.sweep.verified >= MIN_VERIFIED_FULL_BACKUPS
      && d == c.(sweep := Listing(c.sweep.rest))
    case ListLogs(kids) =>
      && c.sweep.Listing? && c.sweep.rest != []
      && (forall k :: k in kids <==> k in c.records && c.records[k].parentBackupID == c.sweep.rest[0].id)
      && d == c.(sweep := Cascading(c.sweep.rest, kids))
    case ExpireLog =>
      && c.sweep.Cascading? && c.sweep.kids != [] && c.sweep.kids[0] in c.records
      && d == c.(records := c.records[c.sweep.kids[0] := Expire(c.records[c.sweep.kids[0]])],
                 sweep := Cascading(c.sweep.rest, c.sweep.kids[1..]))
    case ExpireFull =>
      && c.sweep.Cascading? && c.sweep.kids == [] && c.sweep.rest != [] && c.sweep.rest[0].id in c.records
      && d == c.(records := c.records[c.sweep.rest[0].id := Expire(c.records[c.sweep.rest[0].id])],
                 sweep := Considering(c.sweep.rest[1..]))
    case StopSweep =>
      d == c.(sweep := Resting)
    // uploads, deletions and lifecycle expiry
    case Bucket(objects) =>
      d == c.(objects := objects)
    // anything on other databases
    case Elsewhere(records) =>
      && (forall k | k in c.records && Of(c.records[k], g) :: k in records && records[k] == c.records[k])
      && (forall k | k in records && Of(records[k], g) :: k in c.records && Of(c.records[k], g))
      && Keyed(records) && c.records.Keys <= records.Keys
      && d == c.(records := records)
  }

  /** The check of the sweep passes only with at least two fulls after the candidate. */
  lemma CheckNeedsTwoAfter(a: Snapshot, fulls: seq<BackupRecord>, i: nat, seen: set<string>)
    requires i < |fulls| && seen <= FoundAfter(a, fulls, i) && |seen| >= MIN_VERIFIED_FULL_BACKUPS
    ensures |fulls[i..]| >= 3
  {
    FoundMembers(a, fulls, i, |fulls|);
    var d, e := PickTwo(seen);
    var j :| i < j < |fulls| && Found(a, fulls[j]) && fulls[j].id == d;
    var k :| i < k < |fulls| && Found(a, fulls[k]) && fulls[k].id == e;
    assert j != k;
  }

  // ---- what holds in every configuration ----

  /** Every completed log of `g` has its full. */
  ghost predicate NoneOrphaned(records: map<string, BackupRecord>, g: GroupKey) {
    forall k | k in records && records[k].CompletedLog() && Of(records[k], g) ::
      IsLiveFull(records, g, records[k].parentBackupID)
  }

  predicate IsLiveFull(records: map<string, BackupRecord>, g: GroupKey, p: string) {
    p in records && records[p].CompletedFull() && Of(records[p], g)
  }

  /** The completed fulls of `g` newer than `p`. */
  function NewerFulls(records: map<string, BackupRecord>, g: GroupKey, p: string): set<string> {
    set k | k in records && p in records && IsLiveFull(records, g, k) && records[p].startedAt < records[k].startedAt
  }

  function Remaining(s: SweepState): seq<BackupRecord> {
    if s.Resting? then [] else s.rest
  }

  ghost predicate Base(g: GroupKey, c: Config) {
    && Keyed(c.records)
    && NoneOrphaned(c.records, g)
    && (forall k, l | k in c.records && l in c.records && k != l && c.records[k].IsFull() && c.records[l].IsFull()
          && Of(c.records[k], g) && Of(c.records[l], g) :: c.records[k].startedAt != c.records[l].startedAt)
    && (forall k | k in c.records && c.records[k].IsFull() && Of(c.records[k], g) :: c.records[k].parentBackupID == "")
  }

  /** What the sweep has yet to consider is still there; while it deletes, two fulls follow, and no
      completed log of the full being deleted escapes it. */
  ghost predicate SweepSound(g: GroupKey, c: Config) {
    var rest := Remaining(c.sweep);
    && StrictlySorted(rest)
    && (forall i | 0 <= i < |rest| ::
          IsLiveFull(c.records, g, rest[i].id) && c.records[rest[i].id].startedAt == rest[i].startedAt)
    && (c.sweep.Counting? ==> 1 <= c.sweep.next <= |rest| && c.sweep.verified < c.sweep.next)
    && (c.sweep.Listing? || c.sweep.Cascading? ==> |rest| >= 3)
    && (c.sweep.Cascading? ==> forall k | k in c.sweep.kids :: k in c.records && !FullOf(c.records[k], g))
    && (c.sweep.Cascading? ==>
          forall k | k in c.records && c.records[k].CompletedLog() && Of(c.records[k], g)
            && c.records[k].parentBackupID == rest[0].id :: k in c.sweep.kids)
  }

  /** The parent a log has chosen stays, and is out of the sweep's reach: one of the last two. */
  ghost predicate ParentSafe(g: GroupKey, c: Config, p: string) {
    && IsLiveFull(c.records, g, p)
    && |NewerFulls(c.records, g, p)| <= c.arrived
    && forall i | 0 <= i < |Remaining(c.sweep)| && Remaining(c.sweep)[i].id == p :: i >= |Remaining(c.sweep)| - 2
  }

  ghost predicate LogSound(g: GroupKey, c: Config) {
    match c.log
    case NoLog => true
    case Selected(p) => ParentSafe(g, c, p)
    case InFlight(r) =>
      && ParentSafe(g, c, r.parentBackupID)
      && r.id != "" && IsInitial(r) && !r.IsFull() && Of(r, g)
      && r.id in c.records && !c.records[r.id].IsFull() && c.records[r.id].parentBackupID == r.parentBackupID
      && Of(c.records[r.id], g)
  }

  ghost predicate Sound(g: GroupKey, c: Config) {
    Base(g, c) && SweepSound(g, c) && LogSound(g, c)
  }

  /** The start: any catalogue without orphans, with nothing under way. */
  ghost predicate Start(g: GroupKey, c: Config) {
    Base(g, c) && c.log.NoLog? && c.sweep.Resting? && c.fulls == {}
  }

  /** The steps of some machine. */
  ghost predicate Steps<C(!new), E(!new)>(next: (E, C, C) -> bool, configs: seq<C>, events: seq<E>) {
    && |configs| == |events| + 1
    && forall i | 0 <= i < |events| :: next(events[i], configs[i], configs[i + 1])
  }

  ghost function Machine(g: GroupKey, bound: nat): (Event, Config, Config) -> bool {
    (e, c, d) => Next(g, bound, e, c, d)
  }

  ghost predicate Execution(g: GroupKey, bound: nat, configs: seq<Config>, events: seq<Event>) {
    Steps(Machine(g, bound), configs, events) && Start(g, configs[0])
  }

  /** The chosen parent is not the full the sweep is deleting. */
  lemma ParentNotCandidate(g: GroupKey, c: Config, p: string)
    requires SweepSound(g, c) && ParentSafe(g, c, p) && (c.sweep.Listing? || c.sweep.Cascading?)
    ensures Remaining(c.sweep)[0].id != p
  {
  }

  lemma NewerFullsShrink(
    records: map<string, BackupRecord>, later: map<string, BackupRecord>, g: GroupKey, p: string, added: set<string>)
    requires p in records && p in later && records[p].startedAt == later[p].startedAt
    requires forall k | k in later && IsLiveFull(later, g, k) ::
               k in added || (IsLiveFull(records, g, k) && records[k].startedAt == later[k].startedAt)
    ensures |NewerFulls(later, g, p)| <= |NewerFulls(records, g, p)| + |added|
  {
    assert NewerFulls(later, g, p) <= NewerFulls(records, g, p) + added;
    Subset(NewerFulls(later, g, p), NewerFulls(records, g, p) + added);
  }

  /** Changing or adding one record that neither was nor becomes a live full leaves fulls alone. */
  lemma SetAside(g: GroupKey, c: Config, d: Config, id: string, r: BackupRecord, p: string)
    requires ParentSafe(g, c, p) && d.records == c.records[id := r] && !r.CompletedFull()
    requires id != p && d.arrived == c.arrived
    requires forall i | 0 <= i < |Remaining(d.sweep)| && Remaining(d.sweep)[i].id == p :: i >= |Remaining(d.sweep)| - 2
    ensures ParentSafe(g, d, p)
  {
    NewerFullsShrink(c.records, d.records, g, p, {});
  }

  // ---- one lemma per event that matters ----

  lemma SelectKeeps(g: GroupKey, c: Config, d: Config, f: BackupRecord)
    requires Sound(g, c) && Next(g, 1, SelectParent(f), c, d)
    ensures Sound(g, d)
  {
    var rest := Remaining(c.sweep);
    assert NewerFulls(c.records, g, f.id) == {};
    assert forall i | 0 <= i < |rest| :: rest[i].startedAt <= f.startedAt;
    forall i | 0 <= i < |rest| && rest[i].id == f.id ensures i >= |rest| - 2 {
      assert rest[|rest| - 1].startedAt <= rest[i].startedAt;
    }
  }

  lemma SnapshotKeeps(g: GroupKey, c: Config, d: Config, rest: seq<BackupRecord>, cutoff: Time)
    requires Sound(g, c) && Next(g, 1, TakeSnapshot(rest, cutoff), c, d)
    ensures Sound(g, d)
  {
    forall i | 0 <= i < |rest|
      ensures IsLiveFull(c.records, g, rest[i].id) && c.records[rest[i].id].startedAt == rest[i].startedAt
    {
      assert rest[i] in rest;
    }
    if !c.log.NoLog? {
      var p := ChosenParent(c.log);
      forall i | 0 <= i < |rest| && rest[i].id == p ensures i >= |rest| - 2 {
        AfterAreNewer(c.records, g, rest, i);
      }
    }
  }

  /** At least as many fulls are newer than one in the snapshot as follow it there. */
  lemma AfterAreNewer(records: map<string, BackupRecord>, g: GroupKey, rest: seq<BackupRecord>, i: nat)
    requires SnapshotOf(rest, records, g) && i < |rest|
    ensures |rest| - 1 - i <= |NewerFulls(records, g, rest[i].id)|
  {
    var later := rest[i + 1..];
    assert rest[i] in rest;
    forall j, k | 0 <= j < k < |later| ensures later[j].id != later[k].id {
      assert later[j] == rest[i + 1 + j] && later[k] == rest[i + 1 + k];
      assert later[j] in rest && later[k] in rest;
    }
    CountIds(later);
    forall q | q in Ids(later) ensures q in NewerFulls(records, g, rest[i].id) {
      var j :| 0 <= j < |later| && later[j].id == q;
      assert later[j] == rest[i + 1 + j];
      assert rest[i + 1 + j] in rest;
    }
    Subset(Ids(later), NewerFulls(records, g, rest[i].id));
  }

  /** The parent of the log under way. */
  function ChosenParent(l: LogBackup): string {
    match l
    case NoLog => ""
    case Selected(p) => p
    case InFlight(r) => r.parentBackupID
  }

  /** A full under way changes its status. */
  lemma FullChangesBase(g: GroupKey, c: Config, d: Config, id: string)
    requires Base(g, c) && UnderWay(g, c, id) && id in d.records && d.records == c.records[id := d.records[id]]
    requires FullOf(d.records[id], g) && d.records[id].id == id
    requires d.records[id].startedAt == c.records[id].startedAt
    requires d.records[id].parentBackupID == c.records[id].parentBackupID
    ensures Base(g, d)
  {
    forall k | k in d.records && d.records[k].CompletedLog() && Of(d.records[k], g)
      ensures IsLiveFull(d.records, g, d.records[k].parentBackupID)
    {
      assert IsLiveFull(c.records, g, c.records[k].parentBackupID);
    }
  }

  /** It was not among those the sweep has yet to consider. */
  lemma FullChangesSweep(g: GroupKey, c: Config, d: Config, id: string)
    requires SweepSound(g, c) && UnderWay(g, c, id) && d.sweep == c.sweep
    requires id in d.records && d.records == c.records[id := d.records[id]] && FullOf(d.records[id], g)
    ensures SweepSound(g, d)
  {
  }

  /** Nor was it the chosen parent, or the log under way. */
  lemma FullChangesLog(g: GroupKey, c: Config, d: Config, id: string)
    requires LogSound(g, c) && UnderWay(g, c, id) && d.log == c.log && d.sweep == c.sweep
    requires id in d.records && d.records == c.records[id := d.records[id]]
    requires d.arrived == c.arrived + if d.records[id].CompletedFull() then 1 else 0
    ensures LogSound(g, d)
  {
    if !c.log.NoLog? {
      var added := if d.records[id].CompletedFull() then {id} else {};
      NewerFullsShrink(c.records, d.records, g, ChosenParent(c.log), added);
    }
  }

  lemma CompleteFullKeeps(g: GroupKey, c: Config, d: Config, e: Event)
    requires Sound(g, c) && e.CompleteFull? && Next(g, 1, e, c, d)
    ensures Sound(g, d)
  {
    hide Base, SweepSound, LogSound, TestFinds, LatestFull, SnapshotOf;
    RecordsKeyed(g, c);
    FullChangesBase(g, c, d, e.id);
    FullChangesSweep(g, c, d, e.id);
    FullChangesLog(g, c, d, e.id);
  }

  lemma RecordsKeyed(g: GroupKey, c: Config)
    requires Base(g, c)
    ensures Keyed(c.records)
  {
  }

  lemma ExpireFullKeepsBase(g: GroupKey, c: Config, d: Config)
    requires Base(g, c) && SweepSound(g, c) && Next(g, 1, ExpireFull, c, d)
    ensures Base(g, d)
  {
    forall k | k in d.records && d.records[k].CompletedLog() && Of(d.records[k], g)
      ensures IsLiveFull(d.records, g, d.records[k].parentBackupID)
    {
      assert IsLiveFull(c.records, g, c.records[k].parentBackupID);
    }
  }

  lemma ExpireFullKeepsSweep(g: GroupKey, c: Config, d: Config)
    requires SweepSound(g, c) && Next(g, 1, ExpireFull, c, d)
    ensures SweepSound(g, d)
    ensures forall i | 0 <= i < |d.sweep.rest| :: d.sweep.rest[i] == c.sweep.rest[i + 1]
  {
    var rest, tail, id := c.sweep.rest, c.sweep.rest[1..], c.sweep.rest[0].id;
    forall i | 0 <= i < |tail| ensures tail[i] == rest[i + 1] && tail[i].id != id {
    }
  }

  lemma ExpireFullKeepsLog(g: GroupKey, c: Config, d: Config, id: string)
    requires LogSound(g, c) && id in c.records && c.records[id].IsFull()
    requires !c.log.NoLog? ==> ChosenParent(c.log) != id
    requires d == c.(records := c.records[id := Expire(c.records[id])], sweep := d.sweep)
    requires |Remaining(c.sweep)| == |Remaining(d.sweep)| + 1
    requires forall i | 0 <= i < |Remaining(d.sweep)| :: Remaining(d.sweep)[i] == Remaining(c.sweep)[i + 1]
    ensures LogSound(g, d)
  {
    if !c.log.NoLog? {
      SetAside(g, c, d, id, d.records[id], ChosenParent(c.log));
    }
  }

  lemma ExpireFullKeeps(g: GroupKey, c: Config, d: Config)
    requires Sound(g, c) && Next(g, 1, ExpireFull, c, d)
    ensures Sound(g, d)
  {
    var id := c.sweep.rest[0].id;
    if !c.log.NoLog? {
      ParentNotCandidate(g, c, ChosenParent(c.log));
    }
    assert c.records[id].IsFull();
    hide Base, LogSound, TestFinds, LatestFull, SnapshotOf;
    ExpireFullKeepsBase(g, c, d);
    ExpireFullKeepsSweep(g, c, d);
    ExpireFullKeepsLog(g, c, d, id);
  }

  /** Changing one record that is not a full of `g`, without completing a log, keeps the base. */
  lemma BaseKept(g: GroupKey, c: Config, d: Config, id: string)
    requires Base(g, c) && id in d.records && d.records == c.records[id := d.records[id]]
    requires d.records[id].id == id != ""
    requires id in c.records ==> !FullOf(c.records[id], g)
    requires !FullOf(d.records[id], g) && d.records[id].status != Completed
    ensures Base(g, d)
  {
    forall k | k in d.records && d.records[k].CompletedLog() && Of(d.records[k], g)
      ensures IsLiveFull(d.records, g, d.records[k].parentBackupID)
    {
      assert k != id && IsLiveFull(c.records, g, c.records[k].parentBackupID);
    }
  }

  lemma ExpireLogKeepsSweep(g: GroupKey, c: Config, d: Config)
    requires Sound(g, c) && Next(g, 1, ExpireLog, c, d)
    ensures SweepSound(g, d)
  {
    hide LogSound, NoneOrphaned, TestFinds, LatestFull, SnapshotOf;
    var kid := c.sweep.kids[0];
    assert !FullOf(c.records[kid], g);
    forall k | k in c.sweep.kids && k != kid ensures k in d.sweep.kids {
    }
  }

  lemma ExpireLogKeepsLog(g: GroupKey, c: Config, d: Config, kid: string)
    requires LogSound(g, c) && kid in c.records && !FullOf(c.records[kid], g)
    requires d == c.(records := c.records[kid := Expire(c.records[kid])], sweep := d.sweep)
    requires Remaining(d.sweep) == Remaining(c.sweep)
    ensures LogSound(g, d)
  {
    if !c.log.NoLog? {
      SetAside(g, c, d, kid, d.records[kid], ChosenParent(c.log));
    }
  }

  lemma ExpireLogKeeps(g: GroupKey, c: Config, d: Config)
    requires Sound(g, c) && Next(g, 1, ExpireLog, c, d)
    ensures Sound(g, d)
  {
    var kid := c.sweep.kids[0];
    assert !FullOf(c.records[kid], g) && c.records[kid].id == kid != "";
    hide LogSound, NoneOrphaned, TestFinds, LatestFull, SnapshotOf;
    BaseKept(g, c, d, kid);
    ExpireLogKeepsSweep(g, c, d);
    ExpireLogKeepsLog(g, c, d, kid);
  }

  lemma SaveLogKeeps(g: GroupKey, c: Config, d: Config, r: BackupRecord)
    requires Sound(g, c) && Next(g, 1, SaveLog(r), c, d)
    ensures Sound(g, d)
  {
    BaseKept(g, c, d, r.id);
    SetAside(g, c, d, r.id, r, r.parentBackupID);
  }

  lemma FailLogKeeps(g: GroupKey, c: Config, d: Config, e: Event)
    requires Sound(g, c) && e.FailLog? && Next(g, 1, e, c, d)
    ensures Sound(g, d)
  {
    BaseKept(g, c, d, c.log.r.id);
  }

  lemma CompleteLogKeeps(g: GroupKey, c: Config, d: Config, e: Event)
    requires Sound(g, c) && e.CompleteLog? && Next(g, 1, e, c, d)
    ensures Sound(g, d)
  {
    assert !FullOf(c.records[c.log.r.id], g) && c.log.r.parentBackupID != c.log.r.id;
    CompleteLogKeepsBase(g, c, d);
    CompleteLogKeepsSweep(g, c, d, e);
  }

  lemma CompleteLogKeepsSweep(g: GroupKey, c: Config, d: Config, e: Event)
    requires Sound(g, c) && e.CompleteLog? && Next(g, 1, e, c, d)
    ensures SweepSound(g, d)
  {
    hide TestFinds, LatestFull, SnapshotOf, NoneOrphaned, NewerFulls;
    var r := c.log.r;
    assert !FullOf(c.records[r.id], g) && d.records[r.id].CompletedLog();
    if c.sweep.Cascading? {
      ParentNotCandidate(g, c, r.parentBackupID);
    }
  }

  lemma CompleteLogKeepsBase(g: GroupKey, c: Config, d: Config)
    requires Base(g, c) && c.log.InFlight? && c.log.r.id in d.records && c.log.r.id != ""
    requires d.records == c.records[c.log.r.id := d.records[c.log.r.id]]
    requires d.records[c.log.r.id].id == c.log.r.id && !FullOf(d.records[c.log.r.id], g)
    requires d.records[c.log.r.id].parentBackupID == c.log.r.parentBackupID != c.log.r.id
    requires IsLiveFull(c.records, g, c.log.r.parentBackupID)
    requires c.log.r.id in c.records && !FullOf(c.records[c.log.r.id], g)
    ensures Base(g, d)
  {
    forall k | k in d.records && d.records[k].CompletedLog() && Of(d.records[k], g)
      ensures IsLiveFull(d.records, g, d.records[k].parentBackupID)
    {
      if k != c.log.r.id {
        assert IsLiveFull(c.records, g, c.records[k].parentBackupID);
      }
    }
  }

  lemma SaveFullKeepsBase(g: GroupKey, c: Config, d: Config, r: BackupRecord)
    requires Base(g, c) && d.records == c.records[r.id := r] && r.id !in c.records && r.id != ""
    requires r.IsFull() && Of(r, g) && r.status == Running && r.parentBackupID == ""
    requires forall k | k in c.records && c.records[k].IsFull() && Of(c.records[k], g) ::
               c.records[k].startedAt != r.startedAt
    ensures Base(g, d)
  {
    forall k | k in d.records && d.records[k].CompletedLog() && Of(d.records[k], g)
      ensures IsLiveFull(d.records, g, d.records[k].parentBackupID)
    {
      assert k != r.id && IsLiveFull(c.records, g, c.records[k].parentBackupID);
    }
  }

  lemma NewFullKeepsSweep(g: GroupKey, c: Config, d: Config, r: BackupRecord)
    requires SweepSound(g, c) && r.id !in c.records && r.IsFull() && d.records == c.records[r.id := r]
    requires d.sweep == c.sweep
    ensures SweepSound(g, d)
  {
  }

  lemma NewFullKeepsLog(g: GroupKey, c: Config, d: Config, r: BackupRecord)
    requires LogSound(g, c) && r.id !in c.records && r.status == Running && d.records == c.records[r.id := r]
    requires d.log == c.log && d.sweep == c.sweep && d.arrived == c.arrived
    ensures LogSound(g, d)
  {
    if !c.log.NoLog? {
      SetAside(g, c, d, r.id, r, ChosenParent(c.log));
    }
  }

  lemma SaveFullKeeps(g: GroupKey, c: Config, d: Config, e: Event)
    requires Sound(g, c) && e.SaveFull? && Next(g, 1, e, c, d)
    ensures Sound(g, d)
  {
    hide Base, SweepSound, LogSound, TestFinds, LatestFull, SnapshotOf;
    SaveFullKeepsBase(g, c, d, e.r);
    NewFullKeepsSweep(g, c, d, e.r);
    NewFullKeepsLog(g, c, d, e.r);
  }

  /** The records of `g` are the same. */
  ghost predicate SameOf(g: GroupKey, c: Config, d: Config) {
    && (forall k | k in c.records && Of(c.records[k], g) :: k in d.records && d.records[k] == c.records[k])
    && (forall k | k in d.records && Of(d.records[k], g) :: k in c.records && Of(c.records[k], g))
    && Keyed(d.records) && c.records.Keys <= d.records.Keys
    && d.fulls == c.fulls && d.log == c.log && d.sweep == c.sweep && d.arrived == c.arrived
  }

  lemma ElsewhereKeeps(g: GroupKey, c: Config, d: Config, e: Event)
    requires Sound(g, c) && e.Elsewhere? && Next(g, 1, e, c, d)
    ensures Sound(g, d)
  {
    assert SameOf(g, c, d);
    ElsewhereKeepsBase(g, c, d);
    ElsewhereKeepsSweep(g, c, d);
    ElsewhereKeepsLog(g, c, d);
  }

  lemma ElsewhereKeepsSweep(g: GroupKey, c: Config, d: Config)
    requires SweepSound(g, c) && SameOf(g, c, d)
    ensures SweepSound(g, d)
  {
  }

  lemma ElsewhereKeepsLog(g: GroupKey, c: Config, d: Config)
    requires LogSound(g, c) && SameOf(g, c, d)
    ensures LogSound(g, d)
  {
    if !c.log.NoLog? {
      NewerFullsShrink(c.records, d.records, g, ChosenParent(c.log), {});
    }
  }

  lemma ElsewhereKeepsBase(g: GroupKey, c: Config, d: Config)
    requires Base(g, c) && Keyed(d.records)
    requires forall k | k in c.records && Of(c.records[k], g) :: k in d.records && d.records[k] == c.records[k]
    requires forall k | k in d.records && Of(d.records[k], g) :: k in c.records && Of(c.records[k], g)
    ensures Base(g, d)
  {
    forall k | k in d.records && d.records[k].CompletedLog() && Of(d.records[k], g)
      ensures IsLiveFull(d.records, g, d.records[k].parentBackupID)
    {
      assert IsLiveFull(c.records, g, c.records[k].parentBackupID);
    }
  }

  lemma SameRestKeeps(g: GroupKey, c: Config, d: Config)
    requires Sound(g, c) && d == c.(sweep := d.sweep) && Remaining(d.sweep) == Remaining(c.sweep)
    requires !d.sweep.Cascading? && (d.sweep.Listing? ==> |d.sweep.rest| >= 3)
    requires d.sweep.Counting? ==> 1 <= d.sweep.next <= |d.sweep.rest| && d.sweep.verified < d.sweep.next
    ensures Sound(g, d)
  {
    hide NoneOrphaned, NewerFulls;
    assert Base(g, d) && SweepSound(g, d);
  }

  /** Counting, and choosing a candidate. */
  lemma CountingKeeps(g: GroupKey, c: Config, d: Config, e: Event)
    requires Sound(g, c) && (e.BeginCount? || e.TestFull? || e.Choose?) && Next(g, 1, e, c, d)
    ensures Sound(g, d)
  {
    assert c.sweep.Counting? ==> 1 <= c.sweep.next <= |c.sweep.rest| && c.sweep.verified < c.sweep.next by {
      assert SweepSound(g, c);
    }
    hide Sound, TestFinds, SnapshotOf;
    SameRestKeeps(g, c, d);
  }

  /** Listing the logs of the candidate. */
  lemma ListLogsKeeps(g: GroupKey, c: Config, d: Config, kids: seq<string>)
    requires Sound(g, c) && Next(g, 1, ListLogs(kids), c, d)
    ensures Sound(g, d)
  {
    hide TestFinds, NoneOrphaned, LatestFull, SnapshotOf;
    assert d.records == c.records && d.log == c.log && Remaining(d.sweep) == Remaining(c.sweep);
    forall k | k in kids ensures !FullOf(c.records[k], g) {
      assert IsLiveFull(c.records, g, c.sweep.rest[0].id);
    }
    assert SweepSound(g, d);
  }

  /** Giving up a full, and what happens to the bucket. */
  lemma IdleKeeps(g: GroupKey, c: Config, d: Config)
    requires Sound(g, c) && d.records == c.records && d.log == c.log && d.sweep == c.sweep && d.arrived == c.arrived
    ensures Sound(g, d)
  {
    hide NoneOrphaned, NewerFulls;
    assert Base(g, d) && SweepSound(g, d);
  }

  /** Giving up the log. */
  lemma AbandonLogKeeps(g: GroupKey, c: Config, d: Config)
    requires Sound(g, c) && d == c.(log := NoLog)
    ensures Sound(g, d)
  {
    hide NoneOrphaned, ParentSafe;
    assert Base(g, d) && SweepSound(g, d);
  }

  /** Giving up the sweep. */
  lemma StopSweepKeeps(g: GroupKey, c: Config, d: Config)
    requires Sound(g, c) && d == c.(sweep := Resting)
    ensures Sound(g, d)
  {
    hide NoneOrphaned, NewerFulls;
    assert Base(g, d) && SweepSound(g, d);
  }

  lemma StoppingKeeps(g: GroupKey, c: Config, d: Config, e: Event)
    requires Sound(g, c) && (e.AbandonLog? || e.AbandonFull? || e.StopSweep? || e.Bucket?) && Next(g, 1, e, c, d)
    ensures Sound(g, d)
  {
    hide Sound;
    match e
    case AbandonLog => AbandonLogKeeps(g, c, d);
    case StopSweep => StopSweepKeeps(g, c, d);
    case _ => IdleKeeps(g, c, d);
  }

  lemma FailFullKeeps(g: GroupKey, c: Config, d: Config, e: Event)
    requires Sound(g, c) && e.FailFull? && Next(g, 1, e, c, d)
    ensures Sound(g, d)
  {
    hide Base, SweepSound, LogSound, TestFinds, LatestFull, SnapshotOf;
    RecordsKeyed(g, c);
    FullChangesBase(g, c, d, e.id);
    FullChangesSweep(g, c, d, e.id);
    FullChangesLog(g, c, d, e.id);
  }

  /** Every call keeps it. */
  lemma NextKeepsSound(g: GroupKey, e: Event, c: Config, d: Config)
    requires Sound(g, c) && Next(g, 1, e, c, d)
    ensures Sound(g, d)
  {
    hide Sound, Next;
    match e
    case SelectParent(f) => SelectKeeps(g, c, d, f);
    case SaveLog(r) => SaveLogKeeps(g, c, d, r);
    case AbandonLog => StoppingKeeps(g, c, d, e);
    case FailLog(_, _) => FailLogKeeps(g, c, d, e);
    case CompleteLog(_, _, _, _) => CompleteLogKeeps(g, c, d, e);
    case SaveFull(_) => SaveFullKeeps(g, c, d, e);
    case AbandonFull(_) => StoppingKeeps(g, c, d, e);
    case FailFull(_, _, _) => FailFullKeeps(g, c, d, e);
    case CompleteFull(_, _, _, _, _) => CompleteFullKeeps(g, c, d, e);
    case TakeSnapshot(rest, cutoff) => SnapshotKeeps(g, c, d, rest, cutoff);
    case BeginCount => CountingKeeps(g, c, d, e);
    case TestFull(_) => CountingKeeps(g, c, d, e);
    case Choose => CountingKeeps(g, c, d, e);
    case ListLogs(kids) => ListLogsKeeps(g, c, d, kids);
    case ExpireLog => ExpireLogKeeps(g, c, d);
    case ExpireFull => ExpireFullKeeps(g, c, d);
    case StopSweep => StoppingKeeps(g, c, d, e);
    case Bucket(_) => StoppingKeeps(g, c, d, e);
    case Elsewhere(_) => ElsewhereKeeps(g, c, d, e);
  }

  lemma {:induction false} ExecutionsSound(g: GroupKey, bound: nat, configs: seq<Config>, events: seq<Event>, i: nat)
    requires bound <= 1 && Execution(g, bound, configs, events) && i < |configs|
    ensures Sound(g, configs[i])
  {
    if i > 0 {
      ExecutionsSound(g, bound, configs, events, i - 1);
      assert Machine(g, bound)(events[i - 1], configs[i - 1], configs[i]);
      NextKeepsSound(g, events[i - 1], configs[i - 1], configs[i]);
    }
  }

  /** A catalogue that sequential runs can reach is a start of the machine. */
  lemma WellFormedStarts(g: GroupKey, a: Snapshot, objects: set<string>, cutoff: Time, n: nat)
    requires Consistent(a)
    ensures Start(g, Config(a.records, objects, {}, NoLog, Resting, cutoff, n))
  {
    forall k | k in a.records && a.records[k].CompletedLog() && Of(a.records[k], g)
      ensures IsLiveFull(a.records, g, a.records[k].parentBackupID)
    {
      assert Parent(a.records[a.records[k].parentBackupID], a.records[k]);
    }
  }

  /** However the calls interleave, no completed log ever has an expired or missing parent. */
  ghost predicate NeverOrphans(g: GroupKey, bound: nat) {
    forall configs: seq<Config>, events: seq<Event>, i: nat | Execution(g, bound, configs, events) && i < |configs| ::
      NoneOrphaned(configs[i].records, g)
  }

  // ---- an execution in which two new fulls complete before the snapshot ----
  // The chosen parent is then no longer one of the two newest; its logs are listed before the new
  // one is saved, and the log completes on an expired full.

  function Starting(g: GroupKey, id: string, kind: BackupType, parent: string, t: Time): BackupRecord {
    BackupRecord(id, g.instanceID, "n", g.database, "", SQLServer, kind, parent, 0, "", Running, "", t, None, 0, 0, 0)
  }

  function Completing(r: BackupRecord): BackupRecord {
    CompletedRecord(r, r.id, 0, "", r.startedAt)
  }

  /** The full chosen as parent, the two new ones, and the log. The first is older than the retention
      window, which starts at `CUTOFF`. */
  const CUTOFF: Time := 2

  function OldFull(g: GroupKey): BackupRecord { Completing(Starting(g, "p", Full, "", 1)) }
  function NewFull(g: GroupKey): BackupRecord { Starting(g, "f", Full, "", 3) }
  function NewerFull(g: GroupKey): BackupRecord { Starting(g, "h", Full, "", 4) }
  function NewLog(g: GroupKey): BackupRecord { Starting(g, "l", Log, "p", 5) }

  function Listed(g: GroupKey): seq<BackupRecord> {
    [OldFull(g), Completing(NewFull(g)), Completing(NewerFull(g))]
  }

  /** The parent is chosen; two fulls start, are uploaded and complete. */
  function TwoFullsArrive(g: GroupKey): seq<Config> {
    var r0 := map["p" := OldFull(g)];
    var r1 := r0["f" := NewFull(g)];
    var r2 := r1["h" := NewerFull(g)];
    var r3 := r2["f" := Completing(NewFull(g))];
    var r4 := r3["h" := Completing(NewerFull(g))];
    var s := Selected("p");
    [Config(r0, {"p"}, {}, NoLog, Resting, 0, 0),
     Config(r0, {"p"}, {}, s, Resting, 0, 0),
     Config(r1, {"p"}, {"f"}, s, Resting, 0, 0),
     Config(r2, {"p"}, {"f"} + {"h"}, s, Resting, 0, 0),
     Config(r2, {"p", "f", "h"}, {"f"} + {"h"}, s, Resting, 0, 0),
     Config(r3, {"p", "f", "h"}, {"f"} + {"h"} - {"f"}, s, Resting, 0, 1),
     Config(r4, {"p", "f", "h"}, {"f"} + {"h"} - {"f"} - {"h"}, s, Resting, 0, 2)]
  }

  function ArrivalEvents(g: GroupKey): seq<Event> {
    [SelectParent(OldFull(g)), SaveFull(NewFull(g)), SaveFull(NewerFull(g)), Bucket({"p", "f", "h"}),
     CompleteFull("f", "f", 0, "", 3), CompleteFull("h", "h", 0, "", 4)]
  }

  function AllCompleted(g: GroupKey): map<string, BackupRecord> {
    map["p" := OldFull(g), "f" := Completing(NewFull(g)), "h" := Completing(NewerFull(g))]
  }

  function During(records: map<string, BackupRecord>, objects: set<string>, log: LogBackup, sweep: SweepState): Config {
    Config(records, objects, {}, log, sweep, CUTOFF, 2)
  }

  /** The sweep counts two verified fulls after the parent, chooses it, and lists its logs. */
  function ParentChosenBySweep(g: GroupKey): seq<Config> {
    var r, o, s := AllCompleted(g), {"p", "f", "h"}, Selected("p");
    [During(r, o, s, Considering(Listed(g))),
     During(r, o, s, Counting(Listed(g), 1, 0)),
     During(r, o, s, Counting(Listed(g), 2, 1)),
     During(r, o, s, Counting(Listed(g), 3, 2)),
     During(r, o, s, Listing(Listed(g))),
     During(r, o, s, Cascading(Listed(g), []))]
  }

  function CheckEvents(): seq<Event> {
    [BeginCount, TestFull(true), TestFull(true), Choose, ListLogs([])]
  }

  /** The log is saved, the parent deleted, and the log uploaded and completed. */
  function ParentDeleted(g: GroupKey): seq<Config> {
    var r1 := AllCompleted(g)["l" := NewLog(g)];
    var r2 := r1["p" := Expire(OldFull(g))];
    var r3 := r2["l" := Completing(NewLog(g))];
    var rest := Listed(g);
    [During(r1, {"p", "f", "h"}, InFlight(NewLog(g)), Cascading(rest, [])),
     During(r1, {"f", "h"}, InFlight(NewLog(g)), Cascading(rest, [])),
     During(r2, {"f", "h"}, InFlight(NewLog(g)), Considering(rest[1..])),
     During(r2, {"f", "h", "l"}, InFlight(NewLog(g)), Considering(rest[1..])),
     During(r3, {"f", "h", "l"}, NoLog, Considering(rest[1..]))]
  }

  function DeletionEvents(): seq<Event> {
    [Bucket({"f", "h"}), ExpireFull, Bucket({"f", "h", "l"}), CompleteLog("l", 0, "", 5)]
  }

  lemma TwoFullsStart(g: GroupKey)
    ensures |TwoFullsArrive(g)| == 7 && Start(g, TwoFullsArrive(g)[0])
  {
    var c := TwoFullsArrive(g)[0];
    assert c.records.Keys == {"p"};
  }

  lemma ParentSelected(g: GroupKey, bound: nat)
    ensures Next(g, bound, SelectParent(OldFull(g)), TwoFullsArrive(g)[0], TwoFullsArrive(g)[1])
  {
    assert TwoFullsArrive(g)[0].records.Keys == {"p"};
    assert LatestFull(TwoFullsArrive(g)[0].records, g.instanceID, g.database, Some(OldFull(g)));
  }

  lemma FullsSaved(g: GroupKey, bound: nat)
    ensures Next(g, bound, SaveFull(NewFull(g)), TwoFullsArrive(g)[1], TwoFullsArrive(g)[2])
    ensures Next(g, bound, SaveFull(NewerFull(g)), TwoFullsArrive(g)[2], TwoFullsArrive(g)[3])
  {
  }

  lemma FullsUploaded(g: GroupKey, bound: nat)
    ensures Next(g, bound, Bucket({"p", "f", "h"}), TwoFullsArrive(g)[3], TwoFullsArrive(g)[4])
  {
  }

  lemma FullsCompleted(g: GroupKey, bound: nat)
    ensures Next(g, bound, CompleteFull("f", "f", 0, "", 3), TwoFullsArrive(g)[4], TwoFullsArrive(g)[5])
    ensures Next(g, bound, CompleteFull("h", "h", 0, "", 4), TwoFullsArrive(g)[5], TwoFullsArrive(g)[6])
  {
  }

  lemma TwoFullsArriveSteps(g: GroupKey, bound: nat)
    ensures Steps(Machine(g, bound), TwoFullsArrive(g), ArrivalEvents(g))
  {
    hide Next;
    var c, e := TwoFullsArrive(g), ArrivalEvents(g);
    ParentSelected(g, bound);
    FullsSaved(g, bound);
    FullsUploaded(g, bound);
    FullsCompleted(g, bound);
    forall i | 0 <= i < |e| ensures Machine(g, bound)(e[i], c[i], c[i + 1]) {
      assert i == 0 || i == 1 || i == 2 || i == 3 || i == 4 || i == 5;
    }
  }

  lemma SnapshotStep(g: GroupKey, bound: nat)
    requires bound >= 2
    ensures Machine(g, bound)(TakeSnapshot(Listed(g), CUTOFF), TwoFullsArrive(g)[6], ParentChosenBySweep(g)[0])
  {
    var c := TwoFullsArrive(g)[6];
    assert c.records == AllCompleted(g) && c.fulls == {};
    ListedIsSnapshot(g);
  }

  lemma ListedIsSnapshot(g: GroupKey)
    ensures SnapshotOf(Listed(g), AllCompleted(g), g)
  {
    assert AllCompleted(g).Keys == {"p", "f", "h"};
    forall r ensures r in Listed(g) <==> r.id in AllCompleted(g) && AllCompleted(g)[r.id] == r && Swept(r) && Of(r, g) {
    }
  }

  lemma TestedFulls(g: GroupKey, bound: nat)
    ensures forall i | 0 <= i < 3 ::
              Next(g, bound, CheckEvents()[i], ParentChosenBySweep(g)[i], ParentChosenBySweep(g)[i + 1])
  {
    OwnKeyMatches("f");
    OwnKeyMatches("h");
  }

  lemma ChosenAndListed(g: GroupKey, bound: nat)
    ensures Next(g, bound, Choose, ParentChosenBySweep(g)[3], ParentChosenBySweep(g)[4])
    ensures Next(g, bound, ListLogs([]), ParentChosenBySweep(g)[4], ParentChosenBySweep(g)[5])
  {
    assert AllCompleted(g).Keys == {"p", "f", "h"};
  }

  lemma CheckSteps(g: GroupKey, bound: nat)
    ensures Steps(Machine(g, bound), ParentChosenBySweep(g), CheckEvents())
  {
    hide Next;
    var c, e := ParentChosenBySweep(g), CheckEvents();
    TestedFulls(g, bound);
    ChosenAndListed(g, bound);
    forall i | 0 <= i < |e| ensures Machine(g, bound)(e[i], c[i], c[i + 1]) {
      assert i < 3 || i == 3 || i == 4;
    }
  }

  lemma OwnKeyMatches(key: string)
    ensures Matches("", key, key)
  {
  }

  lemma SaveLogStep(g: GroupKey, bound: nat)
    ensures Machine(g, bound)(SaveLog(NewLog(g)), ParentChosenBySweep(g)[5], ParentDeleted(g)[0])
  {
  }

  lemma ParentDeletedSteps(g: GroupKey, bound: nat)
    ensures Steps(Machine(g, bound), ParentDeleted(g), DeletionEvents())
  {
  }

  lemma ParentDeletedOrphans(g: GroupKey)
    ensures |ParentDeleted(g)| == 5 && !NoneOrphaned(ParentDeleted(g)[4].records, g)
  {
    var c := ParentDeleted(g)[4];
    assert c.records["l"].CompletedLog() && Of(c.records["l"], g);
    assert !IsLiveFull(c.records, g, "p");
  }

  lemma Join<C(!new), E(!new)>(next: (E, C, C) -> bool, c: seq<C>, e: seq<E>, x: E, d: seq<C>, f: seq<E>)
    requires Steps(next, c, e) && Steps(next, d, f) && next(x, c[|e|], d[0])
    ensures Steps(next, c + d, e + [x] + f)
  {
  }

  lemma OneOrphanIsEnough(g: GroupKey, bound: nat, configs: seq<Config>, events: seq<Event>, i: nat)
    requires Execution(g, bound, configs, events) && i < |configs| && !NoneOrphaned(configs[i].records, g)
    ensures !NeverOrphans(g, bound)
  {
  }

  lemma OrphanWithTwoNewFulls(g: GroupKey, bound: nat)
    requires bound >= 2
    ensures !NeverOrphans(g, bound)
  {
    hide TwoFullsArrive, ParentChosenBySweep, ParentDeleted, ArrivalEvents, CheckEvents, DeletionEvents;
    hide NeverOrphans, Start;
    TwoFullsStart(g);
    TwoFullsArriveSteps(g, bound);
    SnapshotStep(g, bound);
    CheckSteps(g, bound);
    SaveLogStep(g, bound);
    ParentDeletedSteps(g, bound);
    ParentDeletedOrphans(g);
    var a, b, c := TwoFullsArrive(g), ParentChosenBySweep(g), ParentDeleted(g);
    var e, f := ArrivalEvents(g), CheckEvents();
    EventCounts(g);
    Join(Machine(g, bound), a, e, TakeSnapshot(Listed(g), CUTOFF), b, f);
    var ab, ef := a + b, e + [TakeSnapshot(Listed(g), CUTOFF)] + f;
    Join(Machine(g, bound), ab, ef, SaveLog(NewLog(g)), c, DeletionEvents());
    var configs, events := ab + c, ef + [SaveLog(NewLog(g))] + DeletionEvents();
    assert configs[0] == a[0] && configs[|configs| - 1] == c[4];
    OneOrphanIsEnough(g, bound, configs, events, |configs| - 1);
  }

  lemma EventCounts(g: GroupKey)
    ensures |ArrivalEvents(g)| == 6 && |CheckEvents()| == 5 && |DeletionEvents()| == 4
  {
  }

  /** Log backups and retention may run side by side exactly as long as at most one new full
      completes between the choice of a parent and the sweep's snapshot. */
  lemma InterleavingSafeIffAtMostOneFull(g: GroupKey, bound: nat)
    ensures NeverOrphans(g, bound) <==> bound <= 1
  {
    if bound <= 1 {
      forall configs: seq<Config>, events: seq<Event>, i: nat |
        Execution(g, bound, configs, events) && 0 <= i < |configs|
        ensures NoneOrphaned(configs[i].records, g)
      {
        ExecutionsSound(g, bound, configs, events, i);
      }
    } else {
      OrphanWithTwoNewFulls(g, bound);
    }
  }
}
