/** When a full backup and a log backup overlap, a full can come to lie between a log and its parent.

    A backup reads the clock before its record is saved. This module therefore adds to the machine of
    `Interleaving` the clock and the readings that are yet to be saved; readings increase, and nothing else
    is asked of them. It proves when exactly a full can come between: if, when the log reads the clock, a
    full that read it after the log's parent is completed, under way or about to be saved. */
module Overlap {
  import opened Entities
  import opened Backups
  import opened Catalogue
  import opened Retention
  import opened Interleaving

  /** `clock` is the last reading; `fulls` are the readings of fulls that are yet to be saved, `log` that of
      the log. */
  datatype Timed = Timed(c: Config, clock: Time, fulls: set<Time>, log: Option<Time>)

  datatype TimedEvent = ReadForFull(now: Time) | GiveUpFull(start: Time) | ReadForLog(now: Time) | Call(e: Event)

  /** A record is saved with a start that has been read. */
  predicate WasRead(e: Event, w: Timed) {
    && (e.SaveFull? ==> e.r.startedAt in w.fulls)
    && (e.SaveLog? ==> w.log == Some(e.r.startedAt))
  }

  /** One reading of the clock, or one call. */
  ghost predicate TimedNext(g: GroupKey, bound: nat, e: TimedEvent, w: Timed, v: Timed) {
    match e
    case ReadForFull(now) =>
      w.clock < now && v == w.(clock := now, fulls := w.fulls + {now})
    case GiveUpFull(start) =>
      v == w.(fulls := w.fulls - {start})
    case ReadForLog(now) =>
      && w.clock < now && w.c.log.Selected? && w.log.None?
      && v == w.(clock := now, log := Some(now))
    case Call(call) =>
      && Next(g, bound, call, w.c, v.c) && WasRead(call, w)
      && v == Timed(v.c, w.clock, if call.SaveFull? then w.fulls - {call.r.startedAt} else w.fulls,
                    if call.SaveLog? || call.AbandonLog? then None else w.log)
  }

  // ---- what the clock says ----

  /** The log under way is on record. */
  ghost predicate LogPlaced(g: GroupKey, c: Config) {
    c.log.InFlight? ==>
      var r := c.log.r;
      && !r.IsFull() && Of(r, g) && r.id in c.records && !c.records[r.id].IsFull() && Of(c.records[r.id], g)
      && c.records[r.id].startedAt == r.startedAt
  }

  /** Nothing started after the last reading, and no two fulls at once. */
  ghost predicate InTime(g: GroupKey, w: Timed) {
    && LogPlaced(g, w.c)
    && (forall k | k in w.c.records && Of(w.c.records[k], g) :: w.c.records[k].startedAt <= w.clock)
    && (forall s | s in w.fulls :: s <= w.clock)
    && (forall k | k in w.c.records && FullOf(w.c.records[k], g) :: w.c.records[k].startedAt !in w.fulls)
    && (w.log.Some? ==> w.c.log.Selected? && w.log.value <= w.clock)
  }

  /** The records of `g` start when they did, and what is new starts with a reading. */
  ghost predicate StartsKept(g: GroupKey, e: Event, c: Config, d: Config) {
    forall k | k in d.records && Of(d.records[k], g) :: StartKept(g, e, c, d.records[k], k)
  }

  predicate StartKept(g: GroupKey, e: Event, c: Config, r: BackupRecord, k: string) {
    || (k in c.records && Of(c.records[k], g) && r.startedAt == c.records[k].startedAt
        && r.IsFull() == c.records[k].IsFull())
    || ((e.SaveFull? || e.SaveLog?) && r == e.r)
  }

  lemma CallKeepsStart(g: GroupKey, bound: nat, e: Event, c: Config, d: Config, k: string)
    requires LogPlaced(g, c) && Next(g, bound, e, c, d) && k in d.records && Of(d.records[k], g)
    ensures StartKept(g, e, c, d.records[k], k)
  {
    hide LatestFull, SnapshotOf, TestFinds;
  }

  lemma CallKeepsPlace(g: GroupKey, bound: nat, e: Event, c: Config, d: Config)
    requires LogPlaced(g, c) && Next(g, bound, e, c, d)
    ensures LogPlaced(g, d)
  {
    hide LatestFull, SnapshotOf, TestFinds;
  }

  lemma CallKeepsStarts(g: GroupKey, bound: nat, e: Event, c: Config, d: Config)
    requires LogPlaced(g, c) && Next(g, bound, e, c, d)
    ensures StartsKept(g, e, c, d) && LogPlaced(g, d)
  {
    hide Next, LogPlaced;
    CallKeepsPlace(g, bound, e, c, d);
    forall k | k in d.records && Of(d.records[k], g) ensures StartKept(g, e, c, d.records[k], k) {
      CallKeepsStart(g, bound, e, c, d, k);
    }
  }

  lemma NextKeepsInTime(g: GroupKey, bound: nat, e: TimedEvent, w: Timed, v: Timed)
    requires InTime(g, w) && TimedNext(g, bound, e, w, v)
    ensures InTime(g, v)
  {
    if e.Call? {
      CallKeepsStarts(g, bound, e.e, w.c, v.c);
      CallKeepsReading(g, bound, e.e, w, v);
    }
  }

  /** While its reading is kept, the log has not been saved. */
  lemma CallKeepsReading(g: GroupKey, bound: nat, e: Event, w: Timed, v: Timed)
    requires InTime(g, w) && TimedNext(g, bound, Call(e), w, v)
    ensures v.log.Some? ==> v.c.log == w.c.log && v.c.log.Selected?
  {
    hide LatestFull, SnapshotOf, TestFinds, LogPlaced;
  }

  // ---- standing fulls ----

  /** No completed full of `g` lies between a completed log and its parent. */
  ghost predicate NoneBetween(g: GroupKey, records: map<string, BackupRecord>) {
    forall k, f | k in records && f in records
      && records[k].CompletedLog() && Of(records[k], g) && records[f].CompletedFull() && Of(records[f], g)
      && records[k].parentBackupID in records ::
      !(records[records[k].parentBackupID].startedAt < records[f].startedAt < records[k].startedAt)
  }

  /** A full on record that is completed or may yet be. */
  predicate Standing(g: GroupKey, c: Config, f: string) {
    f in c.records && FullOf(c.records[f], g) && (c.records[f].status == Completed || UnderWay(g, c, f))
  }

  /** A full that started at `s` is completed or may yet be. */
  ghost predicate Stands(g: GroupKey, w: Timed, s: Time) {
    s in w.fulls || exists f :: Standing(g, w.c, f) && w.c.records[f].startedAt == s
  }

  /** No such full started between the full `p` and the time `t`. */
  ghost predicate Clear(g: GroupKey, w: Timed, p: string, t: Time) {
    && p in w.c.records && FullOf(w.c.records[p], g)
    && forall s | Stands(g, w, s) :: !(w.c.records[p].startedAt < s < t)
  }

  ghost predicate CompletedClear(g: GroupKey, w: Timed) {
    forall k | k in w.c.records && w.c.records[k].CompletedLog() && Of(w.c.records[k], g) ::
      Clear(g, w, w.c.records[k].parentBackupID, w.c.records[k].startedAt)
  }

  ghost predicate UnderWayClear(g: GroupKey, w: Timed) {
    match w.c.log
    case NoLog => true
    case Selected(p) =>
      p in w.c.records && FullOf(w.c.records[p], g) && (w.log.Some? ==> Clear(g, w, p, w.log.value))
    case InFlight(r) => Clear(g, w, r.parentBackupID, r.startedAt)
  }

  /** So it is for every completed log and the one under way. */
  ghost predicate AllClear(g: GroupKey, w: Timed) {
    CompletedClear(g, w) && UnderWayClear(g, w)
  }

  lemma ClearMeansNone(g: GroupKey, w: Timed)
    requires AllClear(g, w)
    ensures NoneBetween(g, w.c.records)
  {
    var records := w.c.records;
    forall k, f | k in records && f in records
      && records[k].CompletedLog() && Of(records[k], g) && records[f].CompletedFull() && Of(records[f], g)
      && records[k].parentBackupID in records
      ensures !(records[records[k].parentBackupID].startedAt < records[f].startedAt < records[k].startedAt)
    {
      assert Clear(g, w, records[k].parentBackupID, records[k].startedAt);
      assert Standing(g, w.c, f);
      assert Stands(g, w, records[f].startedAt);
    }
  }

  /** A log reads the clock only with nothing standing between its parent and itself. */
  ghost predicate Quiet(g: GroupKey, e: TimedEvent, w: Timed) {
    e.ReadForLog? && w.c.log.Selected? ==> Clear(g, w, w.c.log.parent, e.now)
  }

  // ---- quiet readings keep everything clear ----

  /** Fulls keep their place, and any full newly standing has read the clock since. */
  ghost predicate NothingInserted(g: GroupKey, w: Timed, v: Timed) {
    && (forall p | p in w.c.records && FullOf(w.c.records[p], g) ::
          p in v.c.records && FullOf(v.c.records[p], g) && v.c.records[p].startedAt == w.c.records[p].startedAt)
    && (forall s | Stands(g, v, s) :: Stands(g, w, s) || w.clock < s)
  }

  lemma StaysClear(g: GroupKey, w: Timed, v: Timed, p: string, t: Time)
    requires NothingInserted(g, w, v) && Clear(g, w, p, t) && t <= w.clock
    ensures Clear(g, v, p, t)
  {
  }

  /** No log completes but the one under way. */
  ghost predicate LogsKept(g: GroupKey, c: Config, d: Config) {
    forall k | k in d.records && d.records[k].CompletedLog() && Of(d.records[k], g) :: LogKept(c, d.records[k], k)
  }

  predicate LogKept(c: Config, r: BackupRecord, k: string) {
    || (k in c.records && r == c.records[k])
    || (c.log.InFlight? && r.parentBackupID == c.log.r.parentBackupID && r.startedAt == c.log.r.startedAt)
  }

  lemma CompletedStayClear(g: GroupKey, w: Timed, v: Timed)
    requires InTime(g, w) && AllClear(g, w) && NothingInserted(g, w, v) && LogsKept(g, w.c, v.c)
    ensures CompletedClear(g, v)
  {
    hide NothingInserted, Clear;
    forall k | k in v.c.records && v.c.records[k].CompletedLog() && Of(v.c.records[k], g)
      ensures Clear(g, v, v.c.records[k].parentBackupID, v.c.records[k].startedAt)
    {
      StaysClear(g, w, v, v.c.records[k].parentBackupID, v.c.records[k].startedAt);
    }
  }

  /** A log is chosen a parent, saved or given up; or it stays what it was. */
  ghost predicate LogMoves(g: GroupKey, w: Timed, v: Timed) {
    match v.c.log
    case NoLog => true
    case Selected(p) =>
      || (v.c.log == w.c.log && v.log == w.log)
      || (p in v.c.records && FullOf(v.c.records[p], g) && v.log.None?)
    case InFlight(r) =>
      || v.c.log == w.c.log
      || (w.c.log == Selected(r.parentBackupID) && w.log == Some(r.startedAt))
  }

  lemma UnderWayStaysClear(g: GroupKey, w: Timed, v: Timed)
    requires InTime(g, w) && AllClear(g, w) && NothingInserted(g, w, v) && LogMoves(g, w, v)
    ensures UnderWayClear(g, v)
  {
    hide Clear, CompletedClear;
    match w.c.log
    case NoLog =>
    case Selected(p) =>
      if w.log.Some? {
        StaysClear(g, w, v, p, w.log.value);
      }
    case InFlight(r) =>
      StaysClear(g, w, v, r.parentBackupID, r.startedAt);
  }

  /** A full that stands after a call stood before, or is the one just saved. */
  lemma CallKeepsStanding(g: GroupKey, bound: nat, e: Event, c: Config, d: Config, f: string)
    requires LogPlaced(g, c) && Next(g, bound, e, c, d) && Standing(g, d, f)
    ensures || (Standing(g, c, f) && d.records[f].startedAt == c.records[f].startedAt)
            || (e.SaveFull? && d.records[f].startedAt == e.r.startedAt)
  {
    hide LatestFull, SnapshotOf, TestFinds;
  }

  lemma CallKeepsFulls(g: GroupKey, bound: nat, e: Event, c: Config, d: Config, p: string)
    requires LogPlaced(g, c) && Next(g, bound, e, c, d) && p in c.records && FullOf(c.records[p], g)
    ensures p in d.records && FullOf(d.records[p], g) && d.records[p].startedAt == c.records[p].startedAt
  {
    hide LatestFull, SnapshotOf, TestFinds;
  }

  lemma CallInsertsNothing(g: GroupKey, bound: nat, e: Event, w: Timed, v: Timed)
    requires InTime(g, w) && TimedNext(g, bound, Call(e), w, v)
    ensures NothingInserted(g, w, v)
  {
    hide Next, LogPlaced;
    forall p | p in w.c.records && FullOf(w.c.records[p], g)
      ensures p in v.c.records && FullOf(v.c.records[p], g) && v.c.records[p].startedAt == w.c.records[p].startedAt
    {
      CallKeepsFulls(g, bound, e, w.c, v.c, p);
    }
    forall s | Stands(g, v, s) ensures Stands(g, w, s) {
      if s !in v.fulls {
        var f :| Standing(g, v.c, f) && v.c.records[f].startedAt == s;
        CallKeepsStanding(g, bound, e, w.c, v.c, f);
      }
    }
  }

  lemma CallKeepsLog(g: GroupKey, bound: nat, e: Event, c: Config, d: Config, k: string)
    requires LogPlaced(g, c) && Next(g, bound, e, c, d)
    requires k in d.records && d.records[k].CompletedLog() && Of(d.records[k], g)
    ensures LogKept(c, d.records[k], k)
  {
    hide SnapshotOf, TestFinds, LatestFull;
  }

  lemma CallKeepsLogs(g: GroupKey, bound: nat, e: Event, c: Config, d: Config)
    requires LogPlaced(g, c) && Next(g, bound, e, c, d)
    ensures LogsKept(g, c, d)
  {
    hide Next, LogPlaced;
    forall k | k in d.records && d.records[k].CompletedLog() && Of(d.records[k], g)
      ensures LogKept(c, d.records[k], k)
    {
      CallKeepsLog(g, bound, e, c, d, k);
    }
  }

  lemma CallMovesLog(g: GroupKey, bound: nat, e: Event, w: Timed, v: Timed)
    requires InTime(g, w) && TimedNext(g, bound, Call(e), w, v)
    ensures LogMoves(g, w, v)
  {
    hide SnapshotOf, TestFinds, LogPlaced;
  }

  lemma NextKeepsClear(g: GroupKey, bound: nat, e: TimedEvent, w: Timed, v: Timed)
    requires InTime(g, w) && AllClear(g, w) && TimedNext(g, bound, e, w, v) && Quiet(g, e, w)
    ensures AllClear(g, v)
  {
    if e.Call? {
      hide AllClear, NothingInserted, LogsKept, LogMoves, Next, LogPlaced;
      CallInsertsNothing(g, bound, e.e, w, v);
      CallKeepsLogs(g, bound, e.e, w.c, v.c);
      CallMovesLog(g, bound, e.e, w, v);
      CompletedStayClear(g, w, v);
      UnderWayStaysClear(g, w, v);
    } else {
      ReadingKeepsClear(g, bound, e, w, v);
    }
  }

  lemma ReadingKeepsClear(g: GroupKey, bound: nat, e: TimedEvent, w: Timed, v: Timed)
    requires InTime(g, w) && AllClear(g, w) && TimedNext(g, bound, e, w, v) && Quiet(g, e, w) && !e.Call?
    ensures AllClear(g, v)
  {
    hide Standing;
    assert v.c == w.c;
    assert forall s | Stands(g, v, s) :: Stands(g, w, s) || (e.ReadForFull? && w.clock < s);
    CompletedStayClear(g, w, v);
    if e.ReadForLog? {
      assert Clear(g, v, w.c.log.parent, e.now);
    } else {
      UnderWayStaysClear(g, w, v);
    }
  }

  ghost function TimedMachine(g: GroupKey, bound: nat): (TimedEvent, Timed, Timed) -> bool {
    (e, w, v) => TimedNext(g, bound, e, w, v)
  }

  /** Steps of the machine in which every log reads the clock quietly. */
  ghost predicate QuietSteps(g: GroupKey, bound: nat, configs: seq<Timed>, events: seq<TimedEvent>) {
    && Steps(TimedMachine(g, bound), configs, events)
    && forall i | 0 <= i < |events| :: Quiet(g, events[i], configs[i])
  }

  lemma {:induction false} QuietStepsStayClear(
    g: GroupKey, bound: nat, configs: seq<Timed>, events: seq<TimedEvent>, i: nat)
    requires QuietSteps(g, bound, configs, events) && i < |configs|
    requires InTime(g, configs[0]) && AllClear(g, configs[0])
    ensures InTime(g, configs[i]) && AllClear(g, configs[i])
  {
    hide InTime, AllClear, Quiet, TimedNext;
    if i > 0 {
      QuietStepsStayClear(g, bound, configs, events, i - 1);
      assert TimedMachine(g, bound)(events[i - 1], configs[i - 1], configs[i]);
      NextKeepsInTime(g, bound, events[i - 1], configs[i - 1], configs[i]);
      NextKeepsClear(g, bound, events[i - 1], configs[i - 1], configs[i]);
    }
  }

  /** However quiet steps go on from `w`, no full ever lies between a log and its parent. */
  ghost predicate NeverBetween(g: GroupKey, bound: nat, w: Timed) {
    forall configs: seq<Timed>, events: seq<TimedEvent>, i: nat |
      QuietSteps(g, bound, configs, events) && configs[0] == w && i < |configs| ::
      NoneBetween(g, configs[i].c.records)
  }

  lemma ClearNeverBetween(g: GroupKey, bound: nat, w: Timed)
    requires InTime(g, w) && AllClear(g, w)
    ensures NeverBetween(g, bound, w)
  {
    hide InTime, AllClear, NoneBetween, Quiet, TimedNext;
    forall configs: seq<Timed>, events: seq<TimedEvent>, i: nat |
      QuietSteps(g, bound, configs, events) && configs[0] == w && 0 <= i < |configs|
      ensures NoneBetween(g, configs[i].c.records)
    {
      QuietStepsStayClear(g, bound, configs, events, i);
      ClearMeansNone(g, configs[i]);
    }
  }

  /** What backups one after another leave is clear: none is under way. */
  lemma ConsistentIsClear(g: GroupKey, a: Snapshot, objects: set<string>, cutoff: Time, n: nat, clock: Time)
    requires Consistent(a) && NoFullBetween(a.records)
    requires forall k | k in a.records :: a.records[k].startedAt <= clock
    ensures
      var w := Timed(Config(a.records, objects, {}, NoLog, Resting, cutoff, n), clock, {}, None);
      InTime(g, w) && AllClear(g, w)
  {
    var w := Timed(Config(a.records, objects, {}, NoLog, Resting, cutoff, n), clock, {}, None);
    forall k | k in a.records && a.records[k].CompletedLog() && Of(a.records[k], g)
      ensures Clear(g, w, a.records[k].parentBackupID, a.records[k].startedAt)
    {
      assert Parent(a.records[a.records[k].parentBackupID], a.records[k]);
    }
  }

  // ---- a noisy reading can break it ----

  lemma BrokenNow(g: GroupKey, bound: nat, w: Timed)
    requires !NoneBetween(g, w.c.records)
    ensures !NeverBetween(g, bound, w)
  {
    hide NoneBetween;
    assert QuietSteps(g, bound, [w], []);
    assert [w][0] == w;
  }

  /** What can break after a quiet step can break before it. */
  lemma BrokenLater(g: GroupKey, bound: nat, e: TimedEvent, w: Timed, v: Timed)
    requires TimedNext(g, bound, e, w, v) && Quiet(g, e, w) && !NeverBetween(g, bound, v)
    ensures !NeverBetween(g, bound, w)
  {
    hide NoneBetween, Quiet, TimedNext;
    var configs: seq<Timed>, events: seq<TimedEvent>, i: nat :|
      QuietSteps(g, bound, configs, events) && configs[0] == v && i < |configs|
      && !NoneBetween(g, configs[i].c.records);
    var all, es := [w] + configs, [e] + events;
    assert TimedMachine(g, bound)(e, w, v);
    forall j | 0 <= j < |es| ensures TimedMachine(g, bound)(es[j], all[j], all[j + 1]) && Quiet(g, es[j], all[j]) {
      if j > 0 {
        assert TimedMachine(g, bound)(events[j - 1], configs[j - 1], configs[j]);
        assert Quiet(g, events[j - 1], configs[j - 1]);
      }
    }
    assert QuietSteps(g, bound, all, es) && all[0] == w && all[i + 1] == configs[i];
  }

  lemma LongerThanAll(keys: set<string>) returns (n: nat)
    ensures forall k | k in keys :: |k| < n
  {
    n := 0;
    if keys != {} {
      var k :| k in keys;
      var rest := LongerThanAll(keys - {k});
      n := rest + |k| + 1;
      assert forall l | l in keys && l != k :: l in keys - {k};
    }
  }

  lemma FreshID(records: map<string, BackupRecord>) returns (id: string)
    ensures id != "" && id !in records
  {
    var n := LongerThanAll(records.Keys);
    id := seq(n + 1, i => 'x');
    assert |id| == n + 1;
  }

  /** The completed full `f` started between the full `p` and the time `t`. */
  predicate LiesBetween(g: GroupKey, c: Config, p: string, f: string, t: Time) {
    && p in c.records && f in c.records && c.records[f].CompletedFull() && Of(c.records[f], g)
    && c.records[p].startedAt < c.records[f].startedAt < t
  }

  /** The log completes. */
  lemma BreaksWhenCompleted(g: GroupKey, bound: nat, w: Timed, r: BackupRecord, f: string)
    requires w.c.log == InFlight(r) && !r.IsFull() && Of(r, g) && r.id != f && r.id != r.parentBackupID
    requires LiesBetween(g, w.c, r.parentBackupID, f, r.startedAt)
    ensures !NeverBetween(g, bound, w)
  {
    var done := CompletedRecord(r, "l", 0, "", 0);
    var v := w.(c := w.c.(records := w.c.records[r.id := done], log := NoLog));
    assert v.c.records[r.id].CompletedLog() && v.c.records[f] == w.c.records[f];
    BrokenNow(g, bound, v);
    BrokenLater(g, bound, Call(CompleteLog("l", 0, "", 0)), w, v);
  }

  /** It is saved, and completes. */
  lemma BreaksWhenSaved(g: GroupKey, bound: nat, w: Timed, p: string, f: string, t: Time)
    requires w.c.log == Selected(p) && w.log == Some(t) && LiesBetween(g, w.c, p, f, t)
    ensures !NeverBetween(g, bound, w)
  {
    hide NeverBetween;
    var id := FreshID(w.c.records);
    var r := Starting(g, id, Log, p, t);
    var v := Timed(w.c.(records := w.c.records[id := r], log := InFlight(r)), w.clock, w.fulls, None);
    BreaksWhenCompleted(g, bound, v, r, f);
    BrokenLater(g, bound, Call(SaveLog(r)), w, v);
  }

  /** A full that stands completes first, if it has not yet. */
  lemma BreaksWhenStanding(g: GroupKey, bound: nat, w: Timed, p: string, f: string, t: Time)
    requires w.c.log == Selected(p) && w.log == Some(t) && p in w.c.records && Standing(g, w.c, f)
    requires w.c.records[p].startedAt < w.c.records[f].startedAt < t
    ensures !NeverBetween(g, bound, w)
  {
    hide NeverBetween;
    if w.c.records[f].status == Completed {
      BreaksWhenSaved(g, bound, w, p, f, t);
    } else {
      var done := CompletedRecord(w.c.records[f], "f", 0, "", 0);
      var v := w.(c := w.c.(records := w.c.records[f := done], fulls := w.c.fulls - {f}, arrived := w.c.arrived + 1));
      BreaksWhenSaved(g, bound, v, p, f, t);
      BrokenLater(g, bound, Call(CompleteFull(f, "f", 0, "", 0)), w, v);
    }
  }

  /** A full that has only read the clock is saved before that. */
  lemma BreaksWhenRead(g: GroupKey, bound: nat, w: Timed, p: string, s: Time, t: Time)
    requires InTime(g, w) && w.c.log == Selected(p) && w.log == Some(t) && p in w.c.records && Stands(g, w, s)
    requires w.c.records[p].startedAt < s < t
    ensures !NeverBetween(g, bound, w)
  {
    hide NeverBetween;
    if s in w.fulls {
      var id := FreshID(w.c.records);
      var r := Starting(g, id, Full, "", s);
      var v := Timed(w.c.(records := w.c.records[id := r], fulls := w.c.fulls + {id}), w.clock, w.fulls - {s}, w.log);
      assert Standing(g, v.c, id);
      BreaksWhenStanding(g, bound, v, p, id, t);
      BrokenLater(g, bound, Call(SaveFull(r)), w, v);
    } else {
      var f :| Standing(g, w.c, f) && w.c.records[f].startedAt == s;
      BreaksWhenStanding(g, bound, w, p, f, t);
    }
  }

  /** All having been clear so far, a log has just read the clock. Then no full will ever lie between a log
      and its parent, as long as later logs read it quietly, exactly if none that read it between this log's
      parent and this log is completed, under way or about to be saved. */
  lemma NoFullBetweenIffQuiet(g: GroupKey, bound: nat, w: Timed, v: Timed, now: Time)
    requires InTime(g, w) && AllClear(g, w) && TimedNext(g, bound, ReadForLog(now), w, v)
    ensures NeverBetween(g, bound, v) <==> Clear(g, w, w.c.log.parent, now)
  {
    hide NeverBetween, InTime, CompletedClear;
    NextKeepsInTime(g, bound, ReadForLog(now), w, v);
    if Clear(g, w, w.c.log.parent, now) {
      NextKeepsClear(g, bound, ReadForLog(now), w, v);
      ClearNeverBetween(g, bound, v);
    } else {
      var s :| Stands(g, w, s) && w.c.records[w.c.log.parent].startedAt < s < now;
      assert Stands(g, v, s);
      BreaksWhenRead(g, bound, v, w.c.log.parent, s, now);
    }
  }
}
