/** The sweep as a run of checked deletions, whatever keys are shared, together with what `Sweep` knows
    of it when keys are in order. */
module SweepRun {
  import opened Entities
  import opened Catalogue
  import opened Retention
  import opened Sorting
  import opened Sparing
  import opened Sweep

  // ---- runs of checked deletions ----

  /** `y` is a point of the run `ds` from `a`. */
  ghost predicate CutOfRun(a: Snapshot, y: Snapshot, ds: seq<Removal>) {
    exists m :: 0 <= m <= |ds| && DeletionRun(a, y, ds[..m])
  }

  /** From `a` the deletions `ds`, each of which was checked, have led to `x`, and all the trace passed
      through since it had length `n` are points of that run. */
  ghost predicate Checking(
    a: Snapshot, x: Snapshot, t: seq<Snapshot>, n: nat, ds: seq<Removal>, cutoffs: Cutoffs, gs: set<GroupKey>)
  {
    && n <= |t| && DeletionRun(a, x, ds) && AllChecked(ds, cutoffs, gs)
    && forall j | n <= j < |t| :: CutOfRun(a, t[j], ds)
  }

  lemma {:induction false} RunConcat(
    step: (Removal, Snapshot) -> bool, a: Snapshot, b: Snapshot, x: Snapshot, ds: seq<Removal>, es: seq<Removal>)
    requires Run(step, a, b, ds) && Run(step, b, x, es)
    ensures Run(step, a, x, ds + es)
    decreases |es|
  {
    if es == [] {
      assert ds + es == ds;
    } else {
      var n := |es| - 1;
      RunConcat(step, a, b, es[n].before, ds, es[..n]);
      assert (ds + es)[..|ds + es| - 1] == ds + es[..n];
    }
  }

  lemma CutConcat(
    step: (Removal, Snapshot) -> bool, a: Snapshot, b: Snapshot, y: Snapshot, ds: seq<Removal>, es: seq<Removal>,
    m: nat)
    requires Run(step, a, b, ds) && m <= |es| && Run(step, b, y, es[..m])
    ensures Run(step, a, y, (ds + es)[..|ds| + m])
  {
    RunConcat(step, a, b, y, ds, es[..m]);
    assert (ds + es)[..|ds| + m] == ds + es[..m];
  }

  lemma EarlierCut(a: Snapshot, y: Snapshot, ds: seq<Removal>, es: seq<Removal>)
    requires CutOfRun(a, y, ds)
    ensures CutOfRun(a, y, ds + es)
  {
    var m :| 0 <= m <= |ds| && DeletionRun(a, y, ds[..m]);
    assert (ds + es)[..m] == ds[..m];
  }

  lemma LaterCut(a: Snapshot, b: Snapshot, y: Snapshot, ds: seq<Removal>, es: seq<Removal>)
    requires DeletionRun(a, b, ds) && CutOfRun(b, y, es)
    ensures CutOfRun(a, y, ds + es)
  {
    var m :| 0 <= m <= |es| && DeletionRun(b, y, es[..m]);
    CutConcat(Removals(), a, b, y, ds, es, m);
  }

  lemma CheckingStarts(a: Snapshot, t: seq<Snapshot>, cutoffs: Cutoffs, gs: set<GroupKey>)
    ensures Checking(a, a, t, |t|, [], cutoffs, gs)
  {
  }

  lemma CheckingJoins(
    a: Snapshot, b: Snapshot, x: Snapshot, u: seq<Snapshot>, v: seq<Snapshot>, n: nat,
    ds: seq<Removal>, es: seq<Removal>, cutoffs: Cutoffs, gs: set<GroupKey>, hs: set<GroupKey>)
    requires Checking(a, b, u, n, ds, cutoffs, gs) && Checking(b, x, v, |u|, es, cutoffs, hs) && u <= v
    ensures Checking(a, x, v, n, ds + es, cutoffs, gs + hs)
  {
    RunConcat(Removals(), a, b, x, ds, es);
    forall j | n <= j < |v| ensures CutOfRun(a, v[j], ds + es) {
      if j < |u| {
        EarlierCut(a, v[j], ds, es);
      } else {
        LaterCut(a, b, v[j], ds, es);
      }
    }
    forall i | 0 <= i < |ds + es| ensures Checked((ds + es)[i], cutoffs, gs + hs) {
      if i < |ds| {
        assert Checked(ds[i], cutoffs, gs);
      } else {
        assert Checked(es[i - |ds|], cutoffs, hs);
      }
    }
  }

  lemma RunOfOne(b: Snapshot, x: Snapshot, d: Removal)
    requires d.before == b && d.id in b.records && DeleteCut(b, x, d.id)
    ensures DeletionRun(b, x, [d])
  {
    assert [d][..0] == [];
    assert Removals()(d, x);
  }

  lemma CheckingOne(
    b: Snapshot, x: Snapshot, v: seq<Snapshot>, n: nat, d: Removal, cutoffs: Cutoffs, gs: set<GroupKey>)
    requires n <= |v| && d.before == b && Checked(d, cutoffs, gs)
    requires DeleteCut(b, x, d.id) && forall j | n <= j < |v| :: DeleteCut(b, v[j], d.id)
    ensures Checking(b, x, v, n, [d], cutoffs, gs)
  {
    RunOfOne(b, x, d);
    forall j | n <= j < |v| ensures CutOfRun(b, v[j], [d]) {
      RunOfOne(b, v[j], d);
      assert [d][..1] == [d];
    }
  }

  lemma CheckingIsPartly(
    a: Snapshot, x: Snapshot, t: seq<Snapshot>, n: nat, ds: seq<Removal>, cutoffs: Cutoffs, gs: set<GroupKey>)
    requires Consistent(a) && Checking(a, x, t, n, ds, cutoffs, gs)
    ensures PartlyWithout(a, x, a.records.Keys) && Cascaded(a, x) && Consistent(x)
    ensures KeysInOrder(a) ==> KeysInOrder(x)
  {
    RunIsPartly(a, x, ds);
    DeletingKeepsConsistent(a, x, a.records.Keys);
    if KeysInOrder(a) {
      DeletingKeepsKeysInOrder(a, x, a.records.Keys);
    }
  }

  lemma GoldenCut(a: Snapshot, y: Snapshot, ds: seq<Removal>)
    requires Keyed(a.records) && NoOrphan(a.records) && CutOfRun(a, y, ds) && AllSpare(ds)
    ensures Golden(a, y)
  {
    var m :| 0 <= m <= |ds| && DeletionRun(a, y, ds[..m]);
    SpareFront(ds, m);
    GoldenRun(a, y, ds[..m]);
  }

  lemma SpareFront(ds: seq<Removal>, m: nat)
    requires AllSpare(ds) && m <= |ds|
    ensures AllSpare(ds[..m])
  {
    forall i | 0 <= i < m
      ensures ds[..m][i].id in ds[..m][i].before.records && Spares(ds[..m][i].before, ds[..m][i].id)
    {
      assert ds[..m][i] == ds[i];
    }
  }

  /** The golden rule at every point of a run whose deletions spare every group. */
  lemma CheckingGolden(
    a: Snapshot, x: Snapshot, t: seq<Snapshot>, n: nat, ds: seq<Removal>, cutoffs: Cutoffs, gs: set<GroupKey>)
    requires Consistent(a) && Checking(a, x, t, n, ds, cutoffs, gs)
    ensures KeysInOrder(a) ==> AllSpare(ds)
    ensures AllSpare(ds) ==> Golden(a, x) && forall j | n <= j < |t| :: Golden(a, t[j])
  {
    if KeysInOrder(a) {
      CheckedRunSpares(a, x, ds, cutoffs, gs);
    }
    if AllSpare(ds) {
      GoldenRun(a, x, ds);
      forall j | n <= j < |t| ensures Golden(a, t[j]) {
        GoldenCut(a, t[j], ds);
      }
    }
  }

  /** A full of a group that is not swept keeps its record. */
  lemma {:induction false} OtherRecordsStay(
    a: Snapshot, x: Snapshot, ds: seq<Removal>, cutoffs: Cutoffs, gs: set<GroupKey>, k: string)
    requires Keyed(a.records) && NoOrphan(a.records) && DeletionRun(a, x, ds) && AllChecked(ds, cutoffs, gs)
    requires k in a.records && a.records[k].IsFull() && GroupOf(a.records[k]) !in gs
    ensures k in x.records && x.records[k] == a.records[k]
    decreases |ds|
  {
    if ds != [] {
      var n := |ds| - 1;
      var b, c := ds[n].before, ds[n].id;
      LastRemoval(a, x, ds);
      OtherRecordsStay(a, b, ds[..n], cutoffs, gs, k);
      RunIsPartly(a, b, ds[..n]);
      DeletingKeepsKeyed(a, b);
      DeletingKeepsNoOrphan(a, b, a.records.Keys);
      assert Checked(ds[n], cutoffs, gs);
      DeletionChangesOneFull(b, x, c, k);
    }
  }

  lemma SameListing(a: Snapshot, b: Snapshot, g: GroupKey, fulls: seq<BackupRecord>)
    requires PartlyWithout(a, b, a.records.Keys) && GroupListing(fulls, a, g)
    requires forall k | k in a.records && Swept(a.records[k]) && GroupOf(a.records[k]) == g ::
               b.records[k] == a.records[k]
    ensures GroupListing(fulls, b, g)
  {
    forall k | k in b.records && Swept(b.records[k]) ensures a.records[k] == b.records[k] {
    }
  }

  /** The fulls of a group are the same after other groups have been swept. */
  lemma ListingStays(
    a: Snapshot, b: Snapshot, ds: seq<Removal>, cutoffs: Cutoffs, gs: set<GroupKey>, g: GroupKey,
    fulls: seq<BackupRecord>)
    requires Keyed(a.records) && NoOrphan(a.records) && DeletionRun(a, b, ds) && AllChecked(ds, cutoffs, gs)
    requires g !in gs && GroupListing(fulls, a, g)
    ensures GroupListing(fulls, b, g)
  {
    RunIsPartly(a, b, ds);
    forall k | k in a.records && Swept(a.records[k]) && GroupOf(a.records[k]) == g
      ensures b.records[k] == a.records[k]
    {
      OtherRecordsStay(a, b, ds, cutoffs, gs, k);
    }
    SameListing(a, b, g, fulls);
  }

  // ---- one group ----

  /** The sweep of `g` from `a`, having deleted the fulls before `i`, has reached `x` over the trace `t`. */
  ghost predicate Sweeping(
    a: Snapshot, x: Snapshot, t: seq<Snapshot>, n: nat, fulls: seq<BackupRecord>, i: nat,
    cutoffs: Cutoffs, g: GroupKey, ds: seq<Removal>, clean: bool)
  {
    && i <= |fulls| && RecordsTo(x, fulls, i) && Checking(a, x, t, n, ds, cutoffs, {g})
    && AllCarriedOut(ds, x) && (clean ==> CompletedRun(a, x, ds))
    && (KeysInOrder(a) ==> SweepingApart(a, x, t, n, fulls, i, cutoffs, g, clean))
  }

  /** The sweep of the groups `gs` from `a` has ended in `x`. `count` is the number of fulls that have
      expired, and `ok` says whether every deletion succeeded. With keys in order, in all groups but those
      in `stuck` everything that was to go has gone. */
  ghost predicate SweptGroups(
    a: Snapshot, x: Snapshot, t: seq<Snapshot>, n: nat, cutoffs: Cutoffs, gs: set<GroupKey>,
    ds: seq<Removal>, count: nat, stuck: set<GroupKey>, ok: bool, clean: bool)
  {
    && Checking(a, x, t, n, ds, cutoffs, gs)
    && (ok <==> AllCarriedOut(ds, x)) && (clean ==> CompletedRun(a, x, ds))
    && count == |GoneFulls(a, x, gs)|
    && (KeysInOrder(a) ==> SweptApart(a, x, t, n, cutoffs, gs, count, clean))
    && (KeysInOrder(a) ==> forall g | g in gs && g !in stuck :: DoomedGone(a, x, cutoffs, g))
  }

  /** The fulls of the swept groups that have expired. */
  function GoneFulls(a: Snapshot, x: Snapshot, gs: set<GroupKey>): set<string> {
    set c | && c in a.records && c in x.records && Swept(a.records[c]) && GroupOf(a.records[c]) in gs
            && x.records[c].status == Expired
  }

  /** The full at `i` and those after it not having expired, `i` have. */
  lemma GoneSoFar(a: Snapshot, x: Snapshot, fulls: seq<BackupRecord>, i: nat, g: GroupKey)
    requires Keyed(a.records) && GroupListing(fulls, a, g) && i <= |fulls| && RecordsTo(x, fulls, i)
    ensures |GoneFulls(a, x, {g})| == i
  {
    ListedFulls(a, fulls, g);
    forall c | c in GoneFulls(a, x, {g}) ensures c in Ids(fulls[..i]) {
      GoneIsListed(a, x, fulls, i, g, c);
    }
    forall c | c in Ids(fulls[..i]) ensures c in GoneFulls(a, x, {g}) {
      var j :| 0 <= j < i && fulls[j].id == c;
      assert fulls[j] in fulls;
    }
    assert GoneFulls(a, x, {g}) == Ids(fulls[..i]);
    CountIds(fulls[..i]);
  }

  lemma GoneIsListed(a: Snapshot, x: Snapshot, fulls: seq<BackupRecord>, i: nat, g: GroupKey, c: string)
    requires Keyed(a.records) && GroupListing(fulls, a, g) && i <= |fulls| && RecordsTo(x, fulls, i)
    requires c in GoneFulls(a, x, {g})
    ensures c in Ids(fulls[..i])
  {
    assert a.records[c] in fulls;
    var j :| 0 <= j < |fulls| && fulls[j] == a.records[c];
    assert j < i;
    assert fulls[j] == fulls[..i][j];
  }

  lemma SweptAwayGone(a: Snapshot, cutoffs: Cutoffs, g: GroupKey)
    requires Keyed(a.records) && NoOrphan(a.records)
    ensures DoomedGone(a, SweptAway(a, cutoffs, {g}), cutoffs, g)
  {
  }

  lemma SweepingStarts(a: Snapshot, t: seq<Snapshot>, fulls: seq<BackupRecord>, cutoffs: Cutoffs, g: GroupKey)
    requires GroupListing(fulls, a, g)
    ensures Sweeping(a, a, t, |t|, fulls, 0, cutoffs, g, [], true) && Ids(fulls[..0]) == {}
  {
    CheckingStarts(a, t, cutoffs, {g});
    SweepingApartStarts(a, t, fulls, cutoffs, g);
  }

  /** The sweep of a group stops at the full at `i`. */
  lemma SweepingEnds(
    a: Snapshot, x: Snapshot, t: seq<Snapshot>, n: nat, fulls: seq<BackupRecord>, i: nat, cutoffs: Cutoffs, g: GroupKey,
    ds: seq<Removal>, clean: bool)
    requires Consistent(a) && GroupListing(fulls, a, g) && Sweeping(a, x, t, n, fulls, i, cutoffs, g, ds, clean)
    requires KeysInOrder(a) && clean && i < |fulls| ==>
               !(fulls[i].startedAt < cutoffs(g)) || |Newer(a, fulls[i].id)| < 2
    ensures SweptGroups(a, x, t, n, cutoffs, {g}, ds, i, if clean then {} else {g}, true, clean)
  {
    hide SweepingApart, DoomedGone, SweptAway, Doomed, GoneFulls;
    GoneSoFar(a, x, fulls, i, g);
    if KeysInOrder(a) {
      SweepingApartEnds(a, x, t, n, fulls, i, cutoffs, g, clean);
      SweptAwayGone(a, cutoffs, g);
    }
  }

  lemma SweepingWeaken(
    a: Snapshot, x: Snapshot, t: seq<Snapshot>, n: nat, fulls: seq<BackupRecord>, i: nat, cutoffs: Cutoffs, g: GroupKey,
    ds: seq<Removal>, clean: bool, clean': bool)
    requires Sweeping(a, x, t, n, fulls, i, cutoffs, g, ds, clean) && (clean' ==> clean)
    ensures Sweeping(a, x, t, n, fulls, i, cutoffs, g, ds, clean')
  {
  }

  /** What the count found is what the check asks for. */
  lemma CountedIsChecked(
    a: Snapshot, b: Snapshot, fulls: seq<BackupRecord>, i: nat, cutoffs: Cutoffs, g: GroupKey, seen: set<string>)
    requires GroupListing(fulls, a, g) && i < |fulls| && RecordsTo(b, fulls, i) && fulls[i].startedAt < cutoffs(g)
    requires |seen| >= 2 && seen <= FoundAfter(b, fulls, i)
    ensures Checked(Removal(b, fulls[i].id), cutoffs, {g})
  {
    hide Found;
    FoundMembers(b, fulls, i, |fulls|);
    assert fulls[i] in fulls;
    forall d | d in seen ensures d in FoundNewer(b, fulls[i].id) {
      var j :| i < j < |fulls| && Found(b, fulls[j]) && fulls[j].id == d;
      assert fulls[j] in fulls;
    }
    Subset(seen, FoundNewer(b, fulls[i].id));
  }

  /** The deletion of the full at `i`, cut anywhere. */
  lemma CandidateChecking(
    a: Snapshot, b: Snapshot, x: Snapshot, u: seq<Snapshot>, v: seq<Snapshot>, n: nat,
    fulls: seq<BackupRecord>, i: nat, cutoffs: Cutoffs, g: GroupKey, ds: seq<Removal>, seen: set<string>)
    requires GroupListing(fulls, a, g) && i < |fulls| && RecordsTo(b, fulls, i) && fulls[i].startedAt < cutoffs(g)
    requires |seen| >= 2 && seen <= FoundAfter(b, fulls, i)
    requires Checking(a, b, u, n, ds, cutoffs, {g}) && u <= v
    requires DeleteCut(b, x, fulls[i].id) && forall j | |u| <= j < |v| :: DeleteCut(b, v[j], fulls[i].id)
    ensures Checking(a, x, v, n, ds + [Removal(b, fulls[i].id)], cutoffs, {g})
  {
    var d := Removal(b, fulls[i].id);
    CountedIsChecked(a, b, fulls, i, cutoffs, g, seen);
    CheckingOne(b, x, v, |u|, d, cutoffs, {g});
    CheckingJoins(a, b, x, u, v, n, ds, [d], cutoffs, {g}, {g});
    assert {g} + {g} == {g};
  }

  lemma OneMoreCompleted(a: Snapshot, b: Snapshot, ds: seq<Removal>, c: string)
    requires CompletedRun(a, b, ds) && c in b.records
    ensures CompletedRun(a, Without(b, Family(b, c)), ds + [Removal(b, c)])
  {
    var d := Removal(b, c);
    assert Completions()(d, Without(b, Family(b, c)));
    assert (ds + [d])[..|ds|] == ds;
  }

  lemma OneMoreCarriedOut(b: Snapshot, x: Snapshot, ds: seq<Removal>, c: string)
    requires AllCarriedOut(ds, b) && DeleteCut(b, x, c)
    ensures AllCarriedOut(ds + [Removal(b, c)], x) <==> c in x.records && x.records[c].status == Expired
  {
    forall i | 0 <= i < |ds| ensures ds[i].id in x.records && x.records[ds[i].id].status == Expired {
      assert ds[i].id in b.records;
    }
    assert (ds + [Removal(b, c)])[|ds|].id == c;
  }

  /** The full at `i` has not expired, whatever else has. */
  lemma StillListed(b: Snapshot, x: Snapshot, fulls: seq<BackupRecord>, i: nat)
    requires Keyed(b.records) && NoOrphan(b.records) && i < |fulls| && RecordsTo(b, fulls, i)
    requires forall j, k | 0 <= j < k < |fulls| :: fulls[j].id != fulls[k].id
    requires forall j | i <= j < |fulls| :: fulls[j].IsFull()
    requires PartlyWithout(b, x, Family(b, fulls[i].id)) && x.records[fulls[i].id] == b.records[fulls[i].id]
    ensures RecordsTo(x, fulls, i)
  {
    forall j | 0 <= j < |fulls| && j != i
      ensures fulls[j].id in x.records
      ensures if j < i then x.records[fulls[j].id].status == Expired else x.records[fulls[j].id] == fulls[j]
    {
      DeletionChangesOneFull(b, x, fulls[i].id, fulls[j].id);
    }
  }

  lemma CandidateGone(
    a: Snapshot, b: Snapshot, x: Snapshot, u: seq<Snapshot>, v: seq<Snapshot>, n: nat,
    fulls: seq<BackupRecord>, i: nat, cutoffs: Cutoffs, g: GroupKey, ds: seq<Removal>, clean: bool, clean': bool,
    seen: set<string>)
    requires Consistent(a) && GroupListing(fulls, a, g) && i < |fulls| && fulls[i].startedAt < cutoffs(g)
    requires Sweeping(a, b, u, n, fulls, i, cutoffs, g, ds, clean)
    requires |seen| >= 2 && seen <= FoundAfter(b, fulls, i)
    requires clean' ==> clean && x == Without(b, Family(b, fulls[i].id))
    requires KeysInOrder(a) ==> |Newer(a, fulls[i].id)| >= 2
    requires u <= v && DeleteCut(b, x, fulls[i].id) && forall j | |u| <= j < |v| :: DeleteCut(b, v[j], fulls[i].id)
    requires x.records[fulls[i].id].status == Expired
    ensures Sweeping(a, x, v, n, fulls, i + 1, cutoffs, g, ds + [Removal(b, fulls[i].id)], clean')
  {
    hide FoundAfter, SweepCut, SweepCuts, AllCarriedOut;
    OneMoreCarriedOut(b, x, ds, fulls[i].id);
    CandidateChecking(a, b, x, u, v, n, fulls, i, cutoffs, g, ds, seen);
    CheckingIsPartly(a, b, u, n, ds, cutoffs, {g});
    ListedFulls(a, fulls, g);
    RecordsOneFurther(b, x, fulls, i);
    if clean' {
      OneMoreCompleted(a, b, ds, fulls[i].id);
    }
    if KeysInOrder(a) {
      CandidateCuts(a, b, x, u, v, n, fulls, i, cutoffs, g, seen);
      SweptFurther(a, b, x, u, v, n, fulls, i, cutoffs, g, clean, clean');
    }
  }

  lemma CandidateStuck(
    a: Snapshot, b: Snapshot, x: Snapshot, u: seq<Snapshot>, v: seq<Snapshot>, n: nat,
    fulls: seq<BackupRecord>, i: nat, cutoffs: Cutoffs, g: GroupKey, ds: seq<Removal>, clean: bool, seen: set<string>)
    requires Consistent(a) && GroupListing(fulls, a, g) && i < |fulls| && fulls[i].startedAt < cutoffs(g)
    requires Sweeping(a, b, u, n, fulls, i, cutoffs, g, ds, clean)
    requires |seen| >= 2 && seen <= FoundAfter(b, fulls, i)
    requires u <= v && DeleteCut(b, x, fulls[i].id) && forall j | |u| <= j < |v| :: DeleteCut(b, v[j], fulls[i].id)
    requires Keyed(b.records) && NoOrphan(b.records) && x.records[fulls[i].id] == b.records[fulls[i].id]
    ensures SweptGroups(a, x, v, n, cutoffs, {g}, ds + [Removal(b, fulls[i].id)], i, {g}, false, false)
  {
    hide FoundAfter, SweepCut, SweepCuts, AllCarriedOut, GoneFulls, DoomedGone;
    OneMoreCarriedOut(b, x, ds, fulls[i].id);
    ListedFulls(a, fulls, g);
    StillListed(b, x, fulls, i);
    GoneSoFar(a, x, fulls, i, g);
    CandidateChecking(a, b, x, u, v, n, fulls, i, cutoffs, g, ds, seen);
    if KeysInOrder(a) {
      CandidateCuts(a, b, x, u, v, n, fulls, i, cutoffs, g, seen);
    }
  }

  // ---- all groups ----

  lemma SweptGroupsStarts(a: Snapshot, t: seq<Snapshot>, cutoffs: Cutoffs)
    ensures SweptGroups(a, a, t, |t|, cutoffs, {}, [], 0, {}, true, true)
  {
    assert GoneFulls(a, a, {}) == {};
    CheckingStarts(a, t, cutoffs, {});
    SweptApartStarts(a, t, cutoffs);
  }

  /** Nothing having been done, and something having failed, any groups have been dealt with. */
  lemma SweptGroupsIdle(a: Snapshot, t: seq<Snapshot>, cutoffs: Cutoffs, gs: set<GroupKey>)
    ensures SweptGroups(a, a, t, |t|, cutoffs, gs, [], 0, gs, true, false)
  {
    assert GoneFulls(a, a, gs) == {};
    CheckingStarts(a, t, cutoffs, gs);
    SweptApartStarts(a, t, cutoffs);
    SweptApartWeaken(a, a, t, |t|, cutoffs, {}, gs, 0);
  }

  /** What the sweep means for the golden rule. */
  lemma SweptGolden(
    a: Snapshot, x: Snapshot, t: seq<Snapshot>, n: nat, cutoffs: Cutoffs, gs: set<GroupKey>,
    ds: seq<Removal>, count: nat, stuck: set<GroupKey>, ok: bool, clean: bool)
    requires Consistent(a) && SweptGroups(a, x, t, n, cutoffs, gs, ds, count, stuck, ok, clean)
    ensures KeysInOrder(a) ==> AllSpare(ds)
    ensures AllSpare(ds) ==> Golden(a, x) && forall j | n <= j < |t| :: Golden(a, t[j])
    ensures clean ==> (Golden(a, x) <==> AllSpare(ds))
  {
    CheckingGolden(a, x, t, n, ds, cutoffs, gs);
    if clean {
      GoldenRunIffAllSpare(a, x, ds);
    }
  }

  /** The next group is as it was at the start. */
  lemma GroupReady(
    a: Snapshot, b: Snapshot, u: seq<Snapshot>, n: nat, cutoffs: Cutoffs, gs: set<GroupKey>, ds: seq<Removal>,
    count: nat, stuck: set<GroupKey>, ok: bool, clean: bool, group: seq<BackupRecord>, fulls: seq<BackupRecord>,
    g: GroupKey)
    requires Consistent(a) && SweptGroups(a, b, u, n, cutoffs, gs, ds, count, stuck, ok, clean)
    requires IsGroup(a, group, g) && g !in gs && Sorted(fulls) && multiset(fulls) == multiset(group)
    ensures Consistent(b) && GroupListing(fulls, b, g)
  {
    SortedGroup(a, group, fulls, g);
    ListingStays(a, b, ds, cutoffs, gs, g, fulls);
    CheckingIsPartly(a, b, u, n, ds, cutoffs, gs);
  }

  /** The fulls of another group, and what is newer, are what they were. */
  lemma NewerElsewhere(a: Snapshot, b: Snapshot, cutoffs: Cutoffs, gs: set<GroupKey>, g: GroupKey, c: string)
    requires Keyed(a.records) && SweepCut(a, b, cutoffs, gs) && g !in gs
    requires c in a.records && Swept(a.records[c]) && GroupOf(a.records[c]) == g
    ensures b.records[c] == a.records[c] && Newer(b, c) == Newer(a, c)
  {
    OtherGroupUntouched(a, b, cutoffs, gs, c);
    forall d ensures d in Newer(b, c) <==> d in Newer(a, c) {
      if d in a.records && Swept(a.records[d]) && GroupOf(a.records[d]) == g {
        OtherGroupUntouched(a, b, cutoffs, gs, d);
      }
    }
  }

  lemma DoomedGoneCarriesOver(
    a: Snapshot, b: Snapshot, x: Snapshot, cutoffs: Cutoffs, gs: set<GroupKey>, g: GroupKey)
    requires Keyed(a.records) && SweepCut(a, b, cutoffs, gs) && g !in gs && DoomedGone(b, x, cutoffs, g)
    ensures DoomedGone(a, x, cutoffs, g)
  {
    hide Newer;
    forall c | c in a.records && Swept(a.records[c]) && GroupOf(a.records[c]) == g
      ensures b.records[c] == a.records[c] && Newer(b, c) == Newer(a, c)
    {
      NewerElsewhere(a, b, cutoffs, gs, g, c);
    }
  }

  lemma DoomedStayGone(a: Snapshot, b: Snapshot, x: Snapshot, cutoffs: Cutoffs, g: GroupKey)
    requires DoomedGone(a, b, cutoffs, g) && PartlyWithout(b, x, b.records.Keys)
    ensures DoomedGone(a, x, cutoffs, g)
  {
  }

  /** The sweep of one group expires no full of another. */
  lemma GoneAddsUp(
    a: Snapshot, b: Snapshot, x: Snapshot, cutoffs: Cutoffs, gs: set<GroupKey>, g: GroupKey, ds: seq<Removal>,
    es: seq<Removal>)
    requires Keyed(a.records) && NoOrphan(a.records) && DeletionRun(a, b, ds) && AllChecked(ds, cutoffs, gs)
    requires Keyed(b.records) && NoOrphan(b.records) && DeletionRun(b, x, es) && AllChecked(es, cutoffs, {g})
    requires g !in gs
    ensures |GoneFulls(a, x, gs + {g})| == |GoneFulls(a, b, gs)| + |GoneFulls(b, x, {g})|
  {
    hide DeletionRun, AllChecked, Keyed, NoOrphan, Cascaded;
    RunIsPartly(a, b, ds);
    RunIsPartly(b, x, es);
    forall c | c in a.records && Swept(a.records[c])
      ensures GroupOf(a.records[c]) != g ==> b.records[c] == x.records[c]
      ensures GroupOf(a.records[c]) !in gs ==> b.records[c] == a.records[c]
    {
      assert b.records[c] == a.records[c] || b.records[c] == Expire(a.records[c]);
      if GroupOf(a.records[c]) != g {
        OtherRecordsStay(b, x, es, cutoffs, {g}, c);
      }
      if GroupOf(a.records[c]) !in gs {
        OtherRecordsStay(a, b, ds, cutoffs, gs, c);
      }
    }
    GoneSets(a, b, x, gs, g);
  }

  lemma GoneSets(a: Snapshot, b: Snapshot, x: Snapshot, gs: set<GroupKey>, g: GroupKey)
    requires a.records.Keys == b.records.Keys == x.records.Keys && g !in gs
    requires forall c | c in a.records && Swept(a.records[c]) ::
               && (GroupOf(a.records[c]) != g ==> b.records[c] == x.records[c])
               && (GroupOf(a.records[c]) !in gs ==> b.records[c] == a.records[c])
    requires forall c | c in b.records && Swept(b.records[c]) :: a.records[c] == b.records[c]
    ensures |GoneFulls(a, x, gs + {g})| == |GoneFulls(a, b, gs)| + |GoneFulls(b, x, {g})|
  {
    assert GoneFulls(a, x, gs + {g}) == GoneFulls(a, b, gs) + GoneFulls(b, x, {g});
    assert GoneFulls(a, b, gs) !! GoneFulls(b, x, {g});
  }

  /** The full of every deletion belonged to a swept group from the start. */
  lemma {:induction false} RemovedGroups(
    a: Snapshot, x: Snapshot, ds: seq<Removal>, cutoffs: Cutoffs, gs: set<GroupKey>, i: nat)
    requires DeletionRun(a, x, ds) && AllChecked(ds, cutoffs, gs) && i < |ds|
    ensures ds[i].id in x.records && x.records[ds[i].id].IsFull() && GroupOf(x.records[ds[i].id]) in gs
    decreases |ds|
  {
    hide DeletionRun, FoundNewer, DeleteCut;
    var n := |ds| - 1;
    LastRemoval(a, x, ds);
    assert Checked(ds[i], cutoffs, gs);
    if i < n {
      assert ds[..n][i] == ds[i];
      RemovedGroups(a, ds[n].before, ds[..n], cutoffs, gs, i);
    }
    SameGroup(ds[n].before, x, ds[n].id, ds[i].id);
  }

  lemma SameGroup(b: Snapshot, x: Snapshot, c: string, k: string)
    requires DeleteCut(b, x, c) && k in b.records
    ensures k in x.records && x.records[k].IsFull() == b.records[k].IsFull()
    ensures GroupOf(x.records[k]) == GroupOf(b.records[k])
  {
  }

  lemma CarriedOutTogether(
    a: Snapshot, b: Snapshot, x: Snapshot, cutoffs: Cutoffs, gs: set<GroupKey>, g: GroupKey, ds: seq<Removal>,
    es: seq<Removal>)
    requires DeletionRun(a, b, ds) && AllChecked(ds, cutoffs, gs) && g !in gs
    requires Keyed(b.records) && NoOrphan(b.records) && DeletionRun(b, x, es) && AllChecked(es, cutoffs, {g})
    ensures AllCarriedOut(ds + es, x) <==> AllCarriedOut(ds, b) && AllCarriedOut(es, x)
  {
    hide DeletionRun, AllChecked, NoOrphan;
    forall i | 0 <= i < |ds|
      ensures ds[i].id in b.records && ds[i].id in x.records && x.records[ds[i].id] == b.records[ds[i].id]
      ensures (ds + es)[i] == ds[i]
    {
      RemovedGroups(a, b, ds, cutoffs, gs, i);
      OtherRecordsStay(b, x, es, cutoffs, {g}, ds[i].id);
    }
    forall i | 0 <= i < |es| ensures (ds + es)[|ds| + i] == es[i] {
    }
    if AllCarriedOut(ds + es, x) {
      forall i | 0 <= i < |es| ensures es[i].id in x.records && x.records[es[i].id].status == Expired {
        assert (ds + es)[|ds| + i] == es[i];
      }
    }
  }

  lemma DoomedGoneTogether(
    a: Snapshot, b: Snapshot, x: Snapshot, cutoffs: Cutoffs, gs: set<GroupKey>, g: GroupKey,
    stuck: set<GroupKey>, late: set<GroupKey>)
    requires Keyed(a.records) && SweepCut(a, b, cutoffs, gs) && g !in gs && PartlyWithout(b, x, b.records.Keys)
    requires forall h | h in gs && h !in stuck :: DoomedGone(a, b, cutoffs, h)
    requires g !in late ==> DoomedGone(b, x, cutoffs, g)
    ensures forall h | h in gs + {g} && h !in stuck + late :: DoomedGone(a, x, cutoffs, h)
  {
    hide DoomedGone, SweepCut;
    forall h | h in gs + {g} && h !in stuck + late ensures DoomedGone(a, x, cutoffs, h) {
      if h in gs {
        DoomedStayGone(a, b, x, cutoffs, h);
      } else {
        DoomedGoneCarriesOver(a, b, x, cutoffs, gs, g);
      }
    }
  }

  lemma SweptOneMore(
    a: Snapshot, b: Snapshot, x: Snapshot, u: seq<Snapshot>, v: seq<Snapshot>, n: nat, cutoffs: Cutoffs,
    gs: set<GroupKey>, g: GroupKey, ds: seq<Removal>, es: seq<Removal>, count: nat, more: nat,
    stuck: set<GroupKey>, late: set<GroupKey>, ok: bool, ok': bool, clean: bool, clean': bool)
    requires Consistent(a) && g !in gs && u <= v
    requires SweptGroups(a, b, u, n, cutoffs, gs, ds, count, stuck, ok, clean)
    requires SweptGroups(b, x, v, |u|, cutoffs, {g}, es, more, late, ok', clean')
    ensures SweptGroups(a, x, v, n, cutoffs, gs + {g}, ds + es, count + more, stuck + late, ok && ok', clean && clean')
  {
    hide Consistent, DeletionRun, AllChecked, AllCarriedOut, GoneFulls, DoomedGone, SweepCut, SweepCuts, SweptAway;
    hide Doomed, KeysInOrder, CutOfRun;
    SweptSoFar(a, b, u, n, cutoffs, gs, ds);
    RunIsPartly(b, x, es);
    CheckingJoins(a, b, x, u, v, n, ds, es, cutoffs, gs, {g});
    GoneAddsUp(a, b, x, cutoffs, gs, g, ds, es);
    CarriedOutTogether(a, b, x, cutoffs, gs, g, ds, es);
    if clean && clean' {
      RunConcat(Completions(), a, b, x, ds, es);
    }
    if KeysInOrder(a) {
      DoomedGoneTogether(a, b, x, cutoffs, gs, g, stuck, late);
      GroupCuts(a, b, x, u, v, n, cutoffs, gs, g);
      if clean && clean' {
        SweepOneMore(a, cutoffs, gs, g);
        DoomedElsewhere(a, cutoffs, gs, g);
      }
    }
  }

  lemma SweptSoFar(
    a: Snapshot, b: Snapshot, u: seq<Snapshot>, n: nat, cutoffs: Cutoffs, gs: set<GroupKey>, ds: seq<Removal>)
    requires Consistent(a) && Checking(a, b, u, n, ds, cutoffs, gs)
    ensures Keyed(a.records) && NoOrphan(a.records) && Keyed(b.records) && NoOrphan(b.records)
    ensures KeysInOrder(a) ==> KeysInOrder(b) && KeysApart(a.records) && WellFormed(a)
  {
    CheckingIsPartly(a, b, u, n, ds, cutoffs, gs);
  }

  /** Of every group: those without a full have nothing to lose. */
  lemma SweptEverywhere(
    a: Snapshot, x: Snapshot, t: seq<Snapshot>, n: nat, cutoffs: Cutoffs, ds: seq<Removal>, count: nat,
    stuck: set<GroupKey>, ok: bool, clean: bool)
    requires SweptGroups(a, x, t, n, cutoffs, Groups(a), ds, count, stuck, ok, clean)
    ensures KeysInOrder(a) ==> forall g | g !in stuck :: DoomedGone(a, x, cutoffs, g)
    ensures (ok <==> AllCarriedOut(ds, x)) && count == |GoneFulls(a, x, Groups(a))|
  {
    hide Newer, KeysInOrder, Checking, SweptApart, GoneFulls;
    if KeysInOrder(a) {
      forall g | g !in stuck ensures DoomedGone(a, x, cutoffs, g) {
        if g !in Groups(a) {
          assert forall c | c in a.records && Swept(a.records[c]) :: GroupOf(a.records[c]) in Groups(a);
        }
      }
    }
  }

  // ---- the daily run ----

  lemma RetainedByDate(a: Snapshot, b: Snapshot, u: seq<Snapshot>, n: nat)
    requires KeysProduced(a) && n <= |u| && SqlFullsKept(a, b) && forall i | n <= i < |u| :: SqlFullsKept(a, u[i])
    ensures Retained(a, b) && forall i | n <= i < |u| :: Retained(a, u[i])
  {
    KeptIsRetained(a, b);
    forall i | n <= i < |u| ensures Retained(a, u[i]) {
      KeptIsRetained(a, u[i]);
    }
  }

  lemma DeletedAtCut(a: Snapshot, b: Snapshot, y: Snapshot, ds: seq<Removal>)
    requires OnlyDeleted(a, b) && CutOfRun(b, y, ds)
    ensures OnlyDeleted(a, y) && OnlyDeleted(b, y)
  {
    var m :| 0 <= m <= |ds| && DeletionRun(b, y, ds[..m]);
    RunIsPartly(b, y, ds[..m]);
    CutsCompose(a, b, y, b.records.Keys);
  }

  lemma WholeRun(b: Snapshot, x: Snapshot, ds: seq<Removal>)
    requires DeletionRun(b, x, ds)
    ensures CutOfRun(b, x, ds)
  {
    assert ds[..|ds|] == ds;
  }

  /** Date-based deletions, then the sweep. */
  lemma DeletedAtLast(
    a: Snapshot, b: Snapshot, x: Snapshot, u: seq<Snapshot>, v: seq<Snapshot>, n: nat, ds: seq<Removal>)
    requires n <= |u| && u <= v && OnlyDeleted(a, b) && forall i | n <= i < |u| :: OnlyDeleted(a, u[i])
    requires DeletionRun(b, x, ds) && forall i | |u| <= i < |v| :: CutOfRun(b, v[i], ds)
    ensures OnlyDeleted(a, x) && forall i | n <= i < |v| :: OnlyDeleted(a, v[i])
  {
    hide OnlyDeleted, CutOfRun, DeletionRun;
    WholeRun(b, x, ds);
    DeletedAtCut(a, b, x, ds);
    forall i | n <= i < |v| ensures OnlyDeleted(a, v[i]) {
      if i < |u| {
        assert v[i] == u[i];
      } else {
        DeletedAtCut(a, b, v[i], ds);
      }
    }
  }

  lemma RetainedAtCut(a: Snapshot, b: Snapshot, y: Snapshot, ds: seq<Removal>)
    requires Consistent(b) && KeysProduced(a) && SqlFullsKept(a, b) && CutOfRun(b, y, ds) && AllSpare(ds)
    ensures Retained(a, y)
  {
    GoldenCut(b, y, ds);
    DeletedAtCut(a, b, y, ds);
    RetainedThenSwept(a, b, y);
  }

  /** If its deletions spare every group the golden rule holds throughout. */
  lemma RetainedAtLast(
    a: Snapshot, b: Snapshot, x: Snapshot, u: seq<Snapshot>, v: seq<Snapshot>, n: nat, ds: seq<Removal>)
    requires Consistent(b) && KeysProduced(a) && n <= |u| && u <= v
    requires SqlFullsKept(a, b) && forall i | n <= i < |u| :: SqlFullsKept(a, u[i])
    requires DeletionRun(b, x, ds) && forall i | |u| <= i < |v| :: CutOfRun(b, v[i], ds)
    requires AllSpare(ds)
    ensures Retained(a, x) && forall i | n <= i < |v| :: Retained(a, v[i])
  {
    hide Consistent, KeysProduced, CutOfRun, DeletionRun, AllSpare, Retained, SqlFullsKept;
    RetainedByDate(a, b, u, n);
    WholeRun(b, x, ds);
    RetainedAtCut(a, b, x, ds);
    forall i | n <= i < |v| ensures Retained(a, v[i]) {
      if i < |u| {
        assert v[i] == u[i];
      } else {
        RetainedAtCut(a, b, v[i], ds);
      }
    }
  }

  /** Since no SQL Server full goes by date, the golden rule can be told from the sweep alone. */
  lemma GoldenSinceDate(a: Snapshot, b: Snapshot, x: Snapshot)
    requires KeysProduced(a) && SqlFullsKept(a, b)
    ensures Golden(a, x) <==> Golden(b, x)
  {
    forall g ensures Verified(b, g) == Verified(a, g) {
      KeptVerified(a, b, g);
    }
  }

  /** The daily run from `a` has reached `x` over the trace `t`. Its first half, which deletes no SQL
      Server full, ended in `b`; `ds` are the deletions of the sweep, each of which was checked. The golden
      rule holds at every point if each of those spares every group, as each does with keys in order. */
  ghost predicate DailyRun(
    a: Snapshot, b: Snapshot, x: Snapshot, t: seq<Snapshot>, n: nat, ds: seq<Removal>, cutoffs: Cutoffs)
  {
    && n <= |t|
    && OnlyDeleted(a, x) && (forall i | n <= i < |t| :: OnlyDeleted(a, t[i]))
    && SqlFullsKept(a, b) && DeletionRun(b, x, ds) && AllChecked(ds, cutoffs, Groups(b))
    && (KeysProduced(a) && AllSpare(ds) ==> Retained(a, x) && forall i | n <= i < |t| :: Retained(a, t[i]))
    && (KeysInOrder(a) ==> AllSpare(ds))
  }

  lemma SparedAfterDate(a: Snapshot, b: Snapshot, x: Snapshot, ds: seq<Removal>, cutoffs: Cutoffs)
    requires Consistent(b) && SqlFullsKept(a, b) && DeletionRun(b, x, ds) && AllChecked(ds, cutoffs, Groups(b))
    ensures KeysInOrder(a) ==> AllSpare(ds) && KeysInOrder(b)
  {
    if KeysInOrder(a) {
      DeletingKeepsKeysInOrder(a, b, a.records.Keys);
      CheckedRunSpares(b, x, ds, cutoffs, Groups(b));
    }
  }

  lemma DatedStillGone(
    a: Snapshot, b: Snapshot, x: Snapshot, t: seq<Snapshot>, n: nat, ds: seq<Removal>, cutoffs: Cutoffs, now: Time,
    late: set<string>)
    requires DailyRun(a, b, x, t, n, ds, cutoffs) && DatedGone(a, b, now, late)
    ensures DatedGone(a, x, now, late)
  {
    hide DatedGone;
    RunIsPartly(b, x, ds);
    DatedStaysGone(a, b, x, now, late);
  }

  lemma ConsistentAfterDate(a: Snapshot, b: Snapshot)
    requires Consistent(a) && SqlFullsKept(a, b)
    ensures Consistent(b)
  {
    DeletingKeepsConsistent(a, b, a.records.Keys);
  }

  /** The first half having failed, there is no second. */
  lemma NoSweep(a: Snapshot, b: Snapshot, t: seq<Snapshot>, n: nat, cutoffs: Cutoffs)
    requires Consistent(a) && n <= |t| && SqlFullsKept(a, b) && forall i | n <= i < |t| :: SqlFullsKept(a, t[i])
    ensures DailyRun(a, b, b, t, n, [], cutoffs)
  {
    hide Consistent, SqlFullsKept, DailyRun;
    ConsistentAfterDate(a, b);
    CheckingStarts(b, t, cutoffs, Groups(b));
    DailyRunDone(a, b, b, t, t, n, [], cutoffs);
  }

  lemma DailyRunDone(
    a: Snapshot, b: Snapshot, x: Snapshot, u: seq<Snapshot>, v: seq<Snapshot>, n: nat, ds: seq<Removal>,
    cutoffs: Cutoffs)
    requires Consistent(b) && n <= |u| && u <= v
    requires SqlFullsKept(a, b) && forall i | n <= i < |u| :: SqlFullsKept(a, u[i])
    requires Checking(b, x, v, |u|, ds, cutoffs, Groups(b))
    ensures DailyRun(a, b, x, v, n, ds, cutoffs)
    ensures KeysInOrder(a) ==> KeysInOrder(b)
  {
    hide Consistent, KeysProduced, KeysInOrder, CutOfRun, DeletionRun, AllSpare, AllChecked, Retained, OnlyDeleted;
    DeletedAtLast(a, b, x, u, v, n, ds);
    SparedAfterDate(a, b, x, ds, cutoffs);
    if KeysProduced(a) && AllSpare(ds) {
      RetainedAtLast(a, b, x, u, v, n, ds);
    }
  }
}
