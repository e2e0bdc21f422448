/** The steps of the SQL Server retention sweep over one group, oldest full first, and from group to
    group. What is claimed of the objects here needs `KeysInOrder`. */
module Sweep {
  import opened Entities
  import opened Catalogue
  import opened Retention
  import opened Deletion
  import opened Sorting
  import opened World

  /** `fulls` is the group `g` of `a`, oldest first. */
  ghost predicate GroupListing(fulls: seq<BackupRecord>, a: Snapshot, g: GroupKey) {
    && (forall r | r in fulls :: r.id in a.records && a.records[r.id] == r && Swept(r) && GroupOf(r) == g)
    && (forall k | k in a.records && Swept(a.records[k]) && GroupOf(a.records[k]) == g :: a.records[k] in fulls)
    && (forall i, j | 0 <= i < j < |fulls| :: fulls[i].startedAt < fulls[j].startedAt)
  }

  /** Every state the trace passed through since it had length `n` is a cut of the sweep. */
  ghost predicate SweepCuts(a: Snapshot, t: seq<Snapshot>, n: nat, cutoffs: Cutoffs, gs: set<GroupKey>)
    requires n <= |t|
  {
    forall i | n <= i < |t| :: SweepCut(a, t[i], cutoffs, gs)
  }

  /** The records of the fulls from index `i` on are as listed; those before are gone. */
  ghost predicate RecordsTo(x: Snapshot, fulls: seq<BackupRecord>, i: nat)
    requires i <= |fulls|
  {
    && (forall j | 0 <= j < i :: fulls[j].id in x.records && x.records[fulls[j].id].status == Expired)
    && (forall j | i <= j < |fulls| :: fulls[j].id in x.records && x.records[fulls[j].id] == fulls[j])
  }

  /** And so are the objects of those that are left. */
  ghost predicate SweptTo(a: Snapshot, x: Snapshot, fulls: seq<BackupRecord>, i: nat)
    requires i <= |fulls|
  {
    RecordsTo(x, fulls, i) && forall j | i <= j < |fulls| :: Present(x, fulls[j]) <==> Present(a, fulls[j])
  }

  function Ids(fulls: seq<BackupRecord>): set<string> {
    set r | r in fulls :: r.id
  }

  lemma IdsStep(fulls: seq<BackupRecord>, i: nat)
    requires i < |fulls|
    ensures Ids(fulls[..i + 1]) == Ids(fulls[..i]) + {fulls[i].id}
  {
    assert fulls[..i + 1] == fulls[..i] + [fulls[i]];
  }

  ghost function FoundBetween(a: Snapshot, fulls: seq<BackupRecord>, i: nat, n: nat): set<string>
    requires n <= |fulls|
  {
    if n == 0 then
      {}
    else
      FoundBetween(a, fulls, i, n - 1)
      + if i < n - 1 && Found(a, fulls[n - 1]) then {fulls[n - 1].id} else {}
  }

  lemma {:induction false} FoundMembers(a: Snapshot, fulls: seq<BackupRecord>, i: nat, n: nat)
    requires n <= |fulls|
    ensures forall d :: d in FoundBetween(a, fulls, i, n) <==>
              exists j :: i < j < n && Found(a, fulls[j]) && fulls[j].id == d
  {
    if n > 0 {
      FoundMembers(a, fulls, i, n - 1);
    }
  }

  /** The IDs of the fulls after index `i` for which the existence test finds an object: what the sweep
      counts as verified when it considers the full at `i`. */
  ghost function FoundAfter(a: Snapshot, fulls: seq<BackupRecord>, i: nat): set<string> {
    FoundBetween(a, fulls, i, |fulls|)
  }

  /** Of the first `n` fulls, `seen` are some of those found after `i`; all but `missed`, each of which was
      missed because a listing failed. */
  ghost predicate Counted(
    a: Snapshot, fulls: seq<BackupRecord>, i: nat, n: nat, seen: set<string>, verified: nat, missed: nat)
  {
    && n <= |fulls| && |seen| == verified
    && seen <= FoundBetween(a, fulls, i, n)
    && |FoundBetween(a, fulls, i, n)| <= verified + missed
  }

  /** One round of counting: `found` is the outcome of the existence test on the full at `n`, in which
      `failed` calls failed. */
  lemma CountedStep(
    a: Snapshot, fulls: seq<BackupRecord>, i: nat, n: nat, seen: set<string>, verified: nat, missed: nat,
    found: bool, failed: nat)
    requires n < |fulls| && forall j, k | 0 <= j < k < |fulls| :: fulls[j].id != fulls[k].id
    requires Counted(a, fulls, i, n, seen, verified, missed)
    requires found ==> i < n && Found(a, fulls[n])
    requires failed == 0 ==> (found <==> i < n && Found(a, fulls[n]))
    ensures Counted(a, fulls, i, n + 1, if found then seen + {fulls[n].id} else seen,
                    if found then verified + 1 else verified, missed + failed)
  {
    hide Found;
    FoundMembers(a, fulls, i, n);
    assert fulls[n].id !in seen;
    var before := FoundBetween(a, fulls, i, n);
    assert |before + {fulls[n].id}| <= |before| + 1;
  }

  lemma CountingStarts(a: Snapshot, fulls: seq<BackupRecord>, i: nat)
    ensures Counted(a, fulls, i, 0, {}, 0, 0)
  {
  }

  /** If none was missed, all were seen. */
  lemma CountingEnds(
    a: Snapshot, fulls: seq<BackupRecord>, i: nat, seen: set<string>, verified: nat, missed: nat)
    requires Counted(a, fulls, i, |fulls|, seen, verified, missed)
    ensures |seen| == verified && seen <= FoundAfter(a, fulls, i) && |FoundAfter(a, fulls, i)| <= verified + missed
    ensures missed == 0 ==> seen == FoundAfter(a, fulls, i)
  {
    var t := FoundAfter(a, fulls, i);
    assert t == seen + (t - seen);
  }

  lemma ListedFound(x: Snapshot, fulls: seq<BackupRecord>, i: nat, j: nat)
    requires KeysProduced(x) && i <= j < |fulls| && RecordsTo(x, fulls, i) && Swept(fulls[j])
    ensures Found(x, fulls[j]) <==> Present(x, fulls[j])
  {
    FoundIsPresent(x, fulls[j].id);
  }

  /** With keys as the adapters form them the fulls found after the candidate are the newer verified
      ones. */
  lemma FoundAfterIsNewer(a: Snapshot, x: Snapshot, fulls: seq<BackupRecord>, g: GroupKey, i: nat)
    requires Keyed(a.records) && KeysProduced(x)
    requires GroupListing(fulls, a, g) && i < |fulls| && SweptTo(a, x, fulls, i)
    ensures FoundAfter(x, fulls, i) == Newer(a, fulls[i].id)
  {
    hide KeysProduced, Found, Present;
    FoundMembers(x, fulls, i, |fulls|);
    forall j | i < j < |fulls| ensures Found(x, fulls[j]) <==> Present(a, fulls[j]) {
      assert fulls[j] in fulls;
      ListedFound(x, fulls, i, j);
    }
    forall d ensures d in FoundAfter(x, fulls, i) <==> d in Newer(a, fulls[i].id) {
      if d in Newer(a, fulls[i].id) {
        var j :| 0 <= j < |fulls| && fulls[j] == a.records[d];
        assert j > i;
      }
    }
  }

  lemma CountedAreNewer(a: Snapshot, x: Snapshot, fulls: seq<BackupRecord>, g: GroupKey, i: nat, seen: set<string>)
    requires Keyed(a.records) && KeysProduced(x)
    requires GroupListing(fulls, a, g) && i < |fulls| && SweptTo(a, x, fulls, i)
    requires seen <= FoundAfter(x, fulls, i)
    ensures |seen| <= |Newer(a, fulls[i].id)|
    ensures seen == FoundAfter(x, fulls, i) ==> |seen| == |Newer(a, fulls[i].id)|
  {
    FoundAfterIsNewer(a, x, fulls, g, i);
    Subset(seen, Newer(a, fulls[i].id));
  }

  lemma OlderAreGone(a: Snapshot, x: Snapshot, fulls: seq<BackupRecord>, g: GroupKey, i: nat)
    requires Keyed(a.records) && GroupListing(fulls, a, g) && i < |fulls|
    requires SweptTo(a, x, fulls, i) && a.records.Keys == x.records.Keys
    ensures OlderGone(a, x, fulls[i].id)
  {
    forall k | k in a.records && Swept(a.records[k]) && GroupOf(a.records[k]) == g
      && a.records[k].startedAt < fulls[i].startedAt
      ensures x.records[k].status == Expired
    {
      var j :| 0 <= j < |fulls| && fulls[j] == a.records[k];
      assert j < i;
    }
  }

  /** A deletion changes the record of no other full, and what had gone stays gone. */
  lemma DeletionChangesOneFull(b: Snapshot, x: Snapshot, c: string, d: string)
    requires Keyed(b.records) && NoOrphan(b.records) && c in b.records && PartlyWithout(b, x, Family(b, c))
    requires d in b.records && d != c
    ensures b.records[d].IsFull() ==> x.records[d] == b.records[d]
    ensures b.records[d].status == Expired ==> x.records[d].status == Expired
  {
    if b.records[d].IsFull() {
      NotInOtherFamily(b, c, d);
    }
  }

  lemma RecordsOneFurther(b: Snapshot, x: Snapshot, fulls: seq<BackupRecord>, i: nat)
    requires Keyed(b.records) && NoOrphan(b.records) && i < |fulls| && RecordsTo(b, fulls, i)
    requires forall j, k | 0 <= j < k < |fulls| :: fulls[j].id != fulls[k].id
    requires forall j | i < j < |fulls| :: fulls[j].IsFull()
    requires PartlyWithout(b, x, Family(b, fulls[i].id)) && x.records[fulls[i].id].status == Expired
    ensures RecordsTo(x, fulls, i + 1)
  {
    forall j | 0 <= j < |fulls| && j != i
      ensures fulls[j].id in x.records
      ensures if j < i then x.records[fulls[j].id].status == Expired else x.records[fulls[j].id] == fulls[j]
    {
      DeletionChangesOneFull(b, x, fulls[i].id, fulls[j].id);
    }
  }

  /** With keys apart the objects of the later ones stay too. */
  lemma SweptOneFurther(a: Snapshot, b: Snapshot, x: Snapshot, fulls: seq<BackupRecord>, i: nat)
    requires Keyed(b.records) && NoOrphan(b.records) && KeysApart(b.records) && i < |fulls| && SweptTo(a, b, fulls, i)
    requires forall j | 0 <= j < |fulls| :: fulls[j].CompletedFull()
    requires forall j, k | 0 <= j < k < |fulls| :: fulls[j].id != fulls[k].id
    requires PartlyWithout(b, x, Family(b, fulls[i].id)) && RecordsTo(x, fulls, i + 1)
    ensures SweptTo(a, x, fulls, i + 1)
  {
    forall j | i < j < |fulls| ensures Present(x, fulls[j]) <==> Present(b, fulls[j]) {
      if Touched(b, x, fulls[j].id) {
        TouchedInFamily(b, x, fulls[i].id, fulls[j].id);
        assert false;
      }
    }
  }

  lemma DoomedComeFirst(a: Snapshot, fulls: seq<BackupRecord>, cutoffs: Cutoffs, g: GroupKey, i: nat, c: string)
    requires Keyed(a.records) && GroupListing(fulls, a, g) && i <= |fulls|
    requires i < |fulls| ==> !(fulls[i].startedAt < cutoffs(g)) || |Newer(a, fulls[i].id)| < 2
    requires c in Doomed(a, cutoffs, {g})
    ensures c in Ids(fulls[..i])
  {
    assert a.records[c] in fulls;
    var j :| 0 <= j < |fulls| && fulls[j] == a.records[c];
    if i <= j {
      LaterHasFewer(a, fulls, g, i, j);
      assert false;
    }
    assert fulls[j] in fulls[..i];
  }

  /** Once the full at `i` is too young, or has fewer than two verified ones after it, so have all
      later ones: what was deleted is all that is doomed. */
  lemma SweepStopsRight(a: Snapshot, fulls: seq<BackupRecord>, cutoffs: Cutoffs, g: GroupKey, i: nat)
    requires Keyed(a.records) && GroupListing(fulls, a, g) && i <= |fulls|
    requires forall j | 0 <= j < i :: fulls[j].startedAt < cutoffs(g) && |Newer(a, fulls[j].id)| >= 2
    requires i < |fulls| ==> !(fulls[i].startedAt < cutoffs(g)) || |Newer(a, fulls[i].id)| < 2
    ensures Doomed(a, cutoffs, {g}) == Ids(fulls[..i]) && |Ids(fulls[..i])| == i
  {
    hide Newer;
    forall c | c in Doomed(a, cutoffs, {g}) ensures c in Ids(fulls[..i]) {
      DoomedComeFirst(a, fulls, cutoffs, g, i, c);
    }
    forall c | c in Ids(fulls[..i]) ensures c in Doomed(a, cutoffs, {g}) {
      var j :| 0 <= j < i && fulls[j].id == c;
      assert fulls[j] in fulls;
    }
    CountIds(fulls[..i]);
  }

  lemma LaterHasFewer(a: Snapshot, fulls: seq<BackupRecord>, g: GroupKey, i: nat, j: nat)
    requires GroupListing(fulls, a, g) && i <= j < |fulls|
    ensures fulls[i].startedAt <= fulls[j].startedAt
    ensures |Newer(a, fulls[j].id)| <= |Newer(a, fulls[i].id)|
  {
    assert fulls[i] in fulls && fulls[j] in fulls;
    Subset(Newer(a, fulls[j].id), Newer(a, fulls[i].id));
  }

  lemma {:induction false} CountIds(s: seq<BackupRecord>)
    requires forall i, j | 0 <= i < j < |s| :: s[i].id != s[j].id
    ensures |Ids(s)| == |s|
  {
    if s == [] {
      assert Ids(s) == {};
    } else {
      var n := |s| - 1;
      CountIds(s[..n]);
      assert s == s[..n] + [s[n]];
      assert Ids(s) == Ids(s[..n]) + {s[n].id};
      forall r | r in s[..n] ensures r.id != s[n].id {
      }
    }
  }

  lemma FamilyStays(a: Snapshot, ids: set<string>, c: string)
    requires Keyed(a.records) && NoOrphan(a.records) && c in a.records && a.records[c].IsFull()
    ensures Family(Without(a, ids), c) == Families(a, {c})
  {
    FamiliesOfOne(a, c);
  }

  lemma SweptFurtherClosed(a: Snapshot, fulls: seq<BackupRecord>, i: nat)
    requires Keyed(a.records) && NoOrphan(a.records) && i < |fulls|
    requires fulls[i].id in a.records && a.records[fulls[i].id].IsFull()
    ensures
      var b := Without(a, Families(a, Ids(fulls[..i])));
      Without(b, Family(b, fulls[i].id)) == Without(a, Families(a, Ids(fulls[..i + 1])))
  {
    var c, done := fulls[i].id, Ids(fulls[..i]);
    FamilyStays(a, Families(a, done), c);
    WithoutWithout(a, Families(a, done), Families(a, {c}));
    FamiliesTogether(a, done, {c});
    IdsStep(fulls, i);
  }

  lemma PickTwo(s: set<string>) returns (d: string, e: string)
    requires |s| >= 2
    ensures d in s && e in s && d != e
  {
    d :| d in s;
    var rest := s - {d};
    assert |rest| == |s| - 1;
    e :| e in rest;
  }

  lemma SeenSurvives(a: Snapshot, b: Snapshot, fulls: seq<BackupRecord>, g: GroupKey, i: nat, d: string)
    requires Keyed(a.records) && KeysProduced(b) && a.records.Keys == b.records.Keys
    requires GroupListing(fulls, a, g) && i < |fulls| && SweptTo(a, b, fulls, i)
    requires d in FoundAfter(b, fulls, i)
    ensures Survives(a, b, fulls[i].id, d)
  {
    hide KeysProduced, Found;
    FoundAfterIsNewer(a, b, fulls, g, i);
    FoundMembers(b, fulls, i, |fulls|);
    var j :| i < j < |fulls| && Found(b, fulls[j]) && d == fulls[j].id;
    assert fulls[j] in fulls;
    ListedFound(b, fulls, i, j);
  }

  /** With keys in order, any cut of the deletion of the full at `i`, two after it having been counted,
      is a cut of the sweep. */
  lemma CandidateCut(
    a: Snapshot, b: Snapshot, x: Snapshot, fulls: seq<BackupRecord>, i: nat, cutoffs: Cutoffs, g: GroupKey,
    seen: set<string>)
    requires Consistent(a) && KeysInOrder(a) && SweepCut(a, b, cutoffs, {g})
    requires GroupListing(fulls, a, g) && i < |fulls| && SweptTo(a, b, fulls, i)
    requires fulls[i].startedAt < cutoffs(g) && |seen| >= 2 && seen <= FoundAfter(b, fulls, i)
    requires DeleteCut(b, x, fulls[i].id)
    ensures SweepCut(a, x, cutoffs, {g})
  {
    hide FoundAfter;
    DeletingKeepsKeysProduced(a, b, a.records.Keys);
    var d, e := PickTwo(seen);
    SeenSurvives(a, b, fulls, g, i, d);
    SeenSurvives(a, b, fulls, g, i, e);
    OlderAreGone(a, b, fulls, g, i);
    SweepContinues(a, b, x, cutoffs, g, fulls[i].id, d, e);
  }

  lemma CandidateCuts(
    a: Snapshot, b: Snapshot, x: Snapshot, u: seq<Snapshot>, v: seq<Snapshot>, n: nat,
    fulls: seq<BackupRecord>, i: nat, cutoffs: Cutoffs, g: GroupKey, seen: set<string>)
    requires Consistent(a) && KeysInOrder(a) && SweepCut(a, b, cutoffs, {g})
    requires GroupListing(fulls, a, g) && i < |fulls| && SweptTo(a, b, fulls, i)
    requires fulls[i].startedAt < cutoffs(g) && |seen| >= 2 && seen <= FoundAfter(b, fulls, i)
    requires n <= |u| && u <= v && SweepCuts(a, u, n, cutoffs, {g})
    requires DeleteCut(b, x, fulls[i].id) && forall j | |u| <= j < |v| :: DeleteCut(b, v[j], fulls[i].id)
    ensures SweepCut(a, x, cutoffs, {g}) && SweepCuts(a, v, n, cutoffs, {g})
  {
    CandidateCut(a, b, x, fulls, i, cutoffs, g, seen);
    forall j | n <= j < |v| ensures SweepCut(a, v[j], cutoffs, {g}) {
      if j < |u| {
        assert v[j] == u[j];
      } else {
        CandidateCut(a, b, v[j], fulls, i, cutoffs, g, seen);
      }
    }
  }

  /** The sweep of `g` from `a`, having deleted the fulls before `i`, has reached `x` over the trace `t`. */
  ghost predicate SweepingApart(
    a: Snapshot, x: Snapshot, t: seq<Snapshot>, n: nat, fulls: seq<BackupRecord>, i: nat,
    cutoffs: Cutoffs, g: GroupKey, clean: bool)
  {
    && i <= |fulls| && n <= |t|
    && SweptTo(a, x, fulls, i)
    && SweepCut(a, x, cutoffs, {g}) && SweepCuts(a, t, n, cutoffs, {g})
    && (clean ==>
          && x == Without(a, Families(a, Ids(fulls[..i])))
          && forall j | 0 <= j < i :: fulls[j].startedAt < cutoffs(g) && |Newer(a, fulls[j].id)| >= 2)
  }

  lemma SweepingApartStarts(a: Snapshot, t: seq<Snapshot>, fulls: seq<BackupRecord>, cutoffs: Cutoffs, g: GroupKey)
    requires GroupListing(fulls, a, g)
    ensures SweepingApart(a, a, t, |t|, fulls, 0, cutoffs, g, true) && Ids(fulls[..0]) == {}
  {
    assert Families(a, {}) == {};
    assert Ids(fulls[..0]) == {};
    WithoutNothing(a);
    SweepStarts(a, cutoffs, {g});
  }

  lemma ListedFulls(a: Snapshot, fulls: seq<BackupRecord>, g: GroupKey)
    requires GroupListing(fulls, a, g)
    ensures forall j | 0 <= j < |fulls| :: fulls[j].CompletedFull()
    ensures forall j, k | 0 <= j < k < |fulls| :: fulls[j].id != fulls[k].id
  {
    forall j | 0 <= j < |fulls| ensures fulls[j].CompletedFull() && a.records[fulls[j].id] == fulls[j] {
      assert fulls[j] in fulls;
    }
  }

  lemma FurtherApart(a: Snapshot, b: Snapshot, x: Snapshot, fulls: seq<BackupRecord>, i: nat, g: GroupKey)
    requires WellFormed(b) && GroupListing(fulls, a, g) && i < |fulls| && SweptTo(a, b, fulls, i)
    requires PartlyWithout(b, x, Family(b, fulls[i].id)) && x.records[fulls[i].id].status == Expired
    ensures SweptTo(a, x, fulls, i + 1)
  {
    ListedFulls(a, fulls, g);
    RecordsOneFurther(b, x, fulls, i);
    SweptOneFurther(a, b, x, fulls, i);
  }

  /** The deletion of the full at `i` having succeeded, the sweep is one full further. */
  lemma SweptFurther(
    a: Snapshot, b: Snapshot, x: Snapshot, u: seq<Snapshot>, v: seq<Snapshot>, n: nat, fulls: seq<BackupRecord>, i: nat,
    cutoffs: Cutoffs, g: GroupKey, clean: bool, clean': bool)
    requires WellFormed(a) && WellFormed(b) && GroupListing(fulls, a, g)
    requires i < |fulls| && fulls[i].startedAt < cutoffs(g) && fulls[i].id in b.records
    requires SweepingApart(a, b, u, n, fulls, i, cutoffs, g, clean)
    requires n <= |v| && SweepCut(a, x, cutoffs, {g}) && SweepCuts(a, v, n, cutoffs, {g})
    requires DeleteCut(b, x, fulls[i].id) && x.records[fulls[i].id].status == Expired
    requires clean' ==> clean && |Newer(a, fulls[i].id)| >= 2 && x == Without(b, Family(b, fulls[i].id))
    ensures SweepingApart(a, x, v, n, fulls, i + 1, cutoffs, g, clean')
  {
    hide GroupListing, SweepCut, SweepCuts, Without, Newer, SweptTo;
    FurtherApart(a, b, x, fulls, i, g);
    if clean' {
      FurtherClosed(a, b, x, fulls, i, g);
    }
  }

  lemma FurtherClosed(a: Snapshot, b: Snapshot, x: Snapshot, fulls: seq<BackupRecord>, i: nat, g: GroupKey)
    requires Keyed(a.records) && NoOrphan(a.records) && GroupListing(fulls, a, g) && i < |fulls|
    requires b == Without(a, Families(a, Ids(fulls[..i])))
    requires fulls[i].id in b.records && x == Without(b, Family(b, fulls[i].id))
    ensures x == Without(a, Families(a, Ids(fulls[..i + 1])))
  {
    assert fulls[i] in fulls;
    SweptFurtherClosed(a, fulls, i);
  }

  /** The whole sweep from `a`, having dealt with the groups `gs`, has reached `x` over the trace `t`. */
  ghost predicate SweptApart(
    a: Snapshot, x: Snapshot, t: seq<Snapshot>, n: nat, cutoffs: Cutoffs, gs: set<GroupKey>, count: nat, clean: bool)
  {
    && n <= |t|
    && SweepCut(a, x, cutoffs, gs) && SweepCuts(a, t, n, cutoffs, gs)
    && (clean ==> x == SweptAway(a, cutoffs, gs) && count == |Doomed(a, cutoffs, gs)|)
  }

  /** The sweep of a group stops at the full at `i`. */
  lemma SweepingApartEnds(
    a: Snapshot, x: Snapshot, t: seq<Snapshot>, n: nat, fulls: seq<BackupRecord>, i: nat, cutoffs: Cutoffs, g: GroupKey,
    clean: bool)
    requires Keyed(a.records) && GroupListing(fulls, a, g) && SweepingApart(a, x, t, n, fulls, i, cutoffs, g, clean)
    requires clean && i < |fulls| ==> !(fulls[i].startedAt < cutoffs(g)) || |Newer(a, fulls[i].id)| < 2
    ensures SweptApart(a, x, t, n, cutoffs, {g}, i, clean)
  {
    if clean {
      SweepStopsRight(a, fulls, cutoffs, g, i);
    }
  }

  /** What counting needs to know about the group. */
  lemma CountingSound(a: Snapshot, fulls: seq<BackupRecord>, g: GroupKey, i: nat)
    requires GroupListing(fulls, a, g) && i < |fulls|
    ensures forall j, k | 0 <= j < k < |fulls| :: fulls[j].id != fulls[k].id
    ensures forall j | 0 <= j < |fulls| && j != i :: fulls[j].id in Ids(fulls[..i]) <==> j < i
  {
    ListedFulls(a, fulls, g);
    forall j | 0 <= j < i ensures fulls[j].id in Ids(fulls[..i]) {
      assert fulls[j] == fulls[..i][j];
    }
  }

  // ---- grouping ----

  /** `s` holds the fulls of `g` among the first `n` of `all`, each once. */
  ghost predicate GroupMembers(s: seq<BackupRecord>, all: seq<BackupRecord>, n: nat, g: GroupKey)
    requires n <= |all|
  {
    && (forall r | r in s :: r in all[..n] && Swept(r) && GroupOf(r) == g)
    && (forall r | r in all[..n] && Swept(r) && GroupOf(r) == g :: r in s)
    && (forall i, j | 0 <= i < j < |s| :: s[i].id != s[j].id)
  }

  /** `s` holds the fulls of `g` in `a`, each once. */
  ghost predicate IsGroup(a: Snapshot, s: seq<BackupRecord>, g: GroupKey) {
    && (forall r | r in s :: r.id in a.records && a.records[r.id] == r && Swept(r) && GroupOf(r) == g)
    && (forall k | k in a.records && Swept(a.records[k]) && GroupOf(a.records[k]) == g :: a.records[k] in s)
    && (forall i, j | 0 <= i < j < |s| :: s[i].id != s[j].id)
  }

  lemma MembersAreGroup(a: Snapshot, all: seq<BackupRecord>, s: seq<BackupRecord>, g: GroupKey)
    requires Keyed(a.records) && Lists(all, a.records, r => true) && GroupMembers(s, all, |all|, g)
    ensures IsGroup(a, s, g)
  {
    assert all[..|all|] == all;
    forall r | r in s ensures r.id in a.records && a.records[r.id] == r {
    }
    forall k | k in a.records && Swept(a.records[k]) && GroupOf(a.records[k]) == g ensures a.records[k] in s {
      assert a.records[k] in all;
    }
  }

  /** A sorted group is a listing of it, oldest first. */
  lemma SortedGroup(a: Snapshot, s: seq<BackupRecord>, fulls: seq<BackupRecord>, g: GroupKey)
    requires StartsDistinct(a.records) && IsGroup(a, s, g)
    requires Sorted(fulls) && multiset(fulls) == multiset(s)
    ensures GroupListing(fulls, a, g)
  {
    forall i, j | 0 <= i < j < |s| ensures s[i].startedAt != s[j].startedAt {
      assert s[i] in s && s[j] in s;
    }
    SortedStrictly(s, fulls);
  }

  /** The cuts of sweeping `g` from `b` are cuts of the whole sweep. */
  lemma GroupCuts(
    a: Snapshot, b: Snapshot, x: Snapshot, u: seq<Snapshot>, v: seq<Snapshot>, n: nat,
    cutoffs: Cutoffs, gs: set<GroupKey>, g: GroupKey)
    requires WellFormed(a) && n <= |u| && u <= v && g !in gs
    requires SweepCut(a, b, cutoffs, gs) && SweepCuts(a, u, n, cutoffs, gs)
    requires SweepCut(b, x, cutoffs, {g}) && SweepCuts(b, v, |u|, cutoffs, {g})
    ensures SweepCut(a, x, cutoffs, gs + {g}) && SweepCuts(a, v, n, cutoffs, gs + {g})
  {
    SweepNextGroup(a, b, x, cutoffs, gs, g);
    forall j | n <= j < |v| ensures SweepCut(a, v[j], cutoffs, gs + {g}) {
      if j < |u| {
        assert v[j] == u[j];
        SweepCutWeaken(a, v[j], cutoffs, gs, gs + {g});
      } else {
        SweepNextGroup(a, b, v[j], cutoffs, gs, g);
      }
    }
  }

  lemma SweepCutWeaken(a: Snapshot, x: Snapshot, cutoffs: Cutoffs, gs: set<GroupKey>, hs: set<GroupKey>)
    requires SweepCut(a, x, cutoffs, gs) && gs <= hs
    ensures SweepCut(a, x, cutoffs, hs)
  {
    forall k | k in a.records && Touched(a, x, k) ensures Deletable(a, x, a.records[k].Owner(), cutoffs, hs) {
      var d, e :| d != e && Survives(a, x, a.records[k].Owner(), d) && Survives(a, x, a.records[k].Owner(), e);
    }
  }

  lemma SweepCutsWeaken(a: Snapshot, t: seq<Snapshot>, n: nat, cutoffs: Cutoffs, gs: set<GroupKey>, hs: set<GroupKey>)
    requires n <= |t| && SweepCuts(a, t, n, cutoffs, gs) && gs <= hs
    ensures SweepCuts(a, t, n, cutoffs, hs)
  {
    forall j | n <= j < |t| ensures SweepCut(a, t[j], cutoffs, hs) {
      SweepCutWeaken(a, t[j], cutoffs, gs, hs);
    }
  }

  lemma NothingSwept(a: Snapshot, cutoffs: Cutoffs)
    ensures Doomed(a, cutoffs, {}) == {} && SweptAway(a, cutoffs, {}) == a
  {
    assert Doomed(a, cutoffs, {}) == {};
    assert Families(a, {}) == {};
    WithoutNothing(a);
  }

  lemma MembersStep(s: seq<BackupRecord>, all: seq<BackupRecord>, n: nat, g: GroupKey)
    requires n < |all| && forall i, j | 0 <= i < j < |all| :: all[i].id != all[j].id
    requires GroupMembers(s, all, n, g)
    ensures GroupMembers(if Swept(all[n]) && GroupOf(all[n]) == g then s + [all[n]] else s, all, n + 1, g)
  {
    assert all[..n + 1] == all[..n] + [all[n]];
    forall r | r in all[..n] ensures r.id != all[n].id {
    }
    forall i | 0 <= i < |s| ensures s[i].id != all[n].id {
      assert s[i] in s;
    }
  }

  /** The groups found so far, and that there are no others. */
  ghost predicate Grouped(groups: map<GroupKey, seq<BackupRecord>>, all: seq<BackupRecord>, n: nat)
    requires n <= |all|
  {
    forall g :: GroupMembers(if g in groups then groups[g] else [], all, n, g) && (g in groups ==> groups[g] != [])
  }

  lemma GroupedStep(groups: map<GroupKey, seq<BackupRecord>>, all: seq<BackupRecord>, n: nat)
    requires n < |all| && forall i, j | 0 <= i < j < |all| :: all[i].id != all[j].id
    requires Grouped(groups, all, n)
    ensures
      var r := all[n];
      var g := GroupOf(r);
      Grouped(if Swept(r) then groups[g := (if g in groups then groups[g] else []) + [r]] else groups, all, n + 1)
  {
    var r := all[n];
    var h := GroupOf(r);
    var next := if Swept(r) then groups[h := (if h in groups then groups[h] else []) + [r]] else groups;
    forall g ensures GroupMembers(if g in next then next[g] else [], all, n + 1, g) {
      MembersStep(if g in groups then groups[g] else [], all, n, g);
    }
  }

  /** Grouping finds every group and no other. */
  lemma GroupedKeys(groups: map<GroupKey, seq<BackupRecord>>, a: Snapshot, all: seq<BackupRecord>)
    requires Keyed(a.records) && Lists(all, a.records, r => true) && Grouped(groups, all, |all|)
    ensures groups.Keys == Groups(a)
    ensures forall g | g in groups :: IsGroup(a, groups[g], g)
  {
    assert all[..|all|] == all;
    forall g ensures g in groups <==> g in Groups(a) {
      if g in groups {
        assert groups[g][0] in groups[g];
        assert groups[g][0] in all;
      }
      if g in Groups(a) {
        var k :| k in a.records && Swept(a.records[k]) && GroupOf(a.records[k]) == g;
        assert a.records[k] in all;
        assert GroupMembers(if g in groups then groups[g] else [], all, |all|, g);
      }
    }
    forall g | g in groups ensures IsGroup(a, groups[g], g) {
      assert GroupMembers(if g in groups then groups[g] else [], all, |all|, g);
      MembersAreGroup(a, all, groups[g], g);
    }
  }

  lemma SweptApartStarts(a: Snapshot, t: seq<Snapshot>, cutoffs: Cutoffs)
    ensures SweptApart(a, a, t, |t|, cutoffs, {}, 0, true)
  {
    SweepStarts(a, cutoffs, {});
    NothingSwept(a, cutoffs);
  }

  lemma SweptApartWeaken(
    a: Snapshot, x: Snapshot, t: seq<Snapshot>, n: nat, cutoffs: Cutoffs, gs: set<GroupKey>, hs: set<GroupKey>,
    count: nat)
    requires SweptApart(a, x, t, n, cutoffs, gs, count, false) && gs <= hs
    ensures SweptApart(a, x, t, n, cutoffs, hs, count, false)
  {
    SweepCutWeaken(a, x, cutoffs, gs, hs);
    SweepCutsWeaken(a, t, n, cutoffs, gs, hs);
  }

  lemma TakeOne<T>(all: set<T>, left: set<T>, x: T)
    requires left <= all && x in left
    ensures all - (left - {x}) == (all - left) + {x}
  {
  }
}
