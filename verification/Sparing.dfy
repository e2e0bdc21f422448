/** The golden rule of retention without any hypothesis on keys: when one deletion keeps it, and when
    a run of deletions does.

    An object belongs to whoever knows its key. Keys carry the time to the minute and the name, not the
    ID, of the instance, so a deletion can take the object of a full of its own or of another group. */
module Sparing {
  import opened Entities
  import opened ObjectKeys
  import opened Catalogue
  import opened Retention

  // ---- one deletion ----

  /** The verified fulls of `h` that lose their object when `c` is deleted with its chain, `c` itself
      included. */
  function Lost(a: Snapshot, c: string, h: GroupKey): (ids: set<string>)
    requires c in a.records
  {
    set d | d in Verified(a, h) && d in a.records
            && FullKey(a.prefix, a.records[d].fileName) in KeysOf(a, Family(a, c))
  }

  /** Every group that loses verified fulls with `c` keeps two. */
  ghost predicate Spares(a: Snapshot, c: string)
    requires c in a.records
  {
    forall h :: Lost(a, c, h) == {} || |Verified(a, h)| - |Lost(a, c, h)| >= MIN_VERIFIED_FULL_BACKUPS
  }

  /** What a verified full that is not lost goes through: nothing. */
  lemma NotLost(a: Snapshot, x: Snapshot, c: string, h: GroupKey, d: string)
    requires Keyed(a.records) && NoOrphan(a.records) && c in a.records && PartlyWithout(a, x, Family(a, c))
    requires d in Verified(a, h) && d !in Lost(a, c, h)
    ensures d in Verified(x, h)
  {
    if d in Family(a, c) || FullKey(a.prefix, a.records[d].fileName) !in x.objects {
      assert false;
    }
  }

  /** One deletion, exactly: the verified fulls of every group are those that were not lost. */
  lemma VerifiedAfterDeletion(a: Snapshot, c: string, h: GroupKey)
    requires Keyed(a.records) && NoOrphan(a.records) && c in a.records
    ensures Verified(Without(a, Family(a, c)), h) == Verified(a, h) - Lost(a, c, h)
  {
    var x := Without(a, Family(a, c));
    forall d ensures d in Verified(x, h) <==> d in Verified(a, h) - Lost(a, c, h) {
      if d in Verified(a, h) && d !in Lost(a, c, h) {
        NotLost(a, x, c, h, d);
      }
    }
  }

  lemma SizeOfRest(s: set<string>, t: set<string>)
    requires t <= s
    ensures |s - t| == |s| - |t|
  {
    assert s == (s - t) + t;
  }

  /** A deletion keeps the golden rule of every group exactly if every group that loses objects with
      the deleted chain keeps two verified fulls whose keys are not among those of the chain. */
  lemma GoldenRuleIffKeysNotShared(a: Snapshot, c: string)
    requires Keyed(a.records) && NoOrphan(a.records) && c in a.records
    ensures Golden(a, Without(a, Family(a, c))) <==> Spares(a, c)
  {
    var x := Without(a, Family(a, c));
    forall h
      ensures (|Verified(x, h)| >= MIN_VERIFIED_FULL_BACKUPS || Verified(x, h) == Verified(a, h))
          <==> (Lost(a, c, h) == {} || |Verified(a, h)| - |Lost(a, c, h)| >= MIN_VERIFIED_FULL_BACKUPS)
    {
      VerifiedAfterDeletion(a, c, h);
      SizeOfRest(Verified(a, h), Lost(a, c, h));
    }
  }

  lemma SparedGroup(a: Snapshot, x: Snapshot, c: string, h: GroupKey)
    requires Keyed(a.records) && NoOrphan(a.records) && c in a.records && PartlyWithout(a, x, Family(a, c))
    requires Lost(a, c, h) == {} || |Verified(a, h)| - |Lost(a, c, h)| >= MIN_VERIFIED_FULL_BACKUPS
    ensures |Verified(x, h)| >= MIN_VERIFIED_FULL_BACKUPS || Verified(x, h) == Verified(a, h)
  {
    forall d | d in Verified(a, h) - Lost(a, c, h) ensures d in Verified(x, h) {
      NotLost(a, x, c, h, d);
    }
    assert Verified(x, h) <= Verified(a, h);
    SizeOfRest(Verified(a, h), Lost(a, c, h));
    Subset(Verified(a, h) - Lost(a, c, h), Verified(x, h));
  }

  /** It then holds wherever the deletion is cut. */
  lemma SparedCut(a: Snapshot, x: Snapshot, c: string)
    requires Keyed(a.records) && NoOrphan(a.records) && c in a.records && Spares(a, c) && DeleteCut(a, x, c)
    ensures Golden(a, x)
  {
    forall h ensures |Verified(x, h)| >= MIN_VERIFIED_FULL_BACKUPS || Verified(x, h) == Verified(a, h) {
      SparedGroup(a, x, c, h);
    }
  }

  // ---- a run of deletions ----

  datatype Removal = Removal(before: Snapshot, id: string)

  ghost predicate Removing(d: Removal, x: Snapshot) {
    d.id in d.before.records && DeleteCut(d.before, x, d.id)
  }

  /** `x` is reached from `a` by the steps `ds`, each of which begins in the state it names. */
  ghost predicate Run(step: (Removal, Snapshot) -> bool, a: Snapshot, x: Snapshot, ds: seq<Removal>)
    decreases |ds|
  {
    if ds == [] then
      x == a
    else
      Run(step, a, ds[|ds| - 1].before, ds[..|ds| - 1]) && step(ds[|ds| - 1], x)
  }

  ghost function Removals(): (Removal, Snapshot) -> bool {
    (d, x) => Removing(d, x)
  }

  /** `x` is reached from `a` by the deletions `ds`, each cut anywhere. */
  ghost predicate DeletionRun(a: Snapshot, x: Snapshot, ds: seq<Removal>) {
    Run(Removals(), a, x, ds)
  }

  lemma LastRemoval(a: Snapshot, x: Snapshot, ds: seq<Removal>)
    requires DeletionRun(a, x, ds) && ds != []
    ensures
      var d := ds[|ds| - 1];
      DeletionRun(a, d.before, ds[..|ds| - 1]) && Removing(d, x)
  {
    assert Removals()(ds[|ds| - 1], x);
  }

  /** What the sweep has checked before a deletion: an old completed full, with two newer ones for
      which the existence test finds an object. */
  ghost predicate Checked(d: Removal, cutoffs: Cutoffs, gs: set<GroupKey>) {
    && d.id in d.before.records && Swept(d.before.records[d.id])
    && GroupOf(d.before.records[d.id]) in gs
    && d.before.records[d.id].startedAt < cutoffs(GroupOf(d.before.records[d.id]))
    && |FoundNewer(d.before, d.id)| >= MIN_VERIFIED_FULL_BACKUPS
  }

  ghost predicate AllChecked(ds: seq<Removal>, cutoffs: Cutoffs, gs: set<GroupKey>) {
    forall i | 0 <= i < |ds| :: Checked(ds[i], cutoffs, gs)
  }

  /** Every full that was to be deleted has expired in `x`. */
  ghost predicate AllCarriedOut(ds: seq<Removal>, x: Snapshot) {
    forall i | 0 <= i < |ds| :: ds[i].id in x.records && x.records[ds[i].id].status == Expired
  }

  ghost predicate AllSpare(ds: seq<Removal>) {
    forall i | 0 <= i < |ds| :: ds[i].id in ds[i].before.records && Spares(ds[i].before, ds[i].id)
  }

  lemma NothingDeleted(a: Snapshot)
    ensures PartlyWithout(a, a, a.records.Keys) && Cascaded(a, a)
  {
  }

  lemma {:induction false} RunIsPartly(a: Snapshot, x: Snapshot, ds: seq<Removal>)
    requires DeletionRun(a, x, ds)
    ensures PartlyWithout(a, x, a.records.Keys) && Cascaded(a, x)
    decreases |ds|
  {
    if ds == [] {
      NothingDeleted(a);
    } else {
      var d := ds[|ds| - 1];
      LastRemoval(a, x, ds);
      RunIsPartly(a, d.before, ds[..|ds| - 1]);
      CutsCompose(a, d.before, x, Family(d.before, d.id));
    }
  }

  lemma GoldenTransitive(a: Snapshot, b: Snapshot, x: Snapshot)
    requires Golden(a, b) && Golden(b, x)
    ensures Golden(a, x)
  {
    forall h ensures |Verified(x, h)| >= MIN_VERIFIED_FULL_BACKUPS || Verified(x, h) == Verified(a, h) {
      assert |Verified(b, h)| >= MIN_VERIFIED_FULL_BACKUPS || Verified(b, h) == Verified(a, h);
    }
  }

  lemma GoldenStep(a: Snapshot, b: Snapshot, x: Snapshot, c: string)
    requires Keyed(a.records) && NoOrphan(a.records) && PartlyWithout(a, b, a.records.Keys) && Cascaded(a, b)
    requires Golden(a, b) && c in b.records && Spares(b, c) && DeleteCut(b, x, c)
    ensures Golden(a, x)
  {
    DeletingKeepsNoOrphan(a, b, a.records.Keys);
    DeletingKeepsKeyed(a, b);
    SparedCut(b, x, c);
    GoldenTransitive(a, b, x);
  }

  lemma DeletingKeepsKeyed(a: Snapshot, b: Snapshot)
    requires Keyed(a.records) && PartlyWithout(a, b, a.records.Keys)
    ensures Keyed(b.records)
  {
  }

  /** A run of deletions each of which spares every group keeps the golden rule at every point,
      whatever keys are shared. */
  lemma {:induction false} GoldenRun(a: Snapshot, x: Snapshot, ds: seq<Removal>)
    requires Keyed(a.records) && NoOrphan(a.records) && DeletionRun(a, x, ds) && AllSpare(ds)
    ensures Golden(a, x)
    decreases |ds|
  {
    if ds != [] {
      var d := ds[|ds| - 1];
      LastRemoval(a, x, ds);
      GoldenRun(a, d.before, ds[..|ds| - 1]);
      RunIsPartly(a, d.before, ds[..|ds| - 1]);
      GoldenStep(a, d.before, x, d.id);
    }
  }

  // ---- the converse, for deletions that succeed ----

  ghost function Completions(): (Removal, Snapshot) -> bool {
    (d: Removal, x: Snapshot) => d.id in d.before.records && x == Without(d.before, Family(d.before, d.id))
  }

  /** `x` is reached from `a` by the deletions `ds`, each of which was carried out. */
  ghost predicate CompletedRun(a: Snapshot, x: Snapshot, ds: seq<Removal>) {
    Run(Completions(), a, x, ds)
  }

  lemma LastCompletion(a: Snapshot, x: Snapshot, ds: seq<Removal>)
    requires CompletedRun(a, x, ds) && ds != []
    ensures
      var d := ds[|ds| - 1];
      && CompletedRun(a, d.before, ds[..|ds| - 1])
      && d.id in d.before.records && x == Without(d.before, Family(d.before, d.id))
  {
    assert Completions()(ds[|ds| - 1], x);
  }

  lemma VerifiedShrinks(a: Snapshot, x: Snapshot, h: GroupKey)
    requires PartlyWithout(a, x, a.records.Keys)
    ensures Verified(x, h) <= Verified(a, h)
  {
  }

  /** Verified fulls never come back, so the golden rule once broken stays broken. */
  lemma GoldenBetween(a: Snapshot, b: Snapshot, x: Snapshot)
    requires PartlyWithout(a, b, a.records.Keys) && PartlyWithout(b, x, b.records.Keys) && Golden(a, x)
    ensures Golden(a, b) && Golden(b, x)
  {
    forall h
      ensures |Verified(b, h)| >= MIN_VERIFIED_FULL_BACKUPS || Verified(b, h) == Verified(a, h)
      ensures |Verified(x, h)| >= MIN_VERIFIED_FULL_BACKUPS || Verified(x, h) == Verified(b, h)
    {
      VerifiedShrinks(a, b, h);
      VerifiedShrinks(b, x, h);
      Subset(Verified(x, h), Verified(b, h));
    }
  }

  lemma CompletedBefore(a: Snapshot, b: Snapshot, ds: seq<Removal>)
    requires Keyed(a.records) && NoOrphan(a.records) && DeletionRun(a, b, ds)
    ensures PartlyWithout(a, b, a.records.Keys) && Keyed(b.records) && NoOrphan(b.records)
  {
    RunIsPartly(a, b, ds);
    DeletingKeepsKeyed(a, b);
    DeletingKeepsNoOrphan(a, b, a.records.Keys);
  }

  lemma GoldenSparesLast(a: Snapshot, b: Snapshot, ds: seq<Removal>, c: string)
    requires Keyed(a.records) && NoOrphan(a.records) && DeletionRun(a, b, ds) && c in b.records
    requires Golden(a, Without(b, Family(b, c)))
    ensures Golden(a, b) && Spares(b, c)
  {
    hide Keyed, NoOrphan, Golden, Spares, DeletionRun;
    var x := Without(b, Family(b, c));
    CompletedBefore(a, b, ds);
    WithoutIsPartly(b, Family(b, c));
    PartlyOfAll(b, x, Family(b, c));
    GoldenBetween(a, b, x);
    GoldenRuleIffKeysNotShared(b, c);
  }

  lemma {:induction false} GoldenSpares(a: Snapshot, x: Snapshot, ds: seq<Removal>)
    requires Keyed(a.records) && NoOrphan(a.records) && DeletionRun(a, x, ds) && CompletedRun(a, x, ds)
    requires Golden(a, x)
    ensures AllSpare(ds)
    decreases |ds|
  {
    hide Keyed, NoOrphan, Golden, Spares, DeletionRun, CompletedRun;
    if ds != [] {
      var n := |ds| - 1;
      LastRemoval(a, x, ds);
      LastCompletion(a, x, ds);
      GoldenSparesLast(a, ds[n].before, ds[..n], ds[n].id);
      GoldenSpares(a, ds[n].before, ds[..n]);
      forall i | 0 <= i < |ds| ensures ds[i].id in ds[i].before.records && Spares(ds[i].before, ds[i].id) {
        assert i < n ==> ds[..n][i] == ds[i];
      }
    }
  }

  lemma PartlyOfAll(b: Snapshot, x: Snapshot, ids: set<string>)
    requires PartlyWithout(b, x, ids)
    ensures PartlyWithout(b, x, b.records.Keys)
  {
  }

  /** A run of deletions that all succeed keeps the golden rule exactly if each spares every group. */
  lemma GoldenRunIffAllSpare(a: Snapshot, x: Snapshot, ds: seq<Removal>)
    requires Keyed(a.records) && NoOrphan(a.records) && DeletionRun(a, x, ds) && CompletedRun(a, x, ds)
    ensures Golden(a, x) <==> AllSpare(ds)
  {
    if Golden(a, x) {
      GoldenSpares(a, x, ds);
    }
    if AllSpare(ds) {
      GoldenRun(a, x, ds);
    }
  }

  // ---- with keys in order ----

  lemma LostIsOwn(b: Snapshot, c: string, h: GroupKey)
    requires Keyed(b.records) && NoOrphan(b.records) && KeysApart(b.records)
    requires c in b.records && b.records[c].CompletedFull()
    ensures Lost(b, c, h) <= {c}
    ensures h != GroupOf(b.records[c]) ==> Lost(b, c, h) == {}
  {
    forall d | d in Lost(b, c, h) ensures d == c {
      var o := FullKey(b.prefix, b.records[d].fileName);
      var l :| l in Family(b, c) && b.records[l].fileName != "" && o == FullKey(b.prefix, b.records[l].fileName);
      FullKeyInjective(b.prefix, b.records[d].fileName, b.records[l].fileName);
      FamilyOwner(b, c, l);
      assert InLiveChain(b.records, l);
    }
  }

  /** With keys in order the check of the sweep is enough. */
  lemma CheckedSpares(d: Removal, cutoffs: Cutoffs, gs: set<GroupKey>)
    requires Keyed(d.before.records) && NoOrphan(d.before.records) && KeysInOrder(d.before)
    requires Checked(d, cutoffs, gs)
    ensures Spares(d.before, d.id)
  {
    var b, c := d.before, d.id;
    FoundAreVerified(b, c);
    forall h ensures Lost(b, c, h) == {} || |Verified(b, h)| - |Lost(b, c, h)| >= MIN_VERIFIED_FULL_BACKUPS {
      LostIsOwn(b, c, h);
      SizeOfRest(Verified(b, h), Lost(b, c, h));
      if h == GroupOf(b.records[c]) {
        Subset(Newer(b, c), Verified(b, h) - Lost(b, c, h));
      }
    }
  }

  lemma CheckedLast(a: Snapshot, d: Removal, ds: seq<Removal>, cutoffs: Cutoffs, gs: set<GroupKey>)
    requires Consistent(a) && KeysInOrder(a) && DeletionRun(a, d.before, ds) && Checked(d, cutoffs, gs)
    ensures Spares(d.before, d.id)
  {
    RunIsPartly(a, d.before, ds);
    DeletingKeepsNoOrphan(a, d.before, a.records.Keys);
    DeletingKeepsKeyed(a, d.before);
    DeletingKeepsKeysInOrder(a, d.before, a.records.Keys);
    CheckedSpares(d, cutoffs, gs);
  }

  lemma {:induction false} RunPrefix(
    step: (Removal, Snapshot) -> bool, a: Snapshot, x: Snapshot, ds: seq<Removal>, i: nat)
    requires Run(step, a, x, ds) && i < |ds|
    ensures Run(step, a, ds[i].before, ds[..i])
    decreases |ds|
  {
    var n := |ds| - 1;
    if i < n {
      RunPrefix(step, a, ds[n].before, ds[..n], i);
      assert ds[..n][..i] == ds[..i];
    }
  }

  /** So with keys in order at the start every deletion of the run spares every group. */
  lemma CheckedRunSpares(a: Snapshot, x: Snapshot, ds: seq<Removal>, cutoffs: Cutoffs, gs: set<GroupKey>)
    requires Consistent(a) && KeysInOrder(a) && DeletionRun(a, x, ds) && AllChecked(ds, cutoffs, gs)
    ensures AllSpare(ds)
  {
    forall i | 0 <= i < |ds| ensures ds[i].id in ds[i].before.records && Spares(ds[i].before, ds[i].id) {
      RunPrefix(Removals(), a, x, ds, i);
      CheckedLast(a, ds[i], ds[..i], cutoffs, gs);
    }
  }

  // ---- what goes wrong when two fulls share a key ----

  lemma MinutesApart(t: string, u: string)
    requires |t| == 13 && |u| == 13 && t != u
    ensures KeyFits(SQLServer, true, SqlKey("n", "d", t, "bak"))
    ensures SqlKey("n", "d", t, "bak") != SqlKey("n", "d", u, "bak")
  {
    assert SqlKeyParts("n", "d", t, "bak");
    var head := "sqlserver/n/d/d_";
    assert SqlKey("n", "d", t, "bak") == head + (t + ".bak") && SqlKey("n", "d", u, "bak") == head + (u + ".bak");
    assert (head + (t + ".bak"))[16..29] == t && (head + (u + ".bak"))[16..29] == u;
  }

  function FullUnder(instanceID: string, id: string, key: string, t: Time): BackupRecord {
    BackupRecord(id, instanceID, "n", "d", key, SQLServer, Full, "", 0, "", Completed, "", t, None, 0, 0, 0)
  }

  /** Two fulls under the key `k` and a newer one under `l`. */
  function SharedKeyState(k: string, l: string): Snapshot {
    Snapshot("",
             map["1" := FullUnder("i", "1", k, 1), "2" := FullUnder("i", "2", k, 2), "3" := FullUnder("i", "3", l, 3)],
             map[k := [], l := []])
  }

  lemma SharedKeyKeys(k: string, l: string)
    requires KeyFits(SQLServer, true, k) && KeyFits(SQLServer, true, l)
    ensures KeysProduced(SharedKeyState(k, l))
  {
    var a := SharedKeyState(k, l);
    assert a.records.Keys == {"1", "2", "3"};
    BareKeys({k, l});
  }

  lemma BareKeys(keys: set<string>)
    requires forall k | k in keys :: IsSqlKey(k)
    ensures AdapterBucket("", keys)
  {
    forall o | o in keys ensures exists key :: IsSqlKey(key) && o == FullKey("", key) {
      assert o == FullKey("", o);
    }
  }

  lemma SharedKeyRecords(k: string, l: string)
    ensures
      var a := SharedKeyState(k, l);
      Keyed(a.records) && NoOrphan(a.records) && StartsDistinct(a.records)
  {
    assert SharedKeyState(k, l).records.Keys == {"1", "2", "3"};
  }

  lemma SharedKeyCounts(k: string, l: string)
    requires k != "" && l != ""
    ensures
      var a := SharedKeyState(k, l);
      |Newer(a, "1")| == 2 && |Verified(a, GroupKey("i", "d"))| == 3
  {
    var a := SharedKeyState(k, l);
    assert a.records.Keys == {"1", "2", "3"};
    assert Newer(a, "1") == {"2", "3"};
    assert Verified(a, GroupKey("i", "d")) == {"1", "2", "3"};
  }

  lemma SharedKeyLost(k: string, l: string)
    requires k != l && k != "" && l != ""
    ensures Lost(SharedKeyState(k, l), "1", GroupKey("i", "d")) == {"1", "2"}
  {
    var a := SharedKeyState(k, l);
    assert a.records.Keys == {"1", "2", "3"};
    assert Family(a, "1") == {"1"};
    assert KeysOf(a, {"1"}) == {k};
  }

  lemma SharedKeyLeft(k: string, l: string)
    requires k != l && k != "" && l != ""
    ensures
      var a := SharedKeyState(k, l);
      |Verified(Without(a, Family(a, "1")), GroupKey("i", "d"))| == 1
  {
    hide Lost, Verified, KeysOf;
    var a, g := SharedKeyState(k, l), GroupKey("i", "d");
    SharedKeyRecords(k, l);
    SharedKeyCounts(k, l);
    SharedKeyLost(k, l);
    VerifiedAfterDeletion(a, "1", g);
    LostAreVerified(a, "1", g);
    SizeOfRest(Verified(a, g), Lost(a, "1", g));
  }

  lemma LostAreVerified(a: Snapshot, c: string, h: GroupKey)
    requires c in a.records
    ensures Lost(a, c, h) <= Verified(a, h)
  {
  }

  /** A state in which it goes wrong, with keys as the adapter makes them: of three verified fulls
      the two oldest were made within one minute and share a key. The check counts two newer fulls,
      and one is left. */
  lemma SharedKeyBreaksGoldenRule() returns (a: Snapshot, c: string)
    ensures Keyed(a.records) && NoOrphan(a.records) && StartsDistinct(a.records) && KeysProduced(a)
    ensures c in a.records && Swept(a.records[c])
    ensures |Newer(a, c)| == 2 && |Verified(a, GroupOf(a.records[c]))| == 3
    ensures |Verified(Without(a, Family(a, c)), GroupOf(a.records[c]))| == 1
  {
    hide Newer, Verified, KeysProduced, StartsDistinct, NoOrphan, Keyed, SqlKey;
    var t, u := "20240101_0000", "20240102_0000";
    assert t[7] != u[7];
    MinutesApart(t, u);
    MinutesApart(u, t);
    var k, l := SqlKey("n", "d", t, "bak"), SqlKey("n", "d", u, "bak");
    a, c := SharedKeyState(k, l), "1";
    SharedKeyKeys(k, l);
    SharedKeyRecords(k, l);
    SharedKeyCounts(k, l);
    SharedKeyLeft(k, l);
  }

  /** Two instances of one name: `i` with fulls under `k`, `l` and `m`, `j` with fulls under `k` and `l`. */
  function SharedNameState(k: string, l: string, m: string): Snapshot {
    Snapshot("",
             map["1" := FullUnder("i", "1", k, 1), "2" := FullUnder("i", "2", l, 2), "3" := FullUnder("i", "3", m, 3),
                 "4" := FullUnder("j", "4", k, 4), "5" := FullUnder("j", "5", l, 5)],
             map[k := [], l := [], m := []])
  }

  lemma SharedNameKeys(k: string, l: string, m: string)
    requires KeyFits(SQLServer, true, k) && KeyFits(SQLServer, true, l) && KeyFits(SQLServer, true, m)
    ensures KeysProduced(SharedNameState(k, l, m))
  {
    assert SharedNameState(k, l, m).records.Keys == {"1", "2", "3", "4", "5"};
    BareKeys({k, l, m});
  }

  lemma SharedNameRecords(k: string, l: string, m: string)
    ensures Keyed(SharedNameState(k, l, m).records) && NoOrphan(SharedNameState(k, l, m).records)
  {
    assert SharedNameState(k, l, m).records.Keys == {"1", "2", "3", "4", "5"};
  }

  lemma SharedNameStarts(k: string, l: string, m: string)
    ensures StartsDistinct(SharedNameState(k, l, m).records)
  {
    var records := SharedNameState(k, l, m).records;
    assert records.Keys == {"1", "2", "3", "4", "5"};
    assert records["1"].startedAt == 1 && records["2"].startedAt == 2 && records["3"].startedAt == 3;
    assert records["4"].startedAt == 4 && records["5"].startedAt == 5;
  }

  lemma SharedNameCounts(k: string, l: string, m: string)
    requires k != "" && l != "" && m != ""
    ensures
      var a := SharedNameState(k, l, m);
      |Newer(a, "1")| == 2 && |Verified(a, GroupKey("i", "d"))| == 3 && |Verified(a, GroupKey("j", "d"))| == 2
  {
    SharedNameNewer(k, l, m);
    SharedNameVerified(k, l, m);
  }

  lemma SharedNameNewer(k: string, l: string, m: string)
    requires l != "" && m != ""
    ensures Newer(SharedNameState(k, l, m), "1") == {"2", "3"}
  {
    assert SharedNameState(k, l, m).records.Keys == {"1", "2", "3", "4", "5"};
  }

  lemma SharedNameVerified(k: string, l: string, m: string)
    requires k != "" && l != "" && m != ""
    ensures Verified(SharedNameState(k, l, m), GroupKey("i", "d")) == {"1", "2", "3"}
    ensures Verified(SharedNameState(k, l, m), GroupKey("j", "d")) == {"4", "5"}
  {
    assert SharedNameState(k, l, m).records.Keys == {"1", "2", "3", "4", "5"};
  }

  lemma SharedNameFamily(k: string, l: string, m: string)
    requires k != ""
    ensures KeysOf(SharedNameState(k, l, m), Family(SharedNameState(k, l, m), "1")) == {k}
  {
    var a := SharedNameState(k, l, m);
    assert a.records.Keys == {"1", "2", "3", "4", "5"};
    assert Family(a, "1") == {"1"};
  }

  lemma SharedNameLost(k: string, l: string, m: string)
    requires k != l && k != m && k != "" && l != "" && m != ""
    ensures
      var a := SharedNameState(k, l, m);
      Lost(a, "1", GroupKey("i", "d")) == {"1"} && Lost(a, "1", GroupKey("j", "d")) == {"4"}
  {
    hide KeysOf, Family;
    SharedNameFamily(k, l, m);
    assert SharedNameState(k, l, m).records.Keys == {"1", "2", "3", "4", "5"};
  }

  /** Another one, for any three keys: two instances of one name, whose fulls of one database share
      keys. Deleting the oldest full of one leaves two verified ones there, and takes the other
      instance from two to one. */
  lemma SharedNameBreaksGoldenRule(k: string, l: string, m: string)
    requires KeyFits(SQLServer, true, k) && KeyFits(SQLServer, true, l) && KeyFits(SQLServer, true, m)
    requires k != l && k != m
    ensures
      var a := SharedNameState(k, l, m);
      var x := Without(a, Family(a, "1"));
      && Keyed(a.records) && NoOrphan(a.records) && StartsDistinct(a.records) && KeysProduced(a)
      && |Newer(a, "1")| == 2 && |Verified(x, GroupKey("i", "d"))| == 2
      && |Verified(a, GroupKey("j", "d"))| == 2 && |Verified(x, GroupKey("j", "d"))| == 1
  {
    hide Newer, Verified, Lost, KeysProduced, StartsDistinct, NoOrphan, Keyed;
    var a, g, h := SharedNameState(k, l, m), GroupKey("i", "d"), GroupKey("j", "d");
    SharedNameKeys(k, l, m);
    SharedNameRecords(k, l, m);
    SharedNameStarts(k, l, m);
    SharedNameCounts(k, l, m);
    SharedNameLost(k, l, m);
    VerifiedAfterDeletion(a, "1", g);
    VerifiedAfterDeletion(a, "1", h);
    LostAreVerified(a, "1", g);
    LostAreVerified(a, "1", h);
    SizeOfRest(Verified(a, g), Lost(a, "1", g));
    SizeOfRest(Verified(a, h), Lost(a, "1", h));
  }
}
