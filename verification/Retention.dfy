/** What the SQL Server retention sweep may do to the catalogue, whatever calls fail, and exactly
    what it does when none does. */
module Retention {
  import opened Entities
  import opened ObjectKeys
  import opened Catalogue

  datatype GroupKey = GroupKey(instanceID: string, database: string)

  function GroupOf(r: BackupRecord): GroupKey {
    GroupKey(r.instanceID, r.databaseName)
  }

  /** The records the sweep looks at. */
  predicate Swept(r: BackupRecord) {
    r.engine == SQLServer && r.CompletedFull()
  }

  /** The retention window of each group: fulls started before it are old. */
  type Cutoffs = GroupKey -> Time

  /** The verified fulls of a group: completed, with their object in the bucket. */
  function Verified(a: Snapshot, g: GroupKey): (ids: set<string>) {
    set k | k in a.records && Swept(a.records[k]) && GroupOf(a.records[k]) == g && Present(a, a.records[k])
  }

  /** The verified fulls of its group that are newer than `c`. */
  function Newer(a: Snapshot, c: string): (ids: set<string>)
    requires c in a.records
  {
    set k | k in Verified(a, GroupOf(a.records[c])) && k in a.records
            && a.records[c].startedAt < a.records[k].startedAt
  }

  /** The answer of the existence test on a backup: some object under its key ends in it. */
  ghost predicate Found(a: Snapshot, r: BackupRecord) {
    r.fileName != "" && exists o :: o in a.objects && Matches(a.prefix, o, r.fileName)
  }

  /** The newer fulls of its group for which the test finds an object. */
  ghost function FoundNewer(a: Snapshot, c: string): (ids: set<string>)
    requires c in a.records
  {
    set k | k in a.records && Swept(a.records[k]) && GroupOf(a.records[k]) == GroupOf(a.records[c])
            && a.records[c].startedAt < a.records[k].startedAt && Found(a, a.records[k])
  }

  /** With keys as the adapters form them the test finds the very object of the backup. */
  lemma FoundIsPresent(a: Snapshot, k: string)
    requires KeysProduced(a) && k in a.records && Swept(a.records[k])
    ensures Found(a, a.records[k]) <==> Present(a, a.records[k])
  {
    if a.records[k].fileName != "" {
      ExistsExact(a.prefix, a.objects.Keys, a.records[k].fileName);
    }
  }

  lemma FoundAreVerified(a: Snapshot, c: string)
    requires KeysProduced(a) && c in a.records
    ensures FoundNewer(a, c) == Newer(a, c)
  {
    forall k | k in a.records && Swept(a.records[k]) ensures Found(a, a.records[k]) <==> Present(a, a.records[k]) {
      FoundIsPresent(a, k);
    }
  }

  // ---- any sweep, at any point ----

  /** `d` is a newer full of `c`'s group that is still there, record and object. */
  ghost predicate Survives(a: Snapshot, x: Snapshot, c: string, d: string)
    requires c in a.records && a.records.Keys == x.records.Keys
  {
    d in Newer(a, c) && x.records[d] == a.records[d] && Present(x, x.records[d])
  }

  /** The only fulls a sweep of the groups `gs` may delete: old ones of which two newer ones are left. */
  ghost predicate Deletable(a: Snapshot, x: Snapshot, c: string, cutoffs: Cutoffs, gs: set<GroupKey>)
    requires a.records.Keys == x.records.Keys
  {
    && c in a.records && Swept(a.records[c])
    && GroupOf(a.records[c]) in gs
    && a.records[c].startedAt < cutoffs(GroupOf(a.records[c]))
    && exists d, e :: d != e && Survives(a, x, c, d) && Survives(a, x, c, e)
  }

  /** The golden rule between two states: every group keeps two verified fulls, or all it had. */
  ghost predicate Golden(a: Snapshot, x: Snapshot) {
    forall g :: |Verified(x, g)| >= MIN_VERIFIED_FULL_BACKUPS || Verified(x, g) == Verified(a, g)
  }

  /** Every older full of `c`'s group is gone. */
  ghost predicate OlderGone(a: Snapshot, x: Snapshot, c: string)
    requires c in a.records && a.records.Keys == x.records.Keys
  {
    forall k | k in a.records && Swept(a.records[k]) && GroupOf(a.records[k]) == GroupOf(a.records[c])
      && a.records[k].startedAt < a.records[c].startedAt ::
      x.records[k].status == Expired
  }

  /** What can be found at any point of a sweep of the groups `gs`. */
  ghost predicate SweepCut(a: Snapshot, x: Snapshot, cutoffs: Cutoffs, gs: set<GroupKey>) {
    && PartlyWithout(a, x, a.records.Keys)
    && Cascaded(a, x)
    && forall k | k in a.records && Touched(a, x, k) ::
         && Deletable(a, x, a.records[k].Owner(), cutoffs, gs)
         && OlderGone(a, x, a.records[k].Owner())
  }

  lemma SweepStarts(a: Snapshot, cutoffs: Cutoffs, gs: set<GroupKey>)
    ensures SweepCut(a, a, cutoffs, gs)
  {
  }

  /** A member of `c`'s family belongs to `c`. */
  lemma FamilyOwner(a: Snapshot, c: string, k: string)
    requires Keyed(a.records) && NoOrphan(a.records)
    requires c in a.records && a.records[c].IsFull() && k in Family(a, c)
    ensures a.records[k].Owner() == c
  {
  }

  /** With keys apart, deleting the chain of `c` touches no completed backup of another chain. */
  lemma TouchedInFamily(b: Snapshot, x: Snapshot, c: string, k: string)
    requires Keyed(b.records) && NoOrphan(b.records) && KeysApart(b.records)
    requires c in b.records && b.records[c].CompletedFull() && PartlyWithout(b, x, Family(b, c))
    requires k in b.records && Touched(b, x, k)
    ensures b.records[k].Owner() == c
  {
    forall l | l in Family(b, c) ensures InLiveChain(b.records, l) && b.records[l].Owner() == c {
      FamilyOwner(b, c, l);
    }
    LostOnlyByDeletion(b, x, Family(b, c), k);
  }

  /** Two deletions in a row keep the shape of a cut. */
  lemma CutsCompose(a: Snapshot, b: Snapshot, x: Snapshot, ids: set<string>)
    requires PartlyWithout(a, b, a.records.Keys) && Cascaded(a, b)
    requires PartlyWithout(b, x, ids) && Cascaded(b, x) && ids <= a.records.Keys
    ensures PartlyWithout(a, x, a.records.Keys) && Cascaded(a, x)
    ensures forall k | k in a.records && b.records[k].status == Expired :: x.records[k].status == Expired
  {
    PartlyWithoutTransitive(a, b, x, a.records.Keys, ids);
    assert a.records.Keys + ids == a.records.Keys;
    CascadedTransitive(a, b, x, a.records.Keys, ids);
  }

  lemma NotInOtherFamily(b: Snapshot, c: string, k: string)
    requires Keyed(b.records) && NoOrphan(b.records) && c in b.records && k in b.records && k != c
    requires b.records[k].IsFull()
    ensures k !in Family(b, c)
  {
  }

  lemma NewerMembers(a: Snapshot, c: string, d: string)
    requires c in a.records
    ensures d in Newer(a, c) <==>
              && d in a.records && Swept(a.records[d]) && GroupOf(a.records[d]) == GroupOf(a.records[c])
              && Present(a, a.records[d]) && a.records[c].startedAt < a.records[d].startedAt
  {
  }

  /** A full newer than `c` survives the deletion of `c`. */
  lemma SurvivesDeletion(a: Snapshot, b: Snapshot, x: Snapshot, c: string, d: string)
    requires KeysApart(b.records) && NoOrphan(b.records) && Keyed(b.records)
    requires c in a.records && a.records.Keys == b.records.Keys && DeleteCut(b, x, c) && b.records[c].CompletedFull()
    requires Survives(a, b, c, d)
    ensures Survives(a, x, c, d)
  {
    NewerMembers(a, c, d);
    if Touched(b, x, d) {
      TouchedInFamily(b, x, c, d);
      assert false;
    }
  }

  /** What was deleted before `c` is older than `c`, so the survivors of `c` serve for it too. */
  lemma SurvivorsHandedOn(
    a: Snapshot, b: Snapshot, x: Snapshot, cutoffs: Cutoffs, g: GroupKey, c: string, d: string, e: string, o: string)
    requires StartsDistinct(a.records) && a.records.Keys == b.records.Keys == x.records.Keys
    requires Deletable(a, b, o, cutoffs, {g}) && OlderGone(a, b, o)
    requires c in a.records && Swept(a.records[c]) && GroupOf(a.records[c]) == g && b.records[c] == a.records[c]
    requires d != e && Survives(a, x, c, d) && Survives(a, x, c, e)
    requires forall k | k in b.records && b.records[k].status == Expired :: x.records[k].status == Expired
    ensures Deletable(a, x, o, cutoffs, {g}) && OlderGone(a, x, o)
  {
    assert GroupOf(a.records[o]) == g;
    assert a.records[o].startedAt <= a.records[c].startedAt;
    assert Survives(a, x, o, d) && Survives(a, x, o, e);
  }

  lemma OwnerStays(a: Snapshot, b: Snapshot, k: string)
    requires k in a.records && k in b.records && (b.records[k] == a.records[k] || b.records[k] == Expire(a.records[k]))
    ensures b.records[k].Owner() == a.records[k].Owner()
  {
  }

  lemma TouchedLater(a: Snapshot, b: Snapshot, x: Snapshot, k: string)
    requires a.records.Keys == b.records.Keys == x.records.Keys && k in a.records
    requires !Touched(a, b, k) && Touched(a, x, k)
    ensures Touched(b, x, k)
  {
  }

  lemma SweepContinuesAt(
    a: Snapshot, b: Snapshot, x: Snapshot, cutoffs: Cutoffs, g: GroupKey, c: string, d: string, e: string, k: string)
    requires Keyed(b.records) && NoOrphan(b.records) && KeysApart(b.records) && StartsDistinct(a.records)
    requires PartlyWithout(a, b, a.records.Keys)
    requires k in a.records && (Touched(a, b, k) ==>
               Deletable(a, b, a.records[k].Owner(), cutoffs, {g}) && OlderGone(a, b, a.records[k].Owner()))
    requires c in a.records && Swept(a.records[c]) && GroupOf(a.records[c]) == g
    requires a.records[c].startedAt < cutoffs(g)
    requires b.records[c] == a.records[c] && OlderGone(a, b, c)
    requires DeleteCut(b, x, c)
    requires d != e && Survives(a, x, c, d) && Survives(a, x, c, e)
    requires forall k | k in b.records && b.records[k].status == Expired :: x.records[k].status == Expired
    requires Touched(a, x, k)
    ensures Deletable(a, x, a.records[k].Owner(), cutoffs, {g}) && OlderGone(a, x, a.records[k].Owner())
  {
    if Touched(a, b, k) {
      SurvivorsHandedOn(a, b, x, cutoffs, g, c, d, e, a.records[k].Owner());
    } else {
      TouchedLater(a, b, x, k);
      TouchedInFamily(b, x, c, k);
      OwnerStays(a, b, k);
      assert OlderGone(a, x, c);
    }
  }

  /** One more deletion: the oldest remaining full `c` of group `g`, old enough, with two newer
      verified ones. Any cut of the deletion is a cut of the sweep. */
  lemma SweepContinues(
    a: Snapshot, b: Snapshot, x: Snapshot, cutoffs: Cutoffs, g: GroupKey, c: string, d: string, e: string)
    requires WellFormed(a) && SweepCut(a, b, cutoffs, {g})
    requires c in a.records && Swept(a.records[c]) && GroupOf(a.records[c]) == g
    requires a.records[c].startedAt < cutoffs(g)
    requires b.records[c] == a.records[c] && OlderGone(a, b, c)
    requires d != e && Survives(a, b, c, d) && Survives(a, b, c, e)
    requires DeleteCut(b, x, c)
    ensures SweepCut(a, x, cutoffs, {g})
  {
    DeletingKeepsWellFormed(a, b, a.records.Keys);
    CutsCompose(a, b, x, Family(b, c));
    SurvivesDeletion(a, b, x, c, d);
    SurvivesDeletion(a, b, x, c, e);
    forall k | k in a.records && Touched(a, x, k)
      ensures Deletable(a, x, a.records[k].Owner(), cutoffs, {g}) && OlderGone(a, x, a.records[k].Owner())
    {
      SweepContinuesAt(a, b, x, cutoffs, g, c, d, e, k);
    }
  }

  /** Sweeping group `g` leaves the fulls of every other group alone. */
  lemma OtherGroupUntouched(b: Snapshot, x: Snapshot, cutoffs: Cutoffs, gs: set<GroupKey>, k: string)
    requires Keyed(b.records) && SweepCut(b, x, cutoffs, gs)
    requires k in b.records && Swept(b.records[k]) && GroupOf(b.records[k]) !in gs
    ensures !Touched(b, x, k)
  {
    assert b.records[k].Owner() == k;
  }

  lemma EarlierSurvives(
    a: Snapshot, b: Snapshot, x: Snapshot, cutoffs: Cutoffs, gs: set<GroupKey>, g: GroupKey, o: string, d: string)
    requires Keyed(b.records) && SweepCut(b, x, cutoffs, {g}) && g !in gs && a.records.Keys == b.records.Keys
    requires o in a.records && GroupOf(a.records[o]) in gs && Survives(a, b, o, d)
    ensures Survives(a, x, o, d)
  {
    NewerMembers(a, o, d);
    OtherGroupUntouched(b, x, cutoffs, {g}, d);
  }

  lemma EarlierGroupsStay(
    a: Snapshot, b: Snapshot, x: Snapshot, cutoffs: Cutoffs, gs: set<GroupKey>, g: GroupKey, o: string)
    requires Keyed(b.records) && PartlyWithout(a, b, a.records.Keys) && SweepCut(b, x, cutoffs, {g}) && g !in gs
    requires Deletable(a, b, o, cutoffs, gs) && OlderGone(a, b, o)
    requires forall k | k in b.records && b.records[k].status == Expired :: x.records[k].status == Expired
    ensures Deletable(a, x, o, cutoffs, gs + {g}) && OlderGone(a, x, o)
  {
    var d, e :| d != e && Survives(a, b, o, d) && Survives(a, b, o, e);
    EarlierSurvives(a, b, x, cutoffs, gs, g, o, d);
    EarlierSurvives(a, b, x, cutoffs, gs, g, o, e);
  }

  lemma LaterSurvives(a: Snapshot, b: Snapshot, x: Snapshot, o: string, d: string)
    requires PartlyWithout(a, b, a.records.Keys) && o in a.records && b.records[o] == a.records[o]
    requires b.records.Keys == x.records.Keys && Survives(b, x, o, d)
    ensures Survives(a, x, o, d)
  {
    NewerMembers(b, o, d);
    assert b.records[d] == a.records[d];
    NewerMembers(a, o, d);
  }

  lemma ThisGroupCarriesOver(
    a: Snapshot, b: Snapshot, x: Snapshot, cutoffs: Cutoffs, gs: set<GroupKey>, g: GroupKey, o: string)
    requires Keyed(a.records) && SweepCut(a, b, cutoffs, gs) && g !in gs && b.records.Keys == x.records.Keys
    requires Deletable(b, x, o, cutoffs, {g}) && OlderGone(b, x, o)
    ensures Deletable(a, x, o, cutoffs, gs + {g}) && OlderGone(a, x, o)
  {
    assert b.records[o] == a.records[o];
    var d, e :| d != e && Survives(b, x, o, d) && Survives(b, x, o, e);
    LaterSurvives(a, b, x, o, d);
    LaterSurvives(a, b, x, o, e);
    forall k | k in a.records && Swept(a.records[k]) && GroupOf(a.records[k]) == g
      ensures b.records[k] == a.records[k]
    {
      OtherGroupUntouched(a, b, cutoffs, gs, k);
    }
  }

  /** Sweeping one group after others leaves the outcome of those alone. */
  lemma SweepNextGroup(
    a: Snapshot, b: Snapshot, x: Snapshot, cutoffs: Cutoffs, gs: set<GroupKey>, g: GroupKey)
    requires WellFormed(a) && SweepCut(a, b, cutoffs, gs) && SweepCut(b, x, cutoffs, {g}) && g !in gs
    ensures SweepCut(a, x, cutoffs, gs + {g})
  {
    DeletingKeepsFiles(a, b, a.records.Keys);
    CutsCompose(a, b, x, b.records.Keys);
    forall k | k in a.records && Touched(a, x, k)
      ensures Deletable(a, x, a.records[k].Owner(), cutoffs, gs + {g}) && OlderGone(a, x, a.records[k].Owner())
    {
      var o := a.records[k].Owner();
      OwnerStays(a, b, k);
      if Touched(a, b, k) {
        EarlierGroupsStay(a, b, x, cutoffs, gs, g, o);
      } else {
        TouchedLater(a, b, x, k);
        ThisGroupCarriesOver(a, b, x, cutoffs, gs, g, o);
      }
    }
  }

  // ---- theorems about any cut of any sweep ----

  lemma TwoMembers<T>(s: set<T>, d: T, e: T)
    requires d in s && e in s && d != e
    ensures |s| >= 2
  {
    assert |s| >= |{d, e}| by { Subset({d, e}, s); }
  }

  lemma Subset<T>(s: set<T>, t: set<T>)
    requires s <= t
    ensures |s| <= |t|
  {
    assert t == s + (t - s);
  }

  /** The golden rule: no group ever ends up with fewer than two verified fulls, or with fewer than
      it had, wherever the sweep is cut and whatever calls failed. */
  lemma GoldenRule(a: Snapshot, x: Snapshot, cutoffs: Cutoffs, gs: set<GroupKey>, g: GroupKey)
    requires WellFormed(a) && SweepCut(a, x, cutoffs, gs)
    ensures |Verified(x, g)| >= MIN_VERIFIED_FULL_BACKUPS || Verified(x, g) == Verified(a, g)
  {
    assert Verified(x, g) <= Verified(a, g);
    if k :| k in Verified(a, g) && k !in Verified(x, g) {
      assert Touched(a, x, k) && a.records[k].Owner() == k;
      var d, e :| d != e && Survives(a, x, k, d) && Survives(a, x, k, e);
      TwoMembers(Verified(x, g), d, e);
    }
  }

  /** The deleted fulls are old and form a prefix of their group's history that stops short of the
      two newest verified ones; a log goes only with its full. */
  lemma DeletedFullsArePrefix(a: Snapshot, x: Snapshot, cutoffs: Cutoffs, gs: set<GroupKey>, k: string)
    requires WellFormed(a) && SweepCut(a, x, cutoffs, gs)
    requires k in a.records && Touched(a, x, k)
    ensures
      var c := a.records[k].Owner();
      && c in a.records && Swept(a.records[c])
      && a.records[c].startedAt < cutoffs(GroupOf(a.records[c]))
      && OlderGone(a, x, c)
      && |Newer(a, c)| >= 2
  {
    var c := a.records[k].Owner();
    var d, e :| d != e && Survives(a, x, c, d) && Survives(a, x, c, e);
    TwoMembers(Newer(a, c), d, e);
  }

  /** The newest completed full of a database, of whatever engine, and its whole chain stay. */
  lemma NewestChainUntouched(a: Snapshot, x: Snapshot, cutoffs: Cutoffs, gs: set<GroupKey>, f: string, k: string)
    requires WellFormed(a) && SweepCut(a, x, cutoffs, gs)
    requires f in a.records && a.records[f].CompletedFull()
    requires forall h | h in a.records && a.records[h].CompletedFull()
               && GroupOf(a.records[h]) == GroupOf(a.records[f]) ::
               a.records[h].startedAt <= a.records[f].startedAt
    requires k in a.records && a.records[k].Owner() == f
    ensures !Touched(a, x, k)
  {
  }

  /** Every full of `g` that is before its cutoff and has two newer verified ones has expired in `x`, with
      all its logs. */
  ghost predicate DoomedGone(a: Snapshot, x: Snapshot, cutoffs: Cutoffs, g: GroupKey) {
    forall c | c in a.records && a.records[c].engine == SQLServer && a.records[c].CompletedFull()
      && GroupOf(a.records[c]) == g && a.records[c].startedAt < cutoffs(g) && |Newer(a, c)| >= 2 ::
      && c in x.records && x.records[c].status == Expired
      && forall l | l in a.records && a.records[l].parentBackupID == c ::
           l in x.records && x.records[l].status == Expired
  }

  // ---- the sweep without failures ----

  /** The fulls that go when no call fails. */
  function Doomed(a: Snapshot, cutoffs: Cutoffs, gs: set<GroupKey>): (ids: set<string>) {
    set c | && c in a.records && Swept(a.records[c])
            && GroupOf(a.records[c]) in gs
            && a.records[c].startedAt < cutoffs(GroupOf(a.records[c]))
            && |Newer(a, c)| >= MIN_VERIFIED_FULL_BACKUPS
  }

  /** The fulls `cs` with their chains. */
  function Families(a: Snapshot, cs: set<string>): (ids: set<string>) {
    set k | k in a.records && a.records[k].Owner() in cs
  }

  /** The outcome of sweeping the groups `gs`, in closed form: no order of iteration in it. */
  function SweptAway(a: Snapshot, cutoffs: Cutoffs, gs: set<GroupKey>): Snapshot {
    Without(a, Families(a, Doomed(a, cutoffs, gs)))
  }

  /** Every group with a completed SQL Server full. */
  function Groups(a: Snapshot): set<GroupKey> {
    set k | k in a.records && Swept(a.records[k]) :: GroupOf(a.records[k])
  }

  lemma WithoutIsPartly(a: Snapshot, ids: set<string>)
    ensures PartlyWithout(a, Without(a, ids), ids)
  {
  }

  lemma NewerShrinks(a: Snapshot, x: Snapshot, c: string)
    requires PartlyWithout(a, x, a.records.Keys) && c in a.records && x.records[c] == a.records[c]
    ensures Newer(x, c) <= Newer(a, c)
  {
  }

  /** Running the sweep again with the same cutoffs deletes nothing. */
  lemma SweepIdempotent(a: Snapshot, cutoffs: Cutoffs, gs: set<GroupKey>)
    requires Keyed(a.records)
    ensures
      var b := SweptAway(a, cutoffs, gs);
      Doomed(b, cutoffs, gs) == {} && SweptAway(b, cutoffs, gs) == b
  {
    var b := SweptAway(a, cutoffs, gs);
    var ids := Families(a, Doomed(a, cutoffs, gs));
    WithoutIsPartly(a, ids);
    if c :| c in Doomed(b, cutoffs, gs) {
      assert c !in ids && b.records[c] == a.records[c];
      NewerShrinks(a, b, c);
      Subset(Newer(b, c), Newer(a, c));
      assert false;
    }
    assert Families(b, {}) == {};
    assert KeysOf(b, {}) == {};
    assert Without(b, {}).records == b.records;
    assert Without(b, {}) == b;
  }

  // ---- no order of iteration matters ----

  lemma FamiliesOfOne(a: Snapshot, c: string)
    requires Keyed(a.records) && NoOrphan(a.records) && c in a.records && a.records[c].IsFull()
    ensures Families(a, {c}) == Family(a, c)
  {
  }

  /** The records and objects of `g`'s fulls are the same in both states. */
  ghost predicate SameFulls(a: Snapshot, b: Snapshot, g: GroupKey) {
    && a.records.Keys == b.records.Keys
    && forall k | k in a.records && GroupOf(a.records[k]) == g && Swept(a.records[k]) ::
         b.records[k] == a.records[k] && (Present(b, b.records[k]) <==> Present(a, a.records[k]))
  }

  lemma DoomedByFulls(a: Snapshot, b: Snapshot, cutoffs: Cutoffs, g: GroupKey)
    requires SameFulls(a, b, g) && SameFulls(b, a, g)
    ensures Doomed(a, cutoffs, {g}) == Doomed(b, cutoffs, {g})
  {
    assert Verified(b, g) == Verified(a, g);
    forall c | c in a.records && GroupOf(a.records[c]) == g && Swept(a.records[c]) ensures Newer(b, c) == Newer(a, c) {
    }
  }

  /** A sweep of other groups does not change which fulls of `g` go. */
  lemma DoomedElsewhere(a: Snapshot, cutoffs: Cutoffs, gs: set<GroupKey>, g: GroupKey)
    requires Keyed(a.records) && KeysApart(a.records) && g !in gs
    ensures Doomed(SweptAway(a, cutoffs, gs), cutoffs, {g}) == Doomed(a, cutoffs, {g})
  {
    var ids := Families(a, Doomed(a, cutoffs, gs));
    var b := Without(a, ids);
    WithoutIsPartly(a, ids);
    forall k | k in a.records && GroupOf(a.records[k]) == g && Swept(a.records[k])
      ensures b.records[k] == a.records[k] && (Present(b, b.records[k]) <==> Present(a, a.records[k]))
    {
      if Touched(a, b, k) {
        LostOnlyByDeletion(a, b, ids, k);
        assert false;
      }
    }
    assert SameFulls(b, a, g);
    DoomedByFulls(a, b, cutoffs, g);
  }

  lemma DoomedTogether(a: Snapshot, cutoffs: Cutoffs, gs: set<GroupKey>, g: GroupKey)
    requires g !in gs
    ensures Doomed(a, cutoffs, gs + {g}) == Doomed(a, cutoffs, gs) + Doomed(a, cutoffs, {g})
    ensures Doomed(a, cutoffs, gs) !! Doomed(a, cutoffs, {g})
  {
  }

  lemma FamiliesTogether(a: Snapshot, cs: set<string>, ds: set<string>)
    ensures Families(a, cs + ds) == Families(a, cs) + Families(a, ds)
    ensures Families(Without(a, ds), cs) == Families(a, cs)
  {
    var x := Without(a, ds);
    assert forall k | k in a.records :: x.records[k].Owner() == a.records[k].Owner();
  }

  lemma SweepOneMore(a: Snapshot, cutoffs: Cutoffs, gs: set<GroupKey>, g: GroupKey)
    requires Keyed(a.records) && KeysApart(a.records) && g !in gs
    ensures SweptAway(SweptAway(a, cutoffs, gs), cutoffs, {g}) == SweptAway(a, cutoffs, gs + {g})
    ensures |Doomed(a, cutoffs, gs + {g})| == |Doomed(a, cutoffs, gs)| + |Doomed(a, cutoffs, {g})|
  {
    var ds, d := Doomed(a, cutoffs, gs), Doomed(a, cutoffs, {g});
    DoomedElsewhere(a, cutoffs, gs, g);
    DoomedTogether(a, cutoffs, gs, g);
    FamiliesTogether(a, d, Families(a, ds));
    FamiliesTogether(a, ds, d);
    WithoutWithout(a, Families(a, ds), Families(a, d));
  }

  /** Two groups may be swept in either order. */
  lemma SweepOrderIrrelevant(a: Snapshot, cutoffs: Cutoffs, g: GroupKey, h: GroupKey)
    requires Keyed(a.records) && KeysApart(a.records)
    ensures SweptAway(SweptAway(a, cutoffs, {g}), cutoffs, {h}) == SweptAway(SweptAway(a, cutoffs, {h}), cutoffs, {g})
  {
    if g != h {
      SweepOneMore(a, cutoffs, {g}, h);
      SweepOneMore(a, cutoffs, {h}, g);
      assert {g} + {h} == {h} + {g};
    }
  }

  // ---- how many go ----

  function Min(x: int, y: int): int { if x <= y then x else y }
  function Max(x: int, y: int): int { if x <= y then y else x }

  /** Of `s`, those started before `cutoff`. */
  function Before(s: map<string, Time>, cutoff: Time): set<string> {
    set c | c in s && s[c] < cutoff
  }

  function After(s: map<string, Time>, c: string): set<string>
    requires c in s
  {
    set d | d in s && s[c] < s[d]
  }

  function Droppable(s: map<string, Time>, cutoff: Time): set<string> {
    set c | c in s && s[c] < cutoff && |After(s, c)| >= 2
  }

  lemma Oldest(s: map<string, Time>) returns (m: string)
    requires s != map[]
    ensures m in s && forall c | c in s :: s[m] <= s[c]
  {
    m :| m in s;
    var rest := s - {m};
    assert forall c | c in s && c != m :: c in rest;
    if rest != map[] {
      var o := Oldest(rest);
      if s[o] < s[m] {
        m := o;
      }
    }
  }

  lemma AfterOldest(s: map<string, Time>, m: string)
    requires m in s && forall c | c in s && c != m :: s[m] < s[c]
    ensures
      var rest := s - {m};
      && |rest| == |s| - 1 && |After(s, m)| == |rest|
      && forall c | c in rest :: After(rest, c) == After(s, c)
  {
    var rest := s - {m};
    assert rest.Keys == s.Keys - {m};
    assert After(s, m) == rest.Keys;
    forall c | c in rest ensures After(rest, c) == After(s, c) {
    }
  }

  lemma WithoutOldest(s: map<string, Time>, m: string, cutoff: Time)
    requires m in s && forall c | c in s && c != m :: s[m] < s[c]
    ensures
      var rest := s - {m};
      && |rest| == |s| - 1
      && Before(s, cutoff) == Before(rest, cutoff) + (if s[m] < cutoff then {m} else {})
      && Droppable(s, cutoff) == Droppable(rest, cutoff) + (if s[m] < cutoff && |rest| >= 2 then {m} else {})
  {
    hide After;
    AfterOldest(s, m);
  }

  lemma NoneBefore(s: map<string, Time>, cutoff: Time)
    requires forall c | c in s :: s[c] >= cutoff
    ensures Before(s, cutoff) == {} && Droppable(s, cutoff) == {}
  {
  }

  lemma BeforeAreOf(s: map<string, Time>, cutoff: Time)
    ensures Before(s, cutoff) <= s.Keys && Droppable(s, cutoff) <= s.Keys && |s.Keys| == |s|
  {
  }

  /** Counting by removing the oldest. */
  lemma {:induction false} DroppableCount(s: map<string, Time>, cutoff: Time)
    requires forall c, d | c in s && d in s && c != d :: s[c] != s[d]
    ensures |Droppable(s, cutoff)| == Max(0, Min(|Before(s, cutoff)|, |s| - 2))
  {
    hide Droppable, Before;
    if s == map[] {
      NoneBefore(s, cutoff);
    } else {
      var m := Oldest(s);
      var rest := s - {m};
      WithoutOldest(s, m, cutoff);
      DroppableCount(rest, cutoff);
      if s[m] < cutoff {
        BeforeAreOf(rest, cutoff);
        Subset(Before(rest, cutoff), rest.Keys);
      } else {
        NoneBefore(s, cutoff);
      }
    }
  }

  /** With every object present, of `n` fulls of which `k` are old exactly max(0, min(k, n-2)) go. */
  lemma SweepCount(a: Snapshot, cutoffs: Cutoffs, g: GroupKey)
    requires Keyed(a.records) && StartsDistinct(a.records)
    requires forall k | k in a.records && Swept(a.records[k]) && GroupOf(a.records[k]) == g :: Present(a, a.records[k])
    ensures
      var fulls := Verified(a, g);
      var aged := set k | k in fulls && k in a.records && a.records[k].startedAt < cutoffs(g);
      |Doomed(a, cutoffs, {g})| == Max(0, Min(|aged|, |fulls| - 2))
  {
    var fulls := Verified(a, g);
    var s := map k | k in fulls :: a.records[k].startedAt;
    assert s.Keys == fulls;
    DroppableCount(s, cutoffs(g));
    DroppableIsDoomed(a, cutoffs, g, s);
    assert Before(s, cutoffs(g)) == set k | k in fulls && k in a.records && a.records[k].startedAt < cutoffs(g);
  }

  lemma DroppableIsDoomed(a: Snapshot, cutoffs: Cutoffs, g: GroupKey, s: map<string, Time>)
    requires forall k | k in a.records && Swept(a.records[k]) && GroupOf(a.records[k]) == g :: Present(a, a.records[k])
    requires s.Keys == Verified(a, g) && forall k | k in s :: k in a.records && s[k] == a.records[k].startedAt
    ensures Droppable(s, cutoffs(g)) == Doomed(a, cutoffs, {g})
  {
    forall c | c in s ensures After(s, c) == Newer(a, c) {
    }
  }

  // ---- retention of all engines ----

  /** The records the date-based half of the daily run is to delete. */
  function Outdated(a: Snapshot, now: Time): (ids: set<string>) {
    set k | k in a.records && a.records[k].engine != SQLServer && PastExpiry(a.records[k], now)
  }

  /** The filter of `FindExpired`: past its expiry date, and whatever else it is, not expired yet. */
  predicate PastExpiry(r: BackupRecord, now: Time) {
    r.expiresAt != ZERO_TIME && r.expiresAt < now && r.status != Expired
  }

  /** Whatever is past its expiry date at `now`, except for `stuck`, has expired in `x`, and so have its
      logs; SQL Server is left to the sweep. */
  ghost predicate DatedGone(a: Snapshot, x: Snapshot, now: Time, stuck: set<string>) {
    forall k | k in a.records && k !in stuck
      && a.records[k].engine != SQLServer && a.records[k].expiresAt != 0 && a.records[k].expiresAt < now
      && a.records[k].status in {Pending, Running, Completed, Failed} ::
      && k in x.records && x.records[k].status == Expired
      && (a.records[k].backupType != Log ==>
            forall l | l in a.records && a.records[l].parentBackupID == k ::
              l in x.records && x.records[l].status == Expired)
  }

  /** The date-based half of the run has no business with it. */
  predicate NotDue(r: BackupRecord, now: Time) {
    r.engine == SQLServer || r.expiresAt == 0 || r.expiresAt >= now || r.status == Expired
  }

  /** What is not due, and does not chain from a full that is, is unchanged. */
  ghost predicate OthersKept(a: Snapshot, x: Snapshot, now: Time) {
    forall k | k in a.records && NotDue(a.records[k], now)
      && (a.records[k].parentBackupID in a.records ==> NotDue(a.records[a.records[k].parentBackupID], now)) ::
      k in x.records && x.records[k] == a.records[k]
  }

  lemma DatedOnly(a: Snapshot, x: Snapshot, now: Time)
    requires PartlyWithout(a, x, WithChildren(a, Outdated(a, now)))
    ensures OthersKept(a, x, now)
  {
  }

  /** What had expired stays so. */
  lemma DatedStaysGone(a: Snapshot, b: Snapshot, x: Snapshot, now: Time, stuck: set<string>)
    requires DatedGone(a, b, now, stuck) && PartlyWithout(b, x, b.records.Keys)
    ensures DatedGone(a, x, now, stuck)
  {
  }

  /** Every record of `cs`, and every log of a full among them. */
  function WithChildren(a: Snapshot, cs: set<string>): (ids: set<string>) {
    set k | k in a.records && (k in cs || (a.records[k].parentBackupID in cs
                                           && a.records[k].parentBackupID in a.records
                                           && a.records[a.records[k].parentBackupID].IsFull()))
  }

  lemma WithChildrenStep(a: Snapshot, cs: set<string>, c: string)
    requires c in a.records
    ensures WithChildren(a, cs + {c}) == WithChildren(a, cs) + Family(a, c)
  {
  }

  lemma FamilySame(a: Snapshot, b: Snapshot, c: string)
    requires PartlyWithout(a, b, a.records.Keys) && c in a.records
    ensures Family(b, c) == Family(a, c)
  {
    assert forall k | k in a.records ::
        b.records[k].IsFull() == a.records[k].IsFull() && b.records[k].parentBackupID == a.records[k].parentBackupID;
  }

  /** Some backups have been deleted, logs before fulls. */
  ghost predicate OnlyDeleted(a: Snapshot, x: Snapshot) {
    PartlyWithout(a, x, a.records.Keys) && Cascaded(a, x)
  }

  /** What holds at every point of the daily retention run: only deletions, and the golden rule for
      every SQL Server group. */
  ghost predicate Retained(a: Snapshot, x: Snapshot) {
    OnlyDeleted(a, x) && Golden(a, x)
  }

  /** What the date-based half of the run leaves alone at any point: the records of SQL Server fulls,
      and their objects if keys are as the adapters form them. */
  ghost predicate SqlFullsKept(a: Snapshot, x: Snapshot) {
    && OnlyDeleted(a, x)
    && forall k | k in a.records && a.records[k].engine == SQLServer && a.records[k].IsFull() ::
         && x.records[k] == a.records[k]
         && (KeysProduced(a) ==> (Present(x, x.records[k]) <==> Present(a, a.records[k])))
  }

  lemma KeptIsRetained(a: Snapshot, x: Snapshot)
    requires SqlFullsKept(a, x) && KeysProduced(a)
    ensures Retained(a, x)
  {
    forall g ensures Verified(x, g) == Verified(a, g) {
      KeptVerified(a, x, g);
    }
  }

  lemma DeletedOneMore(a: Snapshot, b: Snapshot, x: Snapshot, c: string)
    requires OnlyDeleted(a, b) && c in b.records && DeleteCut(b, x, c)
    ensures OnlyDeleted(a, x) && a.records.Keys == b.records.Keys == x.records.Keys
  {
    CutsCompose(a, b, x, Family(b, c));
  }

  lemma KeptBefore(a: Snapshot, b: Snapshot)
    requires Keyed(a.records) && NoOrphan(a.records) && OnlyDeleted(a, b)
    ensures Keyed(b.records) && NoOrphan(b.records) && (KeysProduced(a) ==> KeysProduced(b))
  {
    DeletingKeepsNoOrphan(a, b, a.records.Keys);
    if KeysProduced(a) {
      DeletingKeepsKeysProduced(a, b, a.records.Keys);
    }
  }

  lemma KeptOneMore(a: Snapshot, b: Snapshot, x: Snapshot, c: string)
    requires Keyed(a.records) && NoOrphan(a.records) && SqlFullsKept(a, b)
    requires c in b.records && b.records[c].engine != SQLServer && DeleteCut(b, x, c)
    ensures SqlFullsKept(a, x)
  {
    hide Keyed, NoOrphan, PartlyWithout, Cascaded, KeysProduced, Family, Present;
    DeletedOneMore(a, b, x, c);
    assert PartlyWithout(b, x, Family(b, c));
    KeptBefore(a, b);
    forall k | k in a.records && a.records[k].engine == SQLServer && a.records[k].IsFull()
      ensures x.records[k] == b.records[k]
      ensures KeysProduced(a) ==> (Present(x, x.records[k]) <==> Present(b, b.records[k]))
    {
      SqlFullKept(b, x, c, k);
    }
  }

  /** Neither the record nor the object of a SQL Server full goes with a backup of another engine. */
  lemma SqlFullKept(b: Snapshot, x: Snapshot, c: string, k: string)
    requires Keyed(b.records) && NoOrphan(b.records)
    requires c in b.records && b.records[c].engine != SQLServer && PartlyWithout(b, x, Family(b, c))
    requires k in b.records && b.records[k].engine == SQLServer && b.records[k].IsFull()
    ensures x.records[k] == b.records[k]
    ensures KeysProduced(b) ==> (Present(x, x.records[k]) <==> Present(b, b.records[k]))
  {
    NotInOtherFamily(b, c, k);
    if KeysProduced(b) && Present(b, b.records[k]) && !Present(x, b.records[k]) {
      var o := FullKey(b.prefix, b.records[k].fileName);
      assert o in KeysOf(b, Family(b, c));
      var l :| l in Family(b, c) && b.records[l].fileName != "" && o == FullKey(b.prefix, b.records[l].fileName);
      FullKeyInjective(b.prefix, b.records[k].fileName, b.records[l].fileName);
      SqlFullKeysApart(b.records[k].fileName, b.records[l].engine, b.records[l].IsFull(), b.records[l].fileName);
      assert false;
    }
  }

  lemma RetainedThenSwept(a: Snapshot, b: Snapshot, x: Snapshot)
    requires SqlFullsKept(a, b) && KeysProduced(a) && OnlyDeleted(b, x) && Golden(b, x)
    ensures Retained(a, x)
  {
    CutsCompose(a, b, x, b.records.Keys);
    forall g ensures |Verified(x, g)| >= MIN_VERIFIED_FULL_BACKUPS || Verified(x, g) == Verified(a, g) {
      KeptVerified(a, b, g);
    }
  }

  lemma KeptVerified(a: Snapshot, b: Snapshot, g: GroupKey)
    requires SqlFullsKept(a, b) && KeysProduced(a)
    ensures Verified(b, g) == Verified(a, g)
  {
  }
}
