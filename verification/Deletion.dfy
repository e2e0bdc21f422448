/** What a deletion has done by the time it is cut: the steps of the cascade over a trace of states. */
module Deletion {
  import opened Entities
  import opened ObjectKeys
  import opened Catalogue
  import opened Retention
  import opened World

  // ---- the cascade ----

  /** The records naming `id` as their parent. */
  function Children(a: Snapshot, id: string): (ids: set<string>) {
    set k | k in a.records && a.records[k].parentBackupID == id
  }

  lemma WithoutNothing(a: Snapshot)
    ensures Without(a, {}) == a
    ensures forall reachable :: Deleted(a, {}, reachable) == a
  {
    assert KeysOf(a, {}) == {};
    assert Without(a, {}).records == a.records;
  }

  /** After a deletion its objects are gone exactly if S3 could be reached, or none of them was there. */
  lemma ObjectsGoneIffReachable(a: Snapshot, ids: set<string>, reachable: bool)
    ensures (forall o | o in KeysOf(a, ids) :: o !in Deleted(a, ids, reachable).objects)
        <==> reachable || forall o | o in KeysOf(a, ids) :: o !in a.objects
  {
  }

  /** A state in which it goes wrong: the record of the only backup expires, and its object stays. */
  lemma UnreachableLeavesObject(r: BackupRecord, content: Bytes)
    requires r.id != "" && r.fileName != "" && r.IsFull()
    ensures
      var a := Snapshot("", map[r.id := r], map[r.fileName := content]);
      var x := Deleted(a, Family(a, r.id), false);
      && x.records[r.id].status == Expired && x.objects == a.objects
      && FullKey("", r.fileName) in KeysOf(a, Family(a, r.id))
  {
    var a := Snapshot("", map[r.id := r], map[r.fileName := content]);
    assert r.id in Family(a, r.id);
  }

  /** Every state the trace `t` passed through since it had length `n` is part of deleting `ids`. */
  ghost predicate CutsWithin(a: Snapshot, t: seq<Snapshot>, n: nat, ids: set<string>)
    requires n <= |t|
  {
    forall i | n <= i < |t| :: PartlyWithout(a, t[i], ids)
  }

  /** The cuts of deleting `s` and then `t` are cuts of deleting both. */
  lemma CutsExtend(
    a: Snapshot, b: Snapshot, s: set<string>, t: set<string>, n: nat, u: seq<Snapshot>, v: seq<Snapshot>, x: Snapshot)
    requires n <= |u| && u <= v
    requires PartlyWithout(a, b, s) && CutsWithin(a, u, n, s)
    requires PartlyWithout(b, x, t) && CutsWithin(b, v, |u|, t)
    ensures PartlyWithout(a, x, s + t) && CutsWithin(a, v, n, s + t)
  {
    PartlyWithoutTransitive(a, b, x, s, t);
    forall i | n <= i < |v| ensures PartlyWithout(a, v[i], s + t) {
      if i < |u| {
        PartlyWithoutWeaken(a, u[i], s, s + t);
      } else {
        PartlyWithoutTransitive(a, b, v[i], s, t);
      }
    }
  }

  lemma PartlyWithoutWeaken(a: Snapshot, x: Snapshot, s: set<string>, t: set<string>)
    requires PartlyWithout(a, x, s) && s <= t
    ensures PartlyWithout(a, x, t)
  {
  }

  /** Logs have no logs of their own. */
  lemma ChildrenCascade(a: Snapshot, x: Snapshot, id: string, children: set<string>)
    requires Keyed(a.records) && NoOrphan(a.records) && id in a.records
    requires children <= Children(a, id) && PartlyWithout(a, x, children)
    ensures Cascaded(a, x)
  {
  }

  /** The full goes when its logs have gone. */
  lemma FamilyCascade(a: Snapshot, b: Snapshot, x: Snapshot, id: string, children: set<string>)
    requires Keyed(a.records) && NoOrphan(a.records) && id in a.records
    requires PartlyWithout(a, x, Family(a, id)) && PartlyWithout(b, x, {id}) && a.records.Keys == b.records.Keys
    requires children == (if a.records[id].IsFull() then Children(a, id) else {})
    requires forall k | k in children :: b.records[k].status == Expired
    ensures Cascaded(a, x)
  {
  }

  /** No cut of a deletion leaves a log without its full: up to `u` only logs went, and from there on
      the full, if all logs had gone. */
  lemma CascadeCuts(
    a: Snapshot, b: Snapshot, x: Snapshot, u: seq<Snapshot>, v: seq<Snapshot>, n: nat, id: string,
    children: set<string>, deleted: bool)
    requires Keyed(a.records) && NoOrphan(a.records) && id in a.records && n <= |u| && u <= v
    requires PartlyWithout(a, x, Family(a, id)) && CutsWithin(a, v, n, Family(a, id))
    requires children == (if a.records[id].IsFull() then Children(a, id) else {})
    requires PartlyWithout(a, b, children) && CutsWithin(a, u, n, children)
    requires if deleted then
               && (forall k | k in children :: b.records[k].status == Expired)
               && PartlyWithout(b, x, {id}) && CutsWithin(b, v, |u|, {id})
             else
               x == b && v == u
    ensures DeleteCut(a, x, id) && forall i | n <= i < |v| :: DeleteCut(a, v[i], id)
  {
    forall i | n <= i < |v| ensures Cascaded(a, v[i]) {
      if i < |u| {
        assert v[i] == u[i];
        ChildrenCascade(a, v[i], id, children);
      } else {
        FamilyCascade(a, b, v[i], id, children);
      }
    }
    if deleted {
      FamilyCascade(a, b, x, id, children);
    } else {
      ChildrenCascade(a, x, id, children);
    }
  }

  /** The logs having expired, and then the full, all of the family has. */
  lemma FamilyExpired(a: Snapshot, b: Snapshot, x: Snapshot, id: string, children: set<string>)
    requires id in a.records && a.records.Keys == b.records.Keys
    requires children == (if a.records[id].IsFull() then Children(a, id) else {})
    requires forall k | k in children :: k in b.records && b.records[k].status == Expired
    requires PartlyWithout(b, x, {id}) && x.records[id].status == Expired
    ensures forall k | k in Family(a, id) :: k in x.records && x.records[k].status == Expired
  {
    forall k | k in Family(a, id) ensures k in x.records && x.records[k].status == Expired {
      assert k == id || k in children;
    }
  }

  lemma FamilyParts(a: Snapshot, id: string, children: set<string>)
    requires id in a.records && children == (if a.records[id].IsFull() then Children(a, id) else {})
    ensures Family(a, id) == children + {id}
  {
  }

  /** The state `x`, reached over the trace `t`, is on the way of deleting `ids` from `a`; if nothing
      failed (`clean`), it is there. */
  ghost predicate Deleting(
    a: Snapshot, x: Snapshot, t: seq<Snapshot>, n: nat, ids: set<string>, reachable: bool, clean: bool)
  {
    && n <= |t|
    && PartlyWithout(a, x, ids)
    && CutsWithin(a, t, n, ids)
    && (clean ==> x == Deleted(a, ids, reachable))
  }

  /** `DeleteBackup(id)`, begun in `a`, has returned in `x` with the result `ok`: nothing outside the
      family has changed, no log is left without its full at any point, and if it succeeded the family
      has expired; otherwise the record itself has not. */
  ghost predicate BackupDeleted(
    a: Snapshot, x: Snapshot, t: seq<Snapshot>, n: nat, id: string, reachable: bool, clean: bool, ok: bool)
  {
    && id in a.records
    && Deleting(a, x, t, n, Family(a, id), reachable, clean)
    && (Keyed(a.records) && NoOrphan(a.records) ==>
          DeleteCut(a, x, id) && forall i | n <= i < |t| :: DeleteCut(a, t[i], id))
    && (ok ==> GoneWithLogs(a, x, id))
    && (!ok && Keyed(a.records) && NoOrphan(a.records) ==> x.records[id] == a.records[id])
  }

  /** The whole family has expired. */
  ghost predicate GoneWithLogs(a: Snapshot, x: Snapshot, id: string)
    requires id in a.records
  {
    forall k | k in Family(a, id) :: k in x.records && x.records[k].status == Expired
  }

  lemma DeletingStarts(a: Snapshot, t: seq<Snapshot>)
    ensures forall reachable :: Deleting(a, a, t, |t|, {}, reachable, true)
  {
    WithoutNothing(a);
  }

  lemma DeletingExtends(
    a: Snapshot, b: Snapshot, x: Snapshot, u: seq<Snapshot>, v: seq<Snapshot>, n: nat,
    s: set<string>, t: set<string>, reachable: bool, clean: bool, clean': bool)
    requires Deleting(a, b, u, n, s, reachable, clean) && Deleting(b, x, v, |u|, t, reachable, clean') && u <= v
    ensures Deleting(a, x, v, n, s + t, reachable, clean && clean')
  {
    CutsExtend(a, b, s, t, n, u, v, x);
    DeletedDeleted(a, s, t, reachable);
  }

  lemma KeysOfOne(a: Snapshot, id: string)
    requires id in a.records
    ensures KeysOf(a, {id}) ==
              if a.records[id].fileName == "" then {} else {FullKey(a.prefix, a.records[id].fileName)}
  {
    if a.records[id].fileName != "" {
      assert FullKey(a.prefix, a.records[id].fileName) in KeysOf(a, {id});
    }
  }

  lemma OneExpired(a: Snapshot, x: Snapshot, id: string)
    requires id in a.records && x.records == a.records[id := Expire(a.records[id])]
    ensures x.records == Without(a, {id}).records
  {
  }

  lemma DeletingWeaken(
    a: Snapshot, x: Snapshot, t: seq<Snapshot>, n: nat, ids: set<string>, more: set<string>, reachable: bool,
    clean: bool)
    requires Deleting(a, x, t, n, ids, reachable, clean) && ids <= more
    ensures Deleting(a, x, t, n, more, reachable, false)
  {
  }

  /** The cascade from `a`, having dealt with the first `i` of `all`, has reached `x` over the trace `t`. */
  ghost predicate Cascading(
    a: Snapshot, x: Snapshot, t: seq<Snapshot>, n: nat, id: string, all: seq<BackupRecord>, i: nat,
    done: set<string>, reachable: bool, clean: bool)
  {
    && i <= |all|
    && Deleting(a, x, t, n, done, reachable, clean)
    && done <= Children(a, id)
    && (forall j | 0 <= j < i && all[j].parentBackupID == id :: all[j].id in done)
    && (forall k | k in done :: k in x.records && x.records[k].status == Expired)
  }

  lemma CascadingStarts(a: Snapshot, t: seq<Snapshot>, id: string, all: seq<BackupRecord>)
    ensures forall reachable :: Cascading(a, a, t, |t|, id, all, 0, {}, reachable, true)
  {
    DeletingStarts(a, t);
  }

  lemma CascadingContinues(
    a: Snapshot, b: Snapshot, x: Snapshot, u: seq<Snapshot>, v: seq<Snapshot>, n: nat, id: string,
    all: seq<BackupRecord>, i: nat, done: set<string>, reachable: bool, clean: bool, clean': bool)
    requires Cascading(a, b, u, n, id, all, i, done, reachable, clean) && i < |all|
    requires all[i].id in a.records && a.records[all[i].id] == all[i] && all[i].parentBackupID == id
    requires Deleting(b, x, v, |u|, {all[i].id}, reachable, clean') && u <= v
    requires all[i].id in x.records && x.records[all[i].id].status == Expired
    ensures Cascading(a, x, v, n, id, all, i + 1, done + {all[i].id}, reachable, clean && clean')
  {
    DeletingExtends(a, b, x, u, v, n, done, {all[i].id}, reachable, clean, clean');
    assert all[i].id in Children(a, id);
    forall k | k in done ensures k in x.records && x.records[k].status == Expired {
      assert k in b.records;
    }
  }

  lemma CascadingSkips(
    a: Snapshot, x: Snapshot, t: seq<Snapshot>, n: nat, id: string, all: seq<BackupRecord>, i: nat,
    done: set<string>, reachable: bool, clean: bool)
    requires Cascading(a, x, t, n, id, all, i, done, reachable, clean) && i < |all| && all[i].parentBackupID != id
    ensures Cascading(a, x, t, n, id, all, i + 1, done, reachable, clean)
  {
  }

  lemma CascadingStops(
    a: Snapshot, b: Snapshot, x: Snapshot, u: seq<Snapshot>, v: seq<Snapshot>, n: nat, id: string,
    all: seq<BackupRecord>, i: nat, done: set<string>, reachable: bool, clean: bool, clean': bool)
    requires Cascading(a, b, u, n, id, all, i, done, reachable, clean) && i < |all|
    requires all[i].id in a.records && a.records[all[i].id] == all[i] && all[i].parentBackupID == id
    requires Deleting(b, x, v, |u|, {all[i].id}, reachable, clean') && u <= v
    ensures Deleting(a, x, v, n, Children(a, id), reachable, false)
  {
    DeletingExtends(a, b, x, u, v, n, done, {all[i].id}, reachable, clean, clean');
    assert all[i].id in Children(a, id);
    DeletingWeaken(a, x, v, n, done + {all[i].id}, Children(a, id), reachable, clean && clean');
  }

  lemma CascadingEnds(
    a: Snapshot, x: Snapshot, t: seq<Snapshot>, n: nat, id: string, all: seq<BackupRecord>, done: set<string>,
    reachable: bool, clean: bool)
    requires Keyed(a.records) && Lists(all, a.records, r => true)
    requires Cascading(a, x, t, n, id, all, |all|, done, reachable, clean)
    ensures Deleting(a, x, t, n, Children(a, id), reachable, clean)
    ensures forall k | k in Children(a, id) :: k in x.records && x.records[k].status == Expired
  {
    forall k | k in Children(a, id) ensures k in done {
      var j :| 0 <= j < |all| && all[j] == a.records[k];
    }
    assert done == Children(a, id);
  }

  /** The logs, all of them, that go before the full. */
  function LogsOf(a: Snapshot, id: string): set<string>
    requires id in a.records
  {
    if a.records[id].IsFull() then Children(a, id) else {}
  }

  lemma NothingYet(a: Snapshot, t: seq<Snapshot>, id: string, reachable: bool)
    requires id in a.records
    ensures BackupDeleted(a, a, t, |t|, id, reachable, false, false)
  {
    DeletingStarts(a, t);
    DeletingWeaken(a, a, t, |t|, {}, Family(a, id), reachable, true);
  }

  /** The deletion stops among the logs. */
  lemma LogsStopped(a: Snapshot, x: Snapshot, t: seq<Snapshot>, n: nat, id: string, reachable: bool, clean: bool)
    requires id in a.records && Deleting(a, x, t, n, LogsOf(a, id), reachable, clean)
    ensures BackupDeleted(a, x, t, n, id, reachable, false, false)
  {
    FamilyParts(a, id, LogsOf(a, id));
    DeletingWeaken(a, x, t, n, LogsOf(a, id), Family(a, id), reachable, clean);
    if Keyed(a.records) && NoOrphan(a.records) {
      CascadeCuts(a, x, x, t, t, n, id, LogsOf(a, id), false);
    }
  }

  /** It goes on to the record itself. */
  lemma LogsThenFull(
    a: Snapshot, b: Snapshot, x: Snapshot, u: seq<Snapshot>, v: seq<Snapshot>, n: nat, id: string,
    reachable: bool, clean: bool, clean': bool, ok: bool)
    requires id in a.records && Deleting(a, b, u, n, LogsOf(a, id), reachable, clean)
    requires forall k | k in LogsOf(a, id) :: k in b.records && b.records[k].status == Expired
    requires Deleting(b, x, v, |u|, {id}, reachable, clean') && u <= v
    requires if ok then x.records[id].status == Expired else x.records == b.records
    ensures BackupDeleted(a, x, v, n, id, reachable, clean && clean', ok)
  {
    FamilyParts(a, id, LogsOf(a, id));
    DeletingExtends(a, b, x, u, v, n, LogsOf(a, id), {id}, reachable, clean, clean');
    if Keyed(a.records) && NoOrphan(a.records) {
      CascadeCuts(a, b, x, u, v, n, id, LogsOf(a, id), true);
    }
    if ok {
      FamilyExpired(a, b, x, id, LogsOf(a, id));
    }
  }

  /** The IDs in `s` of the records of engines other than SQL Server. */
  function OtherEngines(s: seq<BackupRecord>): set<string> {
    if s == [] then
      {}
    else
      OtherEngines(s[..|s| - 1]) + if s[|s| - 1].engine != SQLServer then {s[|s| - 1].id} else {}
  }

  lemma {:induction false} OtherEnginesMembers(s: seq<BackupRecord>)
    ensures forall k :: k in OtherEngines(s) <==> exists i :: 0 <= i < |s| && s[i].engine != SQLServer && s[i].id == k
  {
    if s != [] {
      OtherEnginesMembers(s[..|s| - 1]);
    }
  }

  lemma OtherEnginesStep(s: seq<BackupRecord>, i: nat)
    requires i < |s| && s[i].engine != SQLServer && forall j, k | 0 <= j < k < |s| :: s[j].id != s[k].id
    ensures OtherEngines(s[..i + 1]) == OtherEngines(s[..i]) + {s[i].id}
    ensures |OtherEngines(s[..i + 1])| == |OtherEngines(s[..i])| + 1
  {
    assert s[..i + 1][..i] == s[..i];
    OtherEnginesMembers(s[..i]);
    assert s[i].id !in OtherEngines(s[..i]);
  }

  lemma OutdatedListed(a: Snapshot, expired: seq<BackupRecord>, now: Time)
    requires Keyed(a.records) && Lists(expired, a.records, (r: BackupRecord) =>
                 r.expiresAt != 0 && r.expiresAt < now && r.status in {Pending, Running, Completed, Failed})
    ensures OtherEngines(expired) == Outdated(a, now)
  {
    OtherEnginesMembers(expired);
    forall k | k in Outdated(a, now) ensures k in OtherEngines(expired) {
      var j :| 0 <= j < |expired| && expired[j] == a.records[k];
    }
  }

  /** The cuts of one date-based deletion are cuts of the date-based run. */
  lemma KeptCuts(a: Snapshot, b: Snapshot, x: Snapshot, u: seq<Snapshot>, v: seq<Snapshot>, n: nat, c: string)
    requires Consistent(a) && SqlFullsKept(a, b) && c in b.records && b.records[c].engine != SQLServer
    requires u <= v && forall i | n <= i < |u| :: SqlFullsKept(a, u[i])
    requires DeleteCut(b, x, c) && forall i | |u| <= i < |v| :: DeleteCut(b, v[i], c)
    ensures SqlFullsKept(a, x) && forall i | n <= i < |v| :: SqlFullsKept(a, v[i])
  {
    KeptOneMore(a, b, x, c);
    forall i | n <= i < |v| ensures SqlFullsKept(a, v[i]) {
      if i < |u| {
        assert v[i] == u[i];
      } else {
        KeptOneMore(a, b, v[i], c);
      }
    }
  }

  /** The date-based run from `a`, having dealt with the records `done`, has reached `x`. All but `stuck`
      have gone. */
  ghost predicate ExpiringByDate(
    a: Snapshot, x: Snapshot, t: seq<Snapshot>, n: nat, done: set<string>, stuck: set<string>, reachable: bool,
    clean: bool)
  {
    && Deleting(a, x, t, n, WithChildren(a, done), reachable, clean)
    && SqlFullsKept(a, x)
    && (forall i | n <= i < |t| :: SqlFullsKept(a, t[i]))
    && forall k | k in done && k !in stuck && k in a.records :: GoneWithLogs(a, x, k)
  }

  /** The same, the first `i` of the listing `expired` having been dealt with. */
  ghost predicate ExpiringTo(
    a: Snapshot, x: Snapshot, t: seq<Snapshot>, n: nat, expired: seq<BackupRecord>, i: nat, count: nat,
    stuck: set<string>, reachable: bool, clean: bool)
  {
    && i <= |expired|
    && ExpiringByDate(a, x, t, n, OtherEngines(expired[..i]), stuck, reachable, clean)
    && stuck <= OtherEngines(expired[..i]) && count + |stuck| == |OtherEngines(expired[..i])|
  }

  lemma ExpiringPasses(
    a: Snapshot, x: Snapshot, t: seq<Snapshot>, n: nat, expired: seq<BackupRecord>, i: nat, count: nat,
    stuck: set<string>, reachable: bool, clean: bool)
    requires i < |expired| && expired[i].engine == SQLServer
    requires ExpiringTo(a, x, t, n, expired, i, count, stuck, reachable, clean)
    ensures ExpiringTo(a, x, t, n, expired, i + 1, count, stuck, reachable, clean)
  {
    assert expired[..i + 1][..i] == expired[..i];
    assert OtherEngines(expired[..i + 1]) == OtherEngines(expired[..i]);
  }

  lemma GoneStaysGone(a: Snapshot, b: Snapshot, x: Snapshot, ids: set<string>)
    requires PartlyWithout(b, x, ids)
    ensures forall k | k in a.records && GoneWithLogs(a, b, k) :: GoneWithLogs(a, x, k)
  {
  }

  lemma ByDateContinues(
    a: Snapshot, b: Snapshot, x: Snapshot, u: seq<Snapshot>, v: seq<Snapshot>, n: nat, done: set<string>,
    stuck: set<string>, id: string, reachable: bool, clean: bool, clean': bool, ok: bool)
    requires Consistent(a) && ExpiringByDate(a, b, u, n, done, stuck, reachable, clean) && (clean' ==> clean)
    requires id in a.records && a.records[id].engine != SQLServer && id in b.records
    requires u <= v && Deleting(b, x, v, |u|, Family(b, id), reachable, clean')
    requires DeleteCut(b, x, id) && forall j | |u| <= j < |v| :: DeleteCut(b, v[j], id)
    requires ok ==> GoneWithLogs(b, x, id)
    ensures ExpiringByDate(a, x, v, n, done + {id}, if ok then stuck else stuck + {id}, reachable, clean')
  {
    hide PartlyWithout, Cascaded, SqlFullsKept, CutsWithin, Consistent, Deleted;
    DeletedSoFar(a, b, u, n, WithChildren(a, done), reachable, clean);
    FamilySame(a, b, id);
    WithChildrenStep(a, done, id);
    DeletingExtends(a, b, x, u, v, n, WithChildren(a, done), Family(a, id), reachable, clean, clean');
    KeptCuts(a, b, x, u, v, n, id);
    OneMoreGone(a, b, x, done, stuck, id, ok);
  }

  lemma DeletedSoFar(
    a: Snapshot, b: Snapshot, t: seq<Snapshot>, n: nat, ids: set<string>, reachable: bool, clean: bool)
    requires Deleting(a, b, t, n, ids, reachable, clean) && ids <= a.records.Keys
    ensures PartlyWithout(a, b, a.records.Keys) && a.records.Keys == b.records.Keys
    ensures forall k | k in a.records :: b.records[k].engine == a.records[k].engine
  {
  }

  lemma OneMoreGone(
    a: Snapshot, b: Snapshot, x: Snapshot, done: set<string>, stuck: set<string>, id: string, ok: bool)
    requires id in a.records && id in b.records && Family(b, id) == Family(a, id) && PartlyWithout(b, x, Family(b, id))
    requires forall k | k in done && k !in stuck && k in a.records :: GoneWithLogs(a, b, k)
    requires ok ==> GoneWithLogs(b, x, id)
    ensures
      var late := if ok then stuck else stuck + {id};
      forall k | k in done + {id} && k !in late && k in a.records :: GoneWithLogs(a, x, k)
  {
    GoneStaysGone(a, b, x, Family(b, id));
  }

  lemma DeletedThus(
    b: Snapshot, x: Snapshot, t: seq<Snapshot>, n: nat, id: string, reachable: bool, clean: bool, clean': bool,
    ok: bool)
    requires Consistent(b) && BackupDeleted(b, x, t, n, id, reachable, clean, ok) && (clean' ==> clean)
    ensures id in b.records && n <= |t| && Deleting(b, x, t, n, Family(b, id), reachable, clean')
    ensures DeleteCut(b, x, id) && forall i | n <= i < |t| :: DeleteCut(b, t[i], id)
    ensures ok ==> GoneWithLogs(b, x, id)
  {
  }

  lemma ExpiringReady(
    a: Snapshot, b: Snapshot, t: seq<Snapshot>, n: nat, expired: seq<BackupRecord>, i: nat, count: nat,
    stuck: set<string>, reachable: bool, clean: bool)
    requires Consistent(a) && ExpiringTo(a, b, t, n, expired, i, count, stuck, reachable, clean)
    ensures Consistent(b) && a.records.Keys == b.records.Keys
  {
    DeletingKeepsConsistent(a, b, a.records.Keys);
  }

  lemma ExpiringContinues(
    a: Snapshot, b: Snapshot, x: Snapshot, u: seq<Snapshot>, v: seq<Snapshot>, n: nat, expired: seq<BackupRecord>,
    i: nat, count: nat, stuck: set<string>, reachable: bool, clean: bool, clean': bool, clean'': bool, ok: bool)
    requires Consistent(a) && i < |expired| && expired[i].engine != SQLServer
    requires forall j, k | 0 <= j < k < |expired| :: expired[j].id != expired[k].id
    requires expired[i].id in a.records && a.records[expired[i].id] == expired[i]
    requires ExpiringTo(a, b, u, n, expired, i, count, stuck, reachable, clean)
    requires u <= v && BackupDeleted(b, x, v, |u|, expired[i].id, reachable, clean', ok)
    requires clean'' ==> clean && clean'
    ensures ExpiringTo(a, x, v, n, expired, i + 1, if ok then count + 1 else count,
                       if ok then stuck else stuck + {expired[i].id}, reachable, clean'')
  {
    hide ExpiringByDate, GoneWithLogs, Consistent, DeleteCut, BackupDeleted, Deleting;
    var done, id := OtherEngines(expired[..i]), expired[i].id;
    ExpiringReady(a, b, u, n, expired, i, count, stuck, reachable, clean);
    DeletedThus(b, x, v, |u|, id, reachable, clean', clean'', ok);
    OtherEnginesStep(expired, i);
    ByDateContinues(a, b, x, u, v, n, done, stuck, id, reachable, clean, clean'', ok);
  }

  lemma ExpiringStarts(a: Snapshot, t: seq<Snapshot>)
    ensures forall reachable :: ExpiringByDate(a, a, t, |t|, {}, {}, reachable, true)
  {
    assert WithChildren(a, {}) == {};
    DeletingStarts(a, t);
  }

  /** Nothing having been listed, nothing has gone. */
  lemma ExpiringIdle(a: Snapshot, t: seq<Snapshot>, done: set<string>)
    ensures forall reachable :: ExpiringByDate(a, a, t, |t|, done, done, reachable, false)
  {
  }

  /** What the date-based half has dealt with, written out. */
  lemma ExpiredByDate(
    a: Snapshot, x: Snapshot, t: seq<Snapshot>, n: nat, now: Time, stuck: set<string>, reachable: bool, clean: bool)
    requires ExpiringByDate(a, x, t, n, Outdated(a, now), stuck, reachable, clean)
    ensures DatedGone(a, x, now, stuck) && OthersKept(a, x, now)
    ensures forall i | n <= i < |t| :: OthersKept(a, t[i], now)
  {
    DatedOnly(a, x, now);
    forall i | n <= i < |t| ensures OthersKept(a, t[i], now) {
      DatedOnly(a, t[i], now);
    }
    forall k | k in Outdated(a, now) && k !in stuck ensures GoneWithLogs(a, x, k) && k in Family(a, k) {
    }
  }
}
