/** Deletion and retention (application/usecases/backup_usecase.go). */
module BackupQuery {
  import opened Entities
  import opened ObjectKeys
  import opened Catalogue
  import opened Deletion
  import opened Retention
  import opened Sorting
  import opened Sparing
  import opened Sweep
  import opened SweepRun
  import opened World

  class BackupQueryUseCase {
    const backend: Backend

    constructor (backend: Backend)
      ensures this.backend == backend
    {
      this.backend := backend;
    }

    /** The first half of `deleteOne`. The object stays when there is no storage factory, S3 is not
        configured or no client can be built. */
    method DiscardObject(rec: BackupRecord) returns (ok: bool)
      requires backend.Valid()
      requires rec.id in backend.records && backend.records[rec.id].fileName == rec.fileName
      modifies backend
      ensures backend.Valid() && old(backend.trace) <= backend.trace && backend.records == old(backend.records)
      ensures PartlyWithout(old(backend.Now()), backend.Now(), {rec.id})
      ensures CutsWithin(old(backend.Now()), backend.trace, |old(backend.trace)|, {rec.id})
      ensures !ok ==> backend.failures > old(backend.failures)
      ensures backend.refused == if ok then old(backend.refused) else old(backend.refused) + 1
      ensures backend.failures >= old(backend.failures)
      ensures rec.fileName == "" || !backend.Reachable() ==> ok && backend.objects == old(backend.objects)
      ensures backend.failures == old(backend.failures) && backend.Reachable() ==>
                backend.objects == old(backend.objects) - KeysOf(old(backend.Now()), {rec.id})
    {
      ghost var a := backend.Now();
      KeysOfOne(a, rec.id);
      if rec.fileName != "" && backend.hasFactory {
        var configured := backend.GetS3Config();
        if configured {
          var connected := backend.NewStorage();
          if connected {
            ok := backend.DeleteObject(rec.fileName);
            return;
          }
        }
      }
      ok := true;
    }

    /** Removes the object of one record, then marks the record expired. */
    method DeleteOne(rec: BackupRecord) returns (ok: bool)
      requires backend.Valid()
      requires rec.id in backend.records && backend.records[rec.id].fileName == rec.fileName
      modifies backend
      ensures backend.Valid() && old(backend.trace) <= backend.trace
      ensures Deleting(old(backend.Now()), backend.Now(), backend.trace, |old(backend.trace)|, {rec.id},
                       backend.Reachable(), backend.failures == old(backend.failures))
      ensures ok ==> backend.records[rec.id] == Expire(old(backend.records)[rec.id])
      ensures ok ==> backend.records[rec.id].status == Expired
                     && backend.records[rec.id].errorMessage == "eliminado manualmente"
      ensures !backend.Reachable() ==> backend.objects == old(backend.objects)
      ensures !ok ==> backend.records == old(backend.records) && backend.failures > old(backend.failures)
      // if S3 refuses to delete the object the record stays
      ensures backend.refused == old(backend.refused) || (!ok && backend.refused == old(backend.refused) + 1)
      ensures backend.failures >= old(backend.failures)
    {
      ghost var a := backend.Now();
      ok := DiscardObject(rec);
      if !ok {
        return;
      }
      ghost var b, t := backend.Now(), backend.trace;
      ok := backend.UpdateStatus(rec.id, Expired, DELETED_MESSAGE, ZERO_TIME);
      ghost var x := backend.Now();
      assert ok ==> x == b.(records := b.records[rec.id := Expire(b.records[rec.id])]);
      assert CutsWithin(b, backend.trace, |t|, {rec.id});
      CutsExtend(a, b, {rec.id}, {rec.id}, |old(backend.trace)|, t, backend.trace, x);
      assert {rec.id} + {rec.id} == {rec.id};
      if ok {
        OneExpired(a, x, rec.id);
      }
    }

    /** One round of the cascade's loop. `base` is the number of failures at its start. */
    method DeleteChild(
      id: string, all: seq<BackupRecord>, i: nat, ghost a: Snapshot, ghost n: nat, ghost done: set<string>,
      ghost base: nat)
      returns (ok: bool, ghost more: set<string>)
      requires backend.Valid() && i < |all| && base <= backend.failures
      requires all[i].id in a.records && a.records[all[i].id] == all[i] && all[i].parentBackupID == id
      requires Cascading(a, backend.Now(), backend.trace, n, id, all, i, done, backend.Reachable(),
                         backend.failures == base)
      modifies backend
      ensures backend.refused == old(backend.refused) || (!ok && backend.refused == old(backend.refused) + 1)
      ensures backend.Valid() && old(backend.trace) <= backend.trace
      ensures ok ==> Cascading(a, backend.Now(), backend.trace, n, id, all, i + 1, more, backend.Reachable(),
                               backend.failures == base)
      ensures !ok ==> Deleting(a, backend.Now(), backend.trace, n, Children(a, id), backend.Reachable(), false)
      ensures !ok ==> backend.failures > base
      ensures backend.failures >= base
    {
      ghost var b, u := backend.Now(), backend.trace;
      more := done + {all[i].id};
      ok := DeleteOne(all[i]);
      ghost var clean, clean' := old(backend.failures) == base, backend.failures == old(backend.failures);
      if ok {
        CascadingContinues(a, b, backend.Now(), u, backend.trace, n, id, all, i, done, backend.Reachable(), clean,
                           clean');
      } else {
        CascadingStops(a, b, backend.Now(), u, backend.trace, n, id, all, i, done, backend.Reachable(), clean, clean');
      }
    }

    /** The cascade: deletes every record naming `id` as its parent. */
    method DeleteChildren(id: string) returns (ok: bool)
      requires backend.Valid()
      modifies backend
      ensures backend.refused == old(backend.refused) || (!ok && backend.refused == old(backend.refused) + 1)
      ensures backend.Valid() && old(backend.trace) <= backend.trace
      ensures Deleting(old(backend.Now()), backend.Now(), backend.trace, |old(backend.trace)|,
                       Children(old(backend.Now()), id), backend.Reachable(),
                       ok && backend.failures == old(backend.failures))
      ensures ok ==> forall k | k in Children(old(backend.Now()), id) ::
                k in backend.records && backend.records[k].status == Expired
      ensures !ok ==> backend.failures > old(backend.failures)
      ensures backend.failures >= old(backend.failures)
    {
      ghost var a, n := backend.Now(), |backend.trace|;
      DeletingStarts(a, backend.trace);
      var all;
      ok, all := backend.FindAll();
      if !ok {
        return;
      }
      ok := DeleteListed(id, all, a, old(backend.failures));
    }

    /** Its loop. */
    method DeleteListed(id: string, all: seq<BackupRecord>, ghost a: Snapshot, ghost base: nat) returns (ok: bool)
      requires backend.Valid() && a == backend.Now() && base == backend.failures && Lists(all, a.records, r => true)
      modifies backend
      ensures backend.refused == old(backend.refused) || (!ok && backend.refused == old(backend.refused) + 1)
      ensures backend.Valid() && old(backend.trace) <= backend.trace
      ensures Deleting(a, backend.Now(), backend.trace, |old(backend.trace)|, Children(a, id), backend.Reachable(),
                       backend.failures == base)
      ensures ok ==> forall k | k in Children(a, id) :: k in backend.records && backend.records[k].status == Expired
      ensures !ok ==> backend.failures > base
      ensures backend.failures >= base
    {
      hide Deleting, Cascading, Children;
      ghost var n := |backend.trace|;
      ghost var done: set<string> := {};
      CascadingStarts(a, backend.trace, id, all);
      ok := true;
      for i := 0 to |all|
        invariant backend.Valid() && old(backend.trace) <= backend.trace && ok
        invariant Cascading(a, backend.Now(), backend.trace, n, id, all, i, done, backend.Reachable(),
                            backend.failures == base)
        invariant backend.failures >= base && backend.refused == old(backend.refused)
      {
        if all[i].parentBackupID == id {
          ok, done := DeleteChild(id, all, i, a, n, done, base);
          if !ok {
            return;
          }
        } else {
          CascadingSkips(a, backend.Now(), backend.trace, n, id, all, i, done, backend.Reachable(),
                         backend.failures == base);
        }
      }
      CascadingEnds(a, backend.Now(), backend.trace, n, id, all, done, backend.Reachable(), backend.failures == base);
    }

    /** Deletes a backup; the logs of a full go first. */
    method DeleteBackup(id: string) returns (ok: bool)
      requires backend.Valid()
      modifies backend
      ensures backend.refused == old(backend.refused) || (!ok && backend.refused == old(backend.refused) + 1)
      ensures backend.Valid() && old(backend.trace) <= backend.trace
      ensures id !in old(backend.records) ==>
                !ok && backend.Now() == old(backend.Now()) && backend.trace == old(backend.trace)
      ensures id in old(backend.records) ==>
                BackupDeleted(old(backend.Now()), backend.Now(), backend.trace, |old(backend.trace)|, id,
                              backend.Reachable(), backend.failures == old(backend.failures), ok)
      // without failures the objects of the family are gone exactly if S3 could be reached, or none was there
      ensures id in old(backend.records) && backend.failures == old(backend.failures) ==>
                var keys := KeysOf(old(backend.Now()), Family(old(backend.Now()), id));
                && ok
                && ((forall o | o in keys :: o !in backend.objects) <==>
                    backend.Reachable() || forall o | o in keys :: o !in old(backend.objects))
      ensures !ok ==> backend.failures > old(backend.failures) || id !in old(backend.records)
      ensures backend.failures >= old(backend.failures)
    {
      ghost var a := backend.Now();
      var rec;
      ok, rec := backend.FindByID(id);
      if !ok {
        DeletingStarts(a, backend.trace);
        if id in a.records {
          NothingYet(a, backend.trace, id, backend.Reachable());
        }
        return;
      }
      ok := DeleteFound(rec, a);
      ObjectsGoneIffReachable(a, Family(a, id), backend.Reachable());
    }

    /** The rest of it, once the record has been read. */
    method DeleteFound(rec: BackupRecord, ghost a: Snapshot) returns (ok: bool)
      requires backend.Valid() && a == backend.Now() && rec.id in a.records && a.records[rec.id] == rec
      modifies backend
      ensures backend.refused == old(backend.refused) || (!ok && backend.refused == old(backend.refused) + 1)
      ensures backend.Valid() && old(backend.trace) <= backend.trace
      ensures BackupDeleted(a, backend.Now(), backend.trace, |old(backend.trace)|, rec.id,
                            backend.Reachable(), backend.failures == old(backend.failures), ok)
      ensures !ok ==> backend.failures > old(backend.failures)
      ensures backend.failures >= old(backend.failures)
    {
      ghost var n := |backend.trace|;
      DeletingStarts(a, backend.trace);
      if rec.IsFull() {
        ok := DeleteChildren(rec.id);
        if !ok {
          LogsStopped(a, backend.Now(), backend.trace, n, rec.id, backend.Reachable(), false);
          return;
        }
      }
      ghost var b, u, clean := backend.Now(), backend.trace, backend.failures == old(backend.failures);
      label Full:
      ok := DeleteOne(rec);
      LogsThenFull(a, b, backend.Now(), u, backend.trace, n, rec.id, backend.Reachable(), clean,
                   backend.failures == old@Full(backend.failures), ok);
    }

    /** `existsInS3`: lists the objects under the key and looks for one that ends in it. */
    method ExistsInS3(key: string) returns (found: bool)
      modifies backend`failures
      ensures backend.failures >= old(backend.failures)
      ensures found ==> key != "" && exists o :: o in backend.objects && Matches(backend.prefix, o, key)
      ensures backend.failures == old(backend.failures) && !found ==>
                key == "" || forall o | o in backend.objects :: !Matches(backend.prefix, o, key)
      // exact on a bucket the adapters produced
      ensures AdapterBucket(backend.prefix, backend.objects.Keys) && (key != "" ==> IsSqlKey(key)) ==>
                && (found ==> FullKey(backend.prefix, key) in backend.objects)
                && (backend.failures == old(backend.failures) ==>
                      (found <==> key != "" && FullKey(backend.prefix, key) in backend.objects))
    {
      if key == "" {
        return false;
      }
      var ok, objs := backend.ListObjects(key);
      if !ok {
        return false;
      }
      ExistsExact(backend.prefix, backend.objects.Keys, key);
      ghost var seen: set<string> := {};
      while objs != {}
        invariant forall o | o in objs :: o in backend.objects && FullKey(backend.prefix, key) <= o
        invariant forall o | o in backend.objects && Matches(backend.prefix, o, key) :: o in objs
        decreases objs
      {
        var o :| o in objs;
        if HasSuffix(o, key) {
          assert Matches(backend.prefix, o, key);
          return true;
        }
        objs := objs - {o};
      }
      return false;
    }

    /** The existence test on a stored record. */
    method HasObject(r: BackupRecord) returns (found: bool)
      modifies backend`failures
      ensures backend.failures >= old(backend.failures)
      ensures found ==> Found(backend.Now(), r)
      ensures backend.failures == old(backend.failures) ==> (found <==> Found(backend.Now(), r))
    {
      found := ExistsInS3(r.fileName);
    }

    /** Whether the full at `j` counts when the one at `i` is the candidate. */
    method Counts(fulls: seq<BackupRecord>, i: nat, j: nat, deleted: set<string>) returns (found: bool)
      requires i < |fulls| && j < |fulls|
      requires j != i ==> fulls[j].id != fulls[i].id && (fulls[j].id in deleted <==> j < i)
      modifies backend`failures
      ensures backend.failures >= old(backend.failures)
      ensures found ==> i < j && Found(backend.Now(), fulls[j])
      ensures backend.failures == old(backend.failures) ==> (found <==> i < j && Found(backend.Now(), fulls[j]))
    {
      found := false;
      if fulls[j].id != fulls[i].id && fulls[j].id !in deleted {
        found := HasObject(fulls[j]);
      }
    }

    /** For how many fulls other than the candidate and the deleted ones the existence test finds an
        object. Each listing that fails misses one at most. */
    method CountVerified(fulls: seq<BackupRecord>, i: nat, deleted: set<string>)
      returns (verified: nat, ghost seen: set<string>)
      requires i < |fulls| && forall j, k | 0 <= j < k < |fulls| :: fulls[j].id != fulls[k].id
      requires forall j | 0 <= j < |fulls| && j != i :: fulls[j].id in deleted <==> j < i
      modifies backend`failures
      ensures backend.failures >= old(backend.failures)
      ensures |seen| == verified && seen <= FoundAfter(backend.Now(), fulls, i)
      ensures |FoundAfter(backend.Now(), fulls, i)| <= verified + (backend.failures - old(backend.failures))
      ensures backend.failures == old(backend.failures) ==> seen == FoundAfter(backend.Now(), fulls, i)
    {
      hide Found, Counted, FoundAfter;
      verified, seen := 0, {};
      ghost var a := backend.Now();
      CountingStarts(a, fulls, i);
      for j := 0 to |fulls|
        invariant backend.failures >= old(backend.failures) && backend.Now() == a
        invariant Counted(a, fulls, i, j, seen, verified, backend.failures - old(backend.failures))
      {
        ghost var missed := backend.failures - old(backend.failures);
        var found := Counts(fulls, i, j, deleted);
        CountedStep(a, fulls, i, j, seen, verified, missed, found, backend.failures - old(backend.failures) - missed);
        if found {
          verified, seen := verified + 1, seen + {fulls[j].id};
        }
      }
      CountingEnds(a, fulls, i, seen, verified, backend.failures - old(backend.failures));
    }

    /** Deletes the full at `i`, the fulls `seen` having been found after it. `base` is the
        number of failures at the start of the sweep. */
    method SweepCandidate(
      fulls: seq<BackupRecord>, i: nat, ghost a: Snapshot, ghost b: Snapshot, ghost n: nat,
      ghost cutoffs: Cutoffs, ghost g: GroupKey, ghost ds: seq<Removal>, ghost base: nat, ghost seen: set<string>)
      returns (ok: bool, ghost es: seq<Removal>)
      requires backend.Valid() && backend.Reachable() && b == backend.Now() && base <= backend.failures
      requires Consistent(a) && GroupListing(fulls, a, g)
      requires i < |fulls| && fulls[i].startedAt < cutoffs(g)
      requires Sweeping(a, b, backend.trace, n, fulls, i, cutoffs, g, ds, backend.failures == base)
      requires |seen| >= 2 && seen <= FoundAfter(b, fulls, i)
      requires KeysInOrder(a) ==> |Newer(a, fulls[i].id)| >= 2
      modifies backend
      ensures backend.Valid() && old(backend.trace) <= backend.trace
      ensures ok ==>
                Sweeping(a, backend.Now(), backend.trace, n, fulls, i + 1, cutoffs, g, es, backend.failures == base)
      ensures !ok ==> SweptGroups(a, backend.Now(), backend.trace, n, cutoffs, {g}, es, i, {g}, false, false)
      ensures !ok ==> backend.failures > old(backend.failures)
      ensures backend.failures >= old(backend.failures)
    {
      hide GroupListing, FoundAfter, SweptGroups;
      ghost var u, clean := backend.trace, backend.failures == base;
      es := ds + [Removal(b, fulls[i].id)];
      CheckingIsPartly(a, b, u, n, ds, cutoffs, {g});
      ok := DeleteBackup(fulls[i].id);
      if ok {
        CandidateGone(a, b, backend.Now(), u, backend.trace, n, fulls, i, cutoffs, g, ds, clean,
                      backend.failures == base, seen);
      } else {
        CandidateStuck(a, b, backend.Now(), u, backend.trace, n, fulls, i, cutoffs, g, ds, clean, seen);
      }
    }

    /** The fulls found after the one at `i`, during the sweep; with keys in order the newer verified
        ones. */
    method CountNewer(
      fulls: seq<BackupRecord>, i: nat, deleted: set<string>, ghost a: Snapshot, ghost b: Snapshot, ghost n: nat,
      ghost cutoffs: Cutoffs, ghost g: GroupKey, ghost ds: seq<Removal>, ghost clean: bool)
      returns (verified: nat, ghost seen: set<string>)
      requires b == backend.Now() && Consistent(a) && GroupListing(fulls, a, g) && i < |fulls|
      requires deleted == Ids(fulls[..i]) && Sweeping(a, b, backend.trace, n, fulls, i, cutoffs, g, ds, clean)
      modifies backend`failures
      ensures |seen| == verified && seen <= FoundAfter(b, fulls, i)
      ensures |FoundAfter(b, fulls, i)| <= verified + (backend.failures - old(backend.failures))
      ensures KeysInOrder(a) ==> verified <= |Newer(a, fulls[i].id)|
      ensures backend.failures >= old(backend.failures)
      ensures backend.failures == old(backend.failures) ==>
                && seen == FoundAfter(b, fulls, i)
                && (KeysInOrder(a) ==> verified == |Newer(a, fulls[i].id)|)
    {
      CheckingIsPartly(a, b, backend.trace, n, ds, cutoffs, {g});
      CountingSound(a, fulls, g, i);
      verified, seen := CountVerified(fulls, i, deleted);
      if KeysInOrder(a) {
        CountedAreNewer(a, b, fulls, g, i, seen);
      }
    }

    /** Whether the sweep stops at the full at `i`: if that is inside the retention window, or not enough
        verified ones follow it. `base` is the number of failures at the start of the sweep. */
    method MustStop(
      fulls: seq<BackupRecord>, i: nat, cutoff: Time, deleted: set<string>, ghost a: Snapshot, ghost b: Snapshot,
      ghost n: nat, ghost cutoffs: Cutoffs, ghost g: GroupKey, ghost ds: seq<Removal>, ghost base: nat)
      returns (stop: bool, ghost seen: set<string>)
      requires b == backend.Now() && base <= backend.failures && Consistent(a) && GroupListing(fulls, a, g)
      requires i < |fulls| && cutoff == cutoffs(g) && deleted == Ids(fulls[..i])
      requires Sweeping(a, b, backend.trace, n, fulls, i, cutoffs, g, ds, backend.failures == base)
      modifies backend`failures
      ensures stop ==> SweptGroups(a, b, backend.trace, n, cutoffs, {g}, ds, i,
                                   if backend.failures == base then {} else {g}, true, backend.failures == base)
      ensures !stop ==>
                && fulls[i].startedAt < cutoffs(g) && |seen| >= 2 && seen <= FoundAfter(b, fulls, i)
                && Sweeping(a, b, backend.trace, n, fulls, i, cutoffs, g, ds, backend.failures == base)
                && (KeysInOrder(a) ==> |Newer(a, fulls[i].id)| >= 2)
      // it stops short of a full with two others after it only if that many calls fail
      ensures stop ==> || fulls[i].startedAt >= cutoffs(g)
                       || |FoundAfter(b, fulls, i)| < 2 + (backend.failures - old(backend.failures))
      ensures backend.failures >= old(backend.failures)
    {
      hide GroupListing, Sweeping, SweptGroups, FoundAfter;
      ghost var t := backend.trace;
      seen := {};
      stop := !(fulls[i].startedAt < cutoff);
      if !stop {
        var verified;
        verified, seen := CountNewer(fulls, i, deleted, a, b, n, cutoffs, g, ds, backend.failures == base);
        stop := verified < MIN_VERIFIED_FULL_BACKUPS;
      }
      SweepingWeaken(a, b, t, n, fulls, i, cutoffs, g, ds, old(backend.failures) == base, backend.failures == base);
      if stop {
        SweepingEnds(a, b, t, n, fulls, i, cutoffs, g, ds, backend.failures == base);
      }
    }

    /** One round of the sweep, on the full at `i`. It ends there if it must stop, or if the full cannot
        be deleted. */
    method SweepNext(
      fulls: seq<BackupRecord>, i: nat, cutoff: Time, deleted: set<string>,
      ghost a: Snapshot, ghost n: nat, ghost cutoffs: Cutoffs, ghost g: GroupKey, ghost ds: seq<Removal>,
      ghost base: nat)
      returns (more: bool, ok: bool, gone: set<string>, ghost es: seq<Removal>)
      requires backend.Valid() && backend.Reachable() && Consistent(a) && GroupListing(fulls, a, g)
      requires i < |fulls| && cutoff == cutoffs(g) && deleted == Ids(fulls[..i]) && base <= backend.failures
      requires Sweeping(a, backend.Now(), backend.trace, n, fulls, i, cutoffs, g, ds, backend.failures == base)
      modifies backend
      ensures backend.Valid() && old(backend.trace) <= backend.trace
      ensures more ==> ok && gone == Ids(fulls[..i + 1])
                       && Sweeping(a, backend.Now(), backend.trace, n, fulls, i + 1, cutoffs, g, es,
                                   backend.failures == base)
      ensures !more ==> SweptGroups(a, backend.Now(), backend.trace, n, cutoffs, {g}, es, i,
                                    if backend.failures == base then {} else {g}, ok, backend.failures == base)
      ensures !more && ok ==>
                || fulls[i].startedAt >= cutoffs(g)
                || |FoundAfter(backend.Now(), fulls, i)| < 2 + (backend.failures - old(backend.failures))
      ensures !ok ==> backend.failures > base
      ensures backend.failures >= old(backend.failures)
    {
      hide Consistent, GroupListing, Sweeping, SweptGroups, FoundAfter, KeysApart;
      ghost var b := backend.Now();
      var stop;
      ghost var seen;
      stop, seen := MustStop(fulls, i, cutoff, deleted, a, b, n, cutoffs, g, ds, base);
      more, ok, gone, es := false, true, deleted, ds;
      if !stop {
        ok, es := SweepCandidate(fulls, i, a, b, n, cutoffs, g, ds, base, seen);
        IdsStep(fulls, i);
        more, gone := ok, deleted + {fulls[i].id};
      }
    }

    /** The sweep of one group, oldest full first. */
    method SweepGroup(fulls: seq<BackupRecord>, cutoff: Time, ghost cutoffs: Cutoffs, ghost g: GroupKey)
      returns (count: nat, ok: bool, ghost ds: seq<Removal>)
      requires backend.Valid() && backend.Reachable() && Consistent(backend.Now())
      requires GroupListing(fulls, backend.Now(), g) && cutoff == cutoffs(g)
      modifies backend
      ensures backend.Valid() && old(backend.trace) <= backend.trace
      ensures SweptGroups(old(backend.Now()), backend.Now(), backend.trace, |old(backend.trace)|, cutoffs,
                          {g}, ds, count, if backend.failures == old(backend.failures) then {} else {g}, ok,
                          backend.failures == old(backend.failures))
      // unless a deletion fails it goes on until a full is too young or has too few after it, as far as calls
      // that failed do not hide them
      ensures ok ==>
                && count <= |fulls|
                && (count < |fulls| ==>
                      || fulls[count].startedAt >= cutoff
                      || |FoundAfter(backend.Now(), fulls, count)| < 2 + (backend.failures - old(backend.failures)))
      ensures !ok ==> backend.failures > old(backend.failures)
      ensures backend.failures >= old(backend.failures)
    {
      hide Consistent, GroupListing, Sweeping, SweptGroups;
      ghost var a, n := backend.Now(), |backend.trace|;
      count, ok, ds := 0, true, [];
      var deleted: set<string> := {};
      SweepingStarts(a, backend.trace, fulls, cutoffs, g);
      while count < |fulls|
        invariant ok && count <= |fulls| && deleted == Ids(fulls[..count])
        invariant backend.Valid() && old(backend.trace) <= backend.trace
        invariant Sweeping(a, backend.Now(), backend.trace, n, fulls, count, cutoffs, g, ds,
                           backend.failures == old(backend.failures))
        invariant backend.failures >= old(backend.failures)
      {
        var more;
        more, ok, deleted, ds := SweepNext(fulls, count, cutoff, deleted, a, n, cutoffs, g, ds, old(backend.failures));
        if !more {
          return;
        }
        count := count + 1;
      }
      SweepingEnds(a, backend.Now(), backend.trace, n, fulls, count, cutoffs, g, ds,
                   backend.failures == old(backend.failures));
    }

    /** Collects the completed SQL Server fulls by instance and database. */
    method GroupFulls(all: seq<BackupRecord>) returns (groups: map<GroupKey, seq<BackupRecord>>)
      requires forall i, j | 0 <= i < j < |all| :: all[i].id != all[j].id
      ensures Grouped(groups, all, |all|)
    {
      groups := map[];
      for i := 0 to |all|
        invariant Grouped(groups, all, i)
      {
        GroupedStep(groups, all, i);
        if Swept(all[i]) {
          var g := GroupOf(all[i]);
          groups := groups[g := (if g in groups then groups[g] else []) + [all[i]]];
        }
      }
    }

    /** One round of the loop over the groups. `base` is the number of failures at its start; each group in
        `stuck` accounts for one. `fine` says whether all deletions so far succeeded. */
    method SweepThisGroup(
      group: seq<BackupRecord>, cutoffs: Cutoffs, g: GroupKey, ghost a: Snapshot, ghost n: nat,
      ghost gs: set<GroupKey>, ghost ds: seq<Removal>, count: nat, ghost stuck: set<GroupKey>, fine: bool,
      ghost base: nat)
      returns (total: nat, ok: bool, ghost es: seq<Removal>, ghost late: set<GroupKey>)
      requires backend.Valid() && backend.Reachable() && Consistent(a) && base + |stuck| <= backend.failures
      requires IsGroup(a, group, g) && g !in gs && (!fine ==> backend.failures > base)
      requires SweptGroups(a, backend.Now(), backend.trace, n, cutoffs, gs, ds, count, stuck, fine,
                           backend.failures == base)
      modifies backend
      ensures backend.Valid() && old(backend.trace) <= backend.trace
      ensures SweptGroups(a, backend.Now(), backend.trace, n, cutoffs, gs + {g}, es, total, late, ok,
                          backend.failures == base)
      ensures base + |late| <= backend.failures
      ensures !ok ==> backend.failures > base
    {
      hide SweptGroups, Consistent;
      ghost var b, u := backend.Now(), backend.trace;
      var fulls := SortByStart(group);
      GroupReady(a, b, u, n, cutoffs, gs, ds, count, stuck, fine, old(backend.failures) == base, group, fulls, g);
      var deleted, done;
      ghost var more;
      deleted, done, more := SweepGroup(fulls, cutoffs(g), cutoffs, g);
      ghost var clean := backend.failures == old(backend.failures);
      ghost var failed := if clean then {} else {g};
      total, ok, es, late := count + deleted, fine && done, ds + more, stuck + failed;
      SweptOneMore(a, b, backend.Now(), u, backend.trace, n, cutoffs, gs, g, ds, more, count, deleted, stuck, failed,
                   fine, done, old(backend.failures) == base, clean);
    }

    /** The loop over the groups, in any order. A failure in one group does not stop the others: at most as
        many as calls failed are `stuck`. */
    method SweepGroups(groups: map<GroupKey, seq<BackupRecord>>, cutoffs: Cutoffs)
      returns (count: nat, ok: bool, ghost ds: seq<Removal>, ghost stuck: set<GroupKey>)
      requires backend.Valid() && backend.Reachable() && Consistent(backend.Now())
      requires forall g | g in groups :: IsGroup(backend.Now(), groups[g], g)
      modifies backend
      ensures backend.Valid() && old(backend.trace) <= backend.trace
      ensures SweptGroups(old(backend.Now()), backend.Now(), backend.trace, |old(backend.trace)|, cutoffs,
                          groups.Keys, ds, count, stuck, ok, backend.failures == old(backend.failures))
      ensures |stuck| <= backend.failures - old(backend.failures)
      ensures !ok ==> backend.failures > old(backend.failures)
    {
      hide Consistent, IsGroup, SweptGroups;
      ghost var a, n := backend.Now(), |backend.trace|;
      SweptGroupsStarts(a, backend.trace, cutoffs);
      count, ok, ds, stuck := 0, true, [], {};
      var keys := groups.Keys;
      ghost var gs: set<GroupKey> := {};
      while keys != {}
        invariant keys <= groups.Keys && gs == groups.Keys - keys
        invariant backend.Valid() && old(backend.trace) <= backend.trace
        invariant SweptGroups(a, backend.Now(), backend.trace, n, cutoffs, gs, ds, count, stuck, ok,
                              backend.failures == old(backend.failures))
        invariant old(backend.failures) + |stuck| <= backend.failures
        invariant !ok ==> backend.failures > old(backend.failures)
        decreases keys
      {
        var g :| g in keys;
        count, ok, ds, stuck :=
          SweepThisGroup(groups[g], cutoffs, g, a, n, gs, ds, count, stuck, ok, old(backend.failures));
        TakeOne(groups.Keys, keys, g);
        keys, gs := keys - {g}, gs + {g};
      }
      assert gs == groups.Keys;
    }

    /** The body of the sweep. It begins once the records are listed and S3 is reached. */
    method SweepAll(cutoffs: Cutoffs)
      returns (count: nat, ok: bool, ghost ds: seq<Removal>, ghost stuck: set<GroupKey>, ghost begun: bool)
      requires backend.Valid() && backend.hasFactory && Consistent(backend.Now())
      modifies backend
      ensures backend.Valid() && old(backend.trace) <= backend.trace
      ensures SweptGroups(old(backend.Now()), backend.Now(), backend.trace, |old(backend.trace)|, cutoffs,
                          Groups(old(backend.Now())), ds, count, stuck, ok || !begun,
                          backend.Reachable() && backend.failures == old(backend.failures))
      ensures begun ==> backend.Reachable() && |stuck| <= backend.failures - old(backend.failures)
      ensures !begun ==> !ok && count == 0 && ds == [] && backend.Now() == old(backend.Now())
      ensures !begun ==> !backend.Reachable() || backend.failures > old(backend.failures)
      ensures begun && !ok ==> backend.failures > old(backend.failures)
      ensures backend.failures >= old(backend.failures)
    {
      hide Consistent, SweptGroups, Grouped;
      ghost var a := backend.Now();
      begun, count, ds, stuck := false, 0, [], Groups(a);
      var all;
      ok, all := backend.FindAll();
      if ok {
        var groups := GroupFulls(all);
        GroupedKeys(groups, a, all);
        ok := backend.GetS3Config();
        if ok {
          ok := backend.NewStorage();
          if ok {
            begun := true;
            count, ok, ds, stuck := SweepGroups(groups, cutoffs);
          }
        }
      }
      if !begun {
        SweptGroupsIdle(a, backend.trace, cutoffs, Groups(a));
      }
    }

    /** The sweep. `cutoffs` is the start of the retention window of each group. `ds` are the deletions
        it made, each of which was checked. The golden rule holds if each spares every group, as each does
        with keys in order, and without failures only then. Once it has `begun`, a call that fails holds up
        one group at most. The source dereferences the storage factory without a check. */
    method ApplySQLServerRetention(cutoffs: Cutoffs)
      returns (count: nat, ok: bool, ghost ds: seq<Removal>, ghost stuck: set<GroupKey>, ghost begun: bool)
      requires backend.Valid() && backend.hasFactory && Consistent(backend.Now())
      modifies backend
      ensures backend.Valid() && old(backend.trace) <= backend.trace
      ensures SweptGroups(old(backend.Now()), backend.Now(), backend.trace, |old(backend.trace)|, cutoffs,
                          Groups(old(backend.Now())), ds, count, stuck, ok || !begun,
                          backend.Reachable() && backend.failures == old(backend.failures))
      ensures AllSpare(ds) ==>
                && Golden(old(backend.Now()), backend.Now())
                && forall j | |old(backend.trace)| <= j < |backend.trace| ::
                    Golden(old(backend.Now()), backend.trace[j])
      ensures KeysInOrder(old(backend.Now())) ==> AllSpare(ds)
      ensures backend.Reachable() && backend.failures == old(backend.failures) ==>
                (Golden(old(backend.Now()), backend.Now()) <==> AllSpare(ds))
      // what is not stuck has gone, whatever failed elsewhere
      ensures begun ==> backend.Reachable() && |stuck| <= backend.failures - old(backend.failures)
      ensures KeysInOrder(old(backend.Now())) ==>
                forall g | g !in stuck :: DoomedGone(old(backend.Now()), backend.Now(), cutoffs, g)
      // the count and the result, whatever failed
      ensures count == |GoneFulls(old(backend.Now()), backend.Now(), Groups(old(backend.Now())))|
      ensures ok <==> begun && AllCarriedOut(ds, backend.Now())
      ensures !begun ==> count == 0 && ds == [] && backend.Now() == old(backend.Now())
      ensures !begun ==> !backend.Reachable() || backend.failures > old(backend.failures)
      ensures begun && !ok ==> backend.failures > old(backend.failures)
      ensures backend.failures >= old(backend.failures)
    {
      hide Consistent, SweptGroups, Golden, AllSpare, AllCarriedOut, KeysInOrder, DoomedGone;
      ghost var a, n := backend.Now(), |backend.trace|;
      count, ok, ds, stuck, begun := SweepAll(cutoffs);
      ghost var clean := backend.Reachable() && backend.failures == old(backend.failures);
      SweptGolden(a, backend.Now(), backend.trace, n, cutoffs, Groups(a), ds, count, stuck, ok || !begun, clean);
      SweptEverywhere(a, backend.Now(), backend.trace, n, cutoffs, ds, count, stuck, ok || !begun, clean);
    }

    /** The date-based half of `ApplyRetention`: deletes what is past its expiry date, whatever its
        status, on every engine but SQL Server. Once that is `listed`, failures are passed over: each holds
        up one record at most. */
    method ExpireByDate(now: Time) returns (count: nat, ok: bool, ghost stuck: set<string>)
      requires backend.Valid() && Consistent(backend.Now())
      modifies backend
      ensures backend.Valid() && old(backend.trace) <= backend.trace
      ensures ExpiringByDate(old(backend.Now()), backend.Now(), backend.trace, |old(backend.trace)|,
                             Outdated(old(backend.Now()), now), stuck, backend.Reachable(),
                             ok && backend.failures == old(backend.failures))
      // exactly what is due goes, with its logs
      ensures DatedGone(old(backend.Now()), backend.Now(), now, stuck)
      ensures OthersKept(old(backend.Now()), backend.Now(), now)
      ensures forall i | |old(backend.trace)| <= i < |backend.trace| ::
                OthersKept(old(backend.Now()), backend.trace[i], now)
      ensures ok ==> |stuck| <= backend.failures - old(backend.failures)
      ensures ok ==> count + |stuck| == |Outdated(old(backend.Now()), now)|
      ensures !ok ==> count == 0 && backend.Now() == old(backend.Now()) && backend.failures > old(backend.failures)
      ensures backend.failures >= old(backend.failures)
    {
      hide DatedGone, OthersKept;
      ghost var a, n := backend.Now(), |backend.trace|;
      ghost var clean := false;
      count, stuck := 0, Outdated(a, now);
      var expired;
      ok, expired := backend.FindExpired(now);
      if ok {
        assert forall i | 0 <= i < |expired| :: expired[i].id in a.records && a.records[expired[i].id] == expired[i];
        count, stuck := ExpireListed(expired, a);
        assert expired[..|expired|] == expired;
        OutdatedListed(a, expired, now);
        clean := backend.failures == old(backend.failures);
      } else {
        ExpiringIdle(a, backend.trace, Outdated(a, now));
      }
      ExpiredByDate(a, backend.Now(), backend.trace, n, now, stuck, backend.Reachable(), clean);
    }

    /** Its loop. */
    method ExpireListed(expired: seq<BackupRecord>, ghost a: Snapshot) returns (count: nat, ghost stuck: set<string>)
      requires backend.Valid() && Consistent(a) && a == backend.Now()
      requires forall i | 0 <= i < |expired| :: expired[i].id in a.records && a.records[expired[i].id] == expired[i]
      requires forall i, j | 0 <= i < j < |expired| :: expired[i].id != expired[j].id
      modifies backend
      ensures backend.Valid() && old(backend.trace) <= backend.trace
      ensures ExpiringTo(a, backend.Now(), backend.trace, |old(backend.trace)|, expired, |expired|, count, stuck,
                         backend.Reachable(), backend.failures == old(backend.failures))
      ensures |stuck| <= backend.failures - old(backend.failures)
    {
      ghost var n := |backend.trace|;
      ExpiringStarts(a, backend.trace);
      assert expired[..0] == [];
      count, stuck := 0, {};
      for i := 0 to |expired|
        invariant backend.Valid() && old(backend.trace) <= backend.trace
        invariant ExpiringTo(a, backend.Now(), backend.trace, n, expired, i, count, stuck,
                             backend.Reachable(), backend.failures == old(backend.failures))
        invariant old(backend.failures) + |stuck| <= backend.failures
      {
        count, stuck := ExpireNext(expired, i, count, stuck, a, n, old(backend.failures));
      }
    }

    /** Its body. `base` is the number of failures at the start of the loop. */
    method ExpireNext(
      expired: seq<BackupRecord>, i: nat, count: nat, ghost stuck: set<string>, ghost a: Snapshot, ghost n: nat,
      ghost base: nat)
      returns (total: nat, ghost late: set<string>)
      requires backend.Valid() && Consistent(a) && base + |stuck| <= backend.failures && i < |expired|
      requires expired[i].id in a.records && a.records[expired[i].id] == expired[i]
      requires forall i, j | 0 <= i < j < |expired| :: expired[i].id != expired[j].id
      requires ExpiringTo(a, backend.Now(), backend.trace, n, expired, i, count, stuck, backend.Reachable(),
                          backend.failures == base)
      modifies backend
      ensures backend.Valid() && old(backend.trace) <= backend.trace
      ensures ExpiringTo(a, backend.Now(), backend.trace, n, expired, i + 1, total, late, backend.Reachable(),
                         backend.failures == base)
      ensures base + |late| <= backend.failures
    {
      hide ExpiringByDate, Consistent, BackupDeleted;
      total, late := count, stuck;
      if expired[i].engine == SQLServer {
        // left to the sweep
        ExpiringPasses(a, backend.Now(), backend.trace, n, expired, i, count, stuck, backend.Reachable(),
                       backend.failures == base);
      } else {
        ghost var b, u := backend.Now(), backend.trace;
        ExpiringReady(a, b, u, n, expired, i, count, stuck, backend.Reachable(), backend.failures == base);
        var deleted := DeleteBackup(expired[i].id);
        if deleted {
          total := total + 1;
        } else {
          late := late + {expired[i].id};
        }
        ExpiringContinues(a, b, backend.Now(), u, backend.trace, n, expired, i, count, stuck, backend.Reachable(),
                          old(backend.failures) == base, backend.failures == old(backend.failures),
                          backend.failures == base, deleted);
      }
    }

    /** The second half of the daily run, after the first has gone from `a` to the present state over
        the trace since it had length `n`. */
    method SweepAfterDate(cutoffs: Cutoffs, ghost a: Snapshot, ghost n: nat)
      returns (count: nat, ok: bool, ghost ds: seq<Removal>, ghost stuck: set<GroupKey>, ghost begun: bool)
      requires backend.Valid() && backend.hasFactory && Consistent(a) && n <= |backend.trace|
      requires SqlFullsKept(a, backend.Now())
      requires forall i | n <= i < |backend.trace| :: SqlFullsKept(a, backend.trace[i])
      modifies backend
      ensures backend.Valid() && old(backend.trace) <= backend.trace
      ensures DailyRun(a, old(backend.Now()), backend.Now(), backend.trace, n, ds, cutoffs)
      ensures KeysProduced(a) && backend.Reachable() && backend.failures == old(backend.failures) ==>
                (Golden(a, backend.Now()) <==> AllSpare(ds))
      ensures backend.Reachable() && backend.failures == old(backend.failures) && KeysInOrder(a) ==>
                && backend.Now() == SweptAway(old(backend.Now()), cutoffs, Groups(old(backend.Now())))
                && count == |Doomed(old(backend.Now()), cutoffs, Groups(old(backend.Now())))|
      ensures begun ==> |stuck| <= backend.failures - old(backend.failures)
      ensures KeysInOrder(a) ==> forall g | g !in stuck :: DoomedGone(old(backend.Now()), backend.Now(), cutoffs, g)
      ensures count == |GoneFulls(old(backend.Now()), backend.Now(), Groups(old(backend.Now())))|
      ensures ok <==> begun && AllCarriedOut(ds, backend.Now())
      ensures !begun ==> backend.Now() == old(backend.Now())
      ensures !begun ==> !backend.Reachable() || backend.failures > old(backend.failures)
      ensures !backend.Reachable() ==> !ok && count == 0 && backend.Now() == old(backend.Now())
      ensures begun && !ok ==> backend.failures > old(backend.failures)
      ensures backend.failures >= old(backend.failures)
    {
      hide SqlFullsKept, Consistent, SweptAway, Doomed, Golden, AllSpare, KeysInOrder, KeysProduced, DailyRun;
      hide DoomedGone, AllCarriedOut;
      ghost var b, u := backend.Now(), backend.trace;
      ConsistentAfterDate(a, b);
      count, ok, ds, stuck, begun := ApplySQLServerRetention(cutoffs);
      DailyRunDone(a, b, backend.Now(), u, backend.trace, n, ds, cutoffs);
      if KeysProduced(a) {
        GoldenSinceDate(a, b, backend.Now());
      }
    }

    /** The daily retention run. `mid` is the state after its first half, `ds` the deletions of the
        sweep. If the expired records are `listed`, each failing call holds up one of them (`late`) or one
        group (`stuck`) at most; and so it is with the sweep, once it has `begun`. */
    method ApplyRetention(now: Time, cutoffs: Cutoffs)
      returns (count: nat, ok: bool, ghost mid: Snapshot, ghost ds: seq<Removal>, ghost late: set<string>,
               ghost stuck: set<GroupKey>, ghost listed: bool, ghost begun: bool)
      requires backend.Valid() && backend.hasFactory && Consistent(backend.Now())
      modifies backend
      ensures backend.Valid() && old(backend.trace) <= backend.trace
      ensures DailyRun(old(backend.Now()), mid, backend.Now(), backend.trace, |old(backend.trace)|, ds, cutoffs)
      // exactly what is due goes by date, with its logs
      ensures DatedGone(old(backend.Now()), backend.Now(), now, late)
      ensures OthersKept(old(backend.Now()), mid, now)
      // and then, with keys in order, all the sweep is to delete
      ensures KeysInOrder(old(backend.Now())) && listed ==>
                forall g | g !in stuck :: DoomedGone(mid, backend.Now(), cutoffs, g)
      ensures listed && begun ==> |late| + |stuck| <= backend.failures - old(backend.failures)
      ensures listed ==> |late| <= backend.failures - old(backend.failures)
      // the count and the result, whatever failed
      ensures listed ==> count + |late| == |Outdated(old(backend.Now()), now)|
                                           + |GoneFulls(mid, backend.Now(), Groups(mid))|
      ensures ok <==> listed && begun && AllCarriedOut(ds, backend.Now())
      ensures !listed ==>
                !begun && count == 0 && backend.Now() == old(backend.Now()) && backend.failures > old(backend.failures)
      ensures listed && !begun ==>
                backend.Now() == mid && (!backend.Reachable() || backend.failures > old(backend.failures))
      // without failures
      ensures backend.failures == old(backend.failures) ==>
                var a := old(backend.Now());
                && mid == Deleted(a, WithChildren(a, Outdated(a, now)), backend.Reachable())
                && (ok <==> backend.Reachable())
                && (!backend.Reachable() ==> backend.Now() == mid && count == |Outdated(a, now)|)
                && (backend.Reachable() && KeysProduced(a) ==> (Golden(a, backend.Now()) <==> AllSpare(ds)))
                && (backend.Reachable() && KeysInOrder(a) ==>
                      && backend.Now() == SweptAway(mid, cutoffs, Groups(mid))
                      && count == |Outdated(a, now)| + |Doomed(mid, cutoffs, Groups(mid))|)
    {
      hide SqlFullsKept, Consistent, SweptAway, Doomed, Golden, AllSpare, KeysInOrder, KeysProduced, DailyRun;
      hide DatedGone, OthersKept, DoomedGone, AllCarriedOut;
      ghost var a, n := backend.Now(), |backend.trace|;
      count, ok, late := ExpireByDate(now);
      mid, listed, begun := backend.Now(), ok, false;
      if ok {
        var swept;
        swept, ok, ds, stuck, begun := SweepAfterDate(cutoffs, a, n);
        count := count + swept;
        DatedStillGone(a, mid, backend.Now(), backend.trace, n, ds, cutoffs, now, late);
      } else {
        ds, stuck := [], {};
        NoSweep(a, mid, backend.trace, n, cutoffs);
      }
    }
  }
}
