/** The backup catalogue and the bucket as one value, and the relations between two such values
    that deletions and retention sweeps can bring about. */
module Catalogue {
  import opened Entities
  import opened ObjectKeys

  /** `records` is the BBolt bucket of backup records, `objects` the S3 bucket by full key, and
      `prefix` the configured path prefix without its trailing slash. */
  datatype Snapshot = Snapshot(
    prefix: string,
    records: map<string, BackupRecord>,
    objects: map<string, Bytes>)

  predicate Present(a: Snapshot, r: BackupRecord) {
    r.fileName != "" && FullKey(a.prefix, r.fileName) in a.objects
  }

  // ---- what every operation keeps ----

  /** Records are stored under their own, non-empty ID. */
  ghost predicate Keyed(records: map<string, BackupRecord>) {
    forall k | k in records :: records[k].id == k && k != ""
  }

  /** `p` is the full backup the log `r` chains from. */
  predicate Parent(p: BackupRecord, r: BackupRecord) {
    && p.IsFull()
    && p.instanceID == r.instanceID && p.databaseName == r.databaseName
    && p.startedAt < r.startedAt
    && (r.status == Completed ==> p.status == Completed)
  }

  /** No log is ever orphaned: it has a parent of its own database, older than itself, that is
      still completed if the log is. Fulls have no parent. */
  ghost predicate NoOrphan(records: map<string, BackupRecord>) {
    forall k | k in records ::
      var r := records[k];
      if r.IsFull() then
        r.parentBackupID == ""
      else
        r.parentBackupID in records && Parent(records[r.parentBackupID], r)
  }

  /** A record gets its file name only when it completes. */
  ghost predicate FilesNamed(records: map<string, BackupRecord>) {
    forall k | k in records ::
      && (records[k].status in {Pending, Running, Failed} ==> records[k].fileName == "")
      && (records[k].status == Completed ==> records[k].fileName != "")
  }

  ghost predicate StartsDistinct(records: map<string, BackupRecord>) {
    forall k, l | k in records && l in records && k != l :: records[k].startedAt != records[l].startedAt
  }

  /** No completed full lies between a completed log and its parent. */
  ghost predicate NoFullBetween(records: map<string, BackupRecord>) {
    forall k, f | k in records && f in records
      && records[k].CompletedLog() && records[f].CompletedFull()
      && records[f].instanceID == records[k].instanceID
      && records[f].databaseName == records[k].databaseName
      && records[k].parentBackupID in records ::
      !(records[records[k].parentBackupID].startedAt < records[f].startedAt < records[k].startedAt)
  }

  /** Backups are stored under the keys of their adapter, and only SQL Server backups under the SQL
      Server directory. */
  ghost predicate KeysProduced(a: Snapshot) {
    && AdapterBucket(a.prefix, a.objects.Keys)
    && forall k | k in a.records && a.records[k].fileName != "" ::
         KeyFits(a.records[k].engine, a.records[k].IsFull(), a.records[k].fileName)
  }

  /** The full of the chain `k` belongs to is still there, so that a deletion may reach `k`. */
  predicate InLiveChain(records: map<string, BackupRecord>, k: string)
    requires k in records
  {
    records[k].Owner() in records && records[records[k].Owner()].CompletedFull()
  }

  /** A completed backup shares its key with nothing that may be deleted without it: with no record
      of another chain whose full is still there. The keys of expired fulls may be used again. */
  ghost predicate KeysApart(records: map<string, BackupRecord>) {
    forall k, l | k in records && l in records && records[k].status == Completed && InLiveChain(records, l)
      && records[k].fileName != "" && records[l].fileName == records[k].fileName ::
      records[l].Owner() == records[k].Owner()
  }

  /** The invariant of every reachable state. `NoFullBetween` is kept by backups one after another only,
      `KeysProduced` by names without slashes, and `KeysApart` as long as no key is used twice. */
  ghost predicate Consistent(a: Snapshot) {
    && Keyed(a.records)
    && NoOrphan(a.records)
    && FilesNamed(a.records)
    && StartsDistinct(a.records)
  }

  /** The invariant as long as no key is used twice among live chains. */
  ghost predicate WellFormed(a: Snapshot) {
    Consistent(a) && KeysApart(a.records)
  }

  /** Keys are as the adapters form them, and no two live chains share one. */
  ghost predicate KeysInOrder(a: Snapshot) {
    KeysProduced(a) && KeysApart(a.records)
  }

  /** Size and hash of a completed backup are those of the very bytes in the bucket. */
  ghost predicate ContentsMatch(digest: Bytes -> string, a: Snapshot) {
    forall k | k in a.records && a.records[k].status == Completed && Present(a, a.records[k]) ::
      var content := a.objects[FullKey(a.prefix, a.records[k].fileName)];
      a.records[k].sizeBytes == |content| && a.records[k].hashSHA256 == digest(content)
  }

  // ---- deleting ----

  /** What `DeleteBackup(id)` is to delete: the record and, if it is a full, every record naming it
      as parent. */
  function Family(a: Snapshot, id: string): (ids: set<string>)
    requires id in a.records
  {
    set k | k in a.records
            && (k == id || (a.records[id].IsFull() && a.records[k].parentBackupID == id))
  }

  /** The full keys of the objects of `ids`. */
  function KeysOf(a: Snapshot, ids: set<string>): set<string> {
    set k | k in ids && k in a.records && a.records[k].fileName != "" :: FullKey(a.prefix, a.records[k].fileName)
  }

  /** `a` with exactly `ids` deleted. */
  function Without(a: Snapshot, ids: set<string>): Snapshot {
    a.(records := map k | k in a.records :: if k in ids then Expire(a.records[k]) else a.records[k],
       objects := a.objects - KeysOf(a, ids))
  }

  /** The outcome of deleting `ids`. When S3 cannot be reached the records expire all the same, and
      the objects stay. */
  function Deleted(a: Snapshot, ids: set<string>, reachable: bool): Snapshot {
    if reachable then Without(a, ids) else a.(records := Without(a, ids).records)
  }

  /** `x` is `a` with some of `ids` deleted, a deletion possibly being half done. */
  ghost predicate PartlyWithout(a: Snapshot, x: Snapshot, ids: set<string>) {
    && x.prefix == a.prefix
    && x.records.Keys == a.records.Keys
    && (forall k | k in a.records ::
          x.records[k] == a.records[k] || (k in ids && x.records[k] == Expire(a.records[k])))
    && (forall o | o in x.objects :: o in a.objects && x.objects[o] == a.objects[o])
    && (forall o | o in a.objects && o !in x.objects :: o in KeysOf(a, ids))
  }

  /** A full is only ever deleted after every log of its chain. */
  ghost predicate Cascaded(a: Snapshot, x: Snapshot)
    requires x.records.Keys == a.records.Keys
  {
    forall c, k | c in a.records && k in a.records && a.records[c].IsFull()
      && x.records[c] != a.records[c] && a.records[k].parentBackupID == c ::
      x.records[k].status == Expired
  }

  /** What a caller can find at any point during `DeleteBackup(id)`. */
  ghost predicate DeleteCut(a: Snapshot, x: Snapshot, id: string) {
    && PartlyWithout(a, x, if id in a.records then Family(a, id) else {})
    && Cascaded(a, x)
  }

  /** Something of `k` has gone: its record is no longer what it was, or it is a completed backup
      whose object is missing. */
  predicate Touched(a: Snapshot, x: Snapshot, k: string)
    requires k in a.records && k in x.records
  {
    || x.records[k] != a.records[k]
    || (a.records[k].status == Completed && Present(a, a.records[k]) && !Present(x, a.records[k]))
  }

  lemma KeysOfEarlier(a: Snapshot, b: Snapshot, ids: set<string>, o: string)
    requires a.prefix == b.prefix && a.records.Keys == b.records.Keys && o in KeysOf(b, ids)
    requires forall k | k in a.records :: b.records[k] == a.records[k] || b.records[k] == Expire(a.records[k])
    ensures o in KeysOf(a, ids)
  {
    var k :| k in ids && k in b.records && b.records[k].fileName != "" && o == FullKey(b.prefix, b.records[k].fileName);
    assert a.records[k].fileName == b.records[k].fileName;
  }

  lemma PartlyWithoutTransitive(a: Snapshot, b: Snapshot, x: Snapshot, s: set<string>, t: set<string>)
    requires PartlyWithout(a, b, s) && PartlyWithout(b, x, t)
    ensures PartlyWithout(a, x, s + t)
  {
    forall o | o in a.objects && o !in x.objects ensures o in KeysOf(a, s + t) {
      if o in b.objects {
        KeysOfEarlier(a, b, t, o);
      }
    }
  }

  lemma CascadedTransitive(a: Snapshot, b: Snapshot, x: Snapshot, s: set<string>, t: set<string>)
    requires PartlyWithout(a, b, s) && PartlyWithout(b, x, t) && Cascaded(a, b) && Cascaded(b, x)
    ensures Cascaded(a, x)
  {
  }

  /** Deleting in two rounds is deleting at once. */
  lemma WithoutWithout(a: Snapshot, s: set<string>, t: set<string>)
    ensures Without(Without(a, s), t) == Without(a, s + t)
  {
    var b := Without(a, s);
    forall o ensures o in KeysOf(b, t) <==> o in KeysOf(a, t) {
      if o in KeysOf(b, t) {
        var k :|
          k in t && k in b.records && b.records[k].fileName != "" && o == FullKey(b.prefix, b.records[k].fileName);
        assert a.records[k].fileName == b.records[k].fileName;
      }
      if o in KeysOf(a, t) {
        var k :|
          k in t && k in a.records && a.records[k].fileName != "" && o == FullKey(a.prefix, a.records[k].fileName);
        assert a.records[k].fileName == b.records[k].fileName;
      }
    }
    assert KeysOf(b, t) == KeysOf(a, t);
    assert KeysOf(a, s + t) == KeysOf(a, s) + KeysOf(a, t);
    assert Without(b, t).records == Without(a, s + t).records;
    assert Without(b, t).objects == Without(a, s + t).objects;
  }

  /** Nor does it matter whether S3 is reached. */
  lemma DeletedDeleted(a: Snapshot, s: set<string>, t: set<string>, reachable: bool)
    ensures Deleted(Deleted(a, s, reachable), t, reachable) == Deleted(a, s + t, reachable)
  {
    WithoutWithout(a, s, t);
    if !reachable {
      assert Deleted(Deleted(a, s, false), t, false).records == Without(Without(a, s), t).records;
    }
  }

  /** With keys apart, a completed backup is touched only by the deletion of something of its own
      chain. */
  lemma LostOnlyByDeletion(a: Snapshot, x: Snapshot, ids: set<string>, k: string)
    requires KeysApart(a.records) && PartlyWithout(a, x, ids)
    requires forall l | l in ids && l in a.records :: InLiveChain(a.records, l)
    requires k in a.records && Touched(a, x, k)
    ensures exists l :: l in ids && l in a.records && a.records[l].Owner() == a.records[k].Owner()
  {
    if x.records[k] == a.records[k] {
      var o := FullKey(a.prefix, a.records[k].fileName);
      assert o in KeysOf(a, ids);
      var l :|
        l in ids && l in a.records && a.records[l].fileName != "" && o == FullKey(a.prefix, a.records[l].fileName);
      FullKeyInjective(a.prefix, a.records[k].fileName, a.records[l].fileName);
    }
  }

  lemma DeletingKeepsNoOrphan(a: Snapshot, x: Snapshot, ids: set<string>)
    requires Keyed(a.records) && NoOrphan(a.records) && PartlyWithout(a, x, ids) && Cascaded(a, x)
    ensures NoOrphan(x.records)
  {
    forall k | k in x.records
      ensures
        var r := x.records[k];
        if r.IsFull() then r.parentBackupID == ""
        else r.parentBackupID in x.records && Parent(x.records[r.parentBackupID], r)
    {
      var r := a.records[k];
      assert x.records[k] == r || x.records[k] == Expire(r);
      if !r.IsFull() {
        var p := r.parentBackupID;
        assert Parent(a.records[p], r);
        assert x.records[p] == a.records[p] || x.records[p] == Expire(a.records[p]);
      }
    }
  }

  lemma DeletingKeepsNoFullBetween(a: Snapshot, x: Snapshot, ids: set<string>)
    requires NoFullBetween(a.records) && PartlyWithout(a, x, ids)
    ensures NoFullBetween(x.records)
  {
    forall k, f | k in x.records && f in x.records
      && x.records[k].CompletedLog() && x.records[f].CompletedFull()
      && x.records[f].instanceID == x.records[k].instanceID
      && x.records[f].databaseName == x.records[k].databaseName
      && x.records[k].parentBackupID in x.records
      ensures !(x.records[x.records[k].parentBackupID].startedAt < x.records[f].startedAt < x.records[k].startedAt)
    {
      var p := a.records[k].parentBackupID;
      assert x.records[k] == a.records[k] && x.records[f] == a.records[f];
      assert x.records[p] == a.records[p] || x.records[p] == Expire(a.records[p]);
    }
  }

  lemma DeletingKeepsKeysProduced(a: Snapshot, x: Snapshot, ids: set<string>)
    requires KeysProduced(a) && PartlyWithout(a, x, ids)
    ensures KeysProduced(x)
  {
    forall k | k in x.records && x.records[k].fileName != ""
      ensures KeyFits(x.records[k].engine, x.records[k].IsFull(), x.records[k].fileName)
    {
      assert x.records[k].fileName == a.records[k].fileName && x.records[k].engine == a.records[k].engine;
    }
  }

  lemma LiveChainBefore(a: Snapshot, x: Snapshot, ids: set<string>, l: string)
    requires PartlyWithout(a, x, ids) && l in x.records && InLiveChain(x.records, l)
    ensures InLiveChain(a.records, l)
    ensures a.records[l].Owner() == x.records[l].Owner() && a.records[l].fileName == x.records[l].fileName
  {
    var o := x.records[l].Owner();
    assert x.records[o] == a.records[o] || x.records[o] == Expire(a.records[o]);
  }

  lemma DeletingKeepsKeysApart(a: Snapshot, x: Snapshot, ids: set<string>)
    requires KeysApart(a.records) && PartlyWithout(a, x, ids)
    ensures KeysApart(x.records)
  {
    forall k, l | k in x.records && l in x.records && x.records[k].status == Completed && InLiveChain(x.records, l)
      && x.records[k].fileName != "" && x.records[l].fileName == x.records[k].fileName
      ensures x.records[l].Owner() == x.records[k].Owner()
    {
      LiveChainBefore(a, x, ids, l);
      assert x.records[k] == a.records[k];
    }
  }

  lemma DeletingKeepsKeysInOrder(a: Snapshot, x: Snapshot, ids: set<string>)
    requires KeysInOrder(a) && PartlyWithout(a, x, ids)
    ensures KeysInOrder(x)
  {
    DeletingKeepsKeysProduced(a, x, ids);
    DeletingKeepsKeysApart(a, x, ids);
  }

  /** Deleting leaves the identity, the file name and the start of every record alone. */
  lemma DeletingKeepsFiles(a: Snapshot, x: Snapshot, ids: set<string>)
    requires Keyed(a.records) && FilesNamed(a.records) && StartsDistinct(a.records)
    requires PartlyWithout(a, x, ids)
    ensures Keyed(x.records) && FilesNamed(x.records) && StartsDistinct(x.records)
  {
    assert forall k | k in x.records ::
        && x.records[k].id == a.records[k].id
        && x.records[k].fileName == a.records[k].fileName
        && x.records[k].startedAt == a.records[k].startedAt;
  }

  /** A cascade, cut anywhere, keeps the invariant. */
  lemma DeletingKeepsConsistent(a: Snapshot, x: Snapshot, ids: set<string>)
    requires Consistent(a) && PartlyWithout(a, x, ids) && Cascaded(a, x)
    ensures Consistent(x)
  {
    DeletingKeepsNoOrphan(a, x, ids);
    DeletingKeepsFiles(a, x, ids);
  }

  lemma DeletingKeepsWellFormed(a: Snapshot, x: Snapshot, ids: set<string>)
    requires WellFormed(a) && PartlyWithout(a, x, ids) && Cascaded(a, x)
    ensures WellFormed(x)
  {
    DeletingKeepsConsistent(a, x, ids);
    DeletingKeepsKeysApart(a, x, ids);
  }

  lemma DeletingKeepsContents(digest: Bytes -> string, a: Snapshot, x: Snapshot, ids: set<string>)
    requires PartlyWithout(a, x, ids) && ContentsMatch(digest, a)
    ensures ContentsMatch(digest, x)
  {
    forall k | k in x.records && x.records[k].status == Completed && Present(x, x.records[k])
      ensures
        var content := x.objects[FullKey(x.prefix, x.records[k].fileName)];
        x.records[k].sizeBytes == |content| && x.records[k].hashSHA256 == digest(content)
    {
      assert x.records[k] == a.records[k] && Present(a, a.records[k]);
    }
  }
}
