/** The two stores BackiieTUI works on, with every call that reaches them.

    `Backend` stands for the BBolt file (adapters/persistence/bbolt) and the S3 bucket
    (adapters/storage/s3). Every call may fail. A failed BBolt transaction changes nothing; a failed
    S3 call may or may not have taken effect. Values go in and out by copy, as through JSON. */
module World {
  import opened Entities
  import opened ObjectKeys
  import opened Catalogue
  import opened Retention
  import opened Streams

  /** `all` holds every record of `records` with `keep` exactly once, in some order. */
  ghost predicate Lists(all: seq<BackupRecord>, records: map<string, BackupRecord>, keep: BackupRecord -> bool) {
    && (forall i | 0 <= i < |all| :: all[i].id in records && records[all[i].id] == all[i] && keep(all[i]))
    && (forall k | k in records && keep(records[k]) :: records[k] in all)
    && (forall i, j | 0 <= i < j < |all| :: all[i].id != all[j].id)
  }

  class Backend {
    const prefix: string
    /** Whether the process was wired with a storage factory, the S3 configuration is stored, and a
        client can be built from it. */
    const hasFactory: bool
    const configured: bool
    const clientBuilds: bool
    var records: map<string, BackupRecord>
    var objects: map<string, Bytes>

    /** How many calls have failed, and how many of them were to delete an object. */
    ghost var failures: nat
    ghost var refused: nat
    /** The state after every call that changed something. */
    ghost var trace: seq<Snapshot>

    constructor (pathPrefix: string, hasFactory: bool, configured: bool, clientBuilds: bool)
      ensures Valid() && Now() == Snapshot(TrimSlash(pathPrefix), map[], map[])
      ensures trace == [] && failures == 0 && refused == 0
      ensures this.hasFactory == hasFactory && this.configured == configured && this.clientBuilds == clientBuilds
    {
      prefix, this.hasFactory := TrimSlash(pathPrefix), hasFactory;
      this.configured, this.clientBuilds := configured, clientBuilds;
      records, objects := map[], map[];
      failures, refused, trace := 0, 0, [];
    }

    predicate Reachable() {
      hasFactory && configured && clientBuilds
    }

    ghost function Now(): Snapshot
      reads this
    {
      Snapshot(prefix, records, objects)
    }

    ghost predicate Valid()
      reads this
    {
      Keyed(records)
    }

    /** A call outside the two stores, such as connecting to a database. */
    method Attempt() returns (ok: bool)
      modifies this`failures
      ensures ok ==> failures == old(failures)
      ensures !ok ==> failures == old(failures) + 1
    {
      ok := *;
      if !ok {
        failures := failures + 1;
      }
    }

    method GetS3Config() returns (ok: bool)
      modifies this`failures
      ensures ok ==> configured && failures == old(failures)
      ensures !ok ==> !configured || failures > old(failures)
      ensures old(failures) <= failures <= old(failures) + 1
    {
      ok := configured;
      if ok {
        ok := Attempt();
      }
    }

    /** The factory is called without a check wherever this is. */
    method NewStorage() returns (ok: bool)
      requires hasFactory
      modifies this`failures
      ensures ok ==> clientBuilds && failures == old(failures)
      ensures !ok ==> !clientBuilds || failures > old(failures)
      ensures old(failures) <= failures <= old(failures) + 1
    {
      ok := clientBuilds;
      if ok {
        ok := Attempt();
      }
    }

    // ---- BackupRecordRepository ----

    /** `Put` inside a BBolt transaction; an empty key is refused. */
    method Put(rec: BackupRecord) returns (ok: bool)
      requires Valid()
      modifies this
      ensures Valid() && objects == old(objects) && refused == old(refused)
      ensures ok ==> rec.id != "" && records == old(records)[rec.id := rec] && trace == old(trace) + [Now()]
      ensures ok ==> failures == old(failures)
      ensures !ok ==> records == old(records) && trace == old(trace)
      ensures !ok ==> failures > old(failures) || rec.id == ""
      ensures old(failures) <= failures <= old(failures) + 1
    {
      if rec.id == "" {
        return false;
      }
      ok := Attempt();
      if ok {
        records := records[rec.id := rec];
        trace := trace + [Now()];
      }
    }

    method Save(rec: BackupRecord) returns (ok: bool)
      requires Valid()
      modifies this
      ensures Valid() && objects == old(objects) && refused == old(refused)
      ensures ok ==> rec.id != "" && records == old(records)[rec.id := rec] && trace == old(trace) + [Now()]
      ensures ok ==> failures == old(failures)
      ensures !ok ==> records == old(records) && trace == old(trace)
      ensures !ok ==> failures > old(failures) || rec.id == ""
      ensures old(failures) <= failures <= old(failures) + 1
    {
      ok := Put(rec);
    }

    /** Replaces the whole stored record, whatever it has become meanwhile. */
    method Update(rec: BackupRecord) returns (ok: bool)
      requires Valid()
      modifies this
      ensures Valid() && objects == old(objects) && refused == old(refused)
      ensures ok ==> rec.id != "" && records == old(records)[rec.id := rec] && trace == old(trace) + [Now()]
      ensures ok ==> failures == old(failures)
      ensures !ok ==> records == old(records) && trace == old(trace)
      ensures !ok ==> failures > old(failures) || rec.id == ""
      ensures old(failures) <= failures <= old(failures) + 1
    {
      ok := Put(rec);
    }

    /** Reads, changes and writes back in one transaction. */
    method UpdateStatus(id: string, status: BackupStatus, message: string, now: Time) returns (ok: bool)
      requires Valid()
      modifies this
      ensures Valid() && objects == old(objects) && refused == old(refused)
      ensures ok ==> id in old(records)
      ensures ok ==> records == old(records)[id := WithStatus(old(records)[id], status, message, now)]
      ensures ok ==> records[id].status == status && records[id].errorMessage == message
      // the completion is noted with its time exactly if the backup has completed or failed
      ensures ok && status in {Completed, Failed} ==> records[id].completedAt == Some(now)
      ensures ok && status !in {Completed, Failed} ==> records[id].completedAt == old(records)[id].completedAt
      ensures ok ==> trace == old(trace) + [Now()] && failures == old(failures)
      ensures !ok ==> records == old(records) && trace == old(trace)
      ensures !ok ==> failures > old(failures) || id !in records
      ensures old(failures) <= failures <= old(failures) + 1
    {
      if id !in records {
        return false;
      }
      ok := Put(WithStatus(records[id], status, message, now));
    }

    method FindByID(id: string) returns (ok: bool, rec: BackupRecord)
      requires Valid()
      modifies this`failures
      ensures ok ==> id in records && rec == records[id] && failures == old(failures)
      ensures !ok ==> failures > old(failures) || id !in records
      ensures old(failures) <= failures <= old(failures) + 1
    {
      rec := *;
      ok := Attempt();
      if ok {
        if id in records {
          rec := records[id];
        } else {
          ok := false;
        }
      }
    }

    /** The loop every finder runs over the bucket: one decoded copy of each record it keeps. */
    method ForEach(keep: BackupRecord -> bool) returns (ok: bool, result: seq<BackupRecord>)
      requires Valid()
      modifies this`failures
      ensures ok ==> Lists(result, records, keep) && failures == old(failures)
      ensures !ok ==> failures == old(failures) + 1
    {
      result := [];
      var keys := records.Keys;
      ghost var seen: set<string> := {};
      while keys != {}
        invariant keys <= records.Keys && seen == records.Keys - keys
        invariant failures == old(failures)
        invariant forall r | r in result :: r.id in seen && records[r.id] == r && keep(r)
        invariant forall k | k in seen && keep(records[k]) :: records[k] in result
        invariant forall i, j | 0 <= i < j < |result| :: result[i].id != result[j].id
        decreases keys
      {
        var k :| k in keys;
        ok := Attempt(); // decoding the value
        if !ok {
          return;
        }
        if keep(records[k]) {
          result := result + [records[k]];
        }
        keys, seen := keys - {k}, seen + {k};
      }
      ok := true;
    }

    method FindAll() returns (ok: bool, result: seq<BackupRecord>)
      requires Valid()
      modifies this`failures
      ensures ok ==> Lists(result, records, r => true) && failures == old(failures)
      ensures !ok ==> failures == old(failures) + 1
    {
      ok, result := ForEach(r => true);
    }

    method FindByInstance(instanceID: string) returns (ok: bool, result: seq<BackupRecord>)
      requires Valid()
      modifies this`failures
      ensures ok ==> Lists(result, records, (r: BackupRecord) => r.instanceID == instanceID)
      ensures ok ==> failures == old(failures)
      ensures !ok ==> failures == old(failures) + 1
    {
      ok, result := ForEach((r: BackupRecord) => r.instanceID == instanceID);
    }

    /** Records past their expiry date that are not marked expired yet, failed and running ones included. */
    method FindExpired(now: Time) returns (ok: bool, result: seq<BackupRecord>)
      requires Valid()
      modifies this`failures
      ensures ok ==> failures == old(failures)
      ensures ok ==> Lists(result, records, (r: BackupRecord) =>
                         r.expiresAt != 0 && r.expiresAt < now && r.status in {Pending, Running, Completed, Failed})
      ensures !ok ==> failures == old(failures) + 1
    {
      ok, result := ForEach((r: BackupRecord) => PastExpiry(r, now));
    }

    // ---- S3 adapter ----

    /** Every object whose full key starts with the full form of `key`. */
    method ListObjects(key: string) returns (ok: bool, found: set<string>)
      modifies this`failures
      ensures ok ==> found == (set o | o in objects && FullKey(prefix, key) <= o) && failures == old(failures)
      ensures !ok ==> failures == old(failures) + 1
    {
      found := {};
      ok := Attempt();
      if ok {
        found := set o | o in objects && FullKey(prefix, key) <= o;
      }
    }

    /** Deleting an object that is not there succeeds. */
    method DeleteObject(key: string) returns (ok: bool)
      modifies this
      ensures records == old(records)
      ensures ok ==> failures == old(failures) && refused == old(refused)
      ensures !ok ==> failures == old(failures) + 1 && refused == old(refused) + 1
      ensures ok ==> objects == old(objects) - {FullKey(prefix, key)}
      ensures || (objects == old(objects) - {FullKey(prefix, key)} && trace == old(trace) + [Now()])
              || (objects == old(objects) && trace == old(trace))
    {
      ok := Attempt();
      var effect := *;
      if ok || effect {
        objects := objects - {FullKey(prefix, key)};
        trace := trace + [Now()];
      }
      if !ok {
        refused := refused + 1;
      }
    }

    method Download(key: string) returns (ok: bool, content: Bytes)
      modifies this`failures
      ensures ok ==> FullKey(prefix, key) in objects && content == objects[FullKey(prefix, key)]
      ensures ok ==> failures == old(failures)
      ensures !ok ==> failures > old(failures) || FullKey(prefix, key) !in objects
      ensures old(failures) <= failures <= old(failures) + 1
    {
      content := [];
      if FullKey(prefix, key) !in objects {
        return false, [];
      }
      ok := Attempt();
      if ok {
        content := objects[FullKey(prefix, key)];
      }
    }

    /** Streams `body` to the object `key`, counting the bytes that pass. A failed upload may leave
        some of them behind. */
    method Upload(key: string, body: HashingReader) returns (ok: bool, n: nat)
      requires body.Valid()
      modifies this, body
      ensures body.Valid() && records == old(records) && refused == old(refused)
      ensures ok ==> body.Drained() && n == |body.source| - old(body.pos) && failures == old(failures)
      ensures ok ==> objects == old(objects)[FullKey(prefix, key) := body.source[old(body.pos)..]]
      ensures ok ==> trace == old(trace) + [Now()]
      ensures !ok ==> n == 0 && failures == old(failures) + 1
      ensures !ok ==> objects - {FullKey(prefix, key)} == old(objects) - {FullKey(prefix, key)}
      ensures !ok ==> trace == old(trace) + [Now()] || (trace == old(trace) && objects == old(objects))
    {
      var counter := new CountingReader(body);
      ghost var from := body.pos;
      var sent: Bytes := [];
      var eof := false;
      while !eof
        invariant body.Valid() && counter.r == body && from <= body.pos
        invariant sent == body.source[from..body.pos] && counter.n == |sent|
        invariant eof ==> body.Drained()
        invariant records == old(records) && objects == old(objects) && trace == old(trace)
        invariant failures == old(failures) && refused == old(refused)
        decreases |body.source| - body.pos, !eof
      {
        ok := Attempt(); // reading the source or sending a part
        if !ok {
          var leftover := *;
          if leftover {
            objects := objects[FullKey(prefix, key) := sent];
            trace := trace + [Now()];
          }
          return false, 0;
        }
        var size: nat :| size > 0;
        var chunk := counter.Read(size);
        sent := sent + chunk;
        eof := chunk == [];
      }
      assert sent == body.source[from..];
      objects := objects[FullKey(prefix, key) := sent];
      trace := trace + [Now()];
      return true, counter.n;
    }
  }
}
