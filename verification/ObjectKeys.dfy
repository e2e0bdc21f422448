/** Object keys: how they are built, listed and recognised.

    The adapters build `{engine}/{instance}/...` keys, the S3 adapter puts the configured path
    prefix before them, and two readers take keys apart again: the existence test of the retention
    sweep (a prefix listing plus a suffix test) and the lifecycle prefixes. Both readers are exact
    only because names hold no slash. */
module ObjectKeys {
  import opened Entities

  // ---- strings ----

  predicate SlashFree(s: string) {
    '/' !in s
  }

  predicate HasSuffix(s: string, suffix: string) {
    |suffix| <= |s| && s[|s| - |suffix|..] == suffix
  }

  /** `strings.TrimSuffix(s, "/")`. */
  function TrimSlash(s: string): string {
    if HasSuffix(s, "/") then s[..|s| - 1] else s
  }

  /** At most one slash goes, and nothing else. */
  lemma OneSlashTrimmed(s: string)
    ensures TrimSlash(s + "/") == s
    ensures s == "" || s[|s| - 1] != '/' ==> TrimSlash(s) == s
    ensures s == TrimSlash(s) || s == TrimSlash(s) + "/"
  {
    var t := s + "/";
    assert t[|t| - 1..] == "/";
    assert t[..|t| - 1] == s;
    if s != "" {
      assert s[|s| - 1..] == [s[|s| - 1]];
      assert s == s[..|s| - 1] + s[|s| - 1..];
    }
  }

  // ---- keys ----

  /** The key under which the S3 adapter stores the bare key `key`. */
  function FullKey(prefix: string, key: string): string {
    if prefix == "" then key else prefix + "/" + key
  }

  /** `{engine}/{instance}/{rest}`: the common form of the keys of every database adapter. */
  function InstanceKey(engine: EngineType, instance: string, rest: string): string {
    EngineName(engine) + "/" + instance + "/" + rest
  }

  /** What the SQL Server adapter puts after the instance name. `ts` is the clock formatted
      `20060102_1504`. */
  function SqlRest(database: string, ts: string, ext: string): string {
    database + "/" + (database + "_" + (ts + ("." + ext)))
  }

  function SqlKey(instance: string, database: string, ts: string, ext: string): string {
    InstanceKey(SQLServer, instance, SqlRest(database, ts, ext))
  }

  predicate SqlKeyParts(instance: string, database: string, ts: string, ext: string) {
    SlashFree(instance) && SlashFree(database) && |ts| == 13 && (ext == "bak" || ext == "trn")
  }

  ghost predicate IsSqlKey(key: string) {
    exists instance, database, ts, ext ::
      SqlKeyParts(instance, database, ts, ext) && key == SqlKey(instance, database, ts, ext)
  }

  /** The test `existsInS3` makes on one listed object. */
  predicate Matches(prefix: string, stored: string, key: string) {
    FullKey(prefix, key) <= stored && HasSuffix(stored, key)
  }

  // ---- comparing keys component by component ----

  lemma FullKeyInjective(prefix: string, k: string, l: string)
    ensures FullKey(prefix, k) == FullKey(prefix, l) <==> k == l
  {
    if FullKey(prefix, k) == FullKey(prefix, l) && prefix != "" {
      assert k == (prefix + "/" + k)[|prefix| + 1..];
      assert l == (prefix + "/" + l)[|prefix| + 1..];
    }
  }

  lemma FullKeyPrefix(prefix: string, k: string, l: string)
    ensures FullKey(prefix, k) <= FullKey(prefix, l) <==> k <= l
  {
    if prefix != "" {
      PrefixAfter(prefix + "/", k, l);
    }
  }

  lemma PrefixAfter(p: string, x: string, y: string)
    ensures p + x <= p + y <==> x <= y
  {
    if p + x <= p + y {
      forall i | 0 <= i < |x| ensures i < |y| && x[i] == y[i] {
        assert (p + x)[|p| + i] == (p + y)[|p| + i];
      }
    }
  }

  /** A slash-free component is read back from the front of a key. */
  lemma SplitComponent(a: string, x: string, b: string, y: string)
    requires SlashFree(a) && SlashFree(b)
    ensures a + "/" + x <= b + "/" + y <==> a == b && x <= y
  {
    var l, r := a + "/" + x, b + "/" + y;
    if l <= r {
      assert l[|a|] == '/' && r[|b|] == '/';
      assert forall i | 0 <= i < |a| :: a[i] == l[i] == r[i] && r[i] != '/';
      assert forall i | 0 <= i < |b| :: b[i] == r[i] && r[i] != '/';
      assert |a| == |b|;
      assert a == r[..|a|] == b;
      PrefixAfter(a + "/", x, y);
    } else if a == b && x <= y {
      PrefixAfter(a + "/", x, y);
    }
  }

  lemma EngineNamesDistinct(e: EngineType, f: EngineType)
    ensures SlashFree(EngineName(e))
    ensures EngineName(e) == EngineName(f) <==> e == f
  {
    if EngineName(e) == EngineName(f) {
      assert EngineName(e)[0] == EngineName(f)[0] && |EngineName(e)| == |EngineName(f)|;
    }
  }

  lemma EngineComponent(e: EngineType, x: string, f: EngineType, y: string)
    ensures EngineName(e) + "/" + x <= EngineName(f) + "/" + y <==> e == f && x <= y
  {
    EngineNamesDistinct(e, f);
    EngineNamesDistinct(f, e);
    SplitComponent(EngineName(e), x, EngineName(f), y);
  }

  lemma InstanceKeyParts(e: EngineType, n: string, x: string)
    ensures InstanceKey(e, n, x) == EngineName(e) + "/" + (n + "/" + x)
  {
  }

  lemma InstanceKeyPrefix(e: EngineType, n: string, x: string, f: EngineType, m: string, y: string)
    requires SlashFree(n) && SlashFree(m)
    ensures InstanceKey(e, n, x) <= InstanceKey(f, m, y) <==> e == f && n == m && x <= y
  {
    InstanceKeyParts(e, n, x);
    InstanceKeyParts(f, m, y);
    EngineComponent(e, n + "/" + x, f, m + "/" + y);
    SplitComponent(n, x, m, y);
  }

  // ---- the keys of the database adapters ----

  function SqlExtension(full: bool): string {
    if full then "bak" else "trn"
  }

  /** The form of the keys an engine's adapter produces. */
  ghost predicate KeyFits(engine: EngineType, full: bool, key: string) {
    if engine == SQLServer then
      IsSqlKey(key) && HasSuffix(key, SqlExtension(full))
    else
      exists name: string, rest: string :: key == InstanceKey(engine, name, rest)
  }

  lemma OtherEngineElsewhere(engine: EngineType, full: bool, key: string)
    requires KeyFits(engine, full, key) && engine != SQLServer
    ensures !("sqlserver/" <= key)
  {
    assert key[0] == EngineName(engine)[0] != "sqlserver/"[0];
  }

  lemma SqlKeyDirectory(key: string)
    requires IsSqlKey(key)
    ensures "sqlserver/" <= key
  {
  }

  /** A SQL Server full never shares its key with a log or with a backup of another engine. */
  lemma SqlFullKeysApart(key: string, engine: EngineType, full: bool, other: string)
    requires KeyFits(SQLServer, true, key) && KeyFits(engine, full, other)
    requires engine != SQLServer || !full
    ensures key != other
  {
    SqlKeyDirectory(key);
    if engine != SQLServer {
      OtherEngineElsewhere(engine, full, other);
    } else {
      assert key[|key| - 1] == 'k' && other[|other| - 1] == 'n';
    }
  }

  // ---- the existence test of the retention sweep ----

  /** No SQL Server key is a proper prefix of another one. */
  lemma SqlKeysPrefixFree(k: string, l: string)
    requires IsSqlKey(k) && IsSqlKey(l) && k <= l
    ensures k == l
  {
    var n, d, t, x :| SqlKeyParts(n, d, t, x) && k == SqlKey(n, d, t, x);
    var m, e, u, y :| SqlKeyParts(m, e, u, y) && l == SqlKey(m, e, u, y);
    InstanceKeyPrefix(SQLServer, n, SqlRest(d, t, x), SQLServer, m, SqlRest(e, u, y));
    SplitComponent(d, d + "_" + (t + ("." + x)), e, e + "_" + (u + ("." + y)));
    assert |SqlRest(d, t, x)| == |SqlRest(e, u, y)|;
    assert SqlRest(d, t, x) == SqlRest(e, u, y);
  }

  /** Every object under the SQL Server directory was put there by the SQL Server adapter. Other
      engines, the self-backup and foreign tools store elsewhere. */
  ghost predicate AdapterBucket(prefix: string, objects: set<string>) {
    forall o | o in objects && FullKey(prefix, "sqlserver/") <= o ::
      exists key :: IsSqlKey(key) && o == FullKey(prefix, key)
  }

  /** The existence test is exact on a bucket the adapters produced, for every path prefix. */
  lemma ExistenceTestExact(prefix: string, objects: set<string>, key: string, o: string)
    requires AdapterBucket(prefix, objects) && IsSqlKey(key) && o in objects
    ensures Matches(prefix, o, key) <==> o == FullKey(prefix, key)
  {
    if Matches(prefix, o, key) {
      assert "sqlserver/" <= key;
      FullKeyPrefix(prefix, "sqlserver/", key);
      assert FullKey(prefix, "sqlserver/") <= o;
      var l :| IsSqlKey(l) && o == FullKey(prefix, l);
      FullKeyPrefix(prefix, key, l);
      SqlKeysPrefixFree(key, l);
    }
  }

  lemma ExistsExact(prefix: string, objects: set<string>, key: string)
    ensures AdapterBucket(prefix, objects) && IsSqlKey(key) ==>
              ((exists o :: o in objects && Matches(prefix, o, key)) <==> FullKey(prefix, key) in objects)
  {
    if AdapterBucket(prefix, objects) && IsSqlKey(key) {
      forall o | o in objects ensures Matches(prefix, o, key) <==> o == FullKey(prefix, key) {
        ExistenceTestExact(prefix, objects, key, o);
      }
    }
  }

  lemma SandwichMatches(key: string, middle: string)
    requires middle != ""
    ensures key + middle + key != key && Matches("", key + middle + key, key)
  {
    var l := key + middle + key;
    assert key <= l;
    assert l[|l| - |key|..] == key;
    assert |l| > |key|;
  }

  /** Regrouping, for any separator `s`. */
  lemma NestedInstance(e: string, s: string, n: string, r: string)
    ensures e + s + (n + s + r + s + e + s + n) + s + r == (e + s + n + s + r) + s + (e + s + n + s + r)
  {
    var k := e + s + n + s + r;
    assert e + s + (n + s + r + s + e + s + n) == k + (s + (e + s + n));
    assert (e + s + n) + (s + r) == k;
  }

  lemma NestedDatabase(r: string, s: string, u: string, d: string, v: string)
    ensures (r + (s + u + s + d)) + s + ((r + (s + u + s + d)) + v)
            == r + (s + u + s + d + s + r + s) + (u + s + (d + v))
  {
    var tail := s + u + s + d;
    assert (r + tail) + s + ((r + tail) + v) == r + (tail + s + r) + (tail + v);
    assert tail + v == s + (u + s + (d + v));
  }

  /** With a slash in an instance name the test accepts a different object: for every key there is
      one. */
  lemma ExistenceTestNeedsSlashFreeInstances(n: string, d: string, t: string)
    ensures exists m: string ::
              && SqlKey(m, d, t, "bak") != SqlKey(n, d, t, "bak")
              && Matches("", SqlKey(m, d, t, "bak"), SqlKey(n, d, t, "bak"))
  {
    var k, r := SqlKey(n, d, t, "bak"), SqlRest(d, t, "bak");
    var m := n + "/" + r + "/" + EngineName(SQLServer) + "/" + n;
    NestedInstance(EngineName(SQLServer), "/", n, r);
    assert SqlKey(m, d, t, "bak") == k + "/" + k;
    SandwichMatches(k, "/");
  }

  /** And so it does with a slash in a database name. */
  lemma ExistenceTestNeedsSlashFreeDatabases(n: string, d: string, t: string)
    ensures exists e: string ::
              && SqlKey(n, e, t, "bak") != SqlKey(n, d, t, "bak")
              && Matches("", SqlKey(n, e, t, "bak"), SqlKey(n, d, t, "bak"))
  {
    var k, r, v := SqlKey(n, d, t, "bak"), SqlRest(d, t, "bak"), "_" + (t + ("." + "bak"));
    var u := EngineName(SQLServer) + "/" + n + "/" + d;
    var e := r + ("/" + u + "/" + d);
    var middle := "/" + u + "/" + d + "/" + r + "/";
    NestedDatabase(r, "/", u, d, v);
    assert SqlRest(e, t, "bak") == e + "/" + (e + v);
    assert k == u + "/" + (d + v);
    assert SqlRest(e, t, "bak") == r + middle + k;
    Regroup(EngineName(SQLServer) + "/" + n + "/", r, middle, k);
    assert SqlKey(n, e, t, "bak") == k + middle + k;
    SandwichMatches(k, middle);
  }

  lemma Regroup(p: string, x: string, y: string, z: string)
    ensures p + (x + y + z) == (p + x) + y + z
  {
  }

  // ---- lifecycle prefixes ----

  /** The prefix of the lifecycle rule of one instance. */
  function InstancePrefix(s3prefix: string, engine: EngineType, instance: string): string {
    if s3prefix == "" then
      EngineName(engine) + "/" + instance + "/"
    else
      s3prefix + "/" + EngineName(engine) + "/" + instance + "/"
  }

  /** The directories of the engines. */
  lemma EngineDirectories(n: string)
    ensures InstancePrefix("", SQLServer, n) == "sqlserver/" + n + "/"
    ensures InstancePrefix("", MySQL, n) == "mysql/" + n + "/"
    ensures InstancePrefix("", MariaDB, n) == "mariadb/" + n + "/"
    ensures InstancePrefix("", Postgres, n) == "postgres/" + n + "/"
    ensures InstancePrefix("", Redis, n) == "redis/" + n + "/"
  {
  }

  lemma InstancePrefixIsKey(p: string, f: EngineType, m: string)
    ensures InstancePrefix(p, f, m) == FullKey(p, InstanceKey(f, m, ""))
  {
  }

  /** The objects a lifecycle rule covers, for all names: those of its engine whose instance name and
      rest begin with the name of the rule's instance as whole path components. */
  lemma LifecyclePrefixExact(
    pathPrefix: string, e: EngineType, n: string, rest: string, f: EngineType, m: string)
    ensures
      var p := TrimSlash(pathPrefix);
      InstancePrefix(p, f, m) <= FullKey(p, InstanceKey(e, n, rest)) <==> e == f && m + "/" <= n + "/" + rest
  {
    var p := TrimSlash(pathPrefix);
    InstancePrefixIsKey(p, f, m);
    FullKeyPrefix(p, InstanceKey(f, m, ""), InstanceKey(e, n, rest));
    InstanceKeyParts(f, m, "");
    InstanceKeyParts(e, n, rest);
    EngineComponent(f, m + "/" + "", e, n + "/" + rest);
    assert m + "/" + "" == m + "/";
  }

  /** With slash-free names a rule covers the backups of its own instance and no others. */
  lemma LifecyclePrefixOfInstance(
    pathPrefix: string, e: EngineType, n: string, rest: string, f: EngineType, m: string)
    requires SlashFree(n) && SlashFree(m)
    ensures
      var p := TrimSlash(pathPrefix);
      InstancePrefix(p, f, m) <= FullKey(p, InstanceKey(e, n, rest)) <==> e == f && n == m
  {
    LifecyclePrefixExact(pathPrefix, e, n, rest, f, m);
    assert m + "/" == m + "/" + "";
    SplitComponent(m, "", n, rest);
  }

  /** Slashes in names break that: for any two names, the rule of the instance `n/d` covers every
      SQL Server backup of the database `d` of the instance `n`. */
  lemma LifecyclePrefixNeedsSlashFreeNames(pathPrefix: string, n: string, d: string, ts: string, ext: string)
    ensures
      var p := TrimSlash(pathPrefix);
      InstancePrefix(p, SQLServer, n + "/" + d) <= FullKey(p, SqlKey(n, d, ts, ext))
  {
    var file := d + "_" + (ts + ("." + ext));
    LifecyclePrefixExact(pathPrefix, SQLServer, n, SqlRest(d, ts, ext), SQLServer, n + "/" + d);
    assert n + "/" + SqlRest(d, ts, ext) == (n + "/" + d + "/") + file;
  }
}
