/** S3 lifecycle rules and their synchronisation with the retention policies
    (application/usecases/lifecycle_usecase.go, adapters/storage/s3/lifecycle.go). */
module Lifecycle {
  import opened Entities
  import opened ObjectKeys
  import opened Backups

  const MANAGED_PREFIX := "backiie-"
  const DEFAULT_RETAIN_DAYS := 3

  datatype LifecycleRule = LifecycleRule(id: string, status: string, prefix: string, expiryDays: int, managedBy: string)

  /** A rule as the bucket stores it. `more` and `actions` stand for everything BackiieTUI does not
      read: tag and size conditions, expiry dates, transitions and the like; empty means none. */
  datatype AwsFilter = AwsFilter(prefix: Option<string>, more: string)
  datatype AwsExpiration = AwsExpiration(days: Option<int>, more: string)
  datatype AwsRule = AwsRule(
    id: Option<string>, status: string, filter: Option<AwsFilter>, oldPrefix: Option<string>,
    expiration: Option<AwsExpiration>, actions: string)

  datatype Policy = Policy(instanceID: string, retainDays: int)

  /** Go's conversion to int32. */
  function Int32(n: int): int {
    (n + 0x8000_0000) % 0x1_0000_0000 - 0x8000_0000
  }

  // ---- reading and writing rules ----

  function ManagedBy(id: string): string {
    if MANAGED_PREFIX <= id then "backiie" else ""
  }

  /** What `GetLifecycleRules` makes of a stored rule. */
  function FromAws(r: AwsRule): LifecycleRule {
    var id := if r.id.Some? then r.id.value else "";
    var prefix :=
      if r.filter.Some? && r.filter.value.prefix.Some? then r.filter.value.prefix.value
      else if r.oldPrefix.Some? then r.oldPrefix.value
      else "";
    var days := if r.expiration.Some? && r.expiration.value.days.Some? then r.expiration.value.days.value else 0;
    LifecycleRule(id, r.status, prefix, days, ManagedBy(id))
  }

  /** Field by field: an absent ID reads as empty, the deprecated prefix counts only without one in the
      filter, absent days read as 0, and an ID that starts with "backiie-" is BackiieTUI's. */
  ghost predicate ReadAs(r: AwsRule, rule: LifecycleRule) {
    && (r.id == Some(rule.id) || (r.id == None && rule.id == ""))
    && rule.status == r.status
    && (match r.filter
        case Some(AwsFilter(Some(prefix), _)) => rule.prefix == prefix
        case _ => r.oldPrefix == Some(rule.prefix) || (r.oldPrefix == None && rule.prefix == ""))
    && (match r.expiration
        case Some(AwsExpiration(Some(days), _)) => rule.expiryDays == days
        case _ => rule.expiryDays == 0)
    && rule.managedBy == if Ours(r) then "backiie" else ""
  }

  /** Whether a stored rule is BackiieTUI's. */
  predicate Ours(r: AwsRule) {
    r.id.Some? && "backiie-" <= r.id.value
  }

  lemma ReadingRule(r: AwsRule)
    ensures ReadAs(r, FromAws(r))
  {
  }

  /** What `PutLifecycleRules` stores for a rule. */
  function ToAws(r: LifecycleRule): AwsRule {
    AwsRule(Some(r.id), r.status, Some(AwsFilter(if r.prefix == "" then None else Some(r.prefix), "")), None,
            Some(AwsExpiration(Some(r.expiryDays), "")), "")
  }

  function FromAll(config: seq<AwsRule>): (rules: seq<LifecycleRule>)
    ensures |rules| == |config| && forall i | 0 <= i < |config| :: rules[i] == FromAws(config[i])
  {
    seq(|config|, i requires 0 <= i < |config| => FromAws(config[i]))
  }

  function ToAll(rules: seq<LifecycleRule>): (config: seq<AwsRule>)
    ensures |config| == |rules| && forall i | 0 <= i < |rules| :: config[i] == ToAws(rules[i])
  {
    seq(|rules|, i requires 0 <= i < |rules| => ToAws(rules[i]))
  }

  /** A rule comes back from the bucket as it went in, if its `managedBy` is what its ID says. */
  lemma RoundTrip(rules: seq<LifecycleRule>)
    requires forall r | r in rules :: r.managedBy == ManagedBy(r.id)
    ensures FromAll(ToAll(rules)) == rules
  {
    forall i | 0 <= i < |rules| ensures FromAws(ToAws(rules[i])) == rules[i] {
      assert rules[i] in rules;
    }
  }

  class LifecycleManager {
    var config: seq<AwsRule>
    /** How many calls have failed. */
    ghost var failures: nat

    constructor (config: seq<AwsRule>)
      ensures this.config == config && failures == 0
    {
      this.config, failures := config, 0;
    }

    method GetLifecycleRules() returns (ok: bool, rules: seq<LifecycleRule>)
      modifies this`failures
      ensures ok ==> rules == FromAll(config) && failures == old(failures)
      ensures ok ==> |rules| == |config| && forall i | 0 <= i < |config| :: ReadAs(config[i], rules[i])
      ensures !ok ==> failures == old(failures) + 1
    {
      ok, rules := *, [];
      if !ok {
        failures := failures + 1;
      } else {
        for i := 0 to |config|
          invariant rules == FromAll(config)[..i]
        {
          rules := rules + [FromAws(config[i])];
        }
      }
    }

    /** Replaces the whole configuration; with no rules it is removed. */
    method PutLifecycleRules(rules: seq<LifecycleRule>) returns (ok: bool)
      modifies this
      ensures ok ==> config == ToAll(rules) && failures == old(failures)
      ensures !ok ==> failures == old(failures) + 1
      ensures config == ToAll(rules) || config == old(config)
    {
      var stored: seq<AwsRule> := [];
      for i := 0 to |rules|
        invariant stored == ToAll(rules)[..i] && config == old(config) && failures == old(failures)
      {
        stored := stored + [ToAws(rules[i])];
      }
      ok := *;
      var effect: bool := *;
      if ok || effect {
        config := stored;
      }
      if !ok {
        failures := failures + 1;
      }
    }
  }

  // ---- the rules of the policies ----

  predicate IDChar(c: char) {
    'a' <= c <= 'z' || 'A' <= c <= 'Z' || '0' <= c <= '9' || c == '-' || c == '_'
  }

  function Sanitized(s: string): (t: string)
    ensures |t| == |s|
  {
    seq(|s|, i requires 0 <= i < |s| => if IDChar(s[i]) then s[i] else '-')
  }

  /** Letters, digits, hyphens and underscores stay where they are; all else becomes a hyphen. */
  method SanitizeID(s: string) returns (t: string)
    ensures t == Sanitized(s) && |t| == |s|
    ensures forall i | 0 <= i < |s| ::
              if 'a' <= s[i] <= 'z' || 'A' <= s[i] <= 'Z' || '0' <= s[i] <= '9' || s[i] == '-' || s[i] == '_' then
                t[i] == s[i]
              else
                t[i] == '-'
  {
    t := "";
    for i := 0 to |s|
      invariant t == Sanitized(s)[..i]
    {
      t := t + if IDChar(s[i]) then [s[i]] else ['-'];
    }
  }

  function InstanceRule(p: Policy, inst: Instance, s3prefix: string): LifecycleRule {
    LifecycleRule(MANAGED_PREFIX + Sanitized(inst.name), "Enabled", InstancePrefix(s3prefix, inst.engine, inst.name),
                  Int32(p.retainDays), "backiie")
  }

  /** One rule for each policy of a known instance, in order. */
  function InstanceRules(
    policies: seq<Policy>, instances: map<string, Instance>, s3prefix: string): seq<LifecycleRule> {
    if policies == [] then
      []
    else
      var p := policies[|policies| - 1];
      InstanceRules(policies[..|policies| - 1], instances, s3prefix)
      + if p.instanceID != "" && p.instanceID in instances then
          [InstanceRule(p, instances[p.instanceID], s3prefix)]
        else
          []
  }

  /** The days of the last global policy. */
  function GlobalDays(policies: seq<Policy>): int {
    if policies == [] then
      DEFAULT_RETAIN_DAYS
    else
      var p := policies[|policies| - 1];
      if p.instanceID == "" then p.retainDays else GlobalDays(policies[..|policies| - 1])
  }

  function GlobalRule(policies: seq<Policy>, s3prefix: string): LifecycleRule {
    LifecycleRule("backiie-global", "Enabled", if s3prefix == "" then "" else s3prefix + "/",
                  Int32(GlobalDays(policies)), "backiie")
  }

  function PolicyRules(policies: seq<Policy>, instances: map<string, Instance>, s3prefix: string): seq<LifecycleRule> {
    InstanceRules(policies, instances, s3prefix) + [GlobalRule(policies, s3prefix)]
  }

  /** `r` is the rule of an instance with the retention `p`. */
  predicate InstanceRuleOf(r: LifecycleRule, p: Policy, inst: Instance, s3prefix: string) {
    && r.id == "backiie-" + Sanitized(inst.name) && r.status == "Enabled" && r.managedBy == "backiie"
    && r.prefix == (if s3prefix == "" then "" else s3prefix + "/") + (EngineName(inst.engine) + "/" + inst.name + "/")
    && (-0x8000_0000 <= p.retainDays < 0x8000_0000 ==> r.expiryDays == p.retainDays)
  }

  predicate OfKnown(p: Policy, instances: map<string, Instance>) {
    p.instanceID != "" && p.instanceID in instances
  }

  /** The rules are one for each policy of a known instance, and a global one that takes its days from the
      last global policy, or 3 if there is none. */
  ghost predicate RulesOf(
    rules: seq<LifecycleRule>, policies: seq<Policy>, instances: map<string, Instance>, s3prefix: string)
  {
    && rules != []
    && InstanceRulesOf(rules[..|rules| - 1], policies, instances, s3prefix)
    && GlobalRuleOf(rules[|rules| - 1], policies, s3prefix)
  }

  ghost predicate InstanceRulesOf(
    rules: seq<LifecycleRule>, policies: seq<Policy>, instances: map<string, Instance>, s3prefix: string)
  {
    && EachHasRule(rules, policies, instances, s3prefix)
    && EachHasPolicy(rules, policies, instances, s3prefix)
    && |rules| <= |policies|
  }

  ghost predicate EachHasRule(
    rules: seq<LifecycleRule>, policies: seq<Policy>, instances: map<string, Instance>, s3prefix: string)
  {
    forall p | p in policies && OfKnown(p, instances) ::
      exists r :: r in rules && InstanceRuleOf(r, p, instances[p.instanceID], s3prefix)
  }

  ghost predicate EachHasPolicy(
    rules: seq<LifecycleRule>, policies: seq<Policy>, instances: map<string, Instance>, s3prefix: string)
  {
    forall r | r in rules ::
      exists p :: p in policies && OfKnown(p, instances) && InstanceRuleOf(r, p, instances[p.instanceID], s3prefix)
  }

  ghost predicate GlobalRuleOf(r: LifecycleRule, policies: seq<Policy>, s3prefix: string) {
    && r.id == "backiie-global" && r.status == "Enabled" && r.managedBy == "backiie"
    && r.prefix == (if s3prefix == "" then "" else s3prefix + "/")
    && (forall i | 0 <= i < |policies| && policies[i].instanceID == ""
          && (forall j | i < j < |policies| :: policies[j].instanceID != "")
          && -0x8000_0000 <= policies[i].retainDays < 0x8000_0000 ::
          r.expiryDays == policies[i].retainDays)
    && ((forall i | 0 <= i < |policies| :: policies[i].instanceID != "") ==> r.expiryDays == 3)
  }

  lemma {:induction false} LastGlobalWins(policies: seq<Policy>)
    ensures forall i | 0 <= i < |policies| && policies[i].instanceID == ""
              && (forall j | i < j < |policies| :: policies[j].instanceID != "") ::
              GlobalDays(policies) == policies[i].retainDays
    ensures (forall i | 0 <= i < |policies| :: policies[i].instanceID != "") ==> GlobalDays(policies) == 3
  {
    if policies != [] && policies[|policies| - 1].instanceID != "" {
      LastGlobalWins(policies[..|policies| - 1]);
      forall i | 0 <= i < |policies| && policies[i].instanceID == ""
        && (forall j | i < j < |policies| :: policies[j].instanceID != "")
        ensures GlobalDays(policies) == policies[i].retainDays
      {
        assert policies[..|policies| - 1][i] == policies[i];
      }
    }
  }

  /** The outcome is a 32-bit integer that differs from `n` by a multiple of 2^32. */
  lemma Int32Wraps(n: int)
    ensures -0x8000_0000 <= Int32(n) < 0x8000_0000 && (n - Int32(n)) % 0x1_0000_0000 == 0
    ensures -0x8000_0000 <= n < 0x8000_0000 ==> Int32(n) == n
  {
  }

  lemma InstanceRuleMeaning(p: Policy, inst: Instance, s3prefix: string)
    ensures InstanceRuleOf(InstanceRule(p, inst, s3prefix), p, inst, s3prefix)
  {
    Int32Wraps(p.retainDays);
    if s3prefix == "" {
      assert InstancePrefix(s3prefix, inst.engine, inst.name) == "" + (EngineName(inst.engine) + "/" + inst.name + "/");
    } else {
      assert InstancePrefix(s3prefix, inst.engine, inst.name)
          == (s3prefix + "/") + (EngineName(inst.engine) + "/" + inst.name + "/");
    }
  }

  lemma {:induction false} InstanceRulesMeaning(
    policies: seq<Policy>, instances: map<string, Instance>, s3prefix: string)
    ensures InstanceRulesOf(InstanceRules(policies, instances, s3prefix), policies, instances, s3prefix)
  {
    hide InstanceRuleOf, InstanceRule;
    if policies != [] {
      var front, p := policies[..|policies| - 1], policies[|policies| - 1];
      InstanceRulesMeaning(front, instances, s3prefix);
      OneMorePolicy(InstanceRules(front, instances, s3prefix), front, p, instances, s3prefix);
      assert policies == front + [p];
    }
  }

  lemma OneMorePolicy(
    rules: seq<LifecycleRule>, front: seq<Policy>, p: Policy, instances: map<string, Instance>, s3prefix: string)
    requires InstanceRulesOf(rules, front, instances, s3prefix)
    ensures
      var more := if OfKnown(p, instances) then [InstanceRule(p, instances[p.instanceID], s3prefix)] else [];
      InstanceRulesOf(rules + more, front + [p], instances, s3prefix)
  {
    hide EachHasRule, EachHasPolicy, InstanceRuleOf, InstanceRule;
    var more := if OfKnown(p, instances) then [InstanceRule(p, instances[p.instanceID], s3prefix)] else [];
    if OfKnown(p, instances) {
      InstanceRuleMeaning(p, instances[p.instanceID], s3prefix);
    }
    OneMoreHasRule(rules, more, front, p, instances, s3prefix);
    OneMoreHasPolicy(rules, more, front, p, instances, s3prefix);
  }

  lemma OneMoreHasRule(
    rules: seq<LifecycleRule>, more: seq<LifecycleRule>, front: seq<Policy>, p: Policy,
    instances: map<string, Instance>, s3prefix: string)
    requires EachHasRule(rules, front, instances, s3prefix)
    requires OfKnown(p, instances) ==> more != [] && InstanceRuleOf(more[0], p, instances[p.instanceID], s3prefix)
    ensures EachHasRule(rules + more, front + [p], instances, s3prefix)
  {
    hide InstanceRuleOf;
    forall q | q in front + [p] && OfKnown(q, instances)
      ensures exists r :: r in rules + more && InstanceRuleOf(r, q, instances[q.instanceID], s3prefix)
    {
      if q in front {
        var r :| r in rules && InstanceRuleOf(r, q, instances[q.instanceID], s3prefix);
        assert r in rules + more;
      } else {
        assert more[0] in rules + more;
      }
    }
  }

  lemma OneMoreHasPolicy(
    rules: seq<LifecycleRule>, more: seq<LifecycleRule>, front: seq<Policy>, p: Policy,
    instances: map<string, Instance>, s3prefix: string)
    requires EachHasPolicy(rules, front, instances, s3prefix)
    requires forall r | r in more :: OfKnown(p, instances) && InstanceRuleOf(r, p, instances[p.instanceID], s3prefix)
    ensures EachHasPolicy(rules + more, front + [p], instances, s3prefix)
  {
    hide InstanceRuleOf;
    forall r | r in rules + more
      ensures exists q :: q in front + [p] && OfKnown(q, instances)
                && InstanceRuleOf(r, q, instances[q.instanceID], s3prefix)
    {
      if r in rules {
        var q :| q in front && OfKnown(q, instances) && InstanceRuleOf(r, q, instances[q.instanceID], s3prefix);
        assert q in front + [p];
      } else {
        assert p in front + [p];
      }
    }
  }

  lemma PolicyRulesMeaning(policies: seq<Policy>, instances: map<string, Instance>, s3prefix: string)
    ensures RulesOf(PolicyRules(policies, instances, s3prefix), policies, instances, s3prefix)
  {
    hide InstanceRulesOf;
    var rules, front := PolicyRules(policies, instances, s3prefix), InstanceRules(policies, instances, s3prefix);
    assert rules[..|rules| - 1] == front;
    InstanceRulesMeaning(policies, instances, s3prefix);
    LastGlobalWins(policies);
    Int32Wraps(GlobalDays(policies));
  }

  /** The rules that are not BackiieTUI's, in order. */
  function External(rules: seq<LifecycleRule>): seq<LifecycleRule> {
    if rules == [] then
      []
    else
      External(rules[..|rules| - 1])
      + if rules[|rules| - 1].managedBy != "backiie" then [rules[|rules| - 1]] else []
  }

  function Managed(rules: seq<LifecycleRule>): seq<LifecycleRule> {
    if rules == [] then
      []
    else
      Managed(rules[..|rules| - 1])
      + if rules[|rules| - 1].managedBy == "backiie" then [rules[|rules| - 1]] else []
  }

  /** The configuration a synchronisation leaves. */
  function Synced(config: seq<AwsRule>, newRules: seq<LifecycleRule>): seq<AwsRule> {
    ToAll(External(FromAll(config)) + newRules)
  }

  function RulesExcept(rules: seq<LifecycleRule>, id: string): seq<LifecycleRule> {
    if rules == [] then
      []
    else
      RulesExcept(rules[..|rules| - 1], id)
      + if rules[|rules| - 1].id != id then [rules[|rules| - 1]] else []
  }

  class LifecycleUseCase {
    const manager: LifecycleManager

    constructor (manager: LifecycleManager)
      ensures this.manager == manager
    {
      this.manager := manager;
    }

    method SelectExternal(existing: seq<LifecycleRule>) returns (external: seq<LifecycleRule>)
      ensures external == External(existing)
    {
      external := [];
      for i := 0 to |existing|
        invariant external == External(existing[..i])
      {
        assert existing[..i + 1][..i] == existing[..i];
        if existing[i].managedBy != "backiie" {
          external := external + [existing[i]];
        }
      }
      assert existing[..|existing|] == existing;
    }

    method BuildRules(policies: seq<Policy>, instances: map<string, Instance>, s3prefix: string)
      returns (newRules: seq<LifecycleRule>)
      ensures newRules == PolicyRules(policies, instances, s3prefix)
      ensures RulesOf(newRules, policies, instances, s3prefix)
    {
      var globalDays := DEFAULT_RETAIN_DAYS;
      newRules := [];
      for i := 0 to |policies|
        invariant newRules == InstanceRules(policies[..i], instances, s3prefix)
        invariant globalDays == GlobalDays(policies[..i])
      {
        var p := policies[i];
        assert policies[..i + 1][..i] == policies[..i];
        if p.instanceID == "" {
          globalDays := p.retainDays;
        } else if p.instanceID in instances {
          var inst := instances[p.instanceID];
          var name := SanitizeID(inst.name);
          var rule := LifecycleRule(MANAGED_PREFIX + name, "Enabled", InstancePrefix(s3prefix, inst.engine, inst.name),
                                    Int32(p.retainDays), "backiie");
          newRules := newRules + [rule];
        }
      }
      assert policies[..|policies|] == policies;
      var globalPrefix := s3prefix;
      if globalPrefix != "" {
        globalPrefix := globalPrefix + "/";
      }
      newRules := newRules + [LifecycleRule("backiie-global", "Enabled", globalPrefix, Int32(globalDays), "backiie")];
      PolicyRulesMeaning(policies, instances, s3prefix);
    }

    /** Replaces BackiieTUI's rules by those of the policies. `instances` is keyed by ID. */
    method SyncWithRetention(
      policies: seq<Policy>, instances: map<string, Instance>, pathPrefix: string) returns (ok: bool)
      modifies manager
      // the rules of others, read and written back, and then those of the policies; none of ours before
      ensures ok ==> exists newRules ::
                && RulesOf(newRules, policies, instances, TrimSlash(pathPrefix))
                && OursReplaced(old(manager.config), manager.config, newRules)
      ensures
        var newRules := PolicyRules(policies, instances, TrimSlash(pathPrefix));
        && (ok ==> manager.config == Synced(old(manager.config), newRules))
        && (manager.config == old(manager.config) || manager.config == Synced(old(manager.config), newRules))
        && (!ok ==> manager.failures > old(manager.failures))
    {
      hide RulesOf, OursReplaced, PolicyRules, ReadAs;
      var existing;
      ok, existing := manager.GetLifecycleRules();
      if !ok {
        return;
      }
      var external := SelectExternal(existing);
      var newRules := BuildRules(policies, instances, TrimSlash(pathPrefix));
      SyncReplacesOurs(manager.config, policies, instances, TrimSlash(pathPrefix));
      ok := manager.PutLifecycleRules(external + newRules);
    }

    /** The filter of `DeleteRule`, which compacts the slice it is reading. */
    method Compact(rules: array<LifecycleRule>, id: string) returns (n: nat)
      modifies rules
      ensures n <= rules.Length && rules[..n] == RulesExcept(old(rules[..]), id)
    {
      ghost var was := rules[..];
      n := 0;
      for i := 0 to rules.Length
        invariant n <= i && rules[..n] == RulesExcept(was[..i], id)
        invariant forall j | i <= j < rules.Length :: rules[j] == was[j]
      {
        assert was[..i + 1][..i] == was[..i];
        if rules[i].id != id {
          rules[n] := rules[i];
          n := n + 1;
        }
      }
      assert was[..rules.Length] == was;
    }

    /** Deletes the rules with an ID. The stored rules of others are preserved exactly if all are plain. */
    method DeleteRule(id: string) returns (ok: bool)
      modifies manager
      ensures ok ==> manager.config == ToAll(RulesExcept(FromAll(old(manager.config)), id))
      ensures ok ==> (manager.config == Others(old(manager.config), id)
                      <==> forall r | r in Others(old(manager.config), id) :: Plain(r))
      ensures manager.config == old(manager.config)
              || manager.config == ToAll(RulesExcept(FromAll(old(manager.config)), id))
      ensures !ok ==> manager.failures > old(manager.failures)
    {
      var existing;
      ok, existing := manager.GetLifecycleRules();
      if !ok {
        return;
      }
      var rules := new LifecycleRule[|existing|](i requires 0 <= i < |existing| => existing[i]);
      assert rules[..] == existing;
      var n := Compact(rules, id);
      DeletePreservesOthersIffPlain(manager.config, id);
      ok := manager.PutLifecycleRules(rules[..n]);
    }
  }

  // ---- what a synchronisation keeps ----

  lemma NothingListed()
    ensures External([]) == [] && Managed([]) == []
  {
  }

  lemma FilterStep(rules: seq<LifecycleRule>, r: LifecycleRule)
    ensures External(rules + [r]) == External(rules) + if r.managedBy != "backiie" then [r] else []
    ensures Managed(rules + [r]) == Managed(rules) + if r.managedBy == "backiie" then [r] else []
  {
    assert (rules + [r])[..|rules|] == rules;
  }

  lemma Associative<T>(x: seq<T>, y: seq<T>, z: seq<T>)
    ensures (x + y) + z == x + (y + z)
  {
  }

  lemma FilterConcatStep(a: seq<LifecycleRule>, front: seq<LifecycleRule>, last: LifecycleRule)
    requires External(a + front) == External(a) + External(front) && Managed(a + front) == Managed(a) + Managed(front)
    ensures External(a + (front + [last])) == External(a) + External(front + [last])
    ensures Managed(a + (front + [last])) == Managed(a) + Managed(front + [last])
  {
    Associative(a, front, [last]);
    FilterStep(a + front, last);
    FilterStep(front, last);
    Associative(External(a), External(front), if last.managedBy != "backiie" then [last] else []);
    Associative(Managed(a), Managed(front), if last.managedBy == "backiie" then [last] else []);
  }

  lemma {:induction false} FilterConcat(a: seq<LifecycleRule>, b: seq<LifecycleRule>)
    ensures External(a + b) == External(a) + External(b)
    ensures Managed(a + b) == Managed(a) + Managed(b)
  {
    hide External, Managed;
    if b == [] {
      assert a + b == a;
      NothingListed();
    } else {
      var front, last := b[..|b| - 1], b[|b| - 1];
      FilterConcat(a, front);
      FilterConcatStep(a, front, last);
      assert b == front + [last];
    }
  }

  lemma {:induction false} ExternalIsExternal(rules: seq<LifecycleRule>)
    ensures External(External(rules)) == External(rules) && Managed(External(rules)) == []
    ensures forall r | r in External(rules) :: r in rules && r.managedBy != "backiie"
  {
    if rules != [] {
      var n := |rules| - 1;
      ExternalIsExternal(rules[..n]);
      var last := if rules[n].managedBy != "backiie" then [rules[n]] else [];
      FilterConcat(External(rules[..n]), last);
    }
  }

  lemma {:induction false} AllManaged(rules: seq<LifecycleRule>)
    requires forall r | r in rules :: r.managedBy == "backiie"
    ensures External(rules) == [] && Managed(rules) == rules
  {
    if rules != [] {
      AllManaged(rules[..|rules| - 1]);
    }
  }

  lemma {:induction false} InstanceRulesManaged(
    policies: seq<Policy>, instances: map<string, Instance>, s3prefix: string)
    ensures forall r | r in InstanceRules(policies, instances, s3prefix) ::
              r.managedBy == "backiie" && MANAGED_PREFIX <= r.id
  {
    if policies != [] {
      InstanceRulesManaged(policies[..|policies| - 1], instances, s3prefix);
    }
  }

  lemma PolicyRulesManaged(policies: seq<Policy>, instances: map<string, Instance>, s3prefix: string)
    ensures forall r | r in PolicyRules(policies, instances, s3prefix) ::
              r.managedBy == "backiie" && r.managedBy == ManagedBy(r.id)
  {
    InstanceRulesManaged(policies, instances, s3prefix);
  }

  /** After a synchronisation the bucket lists the external rules as before, in order, followed by
      exactly the rules of the policies: every old BackiieTUI rule is gone. */
  lemma SyncListing(config: seq<AwsRule>, policies: seq<Policy>, instances: map<string, Instance>, s3prefix: string)
    ensures
      var newRules := PolicyRules(policies, instances, s3prefix);
      var listed := FromAll(Synced(config, newRules));
      && listed == External(FromAll(config)) + newRules
      && External(listed) == External(FromAll(config))
      && Managed(listed) == newRules
  {
    var newRules, external := PolicyRules(policies, instances, s3prefix), External(FromAll(config));
    PolicyRulesManaged(policies, instances, s3prefix);
    ExternalIsExternal(FromAll(config));
    forall r: LifecycleRule | r in external + newRules ensures r.managedBy == ManagedBy(r.id) {
      if r in external {
        var i :| 0 <= i < |config| && FromAll(config)[i] == r;
      }
    }
    RoundTrip(external + newRules);
    FilterConcat(external, newRules);
    AllManaged(newRules);
  }

  /** Synchronising twice is synchronising once. */
  lemma SyncIdempotent(config: seq<AwsRule>, policies: seq<Policy>, instances: map<string, Instance>, s3prefix: string)
    ensures
      var newRules := PolicyRules(policies, instances, s3prefix);
      Synced(Synced(config, newRules), newRules) == Synced(config, newRules)
  {
    SyncListing(config, policies, instances, s3prefix);
  }

  // ---- what a synchronisation does to the rules of other tools ----

  /** `r` itself if it belongs to another tool. */
  function IfForeign(r: AwsRule): seq<AwsRule> {
    if Ours(r) then [] else [r]
  }

  /** The stored rules of other tools, in order. */
  function Foreign(config: seq<AwsRule>): seq<AwsRule> {
    if config == [] then
      []
    else
      var r := config[|config| - 1];
      Foreign(config[..|config| - 1]) + IfForeign(r)
  }

  /** A rule with nothing in it that is lost between reading and writing. */
  predicate Plain(r: AwsRule) {
    && r.id.Some?
    && r.filter.Some? && r.filter.value.more == "" && r.filter.value.prefix != Some("")
    && r.oldPrefix.None?
    && r.expiration.Some? && r.expiration.value.days.Some? && r.expiration.value.more == ""
    && r.actions == ""
  }

  lemma NothingForeign()
    ensures Foreign([]) == [] && FromAll([]) == [] && External([]) == []
  {
  }

  lemma ForeignStep(config: seq<AwsRule>, r: AwsRule)
    ensures Foreign(config + [r]) == Foreign(config) + IfForeign(r)
  {
    assert (config + [r])[..|config|] == config;
  }

  lemma ForeignConcatStep(a: seq<AwsRule>, front: seq<AwsRule>, last: AwsRule)
    requires Foreign(a + front) == Foreign(a) + Foreign(front)
    ensures Foreign(a + (front + [last])) == Foreign(a) + Foreign(front + [last])
  {
    Associative(a, front, [last]);
    Associative(Foreign(a), Foreign(front), IfForeign(last));
    ForeignStep(a + front, last);
    ForeignStep(front, last);
  }

  lemma {:induction false} ForeignConcat(a: seq<AwsRule>, b: seq<AwsRule>)
    ensures Foreign(a + b) == Foreign(a) + Foreign(b)
  {
    hide Foreign, IfForeign;
    if b == [] {
      assert a + b == a;
      NothingForeign();
    } else {
      var front, last := b[..|b| - 1], b[|b| - 1];
      ForeignConcat(a, front);
      ForeignConcatStep(a, front, last);
      assert b == front + [last];
    }
  }

  lemma FromAllConcat(a: seq<AwsRule>, b: seq<AwsRule>)
    ensures FromAll(a + b) == FromAll(a) + FromAll(b)
  {
    hide FromAws;
  }

  lemma FromOne(r: AwsRule)
    ensures FromAll([r]) == [FromAws(r)]
  {
  }

  lemma ForeignSeenStep(front: seq<AwsRule>, last: AwsRule)
    requires FromAll(Foreign(front)) == External(FromAll(front))
    ensures FromAll(Foreign(front + [last])) == External(FromAll(front + [last]))
  {
    hide FromAll, FromAws;
    ReadingRule(last);
    ForeignStep(front, last);
    FromAllConcat(front, [last]);
    FromOne(last);
    FilterStep(FromAll(front), FromAws(last));
    FromAllConcat(Foreign(front), IfForeign(last));
    if FromAws(last).managedBy == "backiie" {
      assert Foreign(front) + [] == Foreign(front) && External(FromAll(front)) + [] == External(FromAll(front));
    }
  }

  lemma {:induction false} ForeignSeen(config: seq<AwsRule>)
    ensures FromAll(Foreign(config)) == External(FromAll(config))
  {
    hide Foreign, External, FromAll;
    if config == [] {
      NothingForeign();
    } else {
      var front, last := config[..|config| - 1], config[|config| - 1];
      ForeignSeen(front);
      ForeignSeenStep(front, last);
      assert config == front + [last];
    }
  }

  lemma {:induction false} AllForeign(config: seq<AwsRule>)
    requires forall i | 0 <= i < |config| :: !Ours(config[i])
    ensures Foreign(config) == config
  {
    hide Foreign, FromAws;
    if config == [] {
      NothingForeign();
    } else {
      var front, last := config[..|config| - 1], config[|config| - 1];
      AllForeign(front);
      ForeignStep(front, last);
      assert config == front + [last];
    }
  }

  lemma NoneForeignStep(front: seq<AwsRule>, last: AwsRule)
    requires Foreign(front) == [] && Ours(last)
    ensures Foreign(front + [last]) == []
  {
    ForeignStep(front, last);
  }

  lemma {:induction false} NoneForeign(config: seq<AwsRule>)
    requires forall i | 0 <= i < |config| :: Ours(config[i])
    ensures Foreign(config) == []
  {
    hide Foreign, FromAws;
    if config == [] {
      NothingForeign();
    } else {
      var front, last := config[..|config| - 1], config[|config| - 1];
      NoneForeign(front);
      NoneForeignStep(front, last);
      assert config == front + [last];
    }
  }

  /** A stored rule survives being read and written back exactly if it is plain. */
  lemma PlainSurvives(r: AwsRule)
    ensures ToAws(FromAws(r)) == r <==> Plain(r)
  {
  }

  lemma RewrittenIffPlain(rules: seq<AwsRule>)
    ensures ToAll(FromAll(rules)) == rules <==> forall r | r in rules :: Plain(r)
  {
    forall i | 0 <= i < |rules| ensures ToAll(FromAll(rules))[i] == rules[i] <==> Plain(rules[i]) {
      PlainSurvives(rules[i]);
    }
    if ToAll(FromAll(rules)) == rules {
      forall r | r in rules ensures Plain(r) {
        var i :| 0 <= i < |rules| && rules[i] == r;
      }
    }
    if forall r | r in rules :: Plain(r) {
      assert forall i | 0 <= i < |rules| :: rules[i] in rules;
      assert ToAll(FromAll(rules)) == rules;
    }
  }

  lemma ForeignKept(rules: seq<LifecycleRule>)
    requires forall r | r in rules :: r.managedBy == ManagedBy(r.id) && r.managedBy != "backiie"
    ensures Foreign(ToAll(rules)) == ToAll(rules)
  {
    forall i | 0 <= i < |rules| ensures !Ours(ToAll(rules)[i]) {
      assert rules[i] in rules;
    }
    AllForeign(ToAll(rules));
  }

  lemma ForeignGone(rules: seq<LifecycleRule>)
    requires forall r | r in rules :: r.managedBy == ManagedBy(r.id) && r.managedBy == "backiie"
    ensures Foreign(ToAll(rules)) == []
  {
    forall i | 0 <= i < |rules| ensures Ours(ToAll(rules)[i]) {
      assert rules[i] in rules;
    }
    NoneForeign(ToAll(rules));
  }

  /** Their view is derived from their IDs. */
  lemma ExternalDerived(config: seq<AwsRule>)
    ensures forall r | r in External(FromAll(config)) :: r.managedBy == ManagedBy(r.id) && r.managedBy != "backiie"
  {
    ExternalIsExternal(FromAll(config));
    forall r | r in FromAll(config) ensures r.managedBy == ManagedBy(r.id) {
      var i :| 0 <= i < |config| && FromAll(config)[i] == r;
    }
  }

  lemma ToAllConcat(a: seq<LifecycleRule>, b: seq<LifecycleRule>)
    ensures ToAll(a + b) == ToAll(a) + ToAll(b)
  {
  }

  /** The rules of other tools are read and written back. */
  lemma ForeignAfterSync(
    config: seq<AwsRule>, policies: seq<Policy>, instances: map<string, Instance>, s3prefix: string)
    ensures
      Foreign(Synced(config, PolicyRules(policies, instances, s3prefix))) == ToAll(FromAll(Foreign(config)))
  {
    var newRules, external := PolicyRules(policies, instances, s3prefix), External(FromAll(config));
    PolicyRulesManaged(policies, instances, s3prefix);
    ExternalDerived(config);
    ForeignSeen(config);
    ToAllConcat(external, newRules);
    ForeignConcat(ToAll(external), ToAll(newRules));
    ForeignKept(external);
    ForeignGone(newRules);
  }

  /** What is left of a stored rule that has been read and written back: its ID, status, prefix and days. */
  ghost predicate RewrittenAs(r: AwsRule, s: AwsRule) {
    && s.id == Some(if r.id.Some? then r.id.value else "") && s.status == r.status
    && s.oldPrefix == None && s.actions == ""
    && s.filter.Some? && s.filter.value.more == ""
    && (match r.filter
        case Some(AwsFilter(Some(prefix), _)) => s.filter.value.prefix == if prefix == "" then None else Some(prefix)
        case _ => s.filter.value.prefix == if r.oldPrefix == Some("") then None else r.oldPrefix)
    && s.expiration.Some? && s.expiration.value.more == ""
    && (match r.expiration
        case Some(AwsExpiration(Some(days), _)) => s.expiration.value.days == Some(days)
        case _ => s.expiration.value.days == Some(0))
  }

  lemma Rewriting(r: AwsRule)
    ensures RewrittenAs(r, ToAws(FromAws(r)))
  {
  }

  /** The stored rules whose ID does not start with "backiie-" come first, in order and rewritten, then
      `newRules`: nothing else is left. */
  ghost predicate OursReplaced(config: seq<AwsRule>, x: seq<AwsRule>, newRules: seq<LifecycleRule>) {
    var kept := Foreign(config);
    && |x| == |kept| + |newRules|
    && (forall i | 0 <= i < |kept| :: RewrittenAs(kept[i], x[i]))
    && (forall i | 0 <= i < |newRules| ::
          var s := x[|kept| + i];
          && s.id == Some(newRules[i].id) && s.status == newRules[i].status
          && s.filter == Some(AwsFilter(if newRules[i].prefix == "" then None else Some(newRules[i].prefix), ""))
          && s.expiration == Some(AwsExpiration(Some(newRules[i].expiryDays), ""))
          && s.oldPrefix == None && s.actions == "")
  }

  lemma SyncReplacesOurs(
    config: seq<AwsRule>, policies: seq<Policy>, instances: map<string, Instance>, s3prefix: string)
    ensures
      var newRules := PolicyRules(policies, instances, s3prefix);
      OursReplaced(config, Synced(config, newRules), newRules)
  {
    hide Foreign, FromAws, PolicyRules, RewrittenAs;
    var kept, newRules := Foreign(config), PolicyRules(policies, instances, s3prefix);
    ForeignSeen(config);
    ToAllConcat(External(FromAll(config)), newRules);
    forall i | 0 <= i < |kept| ensures RewrittenAs(kept[i], Synced(config, newRules)[i]) {
      Rewriting(kept[i]);
    }
  }

  /** The rules of other tools are preserved in the bucket exactly if all of them are plain: an ID, a
      filter with at most a non-empty prefix, an expiry in days, and nothing else. */
  lemma SyncPreservesForeignIffPlain(
    config: seq<AwsRule>, policies: seq<Policy>, instances: map<string, Instance>, s3prefix: string)
    ensures
      Foreign(Synced(config, PolicyRules(policies, instances, s3prefix))) == Foreign(config)
      <==> forall r | r in Foreign(config) :: Plain(r)
  {
    ForeignAfterSync(config, policies, instances, s3prefix);
    RewrittenIffPlain(Foreign(config));
  }

  // ---- deleting a rule ----

  /** The stored rules with another ID, in order. */
  function Others(config: seq<AwsRule>, id: string): seq<AwsRule> {
    if config == [] then
      []
    else
      var r := config[|config| - 1];
      Others(config[..|config| - 1], id) + if FromAws(r).id != id then [r] else []
  }

  lemma NoOthers(id: string)
    ensures Others([], id) == [] && FromAll([]) == [] && RulesExcept([], id) == []
  {
  }

  lemma OthersStep(config: seq<AwsRule>, r: AwsRule, id: string)
    ensures Others(config + [r], id) == Others(config, id) + if FromAws(r).id != id then [r] else []
  {
    assert (config + [r])[..|config|] == config;
  }

  lemma ExceptStep(rules: seq<LifecycleRule>, r: LifecycleRule, id: string)
    ensures RulesExcept(rules + [r], id) == RulesExcept(rules, id) + if r.id != id then [r] else []
  {
    assert (rules + [r])[..|rules|] == rules;
  }

  lemma OthersSeenStep(front: seq<AwsRule>, last: AwsRule, id: string)
    requires FromAll(Others(front, id)) == RulesExcept(FromAll(front), id)
    ensures FromAll(Others(front + [last], id)) == RulesExcept(FromAll(front + [last]), id)
  {
    hide FromAll, FromAws;
    OthersStep(front, last, id);
    FromAllConcat(front, [last]);
    FromOne(last);
    ExceptStep(FromAll(front), FromAws(last), id);
    if FromAws(last).id != id {
      FromAllConcat(Others(front, id), [last]);
    } else {
      assert Others(front, id) + [] == Others(front, id);
      assert RulesExcept(FromAll(front), id) + [] == RulesExcept(FromAll(front), id);
    }
  }

  lemma {:induction false} OthersSeen(config: seq<AwsRule>, id: string)
    ensures FromAll(Others(config, id)) == RulesExcept(FromAll(config), id)
  {
    hide Others, RulesExcept, FromAll;
    if config == [] {
      NoOthers(id);
    } else {
      var front, last := config[..|config| - 1], config[|config| - 1];
      OthersSeen(front, id);
      OthersSeenStep(front, last, id);
      assert config == front + [last];
    }
  }

  /** Deleting a rule preserves the stored rules with another ID exactly if all of them are plain. */
  lemma DeletePreservesOthersIffPlain(config: seq<AwsRule>, id: string)
    ensures ToAll(RulesExcept(FromAll(config), id)) == Others(config, id)
        <==> forall r | r in Others(config, id) :: Plain(r)
  {
    OthersSeen(config, id);
    RewrittenIffPlain(Others(config, id));
  }

  /** Deleting a rule by ID lists exactly the other rules, in order. */
  lemma {:induction false} DeleteRuleListing(rules: seq<LifecycleRule>, id: string)
    requires forall r | r in rules :: r.managedBy == ManagedBy(r.id)
    ensures forall r :: r in RulesExcept(rules, id) <==> r in rules && r.id != id
    ensures FromAll(ToAll(RulesExcept(rules, id))) == RulesExcept(rules, id)
  {
    if rules != [] {
      var n := |rules| - 1;
      assert rules == rules[..n] + [rules[n]];
      DeleteRuleListing(rules[..n], id);
    }
    RoundTrip(RulesExcept(rules, id));
  }
}
