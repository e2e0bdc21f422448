/** `sort.Slice` by start time: some ordered permutation, no particular one among equal times. */
module Sorting {
  import opened Entities

  ghost predicate Sorted(s: seq<BackupRecord>) {
    forall i, j | 0 <= i < j < |s| :: s[i].startedAt <= s[j].startedAt
  }

  ghost predicate StrictlySorted(s: seq<BackupRecord>) {
    forall i, j | 0 <= i < j < |s| :: s[i].startedAt < s[j].startedAt
  }

  ghost predicate Distinct(s: seq<BackupRecord>) {
    forall i, j | 0 <= i < j < |s| :: s[i] != s[j]
  }

  ghost predicate DistinctStarts(s: seq<BackupRecord>) {
    forall i, j | 0 <= i < j < |s| :: s[i].startedAt != s[j].startedAt
  }

  lemma InsertedSorted(t: seq<BackupRecord>, r: BackupRecord, j: nat)
    requires Sorted(t) && j <= |t|
    requires forall k | 0 <= k < j :: t[k].startedAt <= r.startedAt
    requires forall k | j <= k < |t| :: r.startedAt < t[k].startedAt
    ensures Sorted(t[..j] + [r] + t[j..])
  {
    var u := t[..j] + [r] + t[j..];
    forall m, n | 0 <= m < n < |u| ensures u[m].startedAt <= u[n].startedAt {
      var v := if m < j then t[m] else if m == j then r else t[m - 1];
      var w := if n < j then t[n] else if n == j then r else t[n - 1];
      assert u[m] == v && u[n] == w;
    }
  }

  lemma InsertedSame(t: seq<BackupRecord>, r: BackupRecord, j: nat)
    requires j <= |t|
    ensures multiset(t[..j] + [r] + t[j..]) == multiset(t) + multiset{r}
  {
    assert t == t[..j] + t[j..];
  }

  method Insert(t: seq<BackupRecord>, r: BackupRecord) returns (u: seq<BackupRecord>)
    requires Sorted(t)
    ensures Sorted(u) && multiset(u) == multiset(t) + multiset{r}
  {
    var j := |t|;
    while j > 0 && r.startedAt < t[j - 1].startedAt
      invariant 0 <= j <= |t|
      invariant forall k | j <= k < |t| :: r.startedAt < t[k].startedAt
    {
      j := j - 1;
    }
    InsertedSorted(t, r, j);
    InsertedSame(t, r, j);
    u := t[..j] + [r] + t[j..];
  }

  method SortByStart(s: seq<BackupRecord>) returns (t: seq<BackupRecord>)
    ensures Sorted(t) && multiset(t) == multiset(s)
  {
    t := [];
    for i := 0 to |s|
      invariant Sorted(t) && multiset(t) == multiset(s[..i])
    {
      t := Insert(t, s[i]);
      assert s[..i + 1] == s[..i] + [s[i]];
    }
    assert s[..|s|] == s;
  }

  lemma {:induction false} CountAtMostOne(s: seq<BackupRecord>, x: BackupRecord)
    requires Distinct(s)
    ensures multiset(s)[x] <= 1
  {
    if s != [] {
      CountAtMostOne(s[1..], x);
      assert s == [s[0]] + s[1..];
      assert x in s[1..] ==> x != s[0];
    }
  }

  lemma CountTwice(t: seq<BackupRecord>, i: nat, j: nat)
    requires i < j < |t| && t[i] == t[j]
    ensures multiset(t)[t[i]] >= 2
  {
    assert t == t[..j] + t[j..];
    assert t[i] in t[..j] && t[j] in t[j..];
    assert multiset(t)[t[i]] == multiset(t[..j])[t[i]] + multiset(t[j..])[t[i]];
  }

  /** Sorting neither loses nor doubles anything. */
  lemma SortedSame(s: seq<BackupRecord>, t: seq<BackupRecord>)
    requires Distinct(s) && multiset(t) == multiset(s)
    ensures Distinct(t) && forall x :: x in t <==> x in s
  {
    forall x ensures x in t <==> x in s {
      assert x in t <==> x in multiset(t);
      assert x in s <==> x in multiset(s);
    }
    forall i, j | 0 <= i < j < |t| ensures t[i] != t[j] {
      if t[i] == t[j] {
        CountAtMostOne(s, t[i]);
        CountTwice(t, i, j);
        assert false;
      }
    }
  }

  /** Elements with distinct times come out in strictly increasing time. */
  lemma SortedStrictly(s: seq<BackupRecord>, t: seq<BackupRecord>)
    requires DistinctStarts(s) && Sorted(t) && multiset(t) == multiset(s)
    ensures StrictlySorted(t)
    ensures forall x :: x in t <==> x in s
  {
    SortedSame(s, t);
    forall i, j | 0 <= i < j < |t| ensures t[i].startedAt < t[j].startedAt {
      assert t[i] in s && t[j] in s;
    }
  }

  lemma TailMembers(s: seq<BackupRecord>, x: BackupRecord)
    requires StrictlySorted(s) && s != []
    ensures x in s[1..] <==> x in s && x != s[0]
  {
    if x in s && x != s[0] {
      var i :| 0 <= i < |s| && s[i] == x;
      assert s[1..][i - 1] == x;
    }
  }

  lemma SomeMember(t: seq<BackupRecord>)
    requires t != []
    ensures exists x :: x in t
  {
    assert t[0] in t;
  }

  /** Sorting leaves no choice when times are distinct. */
  lemma {:induction false} SortedUnique(s: seq<BackupRecord>, t: seq<BackupRecord>)
    requires StrictlySorted(s) && StrictlySorted(t)
    requires forall x :: x in s <==> x in t
    ensures s == t
  {
    if s == [] {
      if t != [] {
        SomeMember(t);
        assert false;
      }
    } else {
      assert s[0] in s && s[0] in t && t != [];
      assert t[0] in t && t[0] in s;
      assert s[0] == t[0];
      forall x ensures x in s[1..] <==> x in t[1..] {
        TailMembers(s, x);
        TailMembers(t, x);
      }
      SortedUnique(s[1..], t[1..]);
    }
  }
}
