/** Sequence vocabulary shared by the models: filtering, mapping, and a stand-in for the C
    library's `qsort`, whose own code is not part of the repository. */
module Sequences {

  /** The elements of `s` that satisfy `p`, in order. */
  ghost function Filter<T>(s: seq<T>, p: T -> bool): (r: seq<T>)
    ensures |r| <= |s|
  {
    if s == [] then [] else (if p(s[0]) then [s[0]] else []) + Filter(s[1..], p)
  }

  lemma {:induction false} FilterConcat<T>(a: seq<T>, b: seq<T>, p: T -> bool)
    ensures Filter(a + b, p) == Filter(a, p) + Filter(b, p)
  {
    if a == [] {
      assert a + b == b;
    } else {
      assert (a + b)[0] == a[0] && (a + b)[1..] == a[1..] + b;
      FilterConcat(a[1..], b, p);
      var head := if p(a[0]) then [a[0]] else [];
      assert head + (Filter(a[1..], p) + Filter(b, p)) == head + Filter(a[1..], p) + Filter(b, p);
    }
  }

  lemma {:induction false} FilterMembers<T(!new)>(s: seq<T>, p: T -> bool)
    ensures forall x :: x in Filter(s, p) <==> x in s && p(x)
  {
    if s != [] {
      assert s == [s[0]] + s[1..];
      FilterMembers(s[1..], p);
    }
  }

  lemma FilterSnoc<T>(a: seq<T>, x: T, p: T -> bool)
    ensures Filter(a + [x], p) == Filter(a, p) + (if p(x) then [x] else [])
  {
    FilterConcat(a, [x], p);
    assert [x][1..] == [];
  }

  /** Nothing passes. */
  lemma {:induction false} FilterNone<T>(s: seq<T>, p: T -> bool)
    requires forall i | 0 <= i < |s| :: !p(s[i])
    ensures Filter(s, p) == []
  {
    if s != [] {
      assert forall i | 0 <= i < |s[1..]| :: s[1..][i] == s[i + 1];
      FilterNone(s[1..], p);
    }
  }

  /** Everything passes. */
  lemma {:induction false} FilterAll<T>(s: seq<T>, p: T -> bool)
    requires forall i | 0 <= i < |s| :: p(s[i])
    ensures Filter(s, p) == s
  {
    if s != [] {
      assert forall i | 0 <= i < |s[1..]| :: s[1..][i] == s[i + 1];
      FilterAll(s[1..], p);
    }
  }

  ghost function Map<A, B>(f: A -> B, s: seq<A>): (r: seq<B>)
    ensures |r| == |s|
    ensures forall i | 0 <= i < |s| :: r[i] == f(s[i])
  {
    seq(|s|, i requires 0 <= i < |s| => f(s[i]))
  }

  /** The distinct elements. */
  ghost function Values<T>(s: seq<T>): set<T> {
    set x | x in s
  }

  lemma ValuesSnoc<T>(s: seq<T>, x: T)
    ensures |Values(s + [x])| == |Values(s)| + if x in s then 0 else 1
  {
    assert Values(s + [x]) == Values(s) + {x};
  }

  lemma MapConcat<A, B>(f: A -> B, a: seq<A>, b: seq<A>)
    ensures Map(f, a + b) == Map(f, a) + Map(f, b)
  {
  }

  /** Filtering commutes with a map that `q` reads through. */
  lemma {:induction false} FilterMap<A, B>(f: A -> B, s: seq<A>, p: A -> bool, q: B -> bool)
    requires forall i | 0 <= i < |s| :: p(s[i]) == q(f(s[i]))
    ensures Filter(Map(f, s), q) == Map(f, Filter(s, p))
  {
    if s != [] {
      assert Map(f, s)[1..] == Map(f, s[1..]);
      assert forall i | 0 <= i < |s[1..]| :: s[1..][i] == s[i + 1];
      FilterMap(f, s[1..], p, q);
    }
  }

  ghost predicate Sorted<T>(s: seq<T>, le: (T, T) -> bool) {
    forall i, j | 0 <= i < j < |s| :: le(s[i], s[j])
  }

  ghost predicate TotalPreorder<T(!new)>(le: (T, T) -> bool) {
    && (forall x, y :: le(x, y) || le(y, x))
    && (forall x, y, z :: le(x, y) && le(y, z) ==> le(x, z))
  }

  lemma MultisetSplit<T>(s: seq<T>, i: nat)
    requires i <= |s|
    ensures multiset(s[..i]) + multiset(s[i..]) == multiset(s)
  {
    assert s[..i] + s[i..] == s;
  }

  /** The position at which `x` keeps `s` sorted: after everything not above it. */
  method InsertionPoint<T(!new)>(s: seq<T>, x: T, le: (T, T) -> bool) returns (i: nat)
    requires TotalPreorder(le) && Sorted(s, le)
    ensures i <= |s|
    ensures forall j | 0 <= j < i :: le(s[j], x)
    ensures forall j | i <= j < |s| :: le(x, s[j])
  {
    i := |s|;
    while i > 0 && !le(s[i - 1], x)
      invariant i <= |s|
      invariant forall j | i <= j < |s| :: le(x, s[j])
    {
      i := i - 1;
    }
  }

  lemma InsertSorted<T(!new)>(s: seq<T>, i: nat, x: T, le: (T, T) -> bool)
    requires i <= |s| && Sorted(s, le)
    requires (forall j | 0 <= j < i :: le(s[j], x)) && (forall j | i <= j < |s| :: le(x, s[j]))
    ensures Sorted(s[..i] + [x] + s[i..], le)
    ensures multiset(s[..i] + [x] + s[i..]) == multiset(s) + multiset{x}
  {
    MultisetSplit(s, i);
  }

  /** Stand-in for `qsort`: some sorted permutation. */
  method Sort<T(!new)>(s: seq<T>, le: (T, T) -> bool) returns (r: seq<T>)
    requires TotalPreorder(le)
    ensures multiset(r) == multiset(s) && |r| == |s|
    ensures Sorted(r, le)
  {
    r := [];
    for k := 0 to |s|
      invariant |r| == k && multiset(r) == multiset(s[..k])
      invariant Sorted(r, le)
    {
      var i := InsertionPoint(r, s[k], le);
      InsertSorted(r, i, s[k], le);
      assert s[..k + 1] == s[..k] + [s[k]];
      r := r[..i] + [s[k]] + r[i..];
    }
    assert s[..|s|] == s;
  }

  /** Distinct numbers below `n` are at most `n` many. */
  lemma {:induction false} DistinctBelow(s: seq<nat>, n: nat)
    requires forall i, j | 0 <= i < j < |s| :: s[i] != s[j]
    requires forall i | 0 <= i < |s| :: s[i] < n
    ensures |s| <= n
  {
    if s == [] {
    } else if n - 1 in s {
      var k :| 0 <= k < |s| && s[k] == n - 1;
      DistinctBelow(s[..k] + s[k + 1..], n - 1);
    } else {
      assert s[0] < n;
      DistinctBelow(s, n - 1);
    }
  }
}
