/**
  sort.Slice. It is not stable, so its contract promises some ascending
  arrangement of the input and nothing about elements with equal keys.
 */
module Sorting {

  ghost predicate Ascending<T>(s: seq<T>, key: T -> int) {
    forall i, j :: 0 <= i < j < |s| ==> key(s[i]) <= key(s[j])
  }

  method SortBy<T>(s: seq<T>, key: T -> int) returns (r: seq<T>)
    ensures |r| == |s| && multiset(r) == multiset(s)
    ensures Ascending(r, key)
  {
    r := [];
    for i := 0 to |s|
      invariant |r| == i && multiset(r) == multiset(s[..i])
      invariant Ascending(r, key)
    {
      r := InsertBy(r, s[i], key);
      assert s[..i + 1] == s[..i] + [s[i]];
    }
    assert s[..|s|] == s;
  }

  method InsertBy<T>(r: seq<T>, x: T, key: T -> int) returns (t: seq<T>)
    requires Ascending(r, key)
    ensures |t| == |r| + 1 && multiset(t) == multiset(r) + multiset{x}
    ensures Ascending(t, key)
  {
    var k := |r|;
    while k > 0 && key(x) < key(r[k - 1])
      invariant 0 <= k <= |r|
      invariant forall j :: k <= j < |r| ==> key(x) < key(r[j])
    {
      k := k - 1;
    }
    t := Inserted(r, k, x);
  }

  function Inserted<T>(r: seq<T>, k: nat, x: T): (t: seq<T>)
    requires k <= |r|
    ensures |t| == |r| + 1
    ensures multiset(t) == multiset(r) + multiset{x}
    ensures forall i :: 0 <= i < |t| ==> t[i] == if i < k then r[i] else if i == k then x else r[i - 1]
  {
    assert r == r[..k] + r[k..];
    r[..k] + [x] + r[k..]
  }

  /** Rearranging keeps membership. */
  lemma SameMembers<T>(a: seq<T>, b: seq<T>)
    requires multiset(a) == multiset(b)
    ensures forall x :: x in a <==> x in b
  {
    assert forall x :: x in a <==> x in multiset(a);
  }

  ghost predicate Distinct<T(!new)>(s: seq<T>) {
    forall i, j :: 0 <= i < j < |s| ==> s[i] != s[j]
  }

  /** Rearranging a sequence without repetitions creates none. */
  lemma {:induction false} DistinctPermutation<T(!new)>(a: seq<T>, b: seq<T>)
    requires multiset(a) == multiset(b) && Distinct(a)
    ensures Distinct(b)
  {
    DistinctOnce(a);
    SameMembers(a, b);
    OnceDistinct(b);
  }

  lemma {:induction false} OnceDistinct<T(!new)>(b: seq<T>)
    requires forall x :: x in b ==> multiset(b)[x] == 1
    ensures Distinct(b)
  {
    if b != [] {
      assert b == [b[0]] + b[1..];
      assert multiset(b) == multiset{b[0]} + multiset(b[1..]);
      forall x | x in b[1..] ensures multiset(b[1..])[x] == 1 && x != b[0] {
        assert x in b && x in multiset(b[1..]);
      }
      OnceDistinct(b[1..]);
      forall j | 0 < j < |b| ensures b[0] != b[j] { assert b[j] in b[1..]; }
      forall i, j | 0 < i < j < |b| ensures b[i] != b[j] { assert b[i] == b[1..][i - 1] && b[j] == b[1..][j - 1]; }
    }
  }

  lemma {:induction false} DistinctOnce<T(!new)>(a: seq<T>)
    requires Distinct(a)
    ensures forall x :: x in a ==> multiset(a)[x] == 1
  {
    if a != [] {
      DistinctOnce(a[1..]);
      assert a == [a[0]] + a[1..];
      assert multiset(a) == multiset{a[0]} + multiset(a[1..]);
      assert a[0] !in a[1..];
      assert a[0] !in multiset(a[1..]);
    }
  }

  /** A repetition-free listing of elements of a set is no longer than the set. */
  lemma {:induction false} DistinctWithin<T(!new)>(s: seq<T>, all: set<T>)
    requires Distinct(s) && forall x :: x in s ==> x in all
    ensures |s| <= |all|
  {
    if s != [] {
      var n := |s| - 1;
      assert s[n] in all;
      forall x | x in s[..n] ensures x in all - {s[n]} { assert x in s; }
      DistinctWithin(s[..n], all - {s[n]});
    }
  }

  /** A repetition-free listing of exactly the elements of a set is as long as the set. */
  lemma {:induction false} DistinctCovers<T(!new)>(s: seq<T>, all: set<T>)
    requires Distinct(s) && forall x :: x in s <==> x in all
    ensures |s| == |all|
  {
    if s == [] {
      assert all == {};
    } else {
      var n := |s| - 1;
      assert s[n] in all;
      assert forall x :: x in s <==> x in s[..n] || x == s[n];
      DistinctCovers(s[..n], all - {s[n]});
    }
  }

  ghost predicate Descending(s: seq<nat>) { forall i, j :: 0 <= i < j < |s| ==> s[i] >= s[j] }

  ghost predicate StrictlyDescending(s: seq<nat>) { forall i, j :: 0 <= i < j < |s| ==> s[i] > s[j] }

  /** Distinct numbers have only one descending arrangement. */
  lemma {:induction false} DescendingUnique(a: seq<nat>, b: seq<nat>)
    requires multiset(a) == multiset(b) && StrictlyDescending(a) && Descending(b)
    ensures a == b
  {
    SameMembers(a, b);
    assert |a| == |multiset(a)| == |multiset(b)| == |b|;
    if a != [] {
      assert a[0] in a && a[0] in b && b[0] in b && b[0] in a;
      TailMultiset(a);
      TailMultiset(b);
      DescendingUnique(a[1..], b[1..]);
    }
  }

  lemma TailMultiset<T>(a: seq<T>)
    requires a != []
    ensures multiset(a[1..]) == multiset(a) - multiset{a[0]} && a == [a[0]] + a[1..]
  {
    assert a == [a[0]] + a[1..];
  }
}
