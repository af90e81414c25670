/** The queue's due list: sorted in place, then filtered into the same array. */
module QueueDue {

  datatype Envelope = Envelope(
    id: string, from: string, rcpt: string, domain: string, created: int, nextAttempt: int, attempts: nat, lastError: string, data: string)

  // ----- the sort -----

  /** x behind everything that is not newer. */
  function Insert(t: seq<Envelope>, x: Envelope): seq<Envelope> {
    if t == [] || t[|t| - 1].created <= x.created then t + [x]
    else Insert(t[..|t| - 1], x) + [t[|t| - 1]]
  }

  function OldestFirst(s: seq<Envelope>): seq<Envelope> {
    if s == [] then [] else Insert(OldestFirst(s[..|s| - 1]), s[|s| - 1])
  }

  predicate Due(e: Envelope, now: int) { e.nextAttempt <= now }

  function FilterDue(s: seq<Envelope>, now: int): seq<Envelope> {
    if s == [] then []
    else FilterDue(s[..|s| - 1], now) + (if Due(s[|s| - 1], now) then [s[|s| - 1]] else [])
  }

  /** The envelopes of one creation time, in order. */
  function Same(s: seq<Envelope>, created: int): seq<Envelope> {
    if s == [] then []
    else Same(s[..|s| - 1], created) + (if s[|s| - 1].created == created then [s[|s| - 1]] else [])
  }

  ghost predicate Sorted(s: seq<Envelope>) {
    forall i, j :: 0 <= i < j < |s| ==> s[i].created <= s[j].created
  }

  lemma {:induction false} InsertLength(t: seq<Envelope>, x: Envelope)
    ensures |Insert(t, x)| == |t| + 1
    ensures multiset(Insert(t, x)) == multiset(t) + multiset{x}
  {
    if !(t == [] || t[|t| - 1].created <= x.created) {
      InsertLength(t[..|t| - 1], x);
      assert t == t[..|t| - 1] + [t[|t| - 1]];
    }
  }

  lemma {:induction false} InsertSorted(t: seq<Envelope>, x: Envelope)
    requires Sorted(t)
    ensures Sorted(Insert(t, x))
    ensures t != [] && t[|t| - 1].created > x.created ==>
      forall i :: 0 <= i < |Insert(t, x)| ==> Insert(t, x)[i].created <= t[|t| - 1].created
  {
    if t != [] && t[|t| - 1].created > x.created {
      var front, last := t[..|t| - 1], t[|t| - 1];
      InsertSorted(front, x);
      InsertLength(front, x);
      forall i | 0 <= i < |Insert(front, x)| ensures Insert(front, x)[i].created <= last.created {
        assert Insert(front, x)[i] in multiset(Insert(front, x));
        assert Insert(front, x)[i] in front || Insert(front, x)[i] == x;
      }
    }
  }

  lemma InsertBelow(t: seq<Envelope>, x: Envelope)
    requires t != [] && t[|t| - 1].created > x.created
    ensures Insert(t, x) == Insert(t[..|t| - 1], x) + [t[|t| - 1]]
  {
  }

  lemma {:induction false} InsertStable(t: seq<Envelope>, x: Envelope, created: int)
    ensures Same(Insert(t, x), created) == Same(t, created) + One(x, created)
  {
    if t == [] || t[|t| - 1].created <= x.created {
      SameAppend(t, x, created);
    } else {
      hide Insert, Same;
      var front, last := t[..|t| - 1], t[|t| - 1];
      InsertStable(front, x, created);
      InsertBelow(t, x);
      SameAppend(Insert(front, x), last, created);
      assert t == front + [last];
      SameAppend(front, last, created);
      OneOrder(Same(front, created), x, last, created);
    }
  }

  lemma OneOrder(s: seq<Envelope>, x: Envelope, y: Envelope, created: int)
    requires x.created != y.created
    ensures s + One(x, created) + One(y, created) == s + One(y, created) + One(x, created)
  {
  }

  function One(x: Envelope, created: int): seq<Envelope> { if x.created == created then [x] else [] }

  lemma SameAppend(s: seq<Envelope>, x: Envelope, created: int)
    ensures Same(s + [x], created) == Same(s, created) + One(x, created)
  {
    assert (s + [x])[..|s|] == s;
  }

  lemma {:induction false} OldestFirstSorted(s: seq<Envelope>)
    ensures Sorted(OldestFirst(s))
  {
    if s != [] {
      OldestFirstSorted(s[..|s| - 1]);
      InsertSorted(OldestFirst(s[..|s| - 1]), s[|s| - 1]);
    }
  }

  lemma {:induction false} OldestFirstPermutes(s: seq<Envelope>)
    ensures |OldestFirst(s)| == |s| && multiset(OldestFirst(s)) == multiset(s)
  {
    if s != [] {
      OldestFirstPermutes(s[..|s| - 1]);
      InsertLength(OldestFirst(s[..|s| - 1]), s[|s| - 1]);
      assert s == s[..|s| - 1] + [s[|s| - 1]];
    }
  }

  /** The sort is stable: each creation time keeps its envelopes in their order. */
  lemma {:induction false} OldestFirstStable(s: seq<Envelope>, created: int)
    ensures Same(OldestFirst(s), created) == Same(s, created)
  {
    if s != [] {
      var front, x := s[..|s| - 1], s[|s| - 1];
      OldestFirstStable(front, created);
      InsertStable(OldestFirst(front), x, created);
    }
  }

  // ----- the filter -----

  lemma {:induction false} FilterMembers(s: seq<Envelope>, now: int)
    ensures forall e :: e in FilterDue(s, now) <==> e in s && Due(e, now)
  {
    if s != [] {
      FilterMembers(s[..|s| - 1], now);
      assert s == s[..|s| - 1] + [s[|s| - 1]];
    }
  }

  lemma {:induction false} FilterSorted(s: seq<Envelope>, now: int)
    requires Sorted(s)
    ensures Sorted(FilterDue(s, now))
  {
    if s != [] {
      var front := s[..|s| - 1];
      FilterSorted(front, now);
      FilterMembers(front, now);
      var r := FilterDue(front, now);
      forall i | 0 <= i < |r| ensures r[i].created <= s[|s| - 1].created { assert r[i] in r && r[i] in front; }
    }
  }

  lemma {:induction false} FilterSame(s: seq<Envelope>, now: int, created: int)
    ensures Same(FilterDue(s, now), created) == FilterDue(Same(s, created), now)
  {
    if s != [] {
      var front, x := s[..|s| - 1], s[|s| - 1];
      FilterSame(front, now, created);
      FilterLast(s, now);
      SameLast(s, created);
      hide FilterDue, Same;
      SameAppend(FilterDue(front, now), x, created);
      FilterAppend(Same(front, created), x, now);
    }
  }

  lemma FilterLast(s: seq<Envelope>, now: int)
    requires s != []
    ensures var front, x := s[..|s| - 1], s[|s| - 1];
      FilterDue(s, now) == if Due(x, now) then FilterDue(front, now) + [x] else FilterDue(front, now)
  {
  }

  lemma SameLast(s: seq<Envelope>, created: int)
    requires s != []
    ensures var front, x := s[..|s| - 1], s[|s| - 1];
      Same(s, created) == if x.created == created then Same(front, created) + [x] else Same(front, created)
  {
  }

  lemma FilterAppend(s: seq<Envelope>, x: Envelope, now: int)
    ensures FilterDue(s + [x], now) == FilterDue(s, now) + if Due(x, now) then [x] else []
  {
    assert (s + [x])[..|s|] == s;
  }

  /**
    The due list holds an envelope exactly when it is queued and may be tried
    by now. It is sorted by creation, and a tie keeps the order of the directory.
   */
  lemma DueListIsRight(dir: seq<Envelope>, now: int, created: int)
    ensures var due := FilterDue(OldestFirst(dir), now);
      && Sorted(due)
      && Same(due, created) == FilterDue(Same(dir, created), now)
      && forall e :: e in due <==> e in dir && Due(e, now)
  {
    var sorted := OldestFirst(dir);
    OldestFirstSorted(dir);
    OldestFirstStable(dir, created);
    OldestFirstPermutes(dir);
    FilterSorted(sorted, now);
    FilterMembers(sorted, now);
    FilterSame(sorted, now, created);
    forall e ensures e in sorted <==> e in dir { assert e in sorted <==> e in multiset(sorted); }
  }

  // ----- the code -----

  /** The sorted front with x on its way down, at j, and the part of the array still to be sorted. */
  function Sinking(pre: seq<Envelope>, x: Envelope, j: nat, tail: seq<Envelope>): seq<Envelope>
    requires j <= |pre|
  {
    pre[..j] + [x] + pre[j..] + tail
  }

  lemma SinkingAt(pre: seq<Envelope>, x: Envelope, j: nat, tail: seq<Envelope>)
    requires j <= |pre|
    ensures var s := Sinking(pre, x, j, tail);
      && |s| == |pre| + 1 + |tail| && s[j] == x && (j > 0 ==> s[j - 1] == pre[j - 1])
      && (j > 0 ==> s[j := pre[j - 1]][j - 1 := x] == Sinking(pre, x, j - 1, tail))
  {
  }

  lemma SinkingEnds(pre: seq<Envelope>, x: Envelope, j: nat, tail: seq<Envelope>)
    requires j <= |pre|
    ensures var s := Sinking(pre, x, j, tail);
      s[..|pre| + 1] == pre[..j] + [x] + pre[j..] && s[|pre| + 1..] == tail
  {
    var front := pre[..j] + [x] + pre[j..];
    assert |front| == |pre| + 1 && Sinking(pre, x, j, tail) == front + tail;
  }

  method Swap(out: array<Envelope>, j: nat)
    requires 0 < j < out.Length
    modifies out
    ensures out[..] == old(out[..])[j := old(out[j - 1])][j - 1 := old(out[j])]
  {
    out[j], out[j - 1] := out[j - 1], out[j];
  }

  /** The inner loop: swap out[i] down until what is before it is not newer. */
  method SwapDown(out: array<Envelope>, i: nat) returns (j: nat)
    requires i < out.Length
    modifies out
    ensures j <= i && out[..] == Sinking(old(out[..i]), old(out[i]), j, old(out[i + 1..]))
    ensures j > 0 ==> old(out[j - 1]).created <= old(out[i]).created
    ensures forall m :: j <= m < i ==> old(out[i]).created < old(out[m]).created
  {
    ghost var pre, x, tail := out[..i], out[i], out[i + 1..];
    j := i;
    assert out[..] == Sinking(pre, x, i, tail);
    hide Sinking;
    SinkingAt(pre, x, i, tail);
    while j > 0 && out[j].created < out[j - 1].created
      invariant 0 <= j <= i && out[..] == Sinking(pre, x, j, tail)
      invariant out[..][j] == x && (j > 0 ==> out[..][j - 1] == pre[j - 1])
      invariant forall m :: j <= m < i ==> x.created < pre[m].created
    {
      assert out[j] == out[..][j] && out[j - 1] == out[..][j - 1] && x.created < pre[j - 1].created;
      SinkingAt(pre, x, j, tail);
      SinkingAt(pre, x, j - 1, tail);
      Swap(out, j);
      j := j - 1;
    }
  }

  /** One turn of the outer loop: out[i] goes behind everything not newer. */
  method Sink(out: array<Envelope>, i: nat)
    requires i < out.Length
    modifies out
    ensures out[..i + 1] == Insert(old(out[..i]), old(out[i]))
    ensures out[i + 1..] == old(out[i + 1..])
  {
    hide Sinking, Insert;
    ghost var pre, x, tail := out[..i], out[i], out[i + 1..];
    var j := SwapDown(out, i);
    InsertAt(pre, x, j);
    SinkingEnds(pre, x, j, tail);
    assert out[..i + 1] == out[..][..i + 1] && out[i + 1..] == out[..][i + 1..];
  }

  lemma {:induction false} InsertAt(pre: seq<Envelope>, x: Envelope, j: nat)
    requires j <= |pre| && (j > 0 ==> pre[j - 1].created <= x.created)
    requires forall m :: j <= m < |pre| ==> x.created < pre[m].created
    ensures Insert(pre, x) == pre[..j] + [x] + pre[j..]
    decreases |pre|
  {
    if j == |pre| {
      assert pre[..j] == pre && pre[j..] == [];
    } else {
      var n := |pre| - 1;
      InsertAt(pre[..n], x, j);
      assert pre[..n][..j] == pre[..j] && pre[j..] == pre[..n][j..] + [pre[n]];
    }
  }

  /** The insertion sort of load, in place. */
  method SortInPlace(out: array<Envelope>)
    modifies out
    ensures out[..] == OldestFirst(old(out[..]))
  {
    ghost var s := out[..];
    if out.Length == 0 { return; }
    assert OldestFirst(s[..1]) == [s[0]] by { assert s[..1][..0] == []; }
    for i := 1 to out.Length
      invariant out[..i] == OldestFirst(s[..i]) && out[i..] == s[i..]
    {
      assert s[..i + 1][..i] == s[..i];
      assert out[i] == out[i..][0] == s[i..][0] == s[i];
      assert out[i + 1..] == out[i..][1..] == s[i..][1..] == s[i + 1..];
      Sink(out, i);
    }
    assert out[..out.Length] == out[..] && s[..out.Length] == s;
  }

  /** Queue.Due after the directory is read: sort, then filter into the front of the same array. */
  method DueList(all: array<Envelope>, now: int) returns (due: seq<Envelope>)
    modifies all
    ensures due == FilterDue(OldestFirst(old(all[..])), now)
  {
    hide OldestFirst;
    SortInPlace(all);
    ghost var sorted := all[..];
    var k := 0;
    for i := 0 to all.Length
      invariant k <= i
      invariant all[..k] == FilterDue(sorted[..i], now)
      invariant forall m :: i <= m < all.Length ==> all[m] == sorted[m]
    {
      assert sorted[..i + 1][..i] == sorted[..i];
      ghost var before := all[..k];
      if all[i].nextAttempt <= now {
        all[k] := all[i];
        k := k + 1;
        assert all[..k] == before + [sorted[i]];
      }
    }
    assert sorted[..all.Length] == sorted;
    due := all[..k];
  }
}
