/** Maildir file names: a stable base name and the flags written after it. */
module Flags {
  import opened Text
  import opened Sorting

  const KNOWN := "DFPRST"
  const DELETED := 'T'
  const SEEN := 'S'
  const INFO_SEP := ":2,"

  ghost predicate SepAt(s: string, i: int) {
    0 <= i && i + 3 <= |s| && s[i] == ':' && s[i + 1] == '2' && s[i + 2] == ','
  }

  ghost predicate NoSep(s: string) { forall i :: !SepAt(s, i) }

  /** strings.Index(s, infoSep). */
  function SepIndex(s: string): (r: Option<nat>)
    ensures r.Some? ==> r.value + 3 <= |s|
  {
    if |s| < 3 then None
    else if s[0] == ':' && s[1] == '2' && s[2] == ',' then Some(0)
    else match SepIndex(s[1..])
         case Some(i) => Some(i + 1)
         case None => None
  }

  /** It is the first position of the separator, if there is one. */
  lemma {:induction false} SepIndexFacts(s: string)
    ensures match SepIndex(s)
      case Some(i) => SepAt(s, i) && forall k :: k < i ==> !SepAt(s, k)
      case None => NoSep(s)
  {
    if |s| >= 3 && !(s[0] == ':' && s[1] == '2' && s[2] == ',') {
      SepIndexFacts(s[1..]);
      assert forall k :: SepAt(s, k) ==> SepAt(s[1..], k - 1);
      assert forall k :: SepAt(s[1..], k) ==> SepAt(s, k + 1);
    }
  }

  /** The name without its flag part. */
  function BaseName(name: string): string {
    match SepIndex(name)
    case Some(i) => name[..i]
    case None => name
  }

  lemma BaseNameNoSep(name: string)
    ensures NoSep(BaseName(name)) && BaseName(name) <= name
  {
    SepIndexFacts(name);
    var b := BaseName(name);
    assert forall k :: SepAt(b, k) ==> SepAt(name, k);
  }

  function FileName(base: string, f: string): string { base + INFO_SEP + f }

  /** The known flags that occur in s, in file-name order. */
  function Pick(known: string, s: string): string {
    if known == "" then ""
    else (if known[0] in s then [known[0]] else "") + Pick(known[1..], s)
  }

  lemma {:induction false} PickMembers(known: string, s: string)
    ensures forall c :: c in Pick(known, s) <==> c in known && c in s
  {
    if known != "" { PickMembers(known[1..], s); }
  }

  function Canon(s: string): string { Pick(KNOWN, s) }

  ghost predicate Canonical(f: string) { Canon(f) == f }

  /** The flags a file name carries. */
  function FlagsOf(name: string): string {
    match SepIndex(name)
    case Some(i) => Canon(name[i + 3..])
    case None => ""
  }

  /** Only membership matters for the canonical form. */
  lemma {:induction false} PickCongruent(known: string, s: string, t: string)
    requires forall c :: c in known ==> (c in s <==> c in t)
    ensures Pick(known, s) == Pick(known, t)
  {
    if known != "" { PickCongruent(known[1..], s, t); }
  }

  lemma CanonIdempotent(s: string)
    ensures Canonical(Canon(s))
  {
    PickMembers(KNOWN, s);
    PickCongruent(KNOWN, Canon(s), s);
  }

  /** The flags read from a name are canonical. */
  lemma FlagsOfCanonical(name: string)
    ensures Canonical(FlagsOf(name))
  {
    match SepIndex(name)
    case Some(i) => CanonIdempotent(name[i + 3..]);
    case None => PickNothing(KNOWN);
  }

  lemma {:induction false} PickNothing(known: string)
    ensures Pick(known, "") == ""
  {
    if known != "" { PickNothing(known[1..]); }
  }

  /**
    Writing flags behind a base name and reading the name back returns the
    base exactly when the base does not contain the separator itself, and then
    the flags come back in canonical form.
   */
  lemma FileNameRoundTrip(base: string, f: string)
    ensures BaseName(FileName(base, f)) == base <==> NoSep(base)
    ensures NoSep(base) ==> FlagsOf(FileName(base, f)) == Canon(f)
  {
    var name := FileName(base, f);
    assert SepAt(name, |base|) && name[|base|] == ':';
    BaseNameNoSep(name);
    SepIndexFacts(name);
    if NoSep(base) {
      forall k | k < |base| ensures !SepAt(name, k) {
        assert SepAt(name, k) && k + 3 <= |base| ==> SepAt(base, k);
      }
      assert SepIndex(name) == Some(|base|);
      assert name[..|base|] == base && name[|base| + 3..] == f;
    }
  }

  /** A name carries exactly the letters D, F, P, R, S and T that stand behind its first separator. */
  lemma FlagsAreLetters(base: string, f: string)
    requires NoSep(base)
    ensures forall c :: c in FlagsOf(base + ":2," + f) <==> c in f && (c == 'D' || c == 'F' || c == 'P' || c == 'R' || c == 'S' || c == 'T')
    ensures FlagsOf(base) == ""
  {
    FileNameRoundTrip(base, f);
    PickMembers(KNOWN, f);
    SepIndexFacts(base);
  }

  ghost predicate StrictlyAscending(s: string) { forall i, j :: 0 <= i < j < |s| ==> s[i] < s[j] }

  lemma {:induction false} PickSorted(known: string, f: string)
    requires StrictlyAscending(known) && StrictlyAscending(f)
    requires forall c :: c in f ==> c in known
    ensures Pick(known, f) == f
  {
    assert f == "" || f[0] in known;
    if known == "" {
    } else if known[0] in f {
      assert f[0] == known[0] by { assert f[0] in f; assert f[0] in known; }
      forall c | c in f[1..] ensures c in known[1..] { assert c in f; }
      PickSorted(known[1..], f[1..]);
      PickCongruent(known[1..], f, f[1..]);
      assert f == [f[0]] + f[1..];
    } else {
      forall c | c in f ensures c in known[1..] { assert c in known; }
      PickSorted(known[1..], f);
    }
  }

  /** Sorting distinct known flags gives the canonical sequence of their set. */
  method SortFlags(f: string) returns (r: string)
    requires Distinct(f) && forall c :: c in f ==> c in KNOWN
    ensures r == Canon(f)
  {
    r := SortBy(f, (c: char) => c as int);
    SameMembers(f, r);
    DistinctPermutation(f, r);
    PickSorted(KNOWN, r);
    PickCongruent(KNOWN, r, f);
  }

  method ParseFlags(name: string) returns (f: string)
    ensures f == FlagsOf(name)
  {
    var i := SepIndex(name);
    if i.None? { return ""; }
    var tail := name[i.value + 3..];
    f := "";
    for k := 0 to |tail|
      invariant Distinct(f) && forall c :: c in f <==> c in KNOWN && c in tail[..k]
    {
      assert tail[..k + 1] == tail[..k] + [tail[k]];
      if tail[k] in KNOWN && tail[k] !in f {
        f := f + [tail[k]];
      }
    }
    assert tail[..|tail|] == tail;
    PickCongruent(KNOWN, f, tail);
    f := SortFlags(f);
  }

  /** Flags.Add: the canonical form of the set with x. */
  method Add(f: string, x: char) returns (r: string)
    requires Canonical(f) && x in KNOWN
    ensures r == Canon(f + [x])
  {
    if x in f {
      PickCongruent(KNOWN, f, f + [x]);
      return f;
    }
    CanonDistinct(f);
    PickMembers(KNOWN, f);
    r := SortFlags(f + [x]);
  }

  lemma CanonDistinct(f: string)
    requires Canonical(f)
    ensures Distinct(f)
  {
    PickAscending(KNOWN, f);
  }

  lemma {:induction false} PickAscending(known: string, s: string)
    requires StrictlyAscending(known)
    ensures StrictlyAscending(Pick(known, s))
  {
    if known != "" {
      PickAscending(known[1..], s);
      PickMembers(known[1..], s);
      var r := Pick(known[1..], s);
      forall j | 0 <= j < |r| ensures known[0] < r[j] { assert r[j] in known[1..]; }
    }
  }

  lemma CanonicalPart(f: string, r: string)
    requires Canonical(f) && StrictlyAscending(r) && forall c :: c in r ==> c in f
    ensures Canonical(r)
  {
    PickMembers(KNOWN, f);
    PickSorted(KNOWN, r);
  }

  /** Flags.Remove: the same flags without x, still canonical. */
  method Remove(f: string, x: char) returns (r: string)
    requires Canonical(f)
    ensures Canonical(r) && forall c :: c in r <==> c in f && c != x
  {
    PickAscending(KNOWN, f);
    r := RemoveFrom(f, x);
    CanonicalPart(f, r);
  }

  method RemoveFrom(f: string, x: char) returns (r: string)
    requires StrictlyAscending(f)
    ensures StrictlyAscending(r) && forall c :: c in r <==> c in f && c != x
  {
    r := "";
    for k := 0 to |f|
      invariant forall c :: c in r <==> c in f[..k] && c != x
      invariant StrictlyAscending(r) && forall i :: 0 <= i < |r| && k < |f| ==> r[i] < f[k]
    {
      assert f[..k + 1] == f[..k] + [f[k]];
      if f[k] != x { r := r + [f[k]]; }
    }
    assert f[..|f|] == f;
  }
}
