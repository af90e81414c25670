/** The LIST wildcards, told by how a name can be cut along a pattern. */
module Wildcard {

  /** What one pattern character may stand for. */
  predicate PieceOk(c: char, piece: string) {
    if c == '*' then true
    else if c == '%' then '.' !in piece
    else piece == [c]
  }

  function Flatten(parts: seq<string>): string {
    if parts == [] then "" else parts[0] + Flatten(parts[1..])
  }

  /** parts cuts s into one piece per pattern character, each of the kind it allows. */
  ghost predicate Cut(pat: string, s: string, parts: seq<string>) {
    && |parts| == |pat| && Flatten(parts) == s
    && forall i :: 0 <= i < |pat| ==> PieceOk(pat[i], parts[i])
  }

  /** Section 6.3.8 of RFC 3501: s can be cut along the pattern. */
  ghost predicate Matches(pat: string, s: string) { exists parts :: Cut(pat, s, parts) }

  ghost predicate FirstPiece(pat: string, s: string, j: int) {
    pat != "" && 0 <= j <= |s| && PieceOk(pat[0], s[..j]) && Matches(pat[1..], s[j..])
  }

  lemma MatchesEmpty(s: string)
    ensures Matches("", s) <==> s == ""
  {
    if s == "" { assert Cut("", "", []); }
  }

  /** A non-empty pattern matches exactly by choosing the length of its first piece. */
  lemma MatchesFirst(pat: string, s: string)
    requires pat != ""
    ensures Matches(pat, s) <==> exists j :: FirstPiece(pat, s, j)
  {
    if Matches(pat, s) {
      var parts :| Cut(pat, s, parts);
      var j := |parts[0]|;
      assert s[..j] == parts[0] && s[j..] == Flatten(parts[1..]);
      assert Cut(pat[1..], s[j..], parts[1..]);
      assert FirstPiece(pat, s, j);
    }
    if j :| FirstPiece(pat, s, j) {
      var rest :| Cut(pat[1..], s[j..], rest);
      var parts := [s[..j]] + rest;
      assert parts[1..] == rest && s == s[..j] + s[j..];
      assert Cut(pat, s, parts);
    }
  }

  /** A literal consumes itself. */
  lemma MatchesLiteral(pat: string, s: string)
    requires pat != "" && pat[0] != '*' && pat[0] != '%'
    ensures Matches(pat, s) <==> s != "" && s[0] == pat[0] && Matches(pat[1..], s[1..])
  {
    MatchesFirst(pat, s);
    if Matches(pat, s) {
      var j :| FirstPiece(pat, s, j);
      assert s[..j] == [pat[0]] && j == 1;
    }
    if s != "" && s[0] == pat[0] && Matches(pat[1..], s[1..]) { assert FirstPiece(pat, s, 1); }
  }

  /** wildcard is sound and complete. */
  method Match(pat: string, s0: string) returns (r: bool)
    ensures r <==> Matches(pat, s0)
    decreases |pat|
  {
    var s := s0;
    for i := 0 to |pat|
      invariant Matches(pat, s0) <==> Matches(pat[i..], s)
    {
      var tail := pat[i..];
      assert tail[1..] == pat[i + 1..];
      if pat[i] == '*' || pat[i] == '%' {
        MatchesFirst(tail, s);
        if pat[i] == '*' && i == |pat| - 1 {
          MatchesEmpty("");
          assert tail[1..] == "" && s[|s|..] == "";
          assert FirstPiece(tail, s, |s|);
          return true;
        }
        for j := 0 to |s| + 1
          invariant forall k :: 0 <= k < j ==> !FirstPiece(tail, s, k)
          invariant pat[i] == '%' ==> forall k :: 0 <= k < j - 1 ==> s[k] != '.'
        {
          if pat[i] == '%' && '.' in s[..j] {
            assert forall k :: j <= k <= |s| ==> s[..j] == s[..k][..j];
            return false;
          }
          var sub := Match(pat[i + 1..], s[j..]);
          if sub {
            assert FirstPiece(tail, s, j);
            return true;
          }
        }
        return false;
      }
      MatchesLiteral(tail, s);
      if s == "" || s[0] != pat[i] { return false; }
      s := s[1..];
    }
    assert pat[|pat|..] == "";
    MatchesEmpty(s);
    return s == "";
  }

  function Loosen(pat: string): (r: string)
    ensures |r| == |pat| && forall i :: 0 <= i < |r| ==> r[i] == if pat[i] == '%' then '*' else pat[i]
  {
    seq(|pat|, i requires 0 <= i < |pat| => if pat[i] == '%' then '*' else pat[i])
  }

  /** Replacing '%' by '*' never loses a match, and adds none when s has no delimiter. */
  lemma LoosenKeepsMatches(pat: string, s: string)
    ensures Matches(pat, s) ==> Matches(Loosen(pat), s)
    ensures '.' !in s ==> (Matches(Loosen(pat), s) <==> Matches(pat, s))
  {
    if Matches(pat, s) {
      var parts :| Cut(pat, s, parts);
      assert Cut(Loosen(pat), s, parts);
    }
    if '.' !in s && Matches(Loosen(pat), s) {
      var parts :| Cut(Loosen(pat), s, parts);
      PiecesWithin(parts);
      assert Cut(pat, s, parts);
    }
  }

  lemma {:induction false} PiecesWithin(parts: seq<string>)
    ensures forall i, c :: 0 <= i < |parts| && c in parts[i] ==> c in Flatten(parts)
  {
    if parts != [] { PiecesWithin(parts[1..]); }
  }
}
