/** The parser object of a session: it walks pos along the line. */
module ParserCode {
  import opened Text
  import opened Parser

  ghost predicate Agrees(p: Parsed<Token>, r: Option<Token>, pos: nat) {
    match p
    case Ok(t, q) => r == Some(t) && pos == q
    case Err => r == None
  }

  class ArgParser {
    const line: string
    const readLiteral: Literals
    var pos: nat

    constructor (line: string, readLiteral: Literals)
      ensures this.line == line && this.readLiteral == readLiteral && pos == 0
    {
      this.line, this.readLiteral, pos := line, readLiteral, 0;
    }

    ghost predicate Valid()
      reads this
    {
      pos <= |line|
    }

    method Skip()
      requires Valid()
      modifies this
      ensures Valid() && pos == SkipSpace(line, old(pos))
    {
      while pos < |line| && line[pos] == ' '
        invariant Valid() && SkipSpace(line, pos) == SkipSpace(line, old(pos))
      {
        pos := pos + 1;
      }
    }

    /** It fails, or returns what the grammar says and strictly advances within the line. */
    method NextToken() returns (r: Option<Token>)
      requires Valid()
      modifies this
      ensures Valid() && Agrees(Next(line, old(pos), readLiteral), r, pos)
      ensures r.Some? ==> old(pos) < pos
      decreases |line| - pos, 1
    {
      Skip();
      if pos == |line| { return None; }
      match line[pos] {
        case '(' => r := List();
        case '"' => r := QuotedString();
        case '{' => r := Literal();
        case _ => r := AtomToken();
      }
    }

    method AtomToken() returns (r: Option<Token>)
      requires Valid()
      modifies this
      ensures Valid() && Agrees(ParseAtom(line, old(pos)), r, pos)
    {
      var start := pos;
      while pos < |line| && !IsDelimiter(line[pos])
        invariant start <= pos <= |line| && AtomEnd(line, pos) == AtomEnd(line, start)
      {
        pos := pos + 1;
      }
      if pos == start { return None; }
      r := Some(Str(line[start..pos]));
    }

    method QuotedString() returns (r: Option<Token>)
      requires pos < |line|
      modifies this
      ensures Valid() && Agrees(ParseQuoted(line, old(pos) + 1, ""), r, pos)
    {
      pos := pos + 1;
      var b := "";
      while pos < |line|
        invariant Valid() && ParseQuoted(line, pos, b) == ParseQuoted(line, old(pos) + 1, "")
      {
        var c := line[pos];
        if c == '\\' {
          if pos + 1 >= |line| { return None; }
          pos := pos + 1;
          b := b + [line[pos]];
          pos := pos + 1;
        } else if c == '"' {
          pos := pos + 1;
          return Some(Str(b));
        } else {
          b := b + [c];
          pos := pos + 1;
        }
      }
      r := None;
    }

    method Literal() returns (r: Option<Token>)
      requires pos < |line|
      modifies this
      ensures Valid() && Agrees(ParseLiteral(line, old(pos), readLiteral), r, pos)
    {
      var end := IndexByte(line[pos..], '}');
      if end == |line| - pos || readLiteral.None? { return None; }
      var spec := if end >= 1 then line[pos + 1..pos + end] else "";
      if spec != "" && spec[|spec| - 1] == '+' { spec := spec[..|spec| - 1]; }
      var n := Atoi(spec);
      if n.None? || n.value < 0 || n.value > MAX_LITERAL { return None; }
      pos := |line|;
      var s := readLiteral.value(n.value);
      if s.None? { return None; }
      r := Some(Str(s.value));
    }

    method List() returns (r: Option<Token>)
      requires pos < |line|
      modifies this
      ensures Valid() && Agrees(ParseItems(line, old(pos) + 1, [], readLiteral), r, pos)
      decreases |line| - pos, 0
    {
      pos := pos + 1;
      var out: seq<Token> := [];
      while true
        invariant old(pos) < pos <= |line|
        invariant ParseItems(line, pos, out, readLiteral) == ParseItems(line, old(pos) + 1, [], readLiteral)
        decreases |line| - pos
      {
        ghost var before := pos;
        Skip();
        if pos == |line| { return None; }
        if line[pos] == ')' {
          pos := pos + 1;
          return Some(Group(out));
        }
        assert SkipSpace(line, pos) == pos;
        var t := NextToken();
        if t.None? { return None; }
        out := out + [t.value];
      }
    }

    method AllTokens() returns (r: Option<seq<Token>>)
      requires Valid()
      modifies this
      ensures Valid()
      ensures match All(line, old(pos), [], readLiteral)
        case Ok(ts, q) => r == Some(ts) && pos == q
        case Err => r == None
    {
      var out: seq<Token> := [];
      while true
        invariant Valid() && All(line, pos, out, readLiteral) == All(line, old(pos), [], readLiteral)
        decreases |line| - pos
      {
        Skip();
        if pos == |line| { return Some(out); }
        assert SkipSpace(line, pos) == pos;
        var t := NextToken();
        if t.None? { return None; }
        out := out + [t.value];
      }
    }
  }

  lemma {:induction false} EscapeAppend(s: string, c: char)
    ensures Escape(s + [c]) == Escape(s) + Escape([c])
  {
    if s == "" {
      assert s + [c] == [c];
    } else {
      EscapeAppend(s[1..], c);
      assert (s + [c])[0] == s[0] && (s + [c])[1..] == s[1..] + [c];
      var head := if s[0] == '"' || s[0] == '\\' then ['\\', s[0]] else [s[0]];
      assert Escape(s + [c]) == head + (Escape(s[1..]) + Escape([c]));
    }
  }

  lemma QuotedAlone(s: string)
    ensures All(Quote(s), 0, [], None) == Ok([Str(s)], |Quote(s)|)
  {
    var ts := [Quoted(s)];
    ParserUndoesPrinter(ts, None);
    assert PrintAll(ts) == Print(ts[0]) + "" == Quote(s);
    assert DenoteAll(ts[1..]) == [] && DenoteAll(ts) == [Denote(ts[0])] + [] == [Str(s)];
  }

  /** quote: the text behind it reads back as exactly one string. */
  method QuoteString(s: string) returns (b: string)
    ensures b == Quote(s)
    ensures All(b, 0, [], None) == Ok([Str(s)], |b|)
  {
    b := "\"";
    for i := 0 to |s|
      invariant b == "\"" + Escape(s[..i])
    {
      EscapeAppend(s[..i], s[i]);
      assert s[..i + 1] == s[..i] + [s[i]];
      if s[i] == '"' || s[i] == '\\' { b := b + "\\"; }
      b := b + [s[i]];
    }
    assert s[..|s|] == s;
    b := b + "\"";
    QuotedAlone(s);
  }

  // ----- sequence sets -----

  /** "*" is stored as the largest uint32 and stands for max. */
  const STAR := TWO32 - 1

  datatype Range = Range(lo: nat, hi: nat)

  function Resolve(n: nat, max: nat): nat { if n == STAR then max else n }

  /** n lies between the two ends, whichever is larger. */
  predicate Covers(r: Range, n: nat, max: nat) {
    var a, b := Resolve(r.lo, max), Resolve(r.hi, max);
    a <= n <= b || b <= n <= a
  }

  method Contains(ranges: seq<Range>, n: nat, max: nat) returns (found: bool)
    ensures found <==> exists i :: 0 <= i < |ranges| && Covers(ranges[i], n, max)
  {
    for i := 0 to |ranges|
      invariant forall k :: 0 <= k < i ==> !Covers(ranges[k], n, max)
    {
      var lo, hi := ranges[i].lo, ranges[i].hi;
      if lo == STAR { lo := max; }
      if hi == STAR { hi := max; }
      if lo > hi { lo, hi := hi, lo; }
      if n >= lo && n <= hi {
        assert Covers(ranges[i], n, max);
        return true;
      }
    }
    return false;
  }
}
