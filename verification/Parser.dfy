/** The IMAP argument parser and the quoting printer, which undo each other. */
module Parser {
  import opened Text

  /** One parsed argument; atoms, quoted strings and literals all become strings. */
  datatype Token = Str(s: string) | Group(items: seq<Token>)

  /** A parse result and the position behind it. */
  datatype Parsed<T> = Ok(value: T, pos: nat) | Err

  /** How the session reads a literal of n bytes; None when the parser has no connection. */
  type Literals = Option<nat -> Option<string>>

  // ----- the grammar as functions of line and position -----

  function SkipSpace(line: string, pos: nat): (p: nat)
    requires pos <= |line|
    ensures pos <= p <= |line|
    ensures p < |line| ==> line[p] != ' '
    decreases |line| - pos
  {
    if pos < |line| && line[pos] == ' ' then SkipSpace(line, pos + 1) else pos
  }

  predicate IsDelimiter(c: char) { c == ' ' || c == '(' || c == ')' }

  function AtomEnd(line: string, pos: nat): (p: nat)
    requires pos <= |line|
    ensures pos <= p <= |line|
    decreases |line| - pos
  {
    if pos < |line| && !IsDelimiter(line[pos]) then AtomEnd(line, pos + 1) else pos
  }

  function ParseAtom(line: string, pos: nat): (r: Parsed<Token>)
    requires pos <= |line|
    ensures r.Ok? ==> pos < r.pos <= |line|
  {
    var end := AtomEnd(line, pos);
    if end == pos then Err else Ok(Str(line[pos..end]), end)
  }

  /** Behind the opening quote, with b read so far. */
  function ParseQuoted(line: string, pos: nat, b: string): (r: Parsed<Token>)
    requires pos <= |line|
    ensures r.Ok? ==> pos < r.pos <= |line|
    decreases |line| - pos
  {
    if pos == |line| then Err
    else if line[pos] == '\\' then
      if pos + 1 == |line| then Err else ParseQuoted(line, pos + 2, b + [line[pos + 1]])
    else if line[pos] == '"' then Ok(Str(b), pos + 1)
    else ParseQuoted(line, pos + 1, b + [line[pos]])
  }

  /** strconv.Atoi, up to its overflow error. */
  function Atoi(s: string): Option<int> {
    var digits := if s != "" && (s[0] == '+' || s[0] == '-') then s[1..] else s;
    if digits == "" || !AllDigits(digits) then None
    else if s[0] == '-' then Some(-(DigitsValue(digits) as int)) else Some(DigitsValue(digits))
  }

  const MAX_LITERAL := 64 * 1024 * 1024

  /** At the opening brace. Whatever follows it, a literal uses up the line. */
  function ParseLiteral(line: string, pos: nat, lit: Literals): (r: Parsed<Token>)
    requires pos < |line|
    ensures r.Ok? ==> pos < r.pos == |line|
  {
    var end := IndexByte(line[pos..], '}');
    if end == |line| - pos || lit.None? then Err
    else
      var spec := if end >= 1 then line[pos + 1..pos + end] else "";
      var size := if spec != "" && spec[|spec| - 1] == '+' then spec[..|spec| - 1] else spec;
      match Atoi(size)
      case None => Err
      case Some(n) =>
        if n < 0 || n > MAX_LITERAL then Err
        else match lit.value(n)
             case None => Err
             case Some(s) => Ok(Str(s), |line|)
  }

  /** parser.next: it fails or strictly advances within the line. */
  function Next(line: string, pos: nat, lit: Literals): (r: Parsed<Token>)
    requires pos <= |line|
    ensures r.Ok? ==> pos < r.pos <= |line|
    decreases |line| - pos, 0
  {
    var p := SkipSpace(line, pos);
    if p == |line| then Err
    else if line[p] == '(' then ParseItems(line, p + 1, [], lit)
    else if line[p] == '"' then ParseQuoted(line, p + 1, "")
    else if line[p] == '{' then ParseLiteral(line, p, lit)
    else ParseAtom(line, p)
  }

  /** parser.parseList behind the opening parenthesis, with out read so far. */
  function ParseItems(line: string, pos: nat, out: seq<Token>, lit: Literals): (r: Parsed<Token>)
    requires pos <= |line|
    ensures r.Ok? ==> pos < r.pos <= |line|
    decreases |line| - pos, 1
  {
    var p := SkipSpace(line, pos);
    if p == |line| then Err
    else if line[p] == ')' then Ok(Group(out), p + 1)
    else match Next(line, p, lit)
         case Err => Err
         case Ok(t, q) => ParseItems(line, q, out + [t], lit)
  }

  /** parser.all. */
  function All(line: string, pos: nat, out: seq<Token>, lit: Literals): Parsed<seq<Token>>
    requires pos <= |line|
    decreases |line| - pos
  {
    var p := SkipSpace(line, pos);
    if p == |line| then Ok(out, p)
    else match Next(line, p, lit)
         case Err => Err
         case Ok(t, q) => All(line, q, out + [t], lit)
  }

  // ----- the printer -----

  function Escape(s: string): string {
    if s == "" then ""
    else (if s[0] == '"' || s[0] == '\\' then ['\\', s[0]] else [s[0]]) + Escape(s[1..])
  }

  function Quote(s: string): string { "\"" + Escape(s) + "\"" }

  /** What a client may write down. */
  datatype Tree = Atom(s: string) | Quoted(s: string) | Parens(items: seq<Tree>)

  predicate IsAtom(s: string) {
    && s != "" && s[0] != '"' && s[0] != '{'
    && forall i :: 0 <= i < |s| ==> !IsDelimiter(s[i])
  }

  ghost predicate Printable(t: Tree) {
    match t
    case Atom(s) => IsAtom(s)
    case Quoted(_) => true
    case Parens(items) => forall i :: 0 <= i < |items| ==> Printable(items[i])
  }

  function Print(t: Tree): (r: string)
    decreases t, 0
  {
    match t
    case Atom(s) => s
    case Quoted(s) => Quote(s)
    case Parens(items) => "(" + PrintAll(items) + ")"
  }

  /** Arguments separated by single spaces. */
  function PrintAll(ts: seq<Tree>): string
    decreases ts, 1
  {
    if ts == [] then "" else Print(ts[0]) + (if |ts| == 1 then "" else " " + PrintAll(ts[1..]))
  }

  function Denote(t: Tree): Token
    decreases t, 0
  {
    match t
    case Atom(s) => Str(s)
    case Quoted(s) => Str(s)
    case Parens(items) => Group(DenoteAll(items))
  }

  function DenoteAll(ts: seq<Tree>): seq<Token>
    decreases ts, 1
  {
    if ts == [] then [] else [Denote(ts[0])] + DenoteAll(ts[1..])
  }

  // ----- parsing undoes printing -----

  ghost predicate EndsToken(rest: string) { rest == "" || IsDelimiter(rest[0]) }

  lemma {:induction false} AtomEndsAt(line: string, pos: nat, s: string, rest: string)
    requires pos <= |line| && line[pos..] == s + rest && EndsToken(rest)
    requires forall i :: 0 <= i < |s| ==> !IsDelimiter(s[i])
    ensures AtomEnd(line, pos) == pos + |s|
    decreases |s|
  {
    if s == "" {
      assert rest != "" ==> line[pos] == line[pos..][0] == rest[0];
    } else {
      assert line[pos] == line[pos..][0] == s[0];
      assert line[pos + 1..] == line[pos..][1..] == s[1..] + rest;
      AtomEndsAt(line, pos + 1, s[1..], rest);
    }
  }

  lemma {:induction false} QuotedReadsBack(line: string, pos: nat, b: string, s: string, rest: string)
    requires pos <= |line| && line[pos..] == Escape(s) + "\"" + rest
    ensures ParseQuoted(line, pos, b) == Ok(Str(b + s), pos + |Escape(s)| + 1)
    decreases |s|
  {
    if s == "" {
      assert line[pos] == line[pos..][0] == '"';
      assert b + s == b;
    } else if s[0] == '"' || s[0] == '\\' {
      assert Escape(s) == ['\\', s[0]] + Escape(s[1..]);
      assert line[pos] == line[pos..][0] == '\\' && line[pos + 1] == line[pos..][1] == s[0];
      assert line[pos + 2..] == line[pos..][2..] == Escape(s[1..]) + "\"" + rest;
      QuotedReadsBack(line, pos + 2, b + [s[0]], s[1..], rest);
      assert b + [s[0]] + s[1..] == b + s;
    } else {
      assert Escape(s) == [s[0]] + Escape(s[1..]);
      assert line[pos] == line[pos..][0] == s[0];
      assert line[pos + 1..] == line[pos..][1..] == Escape(s[1..]) + "\"" + rest;
      QuotedReadsBack(line, pos + 1, b + [s[0]], s[1..], rest);
      assert b + [s[0]] + s[1..] == b + s;
    }
  }

  lemma PrintStarts(t: Tree)
    requires Printable(t)
    ensures Print(t) != "" && Print(t)[0] != ' ' && Print(t)[0] != ')'
  {
  }

  lemma AtomReadsBack(line: string, pos: nat, s: string, rest: string, lit: Literals)
    requires IsAtom(s) && EndsToken(rest) && pos <= |line| && line[pos..] == s + rest
    ensures Next(line, pos, lit) == Ok(Str(s), pos + |s|)
  {
    Advance(line, pos, s, rest);
    AtomEndsAt(line, pos, s, rest);
    assert line[pos..pos + |s|] == line[pos..][..|s|] == s;
  }

  lemma QuoteReadsBack(line: string, pos: nat, s: string, rest: string, lit: Literals)
    requires pos <= |line| && line[pos..] == Quote(s) + rest
    ensures Next(line, pos, lit) == Ok(Str(s), pos + |Quote(s)|)
  {
    assert Quote(s) + rest == "\"" + (Escape(s) + "\"" + rest);
    Advance(line, pos, "\"", Escape(s) + "\"" + rest);
    QuotedReadsBack(line, pos + 1, "", s, rest);
    assert "" + s == s;
  }

  /** A printed tree followed by the end of a token is read back and consumed exactly. */
  lemma {:induction false} NextReadsBack(line: string, pos: nat, t: Tree, rest: string, lit: Literals)
    requires Printable(t) && EndsToken(rest)
    requires pos <= |line| && line[pos..] == Print(t) + rest
    ensures Next(line, pos, lit) == Ok(Denote(t), pos + |Print(t)|)
    decreases t, 0
  {
    match t
    case Atom(s) => AtomReadsBack(line, pos, s, rest, lit);
    case Quoted(s) => QuoteReadsBack(line, pos, s, rest, lit);
    case Parens(items) =>
      assert Print(t) + rest == "(" + (PrintAll(items) + (")" + rest));
      Advance(line, pos, "(", PrintAll(items) + (")" + rest));
      ItemsReadBack(line, pos + 1, [], items, rest, lit);
      assert [] + DenoteAll(items) == DenoteAll(items);
  }

  /** What follows the first of several printed trees. */
  function Behind(ts: seq<Tree>): string
    requires ts != []
  {
    if |ts| == 1 then "" else " " + PrintAll(ts[1..])
  }

  lemma Advance(line: string, pos: nat, head: string, tail: string)
    requires pos <= |line| && line[pos..] == head + tail
    ensures pos + |head| <= |line| && line[pos + |head|..] == tail
    ensures head != "" ==> line[pos] == head[0]
  {
    assert |line[pos..]| == |line| - pos;
    assert line[pos + |head|..] == line[pos..][|head|..];
    if head != "" { assert line[pos] == line[pos..][0]; }
  }

  lemma SkipOne(line: string, pos: nat, out: seq<Token>, lit: Literals)
    requires pos < |line| && line[pos] == ' '
    ensures ParseItems(line, pos, out, lit) == ParseItems(line, pos + 1, out, lit)
    ensures All(line, pos, out, lit) == All(line, pos + 1, out, lit)
  {
    assert SkipSpace(line, pos) == SkipSpace(line, pos + 1);
  }

  lemma TakeOne(line: string, pos: nat, out: seq<Token>, t: Token, q: nat, lit: Literals)
    requires pos < |line| && line[pos] != ' ' && line[pos] != ')' && Next(line, pos, lit) == Ok(t, q)
    ensures ParseItems(line, pos, out, lit) == ParseItems(line, q, out + [t], lit)
    ensures All(line, pos, out, lit) == All(line, q, out + [t], lit)
  {
    assert SkipSpace(line, pos) == pos;
  }

  lemma DenoteFirst(out: seq<Token>, ts: seq<Tree>)
    requires ts != []
    ensures out + [Denote(ts[0])] + DenoteAll(ts[1..]) == out + DenoteAll(ts)
  {
  }

  /** Where the line continues behind the first printed tree and the space after it. */
  lemma FirstLayout(line: string, pos: nat, ts: seq<Tree>, tail: string) returns (q: nat)
    requires ts != [] && Printable(ts[0]) && pos <= |line| && line[pos..] == PrintAll(ts) + tail
    ensures pos < |line| && line[pos] != ' ' && line[pos] != ')'
    ensures q <= |line| && line[q..] == PrintAll(ts[1..]) + tail
    ensures q + |PrintAll(ts[1..])| == pos + |PrintAll(ts)|
    ensures var p := pos + |Print(ts[0])|; q == p || (q == p + 1 && line[p] == ' ')
  {
    PrintStarts(ts[0]);
    assert |ts| == 1 ==> ts[1..] == [];
    q := HeadLayout(line, pos, Print(ts[0]), |ts| > 1, PrintAll(ts[1..]), tail);
  }

  lemma HeadLayout(line: string, pos: nat, head: string, more: bool, rest: string, tail: string) returns (q: nat)
    requires head != "" && pos <= |line| && (!more ==> rest == "")
    requires line[pos..] == head + (if more then " " + rest else "") + tail
    ensures pos < |line| && line[pos] == head[0]
    ensures q <= |line| && line[q..] == rest + tail
    ensures q == pos + |head| + if more then 1 else 0
    ensures more ==> line[pos + |head|] == ' '
  {
    q := pos + |head|;
    if more {
      assert line[pos..] == head + (" " + (rest + tail));
      Advance(line, pos, head, " " + (rest + tail));
      Advance(line, q, " ", rest + tail);
      q := q + 1;
    } else {
      assert line[pos..] == head + (rest + tail);
      Advance(line, pos, head, rest + tail);
    }
  }

  /** Both loops take one token and the space behind it off the line. */
  lemma FirstRead(line: string, pos: nat, out: seq<Token>, t: Token, p: nat, q: nat, lit: Literals)
    requires pos < |line| && line[pos] != ' ' && line[pos] != ')' && Next(line, pos, lit) == Ok(t, p)
    requires q == p || (q == p + 1 && p < |line| && line[p] == ' ')
    ensures ParseItems(line, pos, out, lit) == ParseItems(line, q, out + [t], lit)
    ensures All(line, pos, out, lit) == All(line, q, out + [t], lit)
  {
    TakeOne(line, pos, out, t, p, lit);
    if q != p { SkipOne(line, p, out + [t], lit); }
  }

  lemma FirstNext(line: string, pos: nat, ts: seq<Tree>, tail: string, lit: Literals)
    requires ts != [] && Printable(ts[0]) && EndsToken(tail) && pos <= |line| && line[pos..] == PrintAll(ts) + tail
    ensures Next(line, pos, lit) == Ok(Denote(ts[0]), pos + |Print(ts[0])|)
    decreases ts, 0
  {
    assert PrintAll(ts) + tail == Print(ts[0]) + (Behind(ts) + tail);
    NextReadsBack(line, pos, ts[0], Behind(ts) + tail, lit);
  }

  lemma {:induction false} ItemsReadBack(
    line: string, pos: nat, out: seq<Token>, items: seq<Tree>, rest: string, lit: Literals)
    requires forall i :: 0 <= i < |items| ==> Printable(items[i])
    requires pos <= |line| && line[pos..] == PrintAll(items) + (")" + rest)
    ensures ParseItems(line, pos, out, lit) == Ok(Group(out + DenoteAll(items)), pos + |PrintAll(items)| + 1)
    decreases items, 1
  {
    if items == [] {
      assert line[pos..] == ")" + rest;
      Advance(line, pos, ")", rest);
      assert out + [] == out;
    } else {
      FirstNext(line, pos, items, ")" + rest, lit);
      var q := FirstLayout(line, pos, items, ")" + rest);
      FirstRead(line, pos, out, Denote(items[0]), pos + |Print(items[0])|, q, lit);
      ItemsReadBack(line, q, out + [Denote(items[0])], items[1..], rest, lit);
      DenoteFirst(out, items);
    }
  }

  lemma {:induction false} AllReadsBack(line: string, pos: nat, out: seq<Token>, ts: seq<Tree>, lit: Literals)
    requires forall i :: 0 <= i < |ts| ==> Printable(ts[i])
    requires pos <= |line| && line[pos..] == PrintAll(ts) + ""
    ensures All(line, pos, out, lit) == Ok(out + DenoteAll(ts), |line|)
    decreases |ts|
  {
    if ts == [] {
      assert |line[pos..]| == 0 && out + [] == out;
    } else {
      FirstNext(line, pos, ts, "", lit);
      var q := FirstLayout(line, pos, ts, "");
      FirstRead(line, pos, out, Denote(ts[0]), pos + |Print(ts[0])|, q, lit);
      AllReadsBack(line, q, out + [Denote(ts[0])], ts[1..], lit);
      DenoteFirst(out, ts);
    }
  }

  /** Any trees printed with spaces, parentheses and quote come back from all(), whatever their bytes. */
  lemma ParserUndoesPrinter(ts: seq<Tree>, lit: Literals)
    requires forall i :: 0 <= i < |ts| ==> Printable(ts[i])
    ensures All(PrintAll(ts), 0, [], lit) == Ok(DenoteAll(ts), |PrintAll(ts)|)
  {
    var line := PrintAll(ts);
    assert line[0..] == line + "" && [] + DenoteAll(ts) == DenoteAll(ts);
    AllReadsBack(line, 0, [], ts, lit);
  }
}
