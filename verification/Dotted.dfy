/** Multi-line POP3 responses: dot-stuffing and the reader that undoes it. */
module Dotted {
  import opened Text

  // ----- strings.Split and Join on line feeds -----

  function SplitLF(s: string): (lines: seq<string>)
    ensures |lines| >= 1
    decreases |s|
  {
    var i := IndexByte(s, '\n');
    if i == |s| then [s] else [s[..i]] + SplitLF(s[i + 1..])
  }

  function JoinLF(lines: seq<string>): string
    requires |lines| >= 1
  {
    if |lines| == 1 then lines[0] else lines[0] + "\n" + JoinLF(lines[1..])
  }

  ghost predicate NoLF(lines: seq<string>) { forall i :: 0 <= i < |lines| ==> '\n' !in lines[i] }

  lemma {:induction false} SplitNoLF(s: string)
    ensures NoLF(SplitLF(s))
    decreases |s|
  {
    var i := IndexByte(s, '\n');
    if i == |s| {
      assert s[..i] == s;
    } else {
      SplitNoLF(s[i + 1..]);
      NoLFMore(s[..i], SplitLF(s[i + 1..]));
    }
  }

  lemma NoLFMore(line: string, lines: seq<string>)
    requires '\n' !in line && NoLF(lines)
    ensures NoLF([line] + lines)
  {
  }

  /** Splitting joined lines returns the lines. */
  lemma {:induction false} SplitJoin(lines: seq<string>)
    requires |lines| >= 1 && NoLF(lines)
    ensures SplitLF(JoinLF(lines)) == lines
  {
    var s := JoinLF(lines);
    if |lines| == 1 {
      assert IndexByte(s, '\n') == |s| && lines == [lines[0]];
    } else {
      IndexByteAfter(lines[0], '\n', JoinLF(lines[1..]));
      assert s == lines[0] + ['\n'] + JoinLF(lines[1..]);
      assert s[..|lines[0]|] == lines[0] && s[|lines[0]| + 1..] == JoinLF(lines[1..]);
      SplitJoin(lines[1..]);
      assert lines == [lines[0]] + lines[1..];
    }
  }

  function DropCRs(lines: seq<string>): (r: seq<string>)
    ensures |r| == |lines| && forall i :: 0 <= i < |r| ==> r[i] == DropCR(lines[i])
  {
    seq(|lines|, i requires 0 <= i < |lines| => DropCR(lines[i]))
  }

  // ----- the writer -----

  /** One line on the wire. */
  function Stuff(line: string): string { (if "." <= line then "." else "") + line + "\r\n" }

  function StuffAll(lines: seq<string>): string {
    if lines == [] then "" else Stuff(lines[0]) + StuffAll(lines[1..])
  }

  /** The lines of a block as the writer sends them. */
  function Lines(block: string): seq<string> { DropCRs(SplitLF(block)) }

  /** Position of the first blank line, |s| if none: strings.Cut at CRLFCRLF. */
  function BlankLine(s: string): (i: nat)
    ensures i <= |s|
    ensures i < |s| ==> i + 4 <= |s|
  {
    if |s| < 4 then |s|
    else if s[..4] == "\r\n\r\n" then 0
    else 1 + BlankLine(s[1..])
  }

  function HeaderOf(data: string): string { data[..BlankLine(data)] }

  function BodyOf(data: string): string { if BlankLine(data) == |data| then "" else data[BlankLine(data) + 4..] }

  /** The body lines a limit lets through; a negative limit is none. */
  function Limited(lines: seq<string>, limit: int): seq<string> {
    if limit > 0 && |lines| > limit then lines[..limit] else lines
  }

  /** What the client is meant to read. */
  function Content(data: string, limit: int): seq<string> {
    Lines(HeaderOf(data)) + if limit == 0 then [] else [""] + DropCRs(Limited(SplitLF(BodyOf(data)), limit))
  }

  function WriteDotted(data: string, limit: int): string { StuffAll(Content(data, limit)) + ".\r\n" }

  // ----- the reader -----

  /** Position of the first CRLF, |s| if none. */
  function LineEnd(s: string): (i: nat)
    ensures i <= |s|
    ensures i < |s| ==> i + 2 <= |s|
  {
    if |s| < 2 then |s|
    else if s[0] == '\r' && s[1] == '\n' then 0
    else 1 + LineEnd(s[1..])
  }

  datatype Reply = Reply(lines: seq<string>, rest: string)

  /** Split on CRLF, stop at the first lone dot, remove one leading dot; None if the dot never comes. */
  function Read(s: string): Option<Reply>
    decreases |s|
  {
    var i := LineEnd(s);
    if i == |s| then None
    else
      var line, rest := s[..i], s[i + 2..];
      if line == "." then Some(Reply([], rest))
      else match Read(rest)
           case None => None
           case Some(r) => Some(Reply([if "." <= line then line[1..] else line] + r.lines, r.rest))
  }

  lemma {:induction false} LineEndAt(line: string, rest: string)
    requires '\n' !in line
    ensures LineEnd(line + "\r\n" + rest) == |line|
  {
    var s := line + "\r\n" + rest;
    if line != "" {
      LineEndAt(line[1..], rest);
      assert s[1..] == line[1..] + "\r\n" + rest;
      assert s[1] != '\n' by { assert s[1] == if |line| > 1 then line[1] else '\r'; }
    }
  }

  /** A stuffed line is read back as itself and never ends the response. */
  lemma StuffedReadsBack(line: string, rest: string)
    requires '\n' !in line
    ensures Read(Stuff(line) + rest) ==
      match Read(rest)
      case None => None
      case Some(r) => Some(Reply([line] + r.lines, r.rest))
  {
    var sent := (if "." <= line then "." else "") + line;
    var s := sent + "\r\n" + rest;
    assert Stuff(line) + rest == s;
    LineEndAt(sent, rest);
    assert s[..|sent|] == sent && s[|sent| + 2..] == rest;
    if "." <= line {
      assert sent[1..] == line && "." <= sent && sent != ".";
    } else {
      assert sent == line;
    }
  }

  lemma {:induction false} StuffedAllReadBack(lines: seq<string>, rest: string)
    requires NoLF(lines)
    ensures Read(StuffAll(lines) + (".\r\n" + rest)) == Some(Reply(lines, rest))
  {
    var dot := ".\r\n" + rest;
    if lines == [] {
      assert StuffAll(lines) + dot == "." + "\r\n" + rest;
      LineEndAt(".", rest);
      assert dot[..1] == "." && dot[3..] == rest;
    } else {
      assert StuffAll(lines) + dot == Stuff(lines[0]) + (StuffAll(lines[1..]) + dot);
      StuffedReadsBack(lines[0], StuffAll(lines[1..]) + dot);
      StuffedAllReadBack(lines[1..], rest);
      assert lines == [lines[0]] + lines[1..];
    }
  }

  lemma ContentNoLF(data: string, limit: int)
    ensures NoLF(Content(data, limit))
  {
    SplitNoLF(HeaderOf(data));
    SplitNoLF(BodyOf(data));
  }

  /** The client reads exactly the content, the whole response and nothing of what follows it. */
  lemma ReaderUndoesWriter(data: string, limit: int, rest: string)
    ensures Read(WriteDotted(data, limit) + rest) == Some(Reply(Content(data, limit), rest))
  {
    hide Content, StuffAll, Read;
    ContentNoLF(data, limit);
    StuffedAllReadBack(Content(data, limit), rest);
    Assoc(StuffAll(Content(data, limit)), ".\r\n", rest);
  }

  // ----- the code -----

  lemma {:induction false} StuffAppend(a: seq<string>, b: seq<string>)
    ensures StuffAll(a + b) == StuffAll(a) + StuffAll(b)
  {
    if a == [] {
      assert a + b == b;
    } else {
      StuffAppend(a[1..], b);
      assert (a + b)[1..] == a[1..] + b;
    }
  }

  lemma StuffOne(line: string)
    ensures StuffAll([line]) == Stuff(line)
  {
    assert [line][1..] == [];
  }

  /** The write closure. */
  method WriteBlock(block: string) returns (w: string)
    ensures w == StuffAll(Lines(block))
  {
    var lines := SplitLF(block);
    ghost var sent := DropCRs(lines);
    w := "";
    for i := 0 to |lines|
      invariant w == StuffAll(sent[..i])
    {
      var line := DropCR(lines[i]);
      StuffAppend(sent[..i], [line]);
      StuffOne(line);
      assert sent[..i + 1] == sent[..i] + [line];
      var out := "";
      if "." <= line { out := "."; }
      out := out + line;
      out := out + "\r\n";
      w := w + out;
    }
    assert sent[..|lines|] == sent;
  }

  /** writeDotted: the response on the wire, and what any client makes of it. */
  method Send(data: string, limit: int) returns (w: string)
    ensures w == WriteDotted(data, limit)
    ensures Read(w) == Some(Reply(Content(data, limit), ""))
  {
    w := WriteBlock(HeaderOf(data));
    if limit != 0 {
      w := w + "\r\n";
      var lines := SplitLF(BodyOf(data));
      if limit > 0 && |lines| > limit { lines := lines[..limit]; }
      SplitNoLF(BodyOf(data));
      SplitJoin(lines);
      var rest := WriteBlock(JoinLF(lines));
      w := w + rest;
      HeaderBlankBody(Lines(HeaderOf(data)), DropCRs(lines));
    }
    assert Lines(HeaderOf(data)) + [] == Lines(HeaderOf(data));
    assert w == StuffAll(Content(data, limit));
    w := w + ".\r\n";
    ReaderUndoesWriter(data, limit, "");
    assert w + "" == w;
  }

  lemma HeaderBlankBody(header: seq<string>, body: seq<string>)
    ensures StuffAll(header + ([""] + body)) == StuffAll(header) + "\r\n" + StuffAll(body)
  {
    StuffAppend(header, [""] + body);
    StuffAppend([""], body);
    StuffOne("");
    assert Stuff("") == "\r\n";
  }
}
