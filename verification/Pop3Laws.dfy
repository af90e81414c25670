/** POP3 told in the client's terms: what LIST lists, what RETR leaves, and which lines a client reads. */
module Pop3Laws {
  import opened Text
  import opened Flags
  import opened Maildir
  import opened Mailboxes
  import opened Move
  import opened Dotted
  import opened Pop3

  // ----- LIST -----

  /** Every number without a mark once, in ascending order. */
  lemma {:induction false} ListedIs(n: nat, del: set<int>)
    ensures forall i, j :: 0 <= i < j < |Listed(n, del)| ==> Listed(n, del)[i] < Listed(n, del)[j]
    ensures forall k: nat :: k in Listed(n, del) <==> 1 <= k <= n && k !in del
  {
    if n > 0 {
      var l := Listed(n - 1, del);
      ListedIs(n - 1, del);
      forall i | 0 <= i < |l| ensures l[i] < n { assert l[i] in l; }
    }
  }

  // ----- RETR -----

  /** The message read is marked Seen, keeps its other flags, and its file its bytes and date; all else stays. */
  lemma RetrMarksSeen(s: Session, n: int, s': Session)
    requires Step(s, Retr(n, true), s') && UniqueBases(s.folder.files) && GoodSnapshot(s.view.messages)
    requires 1 <= n <= |s.view.messages| && n !in s.del
    requires var m := s.view.messages[n - 1]; Path(m.sub, m.name) in s.folder.files && SEEN !in m.flags
    ensures |s'.view.messages| == |s.view.messages|
    ensures var m, m' := s.view.messages[n - 1], s'.view.messages[n - 1];
      && (forall c :: c in m'.flags <==> c == SEEN || c in m.flags) && FlagsOf(m'.name) == m'.flags
      && m'.sub == Cur && Path(Cur, m'.name) in s'.folder.files
      && s'.folder.files[Path(Cur, m'.name)] == s.folder.files[Path(m.sub, m.name)]
      && (forall i :: 0 <= i < |s.view.messages| && i != n - 1 ==> s'.view.messages[i] == s.view.messages[i])
      && forall p :: Base(p) != BaseName(m.name) ==> SameAt(p, s.folder.files, s'.folder.files)
  {
    var m := s.view.messages[n - 1];
    assert FlagsTold(m);
    SeenMeans(m);
    hide SeenFlags, GoodSnapshot, UniqueBases, FlagsTold, FlagsOf, BaseName;
    var from, to := PathOf(m), FlaggedPath(m, SeenFlags(m));
    SeenPath(m);
    assert s'.folder.files == Rename(s.folder.files, from, to);
  }

  ghost predicate SameAt(p: Path, files: map<Path, File>, files': map<Path, File>) {
    (p in files' <==> p in files) && (p in files ==> files'[p] == files[p])
  }

  /** The new name tells the new flags, and is another one. */
  lemma SeenPath(m: Message)
    requires FlagsTold(m)
    ensures var from, to := PathOf(m), FlaggedPath(m, SeenFlags(m));
      && FlagsOf(to.name) == SeenFlags(m) && Base(from) == Base(to) == BaseName(m.name)
      && (SEEN !in m.flags ==> from != to)
  {
    SeenFacts(m);
    SeenMeans(m);
  }

  lemma SeenMeans(m: Message)
    requires FlagsTold(m)
    ensures forall c :: c in SeenFlags(m) <==> c == SEEN || c in m.flags
  {
    FlagsOfCanonical(m.name);
    PickMembers(KNOWN, m.flags + [SEEN]);
    PickMembers(KNOWN, m.flags);
  }

  // ----- the lines of a message -----

  function JoinCRLF(lines: seq<string>): string
    requires |lines| >= 1
  {
    if |lines| == 1 then lines[0] else lines[0] + "\r\n" + JoinCRLF(lines[1..])
  }

  /** Lines as mail has them: no line feed in them, no carriage return at their end. */
  ghost predicate MailLines(lines: seq<string>) {
    NoLF(lines) && forall i :: 0 <= i < |lines| && lines[i] != "" ==> lines[i][|lines[i]| - 1] != '\r'
  }

  lemma MailLinesFrom(lines: seq<string>)
    requires |lines| >= 1 && MailLines(lines)
    ensures MailLines(lines[1..])
  {
  }

  /** Split at line feeds, with the carriage returns dropped, joined lines come back. */
  lemma {:induction false} LinesOfJoined(lines: seq<string>)
    requires |lines| >= 1 && MailLines(lines)
    ensures Lines(JoinCRLF(lines)) == lines
  {
    if |lines| == 1 {
      OneLine(lines[0]);
      assert lines == [lines[0]];
    } else {
      MailLinesFrom(lines);
      LinesOfJoined(lines[1..]);
      assert '\n' !in lines[0];
      FirstOfJoined(lines[0], JoinCRLF(lines[1..]));
      assert lines == [lines[0]] + lines[1..];
    }
  }

  lemma OneLine(line: string)
    requires '\n' !in line && (line != "" ==> line[|line| - 1] != '\r')
    ensures Lines(line) == [line]
  {
    assert IndexByte(line, '\n') == |line|;
  }

  lemma FirstOfJoined(line: string, tail: string)
    requires '\n' !in line
    ensures Lines(line + "\r\n" + tail) == [line] + Lines(tail)
  {
    var s, head := line + "\r\n" + tail, line + "\r";
    assert s == head + ['\n'] + tail;
    IndexByteAfter(head, '\n', tail);
    assert s[..|head|] == head && s[|head| + 1..] == tail && DropCR(head) == line;
    assert SplitLF(s) == [head] + SplitLF(tail);
  }

  lemma LimitedLines(block: string, limit: int)
    ensures DropCRs(Limited(SplitLF(block), limit)) == Limited(Lines(block), limit)
  {
  }

  // ----- where the header ends -----

  /** No blank line begins inside a line. */
  lemma {:induction false} BlankBehind(line: string, s: string)
    requires '\n' !in line && |s| >= 4 && s[0] == '\r'
    ensures BlankLine(line + s) == |line| + BlankLine(s)
  {
    if line == "" {
      assert line + s == s;
    } else {
      BlankBehind(line[1..], s);
      assert (line + s)[1..] == line[1..] + s;
      assert (line + s)[1] == if |line| > 1 then line[1] else '\r';
      assert (line + s)[..4][1] == (line + s)[1] && "\r\n\r\n"[1] == '\n';
    }
  }

  /** Nor at the end of a line with another one behind it. */
  lemma NotBlankYet(line: string, s: string)
    requires line != "" && '\n' !in line && |s| >= 4 && s[0] == '\r'
    ensures BlankLine("\r\n" + (line + s)) == 2 + BlankLine(line + s)
  {
    var t := "\r\n" + (line + s);
    assert t[3] == (line + s)[1] == if |line| > 1 then line[1] else '\r';
    assert t[..4][3] == t[3] && "\r\n\r\n"[3] == '\n';
    assert t[1..][..4][0] == '\n' && "\r\n\r\n"[0] == '\r';
    assert t[1..][1..] == line + s;
  }

  lemma {:induction false} HeaderEnds(header: seq<string>, rest: string)
    requires |header| >= 1 && NoLF(header) && forall i :: 0 <= i < |header| ==> header[i] != ""
    ensures BlankLine(JoinCRLF(header) + ("\r\n\r\n" + rest)) == |JoinCRLF(header)|
  {
    var end := "\r\n\r\n" + rest;
    if |header| == 1 {
      assert end[..4] == "\r\n\r\n";
      BlankBehind(header[0], end);
    } else {
      var tail := JoinCRLF(header[1..]);
      HeaderEnds(header[1..], rest);
      var more := "\r\n" + (tail + end);
      assert JoinCRLF(header) + end == header[0] + more;
      BlankBehind(header[0], more);
      FirstLine(header[1..], end);
    }
  }

  /** Behind a line break comes the next line, not a second break. */
  lemma FirstLine(header: seq<string>, end: string)
    requires |header| >= 1 && NoLF(header) && header[0] != "" && |end| >= 4 && end[0] == '\r'
    ensures BlankLine("\r\n" + (JoinCRLF(header) + end)) == 2 + BlankLine(JoinCRLF(header) + end)
  {
    var s := if |header| == 1 then end else "\r\n" + JoinCRLF(header[1..]) + end;
    assert JoinCRLF(header) + end == header[0] + s;
    NotBlankYet(header[0], s);
  }

  /**
    Of a message with these header and body lines, joined as mail is, the
    client of RETR reads exactly them with the blank line in between; the client
    of TOP reads the first limit body lines, and for none not even the blank line.
   */
  lemma ClientReads(header: seq<string>, body: seq<string>, limit: int)
    requires |header| >= 1 && MailLines(header) && (forall i :: 0 <= i < |header| ==> header[i] != "")
    requires |body| >= 1 && MailLines(body)
    ensures var data := JoinCRLF(header) + ("\r\n\r\n" + JoinCRLF(body));
      Read(WriteDotted(data, limit)) == Some(Reply(
        header + (if limit == 0 then [] else [""] + if 0 < limit < |body| then body[..limit] else body), ""))
  {
    var h, b := JoinCRLF(header), JoinCRLF(body);
    var data := h + ("\r\n\r\n" + b);
    HeaderEnds(header, b);
    assert HeaderOf(data) == h && BodyOf(data) == b;
    LinesOfJoined(header);
    LinesOfJoined(body);
    LimitedLines(b, limit);
    ReaderUndoesWriter(data, limit, "");
    assert WriteDotted(data, limit) + "" == WriteDotted(data, limit);
  }
}
