/**
  A list whose read breaks off is taken for a shorter one. Exactly when the
  messages that are there keep their UIDs all the same.
 */
module UidCut {
  import opened Text
  import opened Sorting
  import opened Flags
  import opened UidList
  import opened Maildir
  import opened UidSafety
  import opened UidFaults

  // ----- the lines of a cut text -----

  /** Bytes left behind a line and its line feed. */
  function Behind(line: string, k: nat): nat
    requires |line| <= k
  {
    if k == |line| then 0 else k - |line| - 1
  }

  /** How many lines are whole within the first k bytes. */
  function WholeLines(lines: seq<string>, k: nat): (n: nat)
    ensures n <= |lines|
  {
    if lines == [] || k < |lines[0]| then 0 else 1 + WholeLines(lines[1..], Behind(lines[0], k))
  }

  /** What is left of the line behind them. */
  function HalfLine(lines: seq<string>, k: nat): string {
    if lines == [] then ""
    else if k < |lines[0]| then lines[0][..k]
    else HalfLine(lines[1..], Behind(lines[0], k))
  }

  lemma {:induction false} HalfFacts(lines: seq<string>, k: nat)
    ensures var n, h := WholeLines(lines, k), HalfLine(lines, k);
      if n < |lines| then |h| < |lines[n]| && h == lines[n][..|h|] else h == ""
  {
    if lines != [] && k >= |lines[0]| { HalfFacts(lines[1..], Behind(lines[0], k)); }
  }

  predicate LineOk(line: string) {
    line != "" && '\n' !in line && |line| < SCAN_LIMIT && DropCR(line) == line
  }

  lemma ScanOne(s: string)
    requires '\n' !in s && |s| < SCAN_LIMIT
    ensures ScanLines(s, SCAN_LIMIT) == if s == "" then [] else [DropCR(s)]
  {
    assert IndexByte(s, '\n') == |s| && s[..|s|] == s;
  }

  /** The lines of the first k bytes, the half one as if it ended there. */
  function LinesOf(lines: seq<string>, k: nat): seq<string> {
    if lines == [] || k == 0 then []
    else if k < |lines[0]| then [DropCR(lines[0][..k])]
    else [lines[0]] + LinesOf(lines[1..], Behind(lines[0], k))
  }

  lemma {:induction false} LinesOfParts(lines: seq<string>, k: nat)
    requires forall i :: 0 <= i < |lines| ==> lines[i] != ""
    ensures LinesOf(lines, k) ==
      lines[..WholeLines(lines, k)] + if HalfLine(lines, k) == "" then [] else [DropCR(HalfLine(lines, k))]
  {
    if lines != [] && k >= |lines[0]| {
      var k' := Behind(lines[0], k);
      LinesOfParts(lines[1..], k');
      assert lines[..1 + WholeLines(lines[1..], k')] == [lines[0]] + lines[1..][..WholeLines(lines[1..], k')];
    }
  }

  lemma {:induction false} ScanLinesOf(lines: seq<string>, k: nat)
    requires (forall i :: 0 <= i < |lines| ==> LineOk(lines[i])) && k <= |JoinLines(lines)|
    ensures ScanLines(JoinLines(lines)[..k], SCAN_LIMIT) == LinesOf(lines, k)
  {
    if lines != [] && k <= |lines[0]| {
      assert JoinLines(lines)[..k] == lines[0][..k];
      ScanOne(lines[0][..k]);
      assert lines[0][..|lines[0]|] == lines[0];
    } else if lines != [] {
      ScanLinesOf(lines[1..], Behind(lines[0], k));
      ScanCutLater(lines, k);
    }
  }

  /** The scanner yields the whole lines, and the half one as if it ended there. */
  lemma ScanCut(lines: seq<string>, k: nat)
    requires (forall i :: 0 <= i < |lines| ==> LineOk(lines[i])) && k <= |JoinLines(lines)|
    ensures ScanLines(JoinLines(lines)[..k], SCAN_LIMIT) ==
      lines[..WholeLines(lines, k)] + if HalfLine(lines, k) == "" then [] else [DropCR(HalfLine(lines, k))]
  {
    hide ScanLines, JoinLines, LinesOf, WholeLines, HalfLine;
    ScanLinesOf(lines, k);
    LinesOfParts(lines, k);
  }

  lemma ScanCutLater(lines: seq<string>, k: nat)
    requires lines != [] && LineOk(lines[0]) && |lines[0]| < k <= |JoinLines(lines)|
    ensures Behind(lines[0], k) <= |JoinLines(lines[1..])|
    ensures ScanLines(JoinLines(lines)[..k], SCAN_LIMIT) ==
      [lines[0]] + ScanLines(JoinLines(lines[1..])[..Behind(lines[0], k)], SCAN_LIMIT)
  {
    var rest := JoinLines(lines[1..]);
    assert JoinLines(lines) == lines[0] + "\n" + rest;
    hide JoinLines, ScanLines;
    CutText(lines[0], rest, k);
    ScanFirstLine(lines[0], rest[..Behind(lines[0], k)], SCAN_LIMIT);
  }

  lemma CutText(line: string, rest: string, k: nat)
    requires |line| < k <= |line + "\n" + rest|
    ensures (line + "\n" + rest)[..k] == line + "\n" + rest[..Behind(line, k)]
  {
  }

  function AllLines(validity: nat, next: nat, entries: seq<Entry>): seq<string> {
    [Header(validity, next)] + EntryLines(entries)
  }

  lemma LinesOk(validity: nat, next: nat, entries: seq<Entry>)
    requires IsUint32(validity) && IsUint32(next) && Writable(entries)
    ensures JoinLines(AllLines(validity, next, entries)) == Render(validity, next, entries)
    ensures forall i :: 0 <= i < |entries| + 1 ==> LineOk(AllLines(validity, next, entries)[i])
  {
    var h := Header(validity, next);
    assert AllLines(validity, next, entries)[1..] == EntryLines(entries);
    DecimalShort(validity);
    DecimalShort(next);
    assert h[|h| - 1] == Decimal(next)[|Decimal(next)| - 1];
    forall i | 0 <= i < |entries| ensures LineOk(EntryLines(entries)[i]) { EntryLineIsOneLine(entries[i]); }
  }

  /** Entries wholly read, and what is left of the next one, when the list breaks off behind its header. */
  function EntriesRead(validity: nat, next: nat, entries: seq<Entry>, k: nat): (n: nat)
    requires |Header(validity, next)| <= k
    ensures n <= |entries|
  {
    WholeLines(EntryLines(entries), Behind(Header(validity, next), k))
  }

  function HalfEntry(validity: nat, next: nat, entries: seq<Entry>, k: nat): string
    requires |Header(validity, next)| <= k
  {
    HalfLine(EntryLines(entries), Behind(Header(validity, next), k))
  }

  /** The base name a half entry seems to have. */
  function HalfBase(e: Entry, half: string): string
    requires |Decimal(e.uid)| < |half| <= |EntryLine(e)|
  {
    DropCR(e.base[..|half| - |Decimal(e.uid)| - 1])
  }

  /** The half entry is long enough to look like one. */
  predicate NamesSome(entries: seq<Entry>, n: nat, half: string) {
    n < |entries| && |Decimal(entries[n].uid)| < |half| <= |EntryLine(entries[n])|
  }

  function WithHalf(m: map<string, nat>, entries: seq<Entry>, n: nat, half: string): map<string, nat> {
    if NamesSome(entries, n, half) then m[HalfBase(entries[n], half) := entries[n].uid] else m
  }

  lemma AddHalf(m: map<string, nat>, e: Entry, half: string)
    requires IsUint32(e.uid) && |half| < |EntryLine(e)| && half == EntryLine(e)[..|half|]
    ensures AddLine(m, DropCR(half)) ==
      if |Decimal(e.uid)| < |half| then m[HalfBase(e, half) := e.uid] else m
  {
    var d := Decimal(e.uid);
    assert EntryLine(e) == d + [' '] + e.base;
    if |half| <= |d| {
      AddDigits(m, d, half);
    } else {
      assert half == d + [' '] + e.base[..|half| - |d| - 1];
      AddLongHalf(m, e, half, e.base[..|half| - |d| - 1]);
    }
  }

  lemma AddDigits(m: map<string, nat>, d: string, half: string)
    requires AllDigits(d) && half <= d
    ensures AddLine(m, DropCR(half)) == m
  {
    assert forall i :: 0 <= i < |half| ==> half[i] == d[i] && IsDigit(half[i]);
    assert DropCR(half) == half && IndexByte(half, ' ') == |half|;
  }

  lemma AddLongHalf(m: map<string, nat>, e: Entry, half: string, part: string)
    requires IsUint32(e.uid) && half == Decimal(e.uid) + [' '] + part
    ensures AddLine(m, DropCR(half)) == m[DropCR(part) := e.uid]
  {
    var d, h := Decimal(e.uid), DropCR(half);
    assert h == d + [' '] + DropCR(part);
    IndexByteAfter(d, ' ', DropCR(part));
    assert h[..|d|] == d && h[|d| + 1..] == DropCR(part);
    DecimalRoundTrip(e.uid);
  }

  lemma AddLastLine(lines: seq<string>, line: string)
    ensures AddLines(lines + [line]) == AddLine(AddLines(lines), line)
  {
    assert (lines + [line])[..|lines|] == lines;
  }

  lemma CutLines(validity: nat, next: nat, entries: seq<Entry>, k: nat)
    requires IsUint32(validity) && IsUint32(next) && Writable(entries)
    requires |Header(validity, next)| <= k <= |Render(validity, next, entries)|
    ensures var n, half := EntriesRead(validity, next, entries, k), HalfEntry(validity, next, entries, k);
      ScanLines(Render(validity, next, entries)[..k], SCAN_LIMIT) ==
      [Header(validity, next)] + (EntryLines(entries)[..n] + if half == "" then [] else [DropCR(half)])
  {
    hide ScanLines, JoinLines, Render, Header, EntryLines, LineOk, Writable;
    var lines, h := AllLines(validity, next, entries), Header(validity, next);
    LinesOk(validity, next, entries);
    ScanCut(lines, k);
    assert lines[0] == h && lines[1..] == EntryLines(entries);
    var n := EntriesRead(validity, next, entries, k);
    assert lines[..n + 1] == [h] + EntryLines(entries)[..n];
  }

  /** What a list that breaks off behind its header is taken for. */
  lemma CutParses(validity: nat, next: nat, entries: seq<Entry>, k: nat)
    requires IsUint32(validity) && IsUint32(next) && next >= 1 && Writable(entries)
    requires |Header(validity, next)| <= k <= |Render(validity, next, entries)|
    ensures var n, half := EntriesRead(validity, next, entries, k), HalfEntry(validity, next, entries, k);
      Parse(Render(validity, next, entries)[..k]) ==
      Some(List(WithHalf(AddLines(EntryLines(entries[..n])), entries, n, half), validity, next))
  {
    var n, half := EntriesRead(validity, next, entries, k), HalfEntry(validity, next, entries, k);
    var lines := ScanLines(Render(validity, next, entries)[..k], SCAN_LIMIT);
    CutLines(validity, next, entries, k);
    HeaderRoundTrip(validity, next);
    var behind := EntryLines(entries)[..n] + if half == "" then [] else [DropCR(half)];
    assert lines[0] == Header(validity, next) && lines[1..] == behind;
    assert EntryLines(entries)[..n] == EntryLines(entries[..n]);
    HalfFacts(EntryLines(entries), Behind(Header(validity, next), k));
    if half != "" {
      AddLastLine(EntryLines(entries[..n]), DropCR(half));
      AddHalf(AddLines(EntryLines(entries[..n])), entries[n], half);
    } else {
      assert behind == EntryLines(entries[..n]);
    }
  }

  /** No visible file's entry lies behind the break, and the half entry is taken for no visible file's. */
  ghost predicate NothingLost(files: map<Path, File>, entries: seq<Entry>, n: nat, half: string) {
    && (forall i :: n <= i < |entries| ==> !ShownBase(files, entries[i].base))
    && (NamesSome(entries, n, half) ==> !ShownBase(files, HalfBase(entries[n], half)))
  }

  /** c is the list l, broken off behind n entries and half of the next. */
  ghost predicate BrokenOff(l: List, entries: seq<Entry>, n: nat, half: string, c: List) {
    && Lists(entries, l.uids) && n <= |entries| && c.validity == l.validity && c.next == l.next
    && (n < |entries| ==> |half| < |EntryLine(entries[n])|)
    && exists m: map<string, nat> :: Lists(entries[..n], m) && c.uids == WithHalf(m, entries, n, half)
  }

  lemma HalfIsOther(entries: seq<Entry>, n: nat, half: string)
    requires n < |entries| && |half| < |EntryLine(entries[n])| && NamesSome(entries, n, half)
    ensures HalfBase(entries[n], half) != entries[n].base
  {
  }

  lemma FrontEntry(entries: seq<Entry>, uids: map<string, nat>, n: nat, m: map<string, nat>, b: string)
    requires n <= |entries| && Lists(entries, uids) && Lists(entries[..n], m)
    ensures b in m <==> exists i :: 0 <= i < n && entries[i].base == b
    ensures b in m ==> b in uids && m[b] == uids[b]
  {
    if b in m {
      var i := ListedEntry(entries[..n], m, b);
      assert entries[i].base == b;
    }
    if i :| 0 <= i < n && entries[i].base == b { assert entries[..n][i].base == b; }
  }

  /** The entry of b, as c has it. */
  lemma BrokenEntry(l: List, entries: seq<Entry>, n: nat, half: string, c: List, b: string)
    requires BrokenOff(l, entries, n, half, c)
    ensures b in c.uids <==> (exists i :: 0 <= i < n && entries[i].base == b) || IsHalf(entries, n, half, b)
    ensures IsHalf(entries, n, half, b) ==> b in c.uids && c.uids[b] == entries[n].uid
    ensures b in c.uids && !IsHalf(entries, n, half, b) ==> b in l.uids && c.uids[b] == l.uids[b]
  {
    var m: map<string, nat> :| Lists(entries[..n], m) && c.uids == WithHalf(m, entries, n, half);
    hide Lists;
    FrontEntry(entries, l.uids, n, m, b);
  }

  ghost predicate IsHalf(entries: seq<Entry>, n: nat, half: string, b: string) {
    NamesSome(entries, n, half) && HalfBase(entries[n], half) == b
  }

  lemma ListedEntry(entries: seq<Entry>, m: map<string, nat>, b: string) returns (i: nat)
    requires Lists(entries, m) && b in m
    ensures i < |entries| && entries[i] == Entry(b, m[b])
  {
    i :| 0 <= i < |entries| && entries[i] == Entry(b, m[b]);
  }

  /** For the files that are there, the broken-off list says what the whole one says exactly when nothing is lost. */
  lemma AlikeWhenNothingLost(files: map<Path, File>, l: List, entries: seq<Entry>, n: nat, half: string, c: List)
    requires BrokenOff(l, entries, n, half, c) && UidsBelow(l.uids, l.next)
    ensures ReadsAlike(files, l, c) <==> NothingLost(files, entries, n, half)
  {
    if NothingLost(files, entries, n, half) {
      forall p | p in files && !Hidden(p.name) ensures SameEntry(l, c, Base(p)) {
        assert ShownBase(files, Base(p));
        BrokenEntry(l, entries, n, half, c, Base(p));
        if Base(p) in l.uids { var i := ListedEntry(entries, l.uids, Base(p)); }
      }
    } else if i :| n <= i < |entries| && ShownBase(files, entries[i].base) {
      var p :| p in files && !Hidden(p.name) && Base(p) == entries[i].base;
      LostEntry(l, entries, n, half, c, i);
      assert !SameEntry(l, c, Base(p));
    } else {
      var p :| p in files && !Hidden(p.name) && Base(p) == HalfBase(entries[n], half);
      FalseEntry(l, entries, n, half, c);
      assert !SameEntry(l, c, Base(p));
    }
  }

  /** An entry behind the break is missing, or shows another one's UID. */
  lemma LostEntry(l: List, entries: seq<Entry>, n: nat, half: string, c: List, i: nat)
    requires BrokenOff(l, entries, n, half, c) && UidsBelow(l.uids, l.next) && n <= i < |entries|
    ensures var b := entries[i].base; b in l.uids && (b in c.uids ==> c.uids[b] != l.uids[b])
  {
    var b := entries[i].base;
    BrokenEntry(l, entries, n, half, c, b);
    if IsHalf(entries, n, half, b) { HalfIsOther(entries, n, half); }
  }

  /** A half entry gives its UID to another base name. */
  lemma FalseEntry(l: List, entries: seq<Entry>, n: nat, half: string, c: List)
    requires BrokenOff(l, entries, n, half, c) && UidsBelow(l.uids, l.next) && NamesSome(entries, n, half)
    ensures var b := HalfBase(entries[n], half);
      && b != entries[n].base && entries[n].base in l.uids && b in c.uids && c.uids[b] == l.uids[entries[n].base]
      && (b in l.uids ==> l.uids[b] != c.uids[b])
  {
    var b := HalfBase(entries[n], half);
    HalfIsOther(entries, n, half);
    BrokenEntry(l, entries, n, half, c, b);
  }

  lemma CutBreaksOff(w: World, l: List, entries: seq<Entry>, k: nat, minted: nat)
    requires Inv(w) && Disk(w) == Some(l) && Lists(entries, l.uids)
    requires w.folder.list == Some(Render(l.validity, l.next, entries))
    requires |Header(l.validity, l.next)| <= k < |Render(l.validity, l.next, entries)|
    ensures BrokenOff(l, entries, EntriesRead(l.validity, l.next, entries, k), HalfEntry(l.validity, l.next, entries, k),
                      Read(Cut(w.folder.list, k), minted))
  {
    var n, half := EntriesRead(l.validity, l.next, entries, k), HalfEntry(l.validity, l.next, entries, k);
    ListedAreWritable(w, l, entries);
    hide Inv, Lists, Writable, BrokenOff, Parse, Render, Header, WholeLines, HalfLine, EntriesRead, HalfEntry, AddLines;
    CutParses(l.validity, l.next, entries, k);
    BreaksOff(l, entries, k, Read(Cut(w.folder.list, k), minted));
  }

  lemma BreaksOff(l: List, entries: seq<Entry>, k: nat, c: List)
    requires Lists(entries, l.uids) && Writable(entries) && |Header(l.validity, l.next)| <= k
    requires var n, half := EntriesRead(l.validity, l.next, entries, k), HalfEntry(l.validity, l.next, entries, k);
      c == List(WithHalf(AddLines(EntryLines(entries[..n])), entries, n, half), l.validity, l.next)
    ensures BrokenOff(l, entries, EntriesRead(l.validity, l.next, entries, k), HalfEntry(l.validity, l.next, entries, k), c)
  {
    hide Lists, Writable, Header, WholeLines, HalfLine, WithHalf, AddLines;
    HalfFacts(EntryLines(entries), Behind(Header(l.validity, l.next), k));
    FrontListed(entries, l.uids, EntriesRead(l.validity, l.next, entries, k));
  }

  lemma FrontListed(entries: seq<Entry>, uids: map<string, nat>, n: nat)
    requires n <= |entries| && Lists(entries, uids) && Writable(entries)
    ensures Lists(entries[..n], AddLines(EntryLines(entries[..n])))
  {
    AddEntryLines(entries[..n]);
  }

  lemma ListedAreWritable(w: World, l: List, entries: seq<Entry>)
    requires Inv(w) && Disk(w) == Some(l) && Lists(entries, l.uids)
    ensures Writable(entries) && IsUint32(l.validity) && 1 <= l.next < TWO32 && UidsBelow(l.uids, l.next)
  {
    forall i | 0 <= i < |entries| ensures Storable(entries[i].base) && IsUint32(entries[i].uid) {
      assert (entries[i].base, l.uids[entries[i].base]) in w.given;
    }
  }

  /**
    In a world of any run, a Refresh whose read of the list breaks off behind
    the header keeps every UID with its message if and only if no entry of a
    message still there lies behind the break, and no message is called what
    the entry at the break was cut to.
   */
  lemma CutKeepsUids(
    w: World, l: List, entries: seq<Entry>, k: nat, minted: nat, order: seq<Path>, writes: bool, f': Folder, v': View, ok: bool)
    requires Inv(w) && Disk(w) == Some(l) && Lists(entries, l.uids) && 1 <= minted < TWO32 && Room(w.folder, minted)
    requires w.folder.list == Some(Render(l.validity, l.next, entries))
    requires |Header(l.validity, l.next)| <= k < |Render(l.validity, l.next, entries)|
    requires RefreshedFrom(w.folder, Read(Cut(w.folder.list, k), minted), order, writes, f', v', ok)
    ensures Bijective(w.given + Pairs(v')) <==>
      NothingLost(w.folder.files, entries, EntriesRead(l.validity, l.next, entries, k), HalfEntry(l.validity, l.next, entries, k))
  {
    var c := Read(Cut(w.folder.list, k), minted);
    var n, half := EntriesRead(l.validity, l.next, entries, k), HalfEntry(l.validity, l.next, entries, k);
    CutBreaksOff(w, l, entries, k, minted);
    ListedAreWritable(w, l, entries);
    if NothingLost(w.folder.files, entries, n, half) {
      AlikeWhenNothingLost(w.folder.files, l, entries, n, half, c);
      AlikeRefresh(w.folder, l, c, order, writes, f', v', ok);
      WholeKeepsUids(w, minted, order, writes, f', v', ok);
    } else {
      RefreshShows(w.folder, c, order, writes, f', v', ok);
      LossBreaksUids(w, l, entries, n, half, c, order, Pairs(v'));
    }
  }

  lemma WholeKeepsUids(w: World, minted: nat, order: seq<Path>, writes: bool, f': Folder, v': View, ok: bool)
    requires Inv(w) && 1 <= minted < TWO32 && Room(w.folder, minted)
    requires RefreshedInOrder(w.folder, minted, order, writes, f', v', ok)
    ensures Bijective(w.given + Pairs(v'))
  {
    var l := Read(w.folder.list, minted);
    RefreshAssigns(w, minted, order);
    SnapshotCovers(w.folder.files, w.used, w.given, l, Assign(Bases(order), l.uids, l.next), v');
  }

  lemma LossBreaksUids(
    w: World, l: List, entries: seq<Entry>, n: nat, half: string, c: List, order: seq<Path>, pairs: set<(string, nat)>)
    requires Inv(w) && Disk(w) == Some(l) && BrokenOff(l, entries, n, half, c) && UidsBelow(l.uids, l.next)
    requires var a, names := Assign(Bases(order), c.uids, c.next), NewNames(Bases(order), c.uids);
      && NumbersNew(c.uids, c.next, names, a)
      && forall b :: ShownBase(w.folder.files, b) ==> b in a.uids && (b, a.uids[b]) in pairs
    requires !NothingLost(w.folder.files, entries, n, half)
    ensures !Bijective(w.given + pairs)
  {
    var a := Assign(Bases(order), c.uids, c.next);
    if i :| n <= i < |entries| && ShownBase(w.folder.files, entries[i].base) {
      var b := entries[i].base;
      LostEntry(l, entries, n, half, c, i);
      TwoUids(w.given + pairs, b, l.uids[b], a.uids[b]);
    } else {
      var b := HalfBase(entries[n], half);
      FalseEntry(l, entries, n, half, c);
      TwoNames(w.given + pairs, b, entries[n].base, a.uids[b]);
    }
  }

  lemma TwoUids(given: set<(string, nat)>, b: string, m: nat, n: nat)
    requires (b, m) in given && (b, n) in given && m != n
    ensures !Bijective(given)
  {
    var g, h := (b, m), (b, n);
    assert g in given && h in given && g.0 == h.0 && g.1 != h.1;
  }

  lemma TwoNames(given: set<(string, nat)>, b: string, c: string, n: nat)
    requires (b, n) in given && (c, n) in given && b != c
    ensures !Bijective(given)
  {
    var g, h := (b, n), (c, n);
    assert g in given && h in given && g.1 == h.1 && g.0 != h.0;
  }

  // ----- every list of a run is one that was written -----

  /** The list on disk, if any, is the text of its own content. */
  ghost predicate ListWritten(w: World) {
    w.folder.list.Some? ==> Parse(w.folder.list.value).Some? && Written(w.folder.list.value, Parse(w.folder.list.value).value)
  }

  lemma StepKeepsWritten(w: World, w': World)
    requires Inv(w) && ListWritten(w) && Steps(w, w')
    ensures ListWritten(w')
  {
    var a :| Next(w, a, w');
    if a.Refresh? {
      var ok :| RefreshStep(w, a.box, a.minted, a.fault, w', ok);
      if Scans(a.fault) && w'.folder.list != w.folder.list {
        var order := RefreshIsWhole(w, a, w', ok);
        RefreshAssigns(w, a.minted, order);
        var l := Read(w.folder.list, a.minted);
        var n := Assign(Bases(order), l.uids, l.next);
        var live := RewrittenParses(w.folder.files, w.used, n.uids, l.validity, n.next, w'.folder.list);
      }
    }
  }

  /** So CutKeepsUids speaks of every list a run can have on disk. */
  lemma ListsAreWritten(ws: seq<World>, j: nat) returns (entries: seq<Entry>)
    requires Run(ws) && j < |ws| && Disk(ws[j]).Some?
    ensures var l := Disk(ws[j]).value; Lists(entries, l.uids) && ws[j].folder.list == Some(Render(l.validity, l.next, entries))
  {
    RunWritten(ws, j);
    var l := Disk(ws[j]).value;
    entries :| Lists(entries, l.uids) && ws[j].folder.list.value == Render(l.validity, l.next, entries);
  }

  lemma {:induction false} RunWritten(ws: seq<World>, j: nat)
    requires Run(ws) && j < |ws|
    ensures ListWritten(ws[j])
  {
    InitInv(ws[0]);
    assert j == 0 ==> ListWritten(ws[j]);
    hide Inv, Next, Disk, Init, ListWritten;
    if j > 0 {
      RunWritten(ws, j - 1);
      WalkFacts(ws, j - 1, j - 1);
      assert StepsAt(ws, j - 1);
      StepKeepsWritten(ws[j - 1], ws[j]);
    }
  }

  // ----- the failure on a concrete folder -----

  /** The list of a and b, UIDs 1 and 2, breaks off behind its header: both are numbered anew from 10. */
  lemma CutRenumbers(minted: nat, order: seq<Path>, writes: bool, f': Folder, v': View, ok: bool)
    requires var list := Some(Render(7, 10, [Entry("a", 1), Entry("b", 2)]));
      RefreshedFrom(Folder(TwoFiles(), list), Read(Cut(list, |Header(7, 10)|), minted), order, writes, f', v', ok)
    ensures v'.validity == 7 && |v'.messages| > 0
    ensures forall i :: 0 <= i < |v'.messages| ==> v'.messages[i].uid >= 10
  {
    var entries := [Entry("a", 1), Entry("b", 2)];
    var list := Some(Render(7, 10, entries));
    HeaderOnly(7, 10, entries, minted);
    assert Path(New, "a") in TwoFiles() && |TwoFiles()| == 2;
    hide Render, Header, Parse, Cut, Snapshot, Assign, RefreshedFrom, ScanOrder;
    AllFrom(Folder(TwoFiles(), list), List(map[], 7, 10), order, writes, f', v', ok);
    SomeShown(TwoFiles(), Assign(Bases(order), map[], 10).uids, v'.messages, Path(New, "a"));
  }

  lemma SomeShown(files: map<Path, File>, uids: map<string, nat>, messages: seq<Message>, p: Path)
    requires Snapshot(files, uids, messages) && p in files && !Hidden(p.name)
    ensures |messages| > 0
  {
  }

  /** A list that breaks off right behind its header has no entries. */
  lemma HeaderOnly(validity: nat, next: nat, entries: seq<Entry>, minted: nat)
    requires IsUint32(validity) && IsUint32(next) && next >= 1 && Writable(entries) && entries != []
    ensures Read(Cut(Some(Render(validity, next, entries)), |Header(validity, next)|), minted) == List(map[], validity, next)
  {
    var k := |Header(validity, next)|;
    assert k < |Render(validity, next, entries)|;
    assert EntryLines(entries)[0] == EntryLine(entries[0]) != "";
    CutParses(validity, next, entries, k);
    assert EntryLines(entries[..0]) == [];
  }

  /** Over a list without entries, every message is numbered from its UIDNEXT on. */
  lemma AllFrom(f: Folder, c: List, order: seq<Path>, writes: bool, f': Folder, v': View, ok: bool)
    requires c.uids == map[] && c.next + |f.files| < TWO32 && RefreshedFrom(f, c, order, writes, f', v', ok)
    ensures forall i :: 0 <= i < |v'.messages| ==> v'.messages[i].uid >= c.next
  {
    var a, names := Assign(Bases(order), c.uids, c.next), NewNames(Bases(order), c.uids);
    RefreshShows(f, c, order, writes, f', v', ok);
    forall i | 0 <= i < |v'.messages| ensures v'.messages[i].uid >= c.next {
      var b := BaseName(v'.messages[i].name);
      assert (b, v'.messages[i].uid) in Pairs(v');
      var n :| 0 <= n < |names| && names[n] == b;
    }
  }
}
