/** The text file that persists a folder's UID assignment. */
module UidList {
  import opened Text
  import opened Sorting

  const SCAN_LIMIT := 1024 * 1024

  /** What one list file says. */
  datatype List = List(uids: map<string, nat>, validity: nat, next: nat)

  datatype Entry = Entry(base: string, uid: nat)

  /** Base names the line format can carry. */
  predicate Storable(base: string) {
    '\n' !in base && (base == "" || base[|base| - 1] != '\r') && |base| + 11 < SCAN_LIMIT
  }

  predicate IsUint32(n: int) { 0 <= n < TWO32 }

  // ----- writing -----

  function Header(validity: nat, next: nat): string {
    "V" + Decimal(validity) + " " + ("N" + Decimal(next))
  }

  function EntryLine(e: Entry): string { Decimal(e.uid) + " " + e.base }

  function JoinLines(lines: seq<string>): string {
    if lines == [] then "" else lines[0] + "\n" + JoinLines(lines[1..])
  }

  function EntryLines(entries: seq<Entry>): (r: seq<string>)
    ensures |r| == |entries| && forall i :: 0 <= i < |r| ==> r[i] == EntryLine(entries[i])
  {
    seq(|entries|, i requires 0 <= i < |entries| => EntryLine(entries[i]))
  }

  function Render(validity: nat, next: nat, entries: seq<Entry>): string {
    Header(validity, next) + "\n" + JoinLines(EntryLines(entries))
  }

  /** entries is the content of m, each pair once. */
  ghost predicate Lists(entries: seq<Entry>, m: map<string, nat>) {
    && (forall i :: 0 <= i < |entries| ==> entries[i].base in m && m[entries[i].base] == entries[i].uid)
    && (forall i, j :: 0 <= i < j < |entries| ==> entries[i].base != entries[j].base)
    && (forall b :: b in m ==> Entry(b, m[b]) in entries)
  }

  /** text is what writing the list l may produce. */
  ghost predicate Written(text: string, l: List) {
    exists entries: seq<Entry> ::
      && Lists(entries, l.uids)
      && (forall i, j :: 0 <= i < j < |entries| ==> entries[i].uid <= entries[j].uid)
      && text == Render(l.validity, l.next, entries)
  }

  // ----- reading -----

  function AddLine(uids: map<string, nat>, line: string): map<string, nat> {
    var sp := IndexByte(line, ' ');
    if sp == 0 || sp == |line| then uids
    else match ParseUint32(line[..sp])
         case Some(uid) => uids[line[sp + 1..] := uid]
         case None => uids
  }

  function AddLines(lines: seq<string>): map<string, nat> {
    if lines == [] then map[]
    else AddLine(AddLines(lines[..|lines| - 1]), lines[|lines| - 1])
  }

  /** The two numbers of a well-formed header line. */
  function ParseHeader(line: string): Option<(nat, nat)> {
    var header := Fields(line);
    if |header| != 2 || !("V" <= header[0]) || !("N" <= header[1]) then None
    else match (ParseUint32(header[0][1..]), ParseUint32(header[1][1..]))
         case (Some(validity), Some(next)) => if next < 1 then None else Some((validity, next))
         case _ => None
  }

  /** None: the file is empty or its header is corrupt. */
  function Parse(text: string): Option<List> {
    var lines := ScanLines(text, SCAN_LIMIT);
    if lines == [] then None
    else match ParseHeader(lines[0])
         case Some((validity, next)) => Some(List(AddLines(lines[1..]), validity, next))
         case None => None
  }

  /** Without a readable list, numbering starts over under the UIDVALIDITY minted for it. */
  function Read(file: Option<string>, minted: nat): List {
    match file
    case None => List(map[], minted, 1)
    case Some(text) =>
      match Parse(text)
      case None => List(map[], minted, 1)
      case Some(l) => l
  }

  /**
    What the scanner gets of the file when reading it breaks off after k bytes.
    The code does not look at the scanner's error, so this is simply the file.
   */
  function Cut(file: Option<string>, k: nat): Option<string> {
    match file
    case None => None
    case Some(text) => Some(if k < |text| then text[..k] else text)
  }

  // ----- reading undoes writing -----

  lemma HeaderRoundTrip(validity: nat, next: nat)
    requires IsUint32(validity) && IsUint32(next) && next >= 1
    ensures ParseHeader(Header(validity, next)) == Some((validity, next))
  {
    var v, n := "V" + Decimal(validity), "N" + Decimal(next);
    TwoFields(v, n);
    assert v[1..] == Decimal(validity) && n[1..] == Decimal(next);
    DecimalRoundTrip(validity);
    DecimalRoundTrip(next);
  }

  lemma AddEntryLine(uids: map<string, nat>, e: Entry)
    requires IsUint32(e.uid)
    ensures AddLine(uids, EntryLine(e)) == uids[e.base := e.uid]
  {
    var d := Decimal(e.uid);
    assert EntryLine(e) == d + [' '] + e.base;
    IndexByteAfter(d, ' ', e.base);
    assert EntryLine(e)[..|d|] == d && EntryLine(e)[|d| + 1..] == e.base;
    DecimalRoundTrip(e.uid);
  }

  ghost predicate Writable(entries: seq<Entry>) {
    forall i :: 0 <= i < |entries| ==> Storable(entries[i].base) && IsUint32(entries[i].uid)
  }

  lemma EntryLineIsOneLine(e: Entry)
    requires Storable(e.base) && IsUint32(e.uid)
    ensures '\n' !in EntryLine(e) && |EntryLine(e)| < SCAN_LIMIT && DropCR(EntryLine(e)) == EntryLine(e)
  {
    DecimalShort(e.uid);
    var l := EntryLine(e);
    assert l[|l| - 1] == if e.base == "" then ' ' else e.base[|e.base| - 1];
  }

  lemma {:induction false} ScanJoined(lines: seq<string>)
    requires forall i :: 0 <= i < |lines| ==> '\n' !in lines[i] && |lines[i]| < SCAN_LIMIT && DropCR(lines[i]) == lines[i]
    ensures ScanLines(JoinLines(lines), SCAN_LIMIT) == lines
  {
    if lines != [] {
      ScanFirstLine(lines[0], JoinLines(lines[1..]), SCAN_LIMIT);
      ScanJoined(lines[1..]);
      assert lines == [lines[0]] + lines[1..];
    }
  }

  lemma ListsOneMore(entries: seq<Entry>, m: map<string, nat>)
    requires entries != []
    requires forall i, j :: 0 <= i < j < |entries| ==> entries[i].base != entries[j].base
    requires Lists(entries[..|entries| - 1], m)
    ensures Lists(entries, m[entries[|entries| - 1].base := entries[|entries| - 1].uid])
  {
    var n := |entries| - 1;
    assert entries == entries[..n] + [entries[n]];
  }

  lemma {:induction false} AddEntryLines(entries: seq<Entry>)
    requires Writable(entries)
    requires forall i, j :: 0 <= i < j < |entries| ==> entries[i].base != entries[j].base
    ensures Lists(entries, AddLines(EntryLines(entries)))
  {
    if entries != [] {
      var n := |entries| - 1;
      AddEntryLines(entries[..n]);
      assert EntryLines(entries)[..n] == EntryLines(entries[..n]);
      var m := AddLines(EntryLines(entries[..n]));
      AddEntryLine(m, entries[n]);
      ListsOneMore(entries, m);
    }
  }

  lemma ScanRendered(validity: nat, next: nat, entries: seq<Entry>)
    requires IsUint32(validity) && IsUint32(next) && Writable(entries)
    ensures ScanLines(Render(validity, next, entries), SCAN_LIMIT) == [Header(validity, next)] + EntryLines(entries)
  {
    var h := Header(validity, next);
    DecimalShort(validity);
    DecimalShort(next);
    assert h[|h| - 1] == Decimal(next)[|Decimal(next)| - 1];
    assert DropCR(h) == h && '\n' !in h;
    ScanFirstLine(h, JoinLines(EntryLines(entries)), SCAN_LIMIT);
    forall i | 0 <= i < |entries| ensures '\n' !in EntryLines(entries)[i] && |EntryLines(entries)[i]| < SCAN_LIMIT
      && DropCR(EntryLines(entries)[i]) == EntryLines(entries)[i]
    {
      EntryLineIsOneLine(entries[i]);
    }
    ScanJoined(EntryLines(entries));
  }

  lemma ListsUnique(entries: seq<Entry>, m: map<string, nat>, n: map<string, nat>)
    requires Lists(entries, m) && Lists(entries, n)
    ensures m == n
  {
    forall b | b in m ensures b in n && m[b] == n[b] { assert Entry(b, m[b]) in entries; }
    forall b | b in n ensures b in m { assert Entry(b, n[b]) in entries; }
  }

  lemma ParseRendered(l: List, entries: seq<Entry>)
    requires IsUint32(l.validity) && IsUint32(l.next) && l.next >= 1
    requires Writable(entries) && AddLines(EntryLines(entries)) == l.uids
    ensures Parse(Render(l.validity, l.next, entries)) == Some(l)
  {
    var lines := ScanLines(Render(l.validity, l.next, entries), SCAN_LIMIT);
    ScanRendered(l.validity, l.next, entries);
    HeaderRoundTrip(l.validity, l.next);
    assert lines[1..] == EntryLines(entries);
  }

  /** Reading back any written list returns its map, UIDVALIDITY and UIDNEXT. */
  lemma RoundTrip(text: string, l: List)
    requires Written(text, l)
    requires IsUint32(l.validity) && IsUint32(l.next) && l.next >= 1
    requires forall b :: b in l.uids ==> Storable(b) && IsUint32(l.uids[b])
    ensures Parse(text) == Some(l)
  {
    var entries: seq<Entry> :| Lists(entries, l.uids) && text == Render(l.validity, l.next, entries);
    assert Writable(entries);
    AddEntryLines(entries);
    ListsUnique(entries, AddLines(EntryLines(entries)), l.uids);
    ParseRendered(l, entries);
  }

  // ----- the code -----

  lemma {:induction false} JoinAppend(lines: seq<string>, line: string)
    ensures JoinLines(lines + [line]) == JoinLines(lines) + (line + "\n")
  {
    if lines == [] {
      assert [line][1..] == [] && lines + [line] == [line];
      assert JoinLines([line]) == line + "\n" + JoinLines([]);
    } else {
      JoinAppend(lines[1..], line);
      assert (lines + [line])[1..] == lines[1..] + [line];
      Assoc(lines[0] + "\n", JoinLines(lines[1..]), line + "\n");
    }
  }

  /** The pairs of the map, in whatever order the map is ranged over. */
  method Collect(uids: map<string, nat>) returns (list: seq<Entry>)
    ensures Lists(list, uids)
  {
    list := [];
    var pending := uids.Keys;
    while pending != {}
      invariant pending <= uids.Keys
      invariant forall i :: 0 <= i < |list| ==>
        list[i].base in uids && list[i].base !in pending && uids[list[i].base] == list[i].uid
      invariant forall i, j :: 0 <= i < j < |list| ==> list[i].base != list[j].base
      invariant forall b :: b in uids && b !in pending ==> Entry(b, uids[b]) in list
    {
      var base :| base in pending;
      list := list + [Entry(base, uids[base])];
      pending := pending - {base};
    }
  }

  /** Mailbox.writeUIDList up to the rename: the text that replaces the file. */
  method WriteUidList(uids: map<string, nat>, validity: nat, next: nat) returns (text: string)
    ensures Written(text, List(uids, validity, next))
  {
    var list := Collect(uids);
    var entries := SortBy(list, (e: Entry) => e.uid);
    SortedLists(list, entries, uids);
    var h := Header(validity, next) + "\n";
    text := h;
    ghost var lines := EntryLines(entries);
    for i := 0 to |entries|
      invariant text == h + JoinLines(lines[..i])
    {
      JoinAppend(lines[..i], lines[i]);
      assert lines[..i + 1] == lines[..i] + [lines[i]];
      Assoc(h, JoinLines(lines[..i]), lines[i] + "\n");
      text := text + (EntryLine(entries[i]) + "\n");
    }
    assert lines[..|entries|] == lines;
    assert text == Render(validity, next, entries);
    assert forall i, j :: 0 <= i < j < |entries| ==> entries[i].uid <= entries[j].uid;
  }

  lemma SortedLists(list: seq<Entry>, entries: seq<Entry>, m: map<string, nat>)
    requires Lists(list, m) && multiset(list) == multiset(entries)
    ensures Lists(entries, m)
  {
    SameMembers(list, entries);
    DistinctPermutation(list, entries);
    forall i | 0 <= i < |entries| ensures entries[i].base in m && m[entries[i].base] == entries[i].uid {
      assert entries[i] in list;
    }
  }

  /** Mailbox.readUIDList. */
  method ReadUidList(file: Option<string>, minted: nat) returns (l: List)
    ensures l == Read(file, minted)
  {
    if file.None? { return List(map[], minted, 1); }
    var lines := ScanLines(file.value, SCAN_LIMIT);
    if lines == [] { return List(map[], minted, 1); }
    var header := ParseHeader(lines[0]);
    if header.None? { return List(map[], minted, 1); }
    var uids := ReadEntries(lines[1..]);
    l := List(uids, header.value.0, header.value.1);
  }

  method ReadEntries(lines: seq<string>) returns (uids: map<string, nat>)
    ensures uids == AddLines(lines)
  {
    uids := map[];
    for i := 0 to |lines|
      invariant uids == AddLines(lines[..i])
    {
      assert lines[..i + 1][..i] == lines[..i];
      var line := lines[i];
      var sp := IndexByte(line, ' ');
      if sp == 0 || sp == |line| { continue; }
      var uid := ParseUint32(line[..sp]);
      if uid.None? { continue; }
      uids := uids[line[sp + 1..] := uid.value];
    }
    assert lines[..|lines|] == lines;
  }
}
