/**
  A list whose read breaks off within its header: no list at all, or one without
  entries that counts from a smaller UIDNEXT. Exactly when UIDs stay safe for ever.
 */
module UidHeader {
  import opened Text
  import opened Sorting
  import opened Flags
  import opened UidList
  import opened Maildir
  import opened UidSafety
  import opened UidFaults
  import opened UidCut

  // ----- what is read -----

  lemma {:induction false} PrefixSmaller(s: string, j: nat)
    requires AllDigits(s) && j < |s|
    ensures 10 * DigitsValue(s[..j]) <= DigitsValue(s)
  {
    var front := s[..|s| - 1];
    if j < |s| - 1 {
      PrefixSmaller(front, j);
      assert front[..j] == s[..j];
    }
  }

  /** The first k bytes of a header: no header, or one with a smaller UIDNEXT. */
  lemma HeaderCut(validity: nat, next: nat, k: nat)
    requires IsUint32(validity) && IsUint32(next) && next >= 1 && 1 <= k < |Header(validity, next)|
    ensures match ParseHeader(Header(validity, next)[..k])
      case None => true
      case Some((v, n)) => v == validity && 1 <= n < next
  {
    var v, n := "V" + Decimal(validity), "N" + Decimal(next);
    var h := Header(validity, next)[..k];
    if k <= |v| {
      assert h == v[..k] && h == h + "";
      FirstField(h, "");
    } else if k == |v| + 1 {
      assert h == v + " ";
      FirstField(v, " ");
      assert " "[1..] == "" && Fields(" ") == [];
    } else {
      var j := k - |v| - 2;
      assert h == v + " " + n[..j + 1];
      TwoFields(v, n[..j + 1]);
      assert v[1..] == Decimal(validity) && n[..j + 1][1..] == Decimal(next)[..j];
      DecimalRoundTrip(validity);
      DecimalValue(next);
      PrefixSmaller(Decimal(next), j);
    }
  }

  /**
    A list that breaks off within its header is no list, so that its UIDVALIDITY
    is lost, or it is one without entries and with a smaller UIDNEXT.
   */
  lemma HeaderLost(validity: nat, next: nat, entries: seq<Entry>, k: nat)
    requires IsUint32(validity) && IsUint32(next) && next >= 1 && Writable(entries) && k < |Header(validity, next)|
    ensures match Parse(Render(validity, next, entries)[..k])
      case None => true
      case Some(c) => c.validity == validity && c.uids == map[] && 1 <= c.next < next
  {
    var h := Header(validity, next);
    LinesOk(validity, next, entries);
    assert LineOk(AllLines(validity, next, entries)[0]);
    assert Render(validity, next, entries)[..k] == h[..k];
    ScanOne(h[..k]);
    if k > 0 {
      HeaderCut(validity, next, k);
      if '\r' in h[..k] { assert '\r' in h; HeaderHasNoCR(validity, next); }
      assert DropCR(h[..k]) == h[..k];
      assert [h[..k]][1..] == [];
    }
  }

  lemma HeaderHasNoCR(validity: nat, next: nat)
    ensures '\r' !in Header(validity, next)
  {
  }

  // ----- every UID below the UIDNEXT on disk has been given -----

  ghost predicate Taken(given: set<(string, nat)>, n: nat) { exists g :: g in given && g.1 == n }

  ghost predicate AllTaken(given: set<(string, nat)>, next: nat) { forall n :: 1 <= n < next ==> Taken(given, n) }

  ghost predicate Dense(w: World) { Disk(w).Some? ==> AllTaken(w.given, Disk(w).value.next) }

  lemma TakenMore(given: set<(string, nat)>, next: nat, names: seq<string>, given': set<(string, nat)>)
    requires AllTaken(given, next) && given <= given'
    requires forall i :: 0 <= i < |names| ==> (names[i], next + i) in given'
    ensures AllTaken(given', next + |names|)
  {
    forall n | 1 <= n < next + |names| ensures Taken(given', n) {
      if n < next {
        assert Taken(given, n);
        var g :| g in given && g.1 == n;
        assert g in given';
      } else {
        assert (names[n - next], n) in given';
      }
    }
  }

  lemma StillTaken(w: World, w': World)
    requires Dense(w) && Disk(w') == Disk(w) && w.given <= w'.given
    ensures Dense(w')
  {
    if Disk(w).Some? {
      forall n | 1 <= n < Disk(w).value.next ensures Taken(w'.given, n) {
        assert Taken(w.given, n);
        var g :| g in w.given && g.1 == n;
        assert g in w'.given;
      }
    }
  }

  /** The UIDNEXT a Refresh reads, with all UIDs below it given. */
  lemma ReadTaken(w: World, minted: nat)
    requires Inv(w) && Dense(w)
    ensures AllTaken(w.given, Read(w.folder.list, minted).next)
  {
  }

  lemma WritingKeepsDense(w: World, box: nat, minted: nat, order: seq<Path>, w': World)
    requires Inv(w) && Dense(w) && Wrote(w, box, minted, order, w')
    ensures Dense(w')
  {
    var next, names := Read(w.folder.list, minted).next, Unknown(w.folder, minted, order);
    hide Inv, Dense, Wrote, Unknown, AllTaken, Read, Disk;
    WroteGives(w, box, minted, order, w');
    ReadTaken(w, minted);
    TakenMore(w.given, next, names, w'.given);
    DenseFrom(w', next + |names|);
  }

  lemma DenseFrom(w: World, next: nat)
    requires Disk(w).Some? && Disk(w).value.next == next && AllTaken(w.given, next)
    ensures Dense(w)
  {
  }

  lemma StepKeepsDense(w: World, w': World)
    requires Inv(w) && Dense(w) && Steps(w, w')
    ensures Dense(w')
  {
    hide Inv, Dense, Pairs, RefreshedFrom, Refreshed;
    StepContinues(w, w');
    if w'.folder.list == w.folder.list {
      SameListTaken(w, w');
    } else {
      var box, minted, order := WritingStep(w, w');
      WritingKeepsDense(w, box, minted, order, w');
    }
  }

  lemma SameListTaken(w: World, w': World)
    requires Dense(w) && w'.folder.list == w.folder.list && w.given <= w'.given
    ensures Dense(w')
  {
    hide Parse, Dense;
    assert Disk(w') == Disk(w);
    StillTaken(w, w');
  }

  /** Only a Refresh that writes changes the list. */
  lemma WritingStep(w: World, w': World) returns (box: nat, minted: nat, order: seq<Path>)
    requires Steps(w, w') && w'.folder.list != w.folder.list
    ensures Wrote(w, box, minted, order, w')
  {
    var a :| Next(w, a, w');
    assert a.Refresh?;
    box, minted := a.box, a.minted;
    var ok :| RefreshStep(w, box, minted, a.fault, w', ok);
    order := RefreshIsWhole(w, a, w', ok);
  }

  /** Over every run, each UID below the UIDNEXT on disk has been given to some message. */
  lemma {:induction false} EveryUidTaken(ws: seq<World>, j: nat)
    requires Run(ws) && j < |ws|
    ensures Dense(ws[j])
  {
    InitInv(ws[0]);
    if j == 0 { InitDense(ws[0]); }
    hide Inv, Next, Init, Dense, Disk, Steps;
    if j > 0 {
      EveryUidTaken(ws, j - 1);
      WalkFacts(ws, j - 1, j - 1);
      assert StepsAt(ws, j - 1);
      StepKeepsDense(ws[j - 1], ws[j]);
    }
  }

  lemma InitDense(w: World)
    requires Init(w)
    ensures Dense(w)
  {
  }

  // ----- counting from a smaller UIDNEXT -----

  /**
    The scan starts with exactly the listed messages numbered next, next + 1, ...
    up to the UIDNEXT of the list, in that order, and what follows is unlisted.
   */
  ghost predicate CountsOn(l: List, next: nat, bases: seq<string>) {
    && l.next <= next + |bases|
    && forall i :: 0 <= i < |bases| ==>
         if next + i < l.next then bases[i] in l.uids && l.uids[bases[i]] == next + i else bases[i] !in l.uids
  }

  ghost predicate Consecutive(pairs: set<(string, nat)>, next: nat, bases: seq<string>) {
    && (forall i :: 0 <= i < |bases| ==> (bases[i], next + i) in pairs)
    && forall g :: g in pairs ==> exists i :: 0 <= i < |bases| && g == (bases[i], next + i)
  }

  ghost predicate Below(given: set<(string, nat)>, next: nat) { forall g :: g in given ==> 1 <= g.1 < next }

  /** A base name that is there has been given a UID exactly when it is listed, and then that one. */
  lemma GivenIsListed(
    files: map<Path, File>, used: set<string>, given: set<(string, nat)>, l: List, b: string, n: nat)
    requires ListInv(files, used, given, l) && ShownBase(files, b)
    ensures (b, n) in given <==> b in l.uids && l.uids[b] == n
  {
    var p :| p in files && !Hidden(p.name) && Base(p) == b;
    if (b, n) in given {
      assert b in l.uids && (b, l.uids[b]) in given;
    }
  }

  lemma SafeCountsOn(
    files: map<Path, File>, used: set<string>, given: set<(string, nat)>, l: List, next: nat, bases: seq<string>,
    pairs: set<(string, nat)>, i: nat)
    requires ListInv(files, used, given, l) && AllTaken(given, l.next) && 1 <= next && i < |bases|
    requires Bijective(given + pairs) && (bases[i], next + i) in pairs && ShownBase(files, bases[i])
    ensures if next + i < l.next then bases[i] in l.uids && l.uids[bases[i]] == next + i else bases[i] !in l.uids
  {
    var b, n := bases[i], next + i;
    if n < l.next {
      assert Taken(given, n);
      var g :| g in given && g.1 == n;
      assert g in given + pairs && (b, n) in given + pairs && g == (b, n);
      GivenIsListed(files, used, given, l, b, n);
    } else {
      OneUid(given, pairs, b, n);
    }
  }

  lemma OneUid(given: set<(string, nat)>, pairs: set<(string, nat)>, b: string, n: nat)
    requires Bijective(given + pairs) && (b, n) in pairs
    ensures forall g :: g in given && g.0 == b ==> g.1 == n
  {
    forall g | g in given && g.0 == b ensures g.1 == n { assert g in given + pairs && (b, n) in given + pairs; }
  }

  lemma CountingIsSafe(
    files: map<Path, File>, used: set<string>, given: set<(string, nat)>, l: List, next: nat, bases: seq<string>,
    pairs: set<(string, nat)>)
    requires ListInv(files, used, given, l) && Consecutive(pairs, next, bases) && Distinct(bases) && 1 <= next
    requires (forall i :: 0 <= i < |bases| ==> ShownBase(files, bases[i])) && CountsOn(l, next, bases)
    ensures Bijective(given + pairs) && Below(given + pairs, next + |bases|)
  {
    ConsecutiveFacts(pairs, next, bases);
    forall g, h | g in given && h in pairs ensures g.0 == h.0 <==> g.1 == h.1 {
      var j :| 0 <= j < |bases| && h == (bases[j], next + j);
      CountedFits(files, used, given, l, next, bases, j, g);
    }
    hide CountsOn, Consecutive;
    TogetherBijective(given, pairs);
  }

  lemma ConsecutiveFacts(pairs: set<(string, nat)>, next: nat, bases: seq<string>)
    requires Consecutive(pairs, next, bases) && Distinct(bases) && 1 <= next
    ensures Bijective(pairs) && Below(pairs, next + |bases|)
  {
    forall g, h | g in pairs && h in pairs ensures g.0 == h.0 <==> g.1 == h.1 {
      var i :| 0 <= i < |bases| && g == (bases[i], next + i);
      var j :| 0 <= j < |bases| && h == (bases[j], next + j);
    }
    forall g | g in pairs ensures 1 <= g.1 < next + |bases| {
      var i :| 0 <= i < |bases| && g == (bases[i], next + i);
    }
  }

  lemma TogetherBijective(given: set<(string, nat)>, pairs: set<(string, nat)>)
    requires Bijective(given) && Bijective(pairs)
    requires forall g, h :: g in given && h in pairs ==> (g.0 == h.0 <==> g.1 == h.1)
    ensures Bijective(given + pairs)
  {
  }

  lemma CountedFits(
    files: map<Path, File>, used: set<string>, given: set<(string, nat)>, l: List, next: nat, bases: seq<string>,
    j: nat, g: (string, nat))
    requires ListInv(files, used, given, l) && CountsOn(l, next, bases) && j < |bases| && ShownBase(files, bases[j])
    requires g in given
    ensures g.0 == bases[j] <==> g.1 == next + j
  {
    GivenIsListed(files, used, given, l, bases[j], g.1);
    GivenIsListed(files, used, given, l, bases[j], next + j);
    assert g == (g.0, g.1);
    if next + j < l.next { assert (bases[j], next + j) in given; }
  }

  lemma SafeWhenCounting(
    files: map<Path, File>, used: set<string>, given: set<(string, nat)>, l: List, next: nat, bases: seq<string>,
    pairs: set<(string, nat)>)
    requires ListInv(files, used, given, l) && AllTaken(given, l.next) && 1 <= next < l.next
    requires Consecutive(pairs, next, bases) && Distinct(bases)
    requires forall i :: 0 <= i < |bases| ==> ShownBase(files, bases[i])
    ensures Bijective(given + pairs) && Below(given + pairs, next + |bases|) <==> CountsOn(l, next, bases)
  {
    if CountsOn(l, next, bases) { CountingIsSafe(files, used, given, l, next, bases, pairs); }
    if Bijective(given + pairs) && Below(given + pairs, next + |bases|) {
      assert Taken(given, l.next - 1);
      var top :| top in given && top.1 == l.next - 1;
      assert top in given + pairs;
      hide ListInv, Bijective, Below, AllTaken;
      forall i | 0 <= i < |bases|
        ensures if next + i < l.next then bases[i] in l.uids && l.uids[bases[i]] == next + i else bases[i] !in l.uids
      {
        SafeCountsOn(files, used, given, l, next, bases, pairs, i);
      }
    }
  }

  /** The world after a Refresh in this order that read c instead of its list. */
  ghost predicate ReadShort(w: World, c: List, order: seq<Path>, writes: bool, box: nat, ok: bool, w': World) {
    && box in w'.boxes && RefreshedFrom(w.folder, c, order, writes, w'.folder, w'.boxes[box], ok)
    && w' == w.(folder := w'.folder, boxes := w.boxes[box := w'.boxes[box]],
                given := if ok then w.given + Pairs(w'.boxes[box]) else w.given)
  }

  lemma DistinctAreNew(bases: seq<string>)
    requires Distinct(bases)
    ensures NewNames(bases, map[]) == bases
  {
    if bases != [] {
      var n := |bases| - 1;
      DistinctAreNew(bases[..n]);
      assert bases == bases[..n] + [bases[n]];
    }
  }

  /** What it shows: every file that is there, numbered from c.next in scan order. */
  lemma ShortShows(w: World, c: List, order: seq<Path>, writes: bool, f': Folder, v': View, ok: bool)
    requires Inv(w) && c.uids == map[] && c.next + |w.folder.files| < TWO32
    requires RefreshedFrom(w.folder, c, order, writes, f', v', ok)
    ensures Distinct(Bases(order)) && Consecutive(Pairs(v'), c.next, Bases(order))
    ensures forall i :: 0 <= i < |order| ==> ShownBase(w.folder.files, Bases(order)[i])
    ensures NumbersNew(map[], c.next, Bases(order), Assign(Bases(order), map[], c.next))
  {
    BasesDistinct(w.folder.files, order);
    hide Inv, Assign, Pairs, Snapshot;
    DistinctAreNew(Bases(order));
    RefreshShows(w.folder, c, order, writes, f', v', ok);
    AllShown(Bases(order), c.next, Assign(Bases(order), map[], c.next), Pairs(v'));
    forall i | 0 <= i < |order| ensures ShownBase(w.folder.files, Bases(order)[i]) {
      assert Bases(order)[i] in Bases(order);
      ShownBases(w.folder.files, order, Bases(order)[i]);
    }
  }

  lemma AllShown(bases: seq<string>, next: nat, a: Assignment, pairs: set<(string, nat)>)
    requires NumbersNew(map[], next, bases, a) && Shows(pairs, next, bases, a)
    ensures Consecutive(pairs, next, bases)
  {
    forall g | g in pairs ensures exists i :: 0 <= i < |bases| && g == (bases[i], next + i) {
      var i :| 0 <= i < |bases| && bases[i] == g.0;
    }
  }

  /** The list it wrote, if it wrote one. */
  lemma ShortWrites(w: World, c: List, order: seq<Path>, box: nat, ok: bool, w': World) returns (live: map<string, nat>)
    requires Inv(w) && c.uids == map[] && 1 <= c.next && c.next + |w.folder.files| < TWO32 && IsUint32(c.validity)
    requires ReadShort(w, c, order, true, box, ok, w') && w.folder.files.Keys != {}
    ensures ok && Disk(w') == Some(List(live, c.validity, c.next + |order|)) && c.next + |order| < TWO32
    ensures w'.folder.files == w.folder.files
    ensures Pruned(w.folder.files, Assign(Bases(order), map[], c.next).uids, live)
  {
    hide Inv, Parse, ReadShort, Assign, Rewritten, FilesInv, UidsBelow, Written, Pruned, Bases;
    var a := Assign(Bases(order), map[], c.next);
    ShortDirty(w, c, order, box, ok, w');
    InvFiles(w);
    live := RewrittenParses(w.folder.files, w.used, a.uids, c.validity, a.next, w'.folder.list);
  }

  lemma ShortDirty(w: World, c: List, order: seq<Path>, box: nat, ok: bool, w': World)
    requires Inv(w) && c.uids == map[] && 1 <= c.next && c.next + |w.folder.files| < TWO32
    requires ReadShort(w, c, order, true, box, ok, w') && w.folder.files.Keys != {}
    ensures var a := Assign(Bases(order), map[], c.next);
      && ok && w'.folder.files == w.folder.files && UidsBelow(a.uids, a.next)
      && a.next == c.next + |order| < TWO32
      && Rewritten(w.folder.files, a.uids, c.validity, a.next, w'.folder.list)
  {
    InvFiles(w);
    hide Inv, Parse, Pairs, Snapshot, ScanOrder, Assign, Rewritten, FilesInv, Consecutive, UidsBelow;
    ShortShows(w, c, order, true, w'.folder, w'.boxes[box], ok);
    ScanFits(w.folder.files, order);
    NewFilesAreAssigned(w.folder.files, w.used, order, c);
    NoneBelow(Bases(order), c.next);
    NextOf(map[], c.next, Bases(order), Assign(Bases(order), map[], c.next));
  }

  lemma NextOf(uids: map<string, nat>, next: nat, names: seq<string>, a: Assignment)
    requires NumbersNew(uids, next, names, a)
    ensures a.next == next + |names|
  {
  }

  lemma InvFiles(w: World)
    requires Inv(w)
    ensures FilesInv(w.folder.files, w.used)
  {
  }

  lemma NoneBelow(bases: seq<string>, next: nat)
    requires 1 <= next && next + |bases| < TWO32
    ensures var a := Assign(bases, map[], next); UidsBelow(a.uids, a.next)
  {
    AssignFacts(bases, map[], next);
  }

  lemma ShortWrittenInv(
    w: World, l: List, c: List, order: seq<Path>, box: nat, ok: bool, w': World)
    requires Inv(w) && Disk(w) == Some(l) && Dense(w) && w.folder.files.Keys != {}
    requires c.uids == map[] && c.validity == l.validity && 1 <= c.next < l.next && c.next + |w.folder.files| < TWO32
    requires ReadShort(w, c, order, true, box, ok, w')
    ensures Inv(w') <==> CountsOn(l, c.next, Bases(order))
  {
    hide Inv, RefreshedFrom, Pairs, Assign, CountsOn, Dense, Disk, FilesInv, ListInv, Below, Bijective, AllTaken, Consecutive, NumbersNew, Pruned;
    var bases, pairs, files := Bases(order), Pairs(w'.boxes[box]), w.folder.files;
    DenseMeans(w, l);
    var live := ShortWrites(w, c, order, box, ok, w');
    ShortShows(w, c, order, true, w'.folder, w'.boxes[box], ok);
    SafeWhenCounting(files, w.used, w.given, l, c.next, bases, pairs);
    WrittenInv(w, l, c.next, bases, pairs, live, Assign(bases, map[], c.next), w');
  }

  lemma DenseMeans(w: World, l: List)
    requires Inv(w) && Dense(w) && Disk(w) == Some(l)
    ensures AllTaken(w.given, l.next) && FilesInv(w.folder.files, w.used) && ListInv(w.folder.files, w.used, w.given, l)
    ensures IsUint32(l.validity)
  {
  }

  /** Of the new list and the pairs, the invariant asks no more than that they are one-to-one and below UIDNEXT. */
  lemma WrittenInv(
    w: World, l: List, next: nat, bases: seq<string>, pairs: set<(string, nat)>, live: map<string, nat>, a: Assignment,
    w': World)
    requires Inv(w) && Disk(w) == Some(l) && 1 <= next && next + |bases| < TWO32
    requires Consecutive(pairs, next, bases) && NumbersNew(map[], next, bases, a)
    requires forall i :: 0 <= i < |bases| ==> ShownBase(w.folder.files, bases[i])
    requires Pruned(w.folder.files, a.uids, live) && Disk(w') == Some(List(live, l.validity, next + |bases|))
    requires w'.folder.files == w.folder.files && w'.used == w.used && w'.given == w.given + pairs
    ensures Inv(w') <==> Bijective(w'.given) && Below(w'.given, next + |bases|)
  {
    DiskMeans(w, l);
    hide Inv, Disk, FilesInv, ListInv, Consecutive, NumbersNew, Pruned, Bijective;
    if Inv(w') { InvMeans(w'); }
    if Bijective(w'.given) && Below(w'.given, next + |bases|) {
      LiveListInv(w.folder.files, w.used, w.given, l, next, bases, pairs, live, a);
      InvFrom(w');
    }
  }

  lemma DiskMeans(w: World, l: List)
    requires Inv(w) && Disk(w) == Some(l)
    ensures FilesInv(w.folder.files, w.used) && ListInv(w.folder.files, w.used, w.given, l)
  {
  }

  lemma InvFrom(w: World)
    requires FilesInv(w.folder.files, w.used) && Disk(w).Some?
    requires ListInv(w.folder.files, w.used, w.given, Disk(w).value)
    ensures Inv(w)
  {
  }

  lemma LiveListInv(
    files: map<Path, File>, used: set<string>, given: set<(string, nat)>, l: List, next: nat, bases: seq<string>,
    pairs: set<(string, nat)>, live: map<string, nat>, a: Assignment)
    requires FilesInv(files, used) && ListInv(files, used, given, l) && 1 <= next && next + |bases| < TWO32
    requires Consecutive(pairs, next, bases) && NumbersNew(map[], next, bases, a) && Pruned(files, a.uids, live)
    requires forall i :: 0 <= i < |bases| ==> ShownBase(files, bases[i])
    requires Bijective(given + pairs) && Below(given + pairs, next + |bases|)
    ensures ListInv(files, used, given + pairs, List(live, l.validity, next + |bases|))
  {
    hide Consecutive, NumbersNew, Bijective, Pruned, FilesInv;
    LiveIsGiven(files, next, bases, pairs, live, a);
    ShownAreUsed(files, used, next, bases, pairs);
    LiveCovers(files, used, a.uids, live);
  }

  lemma LiveCovers(files: map<Path, File>, used: set<string>, uids: map<string, nat>, live: map<string, nat>)
    requires FilesInv(files, used) && Pruned(files, uids, live)
    ensures forall p :: p in files ==> Base(p) in live
  {
    forall p | p in files ensures Base(p) in live { assert !Hidden(p.name); }
  }

  lemma LiveIsGiven(
    files: map<Path, File>, next: nat, bases: seq<string>, pairs: set<(string, nat)>, live: map<string, nat>, a: Assignment)
    requires Consecutive(pairs, next, bases) && NumbersNew(map[], next, bases, a) && Pruned(files, a.uids, live)
    ensures forall b :: b in live ==> (b, live[b]) in pairs
  {
    forall b | b in live ensures (b, live[b]) in pairs {
      NumberedName(next, bases, a, b);
      var i :| 0 <= i < |bases| && bases[i] == b && a.uids[b] == next + i;
      assert (bases[i], next + i) in pairs;
    }
  }

  lemma NumberedName(next: nat, bases: seq<string>, a: Assignment, b: string)
    requires NumbersNew(map[], next, bases, a) && b in a.uids
    ensures exists i :: 0 <= i < |bases| && bases[i] == b && a.uids[b] == next + i
  {
  }

  lemma ShownAreUsed(
    files: map<Path, File>, used: set<string>, next: nat, bases: seq<string>, pairs: set<(string, nat)>)
    requires FilesInv(files, used) && Consecutive(pairs, next, bases)
    requires forall i :: 0 <= i < |bases| ==> ShownBase(files, bases[i])
    ensures forall g :: g in pairs ==> g.0 in used
  {
    forall g | g in pairs ensures g.0 in used {
      var i :| 0 <= i < |bases| && g == (bases[i], next + i);
      assert ShownBase(files, bases[i]);
    }
  }

  lemma UnwrittenShortKeeps(w: World, c: List, order: seq<Path>, writes: bool, box: nat, ok: bool, w': World)
    requires Inv(w) && c.uids == map[] && ReadShort(w, c, order, writes, box, ok, w')
    requires !writes || w.folder.files.Keys == {}
    ensures Inv(w')
  {
    if w.folder.files.Keys == {} {
      NothingShown(w.folder.files, order, c, w'.boxes[box]);
    } else {
      NewFilesAreAssigned(w.folder.files, w.used, order, c);
    }
  }

  lemma NothingShown(files: map<Path, File>, order: seq<Path>, c: List, v: View)
    requires files.Keys == {} && ScanOrder(files, order)
    requires Snapshot(files, Assign(Bases(order), c.uids, c.next).uids, v.messages)
    ensures Pairs(v) == {} && Assign(Bases(order), c.uids, c.next).uids == c.uids
  {
    ScanFits(files, order);
    assert |files| == |files.Keys| == 0;
    assert Bases(order) == [];
    PairsFacts(files, Assign(Bases(order), c.uids, c.next).uids, v);
    assert forall g :: g !in Pairs(v);
  }

  /**
    The read breaks off within the UIDNEXT of the header. The world it leaves
    satisfies the invariant that keeps UIDs safe for ever if and only if nothing
    was written (no message, or the write failed), or the scan starts with
    exactly the listed messages from the smaller UIDNEXT up to the real one.
   */
  lemma ShortHeaderKeepsUids(
    w: World, l: List, c: List, order: seq<Path>, writes: bool, box: nat, ok: bool, w': World)
    requires Inv(w) && Disk(w) == Some(l) && Dense(w)
    requires c.uids == map[] && c.validity == l.validity && 1 <= c.next < l.next && c.next + |w.folder.files| < TWO32
    requires ReadShort(w, c, order, writes, box, ok, w')
    ensures Inv(w') <==> !writes || w.folder.files.Keys == {} || CountsOn(l, c.next, Bases(order))
  {
    hide Inv, Disk, Dense, ReadShort, CountsOn;
    if !writes || w.folder.files.Keys == {} {
      UnwrittenShortKeeps(w, c, order, writes, box, ok, w');
    } else {
      ShortWrittenInv(w, l, c, order, box, ok, w');
    }
  }

  /** Without a header the offered UIDVALIDITY is reported, and kept if there is a message and the write works. */
  lemma LostHeaderChangesValidity(
    w: World, l: List, minted: nat, order: seq<Path>, writes: bool, box: nat, ok: bool, w': World)
    requires Inv(w) && Disk(w) == Some(l) && 1 <= minted < TWO32 && 1 + |w.folder.files| < TWO32
    requires ReadShort(w, List(map[], minted, 1), order, writes, box, ok, w')
    ensures w'.boxes[box].validity == minted && Disk(w').Some?
    ensures Disk(w').value.validity == if writes && w.folder.files.Keys != {} then minted else l.validity
  {
    var c := List(map[], minted, 1);
    if writes && w.folder.files.Keys != {} {
      var live := ShortWrites(w, c, order, box, ok, w');
    } else if w.folder.files.Keys == {} {
      NothingShown(w.folder.files, order, c, w'.boxes[box]);
    }
  }

  // ----- on a concrete folder -----

  lemma TenCut()
    ensures Header(7, 10)[..|Header(7, 10)| - 1] == Header(7, 1) && |Header(7, 1)| == |Header(7, 10)| - 1
  {
    assert Decimal(10) == Decimal(1) + [Digit(0)];
    assert Header(7, 10) == Header(7, 1) + [Digit(0)];
  }

  lemma ReadsAsOne(minted: nat)
    ensures Read(Cut(Some(Render(7, 10, [Entry("a", 1)])), |Header(7, 1)|), minted) == List(map[], 7, 1)
  {
    var entries := [Entry("a", 1)];
    TenCut();
    LinesOk(7, 10, entries);
    var h := Header(7, 1);
    assert Render(7, 10, entries)[..|h|] == h;
    HeaderHasNoCR(7, 1);
    assert LineOk(AllLines(7, 10, entries)[0]);
    HeaderLine();
    ScanOne(h);
    HeaderRoundTrip(7, 1);
    assert [h][1..] == [];
  }

  lemma HeaderLine()
    ensures '\n' !in Header(7, 1) && |Header(7, 1)| < SCAN_LIMIT && DropCR(Header(7, 1)) == Header(7, 1) != ""
  {
    LinesOk(7, 1, []);
    assert LineOk(AllLines(7, 1, [])[0]);
  }

  /**
    The list "V7 N10 / 1 a" is read up to "V7 N1", and "b", now gone, once had
    UID 9. "a" gets its UID 1 again, but the list written counts on from 2, so
    that the UIDs up to 9 will be given a second time.
   */
  lemma ShortHeaderReusesUids(
    w: World, minted: nat, order: seq<Path>, box: nat, ok: bool, w': World)
    requires w.folder == Folder(OneFile("a"), Some(Render(7, 10, [Entry("a", 1)]))) && Inv(w) && ("b", 9) in w.given
    requires ReadShort(w, Read(Cut(w.folder.list, |Header(7, 1)|), minted), order, true, box, ok, w')
    ensures Pairs(w'.boxes[box]) == {("a", 1)} && Bijective(w.given + Pairs(w'.boxes[box]))
    ensures Disk(w').Some? && Disk(w').value.next == 2 && Disk(w').value.validity == 7 && !Inv(w')
  {
    ReadsAsOne(minted);
    OneListed(w);
    hide Render, Parse, Inv, Cut, Header;
    OneAgain(w, order, box, ok, w');
  }

  lemma OneListed(w: World)
    requires w.folder == Folder(OneFile("a"), Some(Render(7, 10, [Entry("a", 1)]))) && Inv(w)
    ensures ("a", 1) in w.given && Bijective(w.given)
  {
    assert Lists([Entry("a", 1)], map["a" := 1]);
    assert Storable("a");
    RoundTrip(Render(7, 10, [Entry("a", 1)]), List(map["a" := 1], 7, 10));
    InvMeans(w);
    assert "a" in map["a" := 1];
  }

  lemma OneAgain(w: World, order: seq<Path>, box: nat, ok: bool, w': World)
    requires w.folder.files == OneFile("a") && Inv(w) && ("b", 9) in w.given && ("a", 1) in w.given && Bijective(w.given)
    requires ReadShort(w, List(map[], 7, 1), order, true, box, ok, w')
    ensures Pairs(w'.boxes[box]) == {("a", 1)} && Bijective(w.given + Pairs(w'.boxes[box]))
    ensures Disk(w').Some? && Disk(w').value.next == 2 && Disk(w').value.validity == 7 && !Inv(w')
  {
    hide Inv, OneFile, Pairs, Snapshot, Assign, Bijective, Disk, Pruned, RefreshedFrom;
    OneBase();
    assert Path(New, "a") in w.folder.files;
    OneShown(w, order, box, ok, w');
    OneFileOnly();
    var live := ShortWrites(w, List(map[], 7, 1), order, box, ok, w');
    assert w.given + {("a", 1)} == w.given;
    assert ("b", 9) in w'.given;
    if Inv(w') { InvMeans(w'); }
  }

  lemma OneShown(w: World, order: seq<Path>, box: nat, ok: bool, w': World)
    requires w.folder.files == OneFile("a") && ReadShort(w, List(map[], 7, 1), order, true, box, ok, w')
    ensures Pairs(w'.boxes[box]) == {("a", 1)} && |order| == 1
  {
    hide OneFile, Pairs, Snapshot, Assign, Rewritten, ScanOrder;
    OneInOrder(order);
    OneAssigned("a");
    OnePair(w'.boxes[box]);
    assert |order| == |Bases(order)|;
  }

  lemma OneFileOnly()
    ensures |OneFile("a")| == 1
  {
    assert OneFile("a").Keys == {Path(New, "a")};
    assert |OneFile("a")| == |OneFile("a").Keys|;
  }
}
