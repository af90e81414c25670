/**
  Where the promises of section 2.3.1.1 of RFC 3501 end: a list that cannot be
  written, and a folder without a list. For each, exactly when they still hold.
 */
module UidFaults {
  import opened Text
  import opened Sorting
  import opened Flags
  import opened UidList
  import opened Maildir
  import opened UidSafety

  // ----- the pairs one Refresh shows -----

  lemma ScanFits(files: map<Path, File>, order: seq<Path>)
    requires ScanOrder(files, order)
    ensures |order| <= |files|
  {
    DistinctWithin(order, files.Keys);
    assert |files.Keys| == |files|;
  }

  lemma ShownBases(files: map<Path, File>, order: seq<Path>, b: string)
    requires ScanOrder(files, order)
    ensures b in Bases(order) <==> ShownBase(files, b)
  {
    if b in Bases(order) {
      var i :| 0 <= i < |order| && Bases(order)[i] == b;
      assert order[i] in order;
    }
    if ShownBase(files, b) {
      var p :| p in files && !Hidden(p.name) && Base(p) == b;
      assert p in order;
      var i :| 0 <= i < |order| && order[i] == p;
      assert Bases(order)[i] == b;
    }
  }

  /** Some visible file has this base name. */
  ghost predicate ShownBase(files: map<Path, File>, b: string) {
    exists p :: p in files && !Hidden(p.name) && Base(p) == b
  }

  /** pairs are within the assignment a, and all of its new names are among them. */
  ghost predicate Shows(pairs: set<(string, nat)>, next: nat, names: seq<string>, a: Assignment) {
    && (forall g :: g in pairs ==> g.0 in a.uids && a.uids[g.0] == g.1)
    && (forall i :: 0 <= i < |names| ==> (names[i], next + i) in pairs)
  }

  lemma SnapshotShows(files: map<Path, File>, uids: map<string, nat>, v: View, b: string)
    requires Snapshot(files, uids, v.messages) && ShownBase(files, b)
    ensures b in uids && (b, uids[b]) in Pairs(v)
  {
    PairsFacts(files, uids, v);
  }

  /** A snapshot shows the numbers of its list, and consecutive ones for the names new to it. */
  lemma RefreshShows(f: Folder, l: List, order: seq<Path>, writes: bool, f': Folder, v': View, ok: bool)
    requires RefreshedFrom(f, l, order, writes, f', v', ok) && l.next + |f.files| < TWO32
    ensures var names, a := NewNames(Bases(order), l.uids), Assign(Bases(order), l.uids, l.next);
      && NumbersNew(l.uids, l.next, names, a) && Shows(Pairs(v'), l.next, names, a)
      && forall b :: ShownBase(f.files, b) ==> b in a.uids && (b, a.uids[b]) in Pairs(v')
  {
    ScanFits(f.files, order);
    AssignNumbers(Bases(order), l.uids, l.next);
    SnapshotShowsNew(
      f.files, order, l.uids, l.next, NewNames(Bases(order), l.uids), Assign(Bases(order), l.uids, l.next), v');
  }

  lemma SnapshotShowsNew(
    files: map<Path, File>, order: seq<Path>, uids: map<string, nat>, next: nat, names: seq<string>, a: Assignment, v: View)
    requires ScanOrder(files, order) && Snapshot(files, a.uids, v.messages) && NumbersNew(uids, next, names, a)
    requires forall b :: b in names ==> b in Bases(order)
    ensures Shows(Pairs(v), next, names, a)
    ensures forall b :: ShownBase(files, b) ==> b in a.uids && (b, a.uids[b]) in Pairs(v)
  {
    hide Pairs, Snapshot;
    PairsFacts(files, a.uids, v);
    forall b | ShownBase(files, b) ensures b in a.uids && (b, a.uids[b]) in Pairs(v) {
      SnapshotShows(files, a.uids, v, b);
    }
    forall i | 0 <= i < |names| ensures (names[i], next + i) in Pairs(v) {
      assert names[i] in names;
      ShownBases(files, order, names[i]);
    }
  }

  // ----- a list that cannot be written -----

  /** The base names a scan finds that the list does not know, in scan order. */
  function Unknown(f: Folder, minted: nat, order: seq<Path>): seq<string> {
    NewNames(Bases(order), Read(f.list, minted).uids)
  }

  lemma PrefixIsOneToOne(
    uids: map<string, nat>, next: nat, names: seq<string>, a: Assignment, names2: seq<string>, a2: Assignment,
    pairs: set<(string, nat)>, pairs2: set<(string, nat)>)
    requires UidsBelow(uids, next) && names <= names2
    requires NumbersNew(uids, next, names, a) && NumbersNew(uids, next, names2, a2)
    requires Shows(pairs, next, names, a) && Shows(pairs2, next, names2, a2)
    ensures Bijective(pairs + pairs2)
  {
    forall b | b in a.uids ensures b in a2.uids && a2.uids[b] == a.uids[b] {
      if b !in uids {
        var i :| 0 <= i < |names| && names[i] == b;
        assert names2[i] == b;
      }
    }
    NumbersOneToOne(uids, next, names2, a2);
  }

  lemma NumbersOneToOne(uids: map<string, nat>, next: nat, names: seq<string>, a: Assignment)
    requires UidsBelow(uids, next) && NumbersNew(uids, next, names, a)
    ensures forall b, c :: b in a.uids && c in a.uids && a.uids[b] == a.uids[c] ==> b == c
  {
    forall b | b in a.uids && b !in uids ensures a.uids[b] >= next {
      var i :| 0 <= i < |names| && names[i] == b;
    }
    forall b, c | b in a.uids && c in a.uids && b !in uids && c !in uids && a.uids[b] == a.uids[c] ensures b == c {
      var i :| 0 <= i < |names| && names[i] == b;
      var j :| 0 <= j < |names| && names[j] == c;
    }
  }

  lemma OneToOneIsPrefix(
    next: nat, names: seq<string>, names2: seq<string>, pairs: set<(string, nat)>, pairs2: set<(string, nat)>)
    requires Bijective(pairs + pairs2) && |names| <= |names2|
    requires forall i :: 0 <= i < |names| ==> (names[i], next + i) in pairs
    requires forall i :: 0 <= i < |names2| ==> (names2[i], next + i) in pairs2
    ensures names <= names2
  {
    forall i | 0 <= i < |names| ensures names[i] == names2[i] {
      var g, h := (names[i], next + i), (names2[i], next + i);
      assert g in pairs + pairs2 && h in pairs + pairs2;
    }
  }

  /**
    A Refresh that could not write its list, and any Refresh over that same
    list, whatever came and went in between: together they give base names and
    UIDs to each other alone if and only if what the list did not know at one
    scan is a prefix of what it did not know at the other.
   */
  lemma FailedWriteKeepsUids(
    f: Folder, minted: nat, order: seq<Path>, f': Folder, v: View, ok: bool,
    files: map<Path, File>, minted2: nat, order2: seq<Path>, writes2: bool, f2: Folder, v2: View, ok2: bool)
    requires RefreshedInOrder(f, minted, order, false, f', v, ok)
    requires RefreshedInOrder(f'.(files := files), minted2, order2, writes2, f2, v2, ok2)
    requires UidsBelow(Read(f.list, minted).uids, Read(f.list, minted).next)
    requires Room(f, minted) && Room(f'.(files := files), minted2)
    ensures var n1, n2 := Unknown(f, minted, order), Unknown(f'.(files := files), minted2, order2);
      Bijective(Pairs(v) + Pairs(v2)) <==> n1 <= n2 || n2 <= n1
    ensures f.list.Some? && Parse(f.list.value).Some? ==> v.validity == v2.validity
  {
    var l, l2 := Read(f.list, minted), Read(f.list, minted2);
    assert f'.list == f.list && l2.uids == l.uids && l2.next == l.next;
    var n1, n2 := Unknown(f, minted, order), Unknown(f'.(files := files), minted2, order2);
    var a1, a2 := Assign(Bases(order), l.uids, l.next), Assign(Bases(order2), l.uids, l.next);
    RefreshShows(f, l, order, false, f', v, ok);
    RefreshShows(f'.(files := files), l2, order2, writes2, f2, v2, ok2);
    EitherPrefix(l.uids, l.next, n1, a1, n2, a2, Pairs(v), Pairs(v2));
  }

  lemma EitherPrefix(
    uids: map<string, nat>, next: nat, names: seq<string>, a: Assignment, names2: seq<string>, a2: Assignment,
    pairs: set<(string, nat)>, pairs2: set<(string, nat)>)
    requires UidsBelow(uids, next) && NumbersNew(uids, next, names, a) && NumbersNew(uids, next, names2, a2)
    requires Shows(pairs, next, names, a) && Shows(pairs2, next, names2, a2)
    ensures Bijective(pairs + pairs2) <==> names <= names2 || names2 <= names
  {
    assert pairs + pairs2 == pairs2 + pairs;
    if Bijective(pairs + pairs2) {
      if |names| <= |names2| {
        OneToOneIsPrefix(next, names, names2, pairs, pairs2);
      } else {
        OneToOneIsPrefix(next, names2, names, pairs2, pairs);
      }
    } else if names <= names2 {
      PrefixIsOneToOne(uids, next, names, a, names2, a2, pairs, pairs2);
    } else if names2 <= names {
      PrefixIsOneToOne(uids, next, names2, a2, names, a, pairs2, pairs);
    }
  }

  // ----- what a failed write leaves for ever -----

  /** The list on disk is the same throughout. */
  ghost predicate Unwritten(ws: seq<World>) { forall k :: 0 <= k < |ws| ==> ws[k].folder.list == ws[0].folder.list }

  /** A written list has a higher UIDNEXT than the one it replaces, so it is another text. */
  lemma WritingChangesList(w: World, minted: nat, order: seq<Path>, f': Folder, v': View, ok: bool)
    requires Inv(w) && 1 <= minted < TWO32 && Room(w.folder, minted)
    requires RefreshedInOrder(w.folder, minted, order, true, f', v', ok)
    ensures var l := Read(w.folder.list, minted);
      f'.list == w.folder.list ==> Assign(Bases(order), l.uids, l.next).uids == l.uids
  {
    var l := Read(w.folder.list, minted);
    var a := Assign(Bases(order), l.uids, l.next);
    RefreshAssigns(w, minted, order);
    if a.uids != l.uids {
      WritingKeepsInv(w.folder.files, w.used, w.given, l, a, v', f'.list);
      ScanFits(w.folder.files, order);
      NewRaisesNext(Bases(order), l.uids, l.next);
    }
  }

  lemma NewRaisesNext(bases: seq<string>, uids: map<string, nat>, next: nat)
    requires next + |bases| < TWO32 && Assign(bases, uids, next).uids != uids
    ensures Assign(bases, uids, next).next > next
  {
    AssignNumbers(bases, uids, next);
    NothingAssigned(bases, uids, next);
  }

  /** While nothing is written, nothing new is given either. */
  lemma UnwrittenStep(w: World, w': World)
    requires Inv(w) && Steps(w, w') && w'.folder.list == w.folder.list
    ensures w'.given == w.given && w.used <= w'.used
  {
    var a :| Next(w, a, w');
    if a.Refresh? {
      var ok :| RefreshStep(w, a.box, a.minted, a.fault, w', ok);
      if ok {
        var order := RefreshIsWhole(w, a, w', ok);
        var l := Read(w.folder.list, a.minted);
        var n := Assign(Bases(order), l.uids, l.next);
        if Writes(a.fault) { WritingChangesList(w, a.minted, order, w'.folder, w'.boxes[a.box], ok); }
        ReadFacts(w, a.minted);
        PairsFacts(w.folder.files, n.uids, w'.boxes[a.box]);
        hide Inv, RefreshedFrom, Pairs;
        NothingNew(w, l, Pairs(w'.boxes[a.box]));
      }
    }
  }

  lemma {:induction false} UnwrittenWalk(ws: seq<World>, k: nat)
    requires Walk(ws) && Inv(ws[0]) && Unwritten(ws) && k < |ws|
    ensures Inv(ws[k]) && ws[k].given == ws[0].given && ws[0].used <= ws[k].used
  {
    hide Inv, Next, Disk;
    if k > 0 {
      UnwrittenWalk(ws, k - 1);
      assert StepsAt(ws, k - 1);
      UnwrittenStep(ws[k - 1], ws[k]);
      StepKeepsInv(ws[k - 1], ws[k]);
    }
  }

  /** w' is w after a Refresh that wrote its list and reported its pairs. */
  ghost predicate Wrote(w: World, box: nat, minted: nat, order: seq<Path>, w': World) {
    && 1 <= minted < TWO32 && Room(w.folder, minted) && box in w'.boxes
    && RefreshedInOrder(w.folder, minted, order, true, w'.folder, w'.boxes[box], true)
    && w'.folder.list != w.folder.list
    && w' == w.(folder := w'.folder, boxes := w.boxes[box := w'.boxes[box]], given := w.given + Pairs(w'.boxes[box]))
  }

  lemma WroteNext(w: World, box: nat, minted: nat, order: seq<Path>, w': World)
    requires Inv(w) && Wrote(w, box, minted, order, w')
    ensures Inv(w') && Disk(w').Some?
    ensures var l := Read(w.folder.list, minted);
      Disk(w').value.validity == l.validity && Disk(w').value.next == Assign(Bases(order), l.uids, l.next).next
  {
    hide Inv, Parse, Snapshot;
    RefreshInOrderKeepsInv(w, box, minted, order, true, w', true);
    RefreshedDisk(w, minted, order, w'.folder, w'.boxes[box], true);
  }

  /** Everything new at the scan was given its number, and the list on disk counts on from there. */
  lemma WroteGives(w: World, box: nat, minted: nat, order: seq<Path>, w': World)
    requires Inv(w) && Wrote(w, box, minted, order, w')
    ensures var next, names := Read(w.folder.list, minted).next, Unknown(w.folder, minted, order);
      && Inv(w') && Disk(w').Some? && Disk(w').value.next == next + |names| && w.given <= w'.given
      && forall i :: 0 <= i < |names| ==> (names[i], next + i) in w'.given
  {
    hide Inv, Parse, Snapshot, Assign, NewNames, Pairs;
    WroteNext(w, box, minted, order, w');
    RefreshShows(w.folder, Read(w.folder.list, minted), order, true, w'.folder, w'.boxes[box], true);
  }

  /** What the list said before is among the pairs given. */
  lemma ListedAreGiven(w: World, minted: nat)
    requires Inv(w) && 1 <= minted < TWO32
    ensures var l := Read(w.folder.list, minted);
      UidsBelow(l.uids, l.next) && forall b :: b in l.uids ==> (b, l.uids[b]) in w.given
  {
    ReadFacts(w, minted);
  }

  /** A prefix is numbered alike, so all it showed is among what was given. */
  lemma PrefixIsGiven(
    uids: map<string, nat>, next: nat, names: seq<string>, a: Assignment, names2: seq<string>,
    pairs: set<(string, nat)>, given: set<(string, nat)>)
    requires NumbersNew(uids, next, names, a) && Shows(pairs, next, names, a) && names <= names2
    requires forall b :: b in uids ==> (b, uids[b]) in given
    requires forall i :: 0 <= i < |names2| ==> (names2[i], next + i) in given
    ensures pairs <= given
  {
    forall g | g in pairs ensures g in given {
      if g.0 in uids {
        assert g == (g.0, uids[g.0]);
      } else {
        var i :| 0 <= i < |names| && names[i] == g.0;
        assert g == (names2[i], next + i);
      }
    }
  }

  /** Pairs one-to-one with what was given, and below the next UID, come from a prefix. */
  lemma SafeIsPrefix(
    next: nat, names: seq<string>, names2: seq<string>, pairs: set<(string, nat)>, given: set<(string, nat)>)
    requires Bijective(given + pairs) && forall g :: g in given + pairs ==> g.1 < next + |names2|
    requires forall i :: 0 <= i < |names| ==> (names[i], next + i) in pairs
    requires forall i :: 0 <= i < |names2| ==> (names2[i], next + i) in given
    ensures names <= names2
  {
    if names != [] { assert (names[|names| - 1], next + |names| - 1) in given + pairs; }
    forall i | 0 <= i < |names| ensures names[i] == names2[i] {
      var g, h := (names[i], next + i), (names2[i], next + i);
      assert g in given + pairs && h in given + pairs;
    }
  }

  /**
    A Refresh at the start of the walk could not write its list; the first one
    to write follows at its end. The invariant that keeps UIDs safe for ever
    holds of the pairs shown by both if and only if what the list did not know
    at the first scan is a prefix of what it did not know at the second.
   */
  lemma FailedWriteLasts(
    ws: seq<World>, minted: nat, order: seq<Path>, v: View, ok: bool, box: nat, minted2: nat, order2: seq<Path>, w': World)
    requires Walk(ws) && Inv(ws[0]) && Unwritten(ws) && 1 <= minted < TWO32 && Room(ws[0].folder, minted)
    requires RefreshedInOrder(ws[0].folder, minted, order, false, ws[0].folder, v, ok)
    requires Wrote(ws[|ws| - 1], box, minted2, order2, w')
    ensures var n1, n2 := Unknown(ws[0].folder, minted, order), Unknown(ws[|ws| - 1].folder, minted2, order2);
      && (Inv(w'.(given := w'.given + Pairs(v))) <==> n1 <= n2)
      && (n1 <= n2 ==> Pairs(v) <= w'.given)
    ensures Listed(ws[0].folder.list) ==> Disk(w').Some? && Disk(w').value.validity == v.validity
  {
    hide Inv, RefreshedFrom, Pairs, Assign, NewNames, Parse, Disk, NumbersNew, Shows, Wrote;
    var w, u := ws[0], ws[|ws| - 1];
    UnwrittenWalk(ws, |ws| - 1);
    SameNumbers(w.folder.list, u.folder.list, minted, minted2);
    ListedAreGiven(w, minted);
    WroteGives(u, box, minted2, order2, w');
    var l := Read(w.folder.list, minted);
    RefreshShows(w.folder, l, order, false, w.folder, v, ok);
    PrefixDecides(
      l.uids, l.next, Unknown(w.folder, minted, order), Assign(Bases(order), l.uids, l.next),
      Unknown(u.folder, minted2, order2), Pairs(v), w');
    FailedValidity(w, minted, order, v, ok, u, box, minted2, order2, w');
  }

  lemma SameNumbers(list: Option<string>, list2: Option<string>, minted: nat, minted2: nat)
    requires list2 == list
    ensures Read(list2, minted2).uids == Read(list, minted).uids && Read(list2, minted2).next == Read(list, minted).next
  {
  }

  lemma FailedValidity(
    w: World, minted: nat, order: seq<Path>, v: View, ok: bool, u: World, box: nat, minted2: nat, order2: seq<Path>, w': World)
    requires Inv(u) && u.folder.list == w.folder.list && Wrote(u, box, minted2, order2, w')
    requires RefreshedInOrder(w.folder, minted, order, false, w.folder, v, ok)
    ensures Listed(w.folder.list) ==> Disk(w').Some? && Disk(w').value.validity == v.validity
  {
    hide Inv, Snapshot, ScanOrder, Pairs, Assign, Rewritten;
    WroteNext(u, box, minted2, order2, w');
  }

  lemma PrefixDecides(
    uids: map<string, nat>, next: nat, names: seq<string>, a: Assignment, names2: seq<string>,
    pairs: set<(string, nat)>, w: World)
    requires NumbersNew(uids, next, names, a) && Shows(pairs, next, names, a)
    requires Inv(w) && Disk(w).Some? && Disk(w).value.next == next + |names2|
    requires forall b :: b in uids ==> (b, uids[b]) in w.given
    requires forall i :: 0 <= i < |names2| ==> (names2[i], next + i) in w.given
    ensures Inv(w.(given := w.given + pairs)) <==> names <= names2
    ensures names <= names2 ==> pairs <= w.given
  {
    hide Inv, Disk;
    var more := w.(given := w.given + pairs);
    if names <= names2 {
      PrefixIsGiven(uids, next, names, a, names2, pairs, w.given);
      assert w.given + pairs == w.given && more == w;
    }
    if Inv(more) {
      InvMeans(more);
      SameDisk(more, w);
      SafeIsPrefix(next, names, names2, pairs, w.given);
    }
  }

  lemma SameDisk(w: World, w': World)
    requires w.folder == w'.folder
    ensures Disk(w) == Disk(w')
  {
  }

  /** When it holds, what the failed Refresh showed is safe in every later world. */
  lemma FailedWriteStaysSafe(
    ws: seq<World>, minted: nat, order: seq<Path>, v: View, ok: bool, box: nat, minted2: nat, order2: seq<Path>,
    later: seq<World>, j: nat)
    requires Walk(ws) && Inv(ws[0]) && Unwritten(ws) && 1 <= minted < TWO32 && Room(ws[0].folder, minted)
    requires RefreshedInOrder(ws[0].folder, minted, order, false, ws[0].folder, v, ok)
    requires Walk(later) && j < |later| && Wrote(ws[|ws| - 1], box, minted2, order2, later[0])
    requires Unknown(ws[0].folder, minted, order) <= Unknown(ws[|ws| - 1].folder, minted2, order2)
    ensures Pairs(v) <= later[j].given && SafeBetween(later[0], later[j])
  {
    hide Inv, Next, RefreshedFrom, Pairs, Disk, SafeBetween, Wrote, Unknown, Read, Unwritten;
    FailedWriteLasts(ws, minted, order, v, ok, box, minted2, order2, later[0]);
    UnwrittenWalk(ws, |ws| - 1);
    WroteGives(ws[|ws| - 1], box, minted2, order2, later[0]);
    WalkFacts(later, 0, j);
    WalkIsSafe(later, 0, j);
  }

  // ----- a folder without a list -----

  ghost predicate Listed(list: Option<string>) { list.Some? && Parse(list.value).Some? }

  lemma LiveIsWritable(files: map<Path, File>, used: set<string>, uids: map<string, nat>, next: nat, live: map<string, nat>)
    requires FilesInv(files, used) && UidsBelow(uids, next) && next < TWO32 && Pruned(files, uids, live)
    ensures forall b :: b in live ==> Storable(b) && IsUint32(live[b])
  {
    forall b | b in live ensures Storable(b) {
      var p :| p in files && !Hidden(p.name) && Base(p) == b;
      assert Base(p) in used;
    }
  }

  /** A rewritten list reads back as what was written. */
  lemma RewrittenParses(
    files: map<Path, File>, used: set<string>, uids: map<string, nat>, validity: nat, next: nat, list: Option<string>)
    returns (live: map<string, nat>)
    requires FilesInv(files, used) && UidsBelow(uids, next) && 1 <= next < TWO32 && IsUint32(validity)
    requires Rewritten(files, uids, validity, next, list)
    ensures list.Some? && Parse(list.value) == Some(List(live, validity, next)) && Pruned(files, uids, live)
    ensures Written(list.value, List(live, validity, next))
  {
    hide Written, Parse, FilesInv;
    live :| Pruned(files, uids, live) && Written(list.value, List(live, validity, next));
    LiveIsWritable(files, used, uids, next, live);
    RoundTrip(list.value, List(live, validity, next));
  }

  /** Whatever UIDVALIDITY is offered next, the one reported now stays. */
  ghost predicate ValidityStays(list: Option<string>, validity: nat) {
    forall m :: 1 <= m < TWO32 ==> Read(list, m).validity == validity
  }

  /**
    The UIDVALIDITY a Refresh reports is the one every later Refresh will find
    if and only if the folder already had a readable list, or this Refresh wrote
    one: the write worked and there was some message.
   */
  lemma ValidityStaysWhen(
    f: Folder, used: set<string>, minted: nat, order: seq<Path>, writes: bool, f': Folder, v': View, ok: bool)
    requires FilesInv(f.files, used) && RefreshedInOrder(f, minted, order, writes, f', v', ok)
    requires var l := Read(f.list, minted); UidsBelow(l.uids, l.next) && 1 <= l.next && IsUint32(l.validity)
    requires Room(f, minted)
    ensures ValidityStays(f'.list, v'.validity) <==> Listed(f.list) || (writes && f.files.Keys != {})
  {
    hide ValidityStays, Parse, Pairs, Snapshot, FilesInv, Rewritten, ScanOrder, Assign, UniqueBases;
    var l, bases := Read(f.list, minted), Bases(order);
    var a := Assign(bases, l.uids, l.next);
    ScanFits(f.files, order);
    AssignFacts(bases, l.uids, l.next);
    if a.uids != l.uids && writes {
      var live := RewrittenParses(f.files, used, a.uids, l.validity, a.next, f'.list);
      ListedStays(f'.list, minted);
      assert Read(f'.list, minted).validity == l.validity;
      SomeFile(f.files, order, l);
    } else {
      ListedStays(f.list, minted);
      if !Listed(f.list) { NewFilesAreAssigned(f.files, used, order, l); }
    }
  }

  lemma ListedStays(list: Option<string>, minted: nat)
    ensures ValidityStays(list, Read(list, minted).validity) <==> Listed(list)
  {
    if !Listed(list) {
      var other := if minted == 1 then 2 else 1;
      assert Read(list, other).validity == other;
    }
  }

  lemma SomeFile(files: map<Path, File>, order: seq<Path>, l: List)
    requires ScanOrder(files, order) && Assign(Bases(order), l.uids, l.next).uids != l.uids
    ensures files.Keys != {}
  {
    assert |Bases(order)| == 0 ==> Assign(Bases(order), l.uids, l.next).uids == l.uids;
    assert order[0] in order;
  }

  lemma NewFilesAreAssigned(files: map<Path, File>, used: set<string>, order: seq<Path>, l: List)
    requires FilesInv(files, used) && ScanOrder(files, order) && l.uids == map[]
    ensures files.Keys != {} ==> Assign(Bases(order), l.uids, l.next).uids != l.uids
  {
    AssignKeys(Bases(order), l.uids, l.next);
    if files.Keys != {} {
      var p :| p in files;
      ShownBases(files, order, Base(p));
      assert ShownBase(files, Base(p));
    }
  }

  /** An empty folder reports whatever UIDVALIDITY it is offered, each time anew. */
  lemma EmptyFolderChangesValidity(minted: nat, minted2: nat)
    requires minted != minted2
    ensures var f := Folder(map[], None);
      && RefreshedInOrder(f, minted, [], true, f, View([], minted, 1), true)
      && RefreshedInOrder(f, minted2, [], true, f, View([], minted2, 1), true)
      && !(ValidityStays(f.list, minted) && 1 <= minted2 < TWO32)
  {
    var f := Folder(map[], None);
    assert Bases([]) == [];
    assert ScanOrder(f.files, []) && Snapshot(f.files, map[], []);
    assert Read(f.list, minted2).validity == minted2;
  }

  // ----- the failures on concrete folders -----

  const EMPTY_LIST := List(map[], 7, 1)

  lemma EmptyListReads()
    ensures Parse(Render(7, 1, [])) == Some(EMPTY_LIST)
  {
    assert Lists([], map[]);
    assert Written(Render(7, 1, []), EMPTY_LIST);
    RoundTrip(Render(7, 1, []), EMPTY_LIST);
  }

  function OneFile(name: string): map<Path, File> { map[Path(New, name) := File("", 0)] }

  function OneView(name: string): View {
    View([Entered(Path(New, name), File("", 0), 1, 1)], 7, 2)
  }

  lemma OneSnapshot(name: string)
    requires |name| == 1 && name != "."
    ensures Base(Path(New, name)) == name && ScanOrder(OneFile(name), [Path(New, name)])
    ensures Snapshot(OneFile(name), map[name := 1], OneView(name).messages)
    ensures Pruned(OneFile(name), map[name := 1], map[name := 1])
  {
    var p := Path(New, name);
    assert Base(p) == name && p in OneFile(name);
    assert PathOf(OneView(name).messages[0]) == p;
  }

  lemma OneAssigned(name: string)
    ensures Assign([name], map[], 1) == Assignment(map[name := 1], 2)
  {
    assert [name][..0] == [];
    assert Assign([], map[], 1) == Assignment(map[], 1);
  }

  lemma OneWritten(name: string)
    ensures Written(Render(7, 2, [Entry(name, 1)]), List(map[name := 1], 7, 2))
  {
    assert Lists([Entry(name, 1)], map[name := 1]);
  }

  /** What Refresh makes of one unlisted file over the empty list. */
  lemma OneNewFile(name: string, old_: string, new_: string, writes: bool)
    requires |name| == 1 && name != "." && Parse(old_) == Some(EMPTY_LIST)
    requires if writes then Written(new_, List(map[name := 1], 7, 2)) else new_ == old_
    ensures RefreshedInOrder(Folder(OneFile(name), Some(old_)), 1, [Path(New, name)], writes,
                             Folder(OneFile(name), Some(new_)), OneView(name), writes)
  {
    var uids: map<string, nat> := map[name := 1];
    OneSnapshot(name);
    OneAssigned(name);
    assert Bases([Path(New, name)]) == [name];
    assert name in uids && name !in EMPTY_LIST.uids;
    assert writes ==> Rewritten(OneFile(name), uids, 7, 2, Some(new_));
  }

  /** Message "a" is shown as UID 1 while the disk refuses the list; once it is gone, "b" is UID 1 too. */
  lemma UidReuseHappens() returns (f: Folder, f2: Folder)
    ensures RefreshedInOrder(f, 1, [Path(New, "a")], false, f, OneView("a"), false)
    ensures RefreshedInOrder(f.(files := OneFile("b")), 1, [Path(New, "b")], true, f2, OneView("b"), true)
    ensures OneView("a").messages[0].uid == OneView("b").messages[0].uid && OneView("a").validity == OneView("b").validity
  {
    var empty, full := Render(7, 1, []), Render(7, 2, [Entry("b", 1)]);
    EmptyListReads();
    OneWritten("b");
    OneNewFile("a", empty, empty, false);
    OneNewFile("b", empty, full, true);
    f, f2 := Folder(OneFile("a"), Some(empty)), Folder(OneFile("b"), Some(full));
  }

  function TwoFiles(): map<Path, File> { map[Path(New, "b") := File("", 10), Path(New, "a") := File("", 5)] }

  /** Appending "a" with an old date while "b" is still unlisted: Append then points at "b". */
  lemma BackdatedAppend(order: seq<Path>, writes: bool, f': Folder, v': View, ok: bool)
    requires RefreshedInOrder(Folder(TwoFiles(), None), 1, order, writes, f', v', ok)
    ensures |v'.messages| > 0 && BaseName(v'.messages[|v'.messages| - 1].name) != "a"
  {
    var w := World(Folder(TwoFiles(), None), map[], {"a", "b"}, {});
    assert Base(Path(New, "a")) == "a" && Base(Path(New, "b")) == "b";
    TwoFilesInv(w.used);
    assert |TwoFiles()| == 2;
    OlderIsNotLast(w, 1, order, writes, f', v', ok, Path(New, "a"), Path(New, "b"));
  }

  lemma TwoFilesInv(used: set<string>)
    requires used == {"a", "b"}
    ensures FilesInv(TwoFiles(), used)
  {
    assert Base(Path(New, "a")) == "a" && Base(Path(New, "b")) == "b";
  }

  /** One file in new/ under each name, dated by its place in the sequence. */
  function Dated(first: string, second: string): map<Path, File> {
    map[Path(New, first) := File("", 1), Path(New, second) := File("", 2)]
  }

  lemma DatedInOrder(first: string, second: string, order: seq<Path>)
    requires |first| == 1 && |second| == 1 && first != "." && second != "." && first != second
    requires ScanOrder(Dated(first, second), order)
    ensures Bases(order) == [first, second] && |Dated(first, second)| == 2
  {
    var p, q := Path(New, first), Path(New, second);
    assert Base(p) == first && Base(q) == second;
    var files := Dated(first, second);
    assert |files| == 2 by { assert files.Keys == {p, q}; }
    ScanFits(files, order);
    var i, j := OlderComesFirst(files, order, p, q);
    assert i == 0 && j == 1 && |order| == 2;
  }

  /**
    Over an empty list, a Refresh that cannot write shows "a" as 1 and "b" as 2.
    "b" goes; the next Refresh writes "a", a prefix, and UIDNEXT 2. "c" comes,
    and a third Refresh shows it as 2 under the same UIDVALIDITY.
   */
  lemma ShorterWriteReusesUid(
    minted: nat, order: seq<Path>, f1: Folder, v1: View, ok1: bool,
    minted2: nat, order2: seq<Path>, f2: Folder, v2: View, ok2: bool,
    minted3: nat, order3: seq<Path>, f3: Folder, v3: View, ok3: bool)
    requires RefreshedInOrder(Folder(Dated("a", "b"), Some(Render(7, 1, []))), minted, order, false, f1, v1, ok1)
    requires RefreshedInOrder(f1.(files := OneFile("a")), minted2, order2, true, f2, v2, ok2)
    requires RefreshedInOrder(f2.(files := Dated("a", "c")), minted3, order3, true, f3, v3, ok3)
    ensures v1.validity == v2.validity == v3.validity == 7
    ensures ("b", 2) in Pairs(v1) && ("c", 2) in Pairs(v3) && Pairs(v2) == {("a", 1)}
  {
    EmptyListReads();
    hide Render, Parse, RefreshedFrom, Dated, OneFile, Pairs;
    DatedInOrderOf(Folder(Dated("a", "b"), Some(Render(7, 1, []))), "a", "b", EMPTY_LIST, order, false, f1, v1, ok1);
    TwoNew(Folder(Dated("a", "b"), f1.list), "a", "b", order, false, f1, v1, ok1);
    OneWrites(f1.(files := OneFile("a")), order2, f2, v2, ok2);
    DatedInOrderOf(f2.(files := Dated("a", "c")), "a", "c", List(map["a" := 1], 7, 2), order3, true, f3, v3, ok3);
    OneMore(f2.(files := Dated("a", "c")), "a", "c", order3, f3, v3, ok3);
  }

  lemma DatedInOrderOf(
    f: Folder, first: string, second: string, l: List, order: seq<Path>, writes: bool, f': Folder, v': View, ok: bool)
    requires |first| == 1 && |second| == 1 && first != "." && second != "." && first != second
    requires f.files == Dated(first, second) && RefreshedFrom(f, l, order, writes, f', v', ok)
    ensures Bases(order) == [first, second] && |f.files| == 2 && (!writes ==> f' == f)
  {
    hide Dated, Snapshot, Assign;
    DatedInOrder(first, second, order);
  }

  lemma TwoNew(f: Folder, first: string, second: string, order: seq<Path>, writes: bool, f': Folder, v': View, ok: bool)
    requires RefreshedFrom(f, EMPTY_LIST, order, writes, f', v', ok)
    requires Bases(order) == [first, second] && first != second && |f.files| == 2
    ensures v'.validity == 7 && (second, 2) in Pairs(v')
  {
    hide Shows, NumbersNew, Pairs, Assign, Snapshot, ScanOrder, NewNames, Rewritten;
    RefreshShows(f, EMPTY_LIST, order, writes, f', v', ok);
    NewOfTwo(first, second, map[]);
    ShownAt(Pairs(v'), 1, NewNames(Bases(order), map[]), Assign(Bases(order), map[], 1), 1);
  }

  lemma ShownAt(pairs: set<(string, nat)>, next: nat, names: seq<string>, a: Assignment, i: nat)
    requires Shows(pairs, next, names, a) && i < |names|
    ensures (names[i], next + i) in pairs
  {
  }

  lemma NewOfTwo(first: string, second: string, uids: map<string, nat>)
    requires first != second && second !in uids
    ensures NewNames([first, second], uids) == if first in uids then [second] else [first, second]
  {
    assert [first, second][..1] == [first];
    assert [first][..0] == [];
    assert NewNames([first], uids) == if first in uids then [] else [first];
  }

  lemma OneInOrder(order: seq<Path>)
    requires ScanOrder(OneFile("a"), order)
    ensures Bases(order) == ["a"]
  {
    var p := Path(New, "a");
    OneSnapshot("a");
    assert p in order;
    assert OneFile("a").Keys == {p};
    ScanFits(OneFile("a"), order);
    assert order == [p];
  }

  lemma OnePair(v: View)
    requires Snapshot(OneFile("a"), map["a" := 1], v.messages)
    ensures Pairs(v) == {("a", 1)}
  {
    OneSnapshot("a");
    PairsFacts(OneFile("a"), map["a" := 1], v);
    assert Path(New, "a") in OneFile("a");
  }

  lemma OneFilesInv()
    ensures FilesInv(OneFile("a"), {"a"})
  {
    OneSnapshot("a");
  }

  lemma OneWrites(f: Folder, order: seq<Path>, f': Folder, v': View, ok: bool)
    requires f.files == OneFile("a") && RefreshedFrom(f, EMPTY_LIST, order, true, f', v', ok)
    ensures v'.validity == 7 && Pairs(v') == {("a", 1)}
    ensures f'.list.Some? && Parse(f'.list.value) == Some(List(map["a" := 1], 7, 2))
  {
    hide Parse, OneFile, Snapshot, Rewritten, Pairs, Assign, ScanOrder;
    OneInOrder(order);
    OneAssigned("a");
    OnePair(v');
    assert "a" in map["a" := 1] && "a" !in EMPTY_LIST.uids;
    OneRewritten(f'.list);
  }

  lemma OneRewritten(list: Option<string>)
    requires Rewritten(OneFile("a"), map["a" := 1], 7, 2, list)
    ensures list.Some? && Parse(list.value) == Some(List(map["a" := 1], 7, 2))
  {
    hide Parse, OneFile, Rewritten, FilesInv;
    OneFilesInv();
    var live := RewrittenParses(OneFile("a"), {"a"}, map["a" := 1], 7, 2, list);
    OnlyLive(live);
  }

  lemma OneBase()
    ensures Path(New, "a") in OneFile("a") && !Hidden("a") && Base(Path(New, "a")) == "a"
  {
    OneSnapshot("a");
  }

  lemma OnlyLive(live: map<string, nat>)
    requires Pruned(OneFile("a"), map["a" := 1], live)
    ensures live == map["a" := 1]
  {
    hide OneFile, Base, BaseName, SepIndex;
    OneBase();
    assert "a" in live;
    assert forall b :: b in live ==> b == "a" && live[b] == 1;
  }

  lemma OneMore(f: Folder, first: string, second: string, order: seq<Path>, f': Folder, v': View, ok: bool)
    requires RefreshedFrom(f, List(map[first := 1], 7, 2), order, true, f', v', ok)
    requires Bases(order) == [first, second] && first != second && |f.files| == 2
    ensures v'.validity == 7 && (second, 2) in Pairs(v')
  {
    hide Shows, NumbersNew, Pairs, Assign, Snapshot, ScanOrder, NewNames, Rewritten;
    RefreshShows(f, List(map[first := 1], 7, 2), order, true, f', v', ok);
    NewOfTwo(first, second, map[first := 1]);
    ShownAt(Pairs(v'), 2, NewNames(Bases(order), map[first := 1]), Assign(Bases(order), map[first := 1], 2), 0);
  }
}
