/**
  UID safety over every run of one folder: any number of mailbox objects,
  deliveries in between, and every disk fault but one: a read of the list that
  breaks off in front of the entry of a message that is still there.
 */
module UidSafety {
  import opened Text
  import opened Sorting
  import opened Flags
  import opened UidList
  import opened Maildir

  /**
    The folder, the mailbox objects open on it, every base name ever delivered,
    and every (base name, UID) pair a successful Refresh has reported.
   */
  datatype World = World(folder: Folder, boxes: map<nat, View>, used: set<string>, given: set<(string, nat)>)

  datatype Action =
    | Place(name: string, data: string, mtime: int, flags: string)   // Deliver, and the file part of Append and CopyTo
    | Refresh(box: nat, minted: nat, fault: Fault)                   // also the last part of Append and OpenMailbox
    | SetFlags(box: nat, i: nat, flags: string)
    | Expunge(box: nat)

  function ViewAt(w: World, box: nat): View {
    if box in w.boxes then w.boxes[box] else View([], 0, 0)
  }

  function Pairs(v: View): set<(string, nat)> {
    set i | 0 <= i < |v.messages| :: (BaseName(v.messages[i].name), v.messages[i].uid)
  }

  /** The UID counter stays inside 32 bits during this Refresh. */
  ghost predicate Room(f: Folder, minted: nat) { Read(f.list, minted).next + |f.files| < TWO32 }

  /** For the files that are there, the list c says what l says. */
  ghost predicate ReadsAlike(files: map<Path, File>, l: List, c: List) {
    && c.validity == l.validity && c.next == l.next
    && forall p :: p in files && !Hidden(p.name) ==> SameEntry(l, c, Base(p))
  }

  ghost predicate SameEntry(l: List, c: List, b: string) {
    (b in c.uids <==> b in l.uids) && (b in l.uids ==> c.uids[b] == l.uids[b])
  }

  /** The UIDVALIDITY offered is one, the counter has room, and the list is read far enough. */
  ghost predicate RefreshAllowed(f: Folder, minted: nat, fault: Fault) {
    && 1 <= minted < TWO32 && Room(f, minted)
    && ReadsAlike(f.files, Read(f.list, minted), Read(Received(f.list, fault), minted))
  }

  /** Only the folder and the state of one mailbox object change. */
  ghost predicate BoxStep(w: World, box: nat, w': World) {
    box in w'.boxes && w' == w.(folder := w'.folder, boxes := w.boxes[box := w'.boxes[box]])
  }

  ghost predicate Next(w: World, a: Action, w': World) {
    match a
    case Place(name, data, mtime, flags) =>
      && Deliverable(name) && name !in w.used
      && w' == w.(used := w.used + {name},
                  folder := w.folder.(files := w.folder.files[PlacedPath(name, flags) := File(data, mtime)]))
    case Refresh(box, minted, fault) =>
      RefreshAllowed(w.folder, minted, fault) && exists ok :: RefreshStep(w, box, minted, fault, w', ok)
    case SetFlags(box, i, flags) =>
      && i < |ViewAt(w, box).messages| && BoxStep(w, box, w')
      && exists ok :: FlagsSet(w.folder, ViewAt(w, box), i, flags, w'.folder, w'.boxes[box], ok)
    case Expunge(box) =>
      && BoxStep(w, box, w')
      && exists seqs, ok :: Expunged(w.folder, ViewAt(w, box), w'.folder, w'.boxes[box], seqs, ok)
  }

  ghost predicate RefreshStep(w: World, box: nat, minted: nat, fault: Fault, w': World, ok: bool) {
    && box in w'.boxes
    && Refreshed(w.folder, ViewAt(w, box), minted, fault, w'.folder, w'.boxes[box], ok)
    && w' == w.(folder := w'.folder, boxes := w.boxes[box := w'.boxes[box]],
                given := if ok then w.given + Pairs(w'.boxes[box]) else w.given)
  }

  /** A folder that has no list yet. */
  ghost predicate Init(w: World) {
    w.folder.list.None? && w.given == {} && FilesInv(w.folder.files, w.used)
  }

  ghost predicate Run(ws: seq<World>) { Walk(ws) && Init(ws[0]) }

  /** Steps one after the other, from any world. */
  ghost predicate Walk(ws: seq<World>) {
    |ws| > 0 && forall k :: 0 <= k < |ws| - 1 ==> StepsAt(ws, k)
  }

  ghost predicate StepsAt(ws: seq<World>, k: nat)
    requires k < |ws| - 1
  {
    Steps(ws[k], ws[k + 1])
  }

  ghost predicate Steps(w: World, w': World) { exists a :: Next(w, a, w') }

  // ----- the invariant -----

  ghost predicate FilesInv(files: map<Path, File>, used: set<string>) {
    && UniqueBases(files)
    && (forall p :: p in files ==> Base(p) in used && !Hidden(p.name))
    && (forall b :: b in used ==> Deliverable(b))
  }

  ghost predicate Bijective(given: set<(string, nat)>) {
    forall g, h :: g in given && h in given ==> (g.0 == h.0 <==> g.1 == h.1)
  }

  ghost predicate ListInv(files: map<Path, File>, used: set<string>, given: set<(string, nat)>, l: List) {
    && IsUint32(l.validity) && 1 <= l.next < TWO32
    && (forall b :: b in l.uids ==> (b, l.uids[b]) in given)
    && (forall g :: g in given ==> g.0 in used && 1 <= g.1 < l.next)
    && Bijective(given)
    && (forall g, p :: g in given && p in files && Base(p) == g.0 ==> g.0 in l.uids)
  }

  ghost predicate Inv(w: World) {
    && FilesInv(w.folder.files, w.used)
    && match w.folder.list
       case None => w.given == {}
       case Some(text) => Parse(text).Some? && ListInv(w.folder.files, w.used, w.given, Parse(text).value)
  }

  lemma RenameKeepsFiles(files: map<Path, File>, used: set<string>, from: Path, flags: string)
    requires FilesInv(files, used) && from in files
    ensures var to := Path(Cur, FileName(Base(from), flags));
      && Base(to) == Base(from)
      && FilesInv(Rename(files, from, to), used)
      && (forall p :: p in Rename(files, from, to) ==> p == to || p in files)
  {
    FileNameRoundTrip(Base(from), flags);
  }

  lemma PlaceKeepsFiles(files: map<Path, File>, used: set<string>, p: Path, file: File)
    requires FilesInv(files, used) && Deliverable(Base(p)) && Base(p) !in used && !Hidden(p.name)
    ensures FilesInv(files[p := file], used + {Base(p)})
  {
  }

  lemma PlaceKeepsList(files: map<Path, File>, used: set<string>, given: set<(string, nat)>, l: List, p: Path, file: File)
    requires ListInv(files, used, given, l) && Base(p) !in used
    ensures ListInv(files[p := file], used + {Base(p)}, given, l)
  {
  }

  lemma PlaceKeepsInv(w: World, a: Action, w': World)
    requires Inv(w) && a.Place? && Next(w, a, w')
    ensures Inv(w')
  {
    var p, file := PlacedPath(a.name, a.flags), File(a.data, a.mtime);
    PlacedPathFacts(a.name, a.flags);
    PlaceKeepsFiles(w.folder.files, w.used, p, file);
    if w.folder.list.Some? {
      PlaceKeepsList(w.folder.files, w.used, w.given, Parse(w.folder.list.value).value, p, file);
    }
  }

  lemma SetFlagsKeepsInv(w: World, a: Action, w': World)
    requires Inv(w) && a.SetFlags? && Next(w, a, w')
    ensures Inv(w')
  {
    var m := ViewAt(w, a.box).messages[a.i];
    if PathOf(m) in w.folder.files { RenameKeepsFiles(w.folder.files, w.used, PathOf(m), a.flags); }
  }

  lemma ExpungeKeepsInv(w: World, a: Action, w': World)
    requires Inv(w) && a.Expunge? && Next(w, a, w')
    ensures Inv(w')
  {
  }

  lemma PairsFacts(files: map<Path, File>, uids: map<string, nat>, v: View)
    requires Snapshot(files, uids, v.messages)
    ensures forall g :: g in Pairs(v) ==> g.0 in uids && g.1 == uids[g.0] && exists p :: p in files && Base(p) == g.0
    ensures forall p :: p in files && !Hidden(p.name) ==> Base(p) in uids && (Base(p), uids[Base(p)]) in Pairs(v)
  {
    forall i | 0 <= i < |v.messages|
      ensures var b := BaseName(v.messages[i].name);
        b in uids && v.messages[i].uid == uids[b] && exists p :: p in files && Base(p) == b
    {
      assert PathOf(v.messages[i]) in files;
    }
    forall p | p in files && !Hidden(p.name) ensures Base(p) in uids && (Base(p), uids[Base(p)]) in Pairs(v) {
      var i :| 0 <= i < |v.messages| && PathOf(v.messages[i]) == p;
    }
  }

  /** The list a Refresh starts from, with its counter above everything ever given. */
  lemma ReadFacts(w: World, minted: nat)
    requires Inv(w) && 1 <= minted < TWO32
    ensures var l := Read(w.folder.list, minted);
      ListInv(w.folder.files, w.used, w.given, l) && UidsBelow(l.uids, l.next)
  {
  }

  /** The heart: extending the assignment keeps base names and UIDs in one-to-one correspondence. */
  lemma GivenStaysBijective(
    files: map<Path, File>, used: set<string>, given: set<(string, nat)>, l: List, a: Assignment, fresher: set<(string, nat)>)
    requires FilesInv(files, used) && ListInv(files, used, given, l)
    requires Continues(l, a)
    requires forall g :: g in fresher ==> g.0 in a.uids && g.1 == a.uids[g.0] && exists p :: p in files && Base(p) == g.0
    ensures Bijective(given + fresher)
    ensures forall g :: g in given + fresher ==> g.0 in used && 1 <= g.1 < a.next
  {
    forall g, h | g in given && h in fresher ensures g.0 == h.0 <==> g.1 == h.1 {
      if h.0 in l.uids { assert h in given; }
    }
  }

  /** What the assignment of one Refresh looks like from a good state. */
  lemma RefreshAssigns(w: World, minted: nat, order: seq<Path>)
    requires Inv(w) && 1 <= minted < TWO32 && Room(w.folder, minted) && ScanOrder(w.folder.files, order)
    ensures var l := Read(w.folder.list, minted);
      var a := Assign(Bases(order), l.uids, l.next);
      && ListInv(w.folder.files, w.used, w.given, l)
      && Extends(l.uids, l.next, Bases(order), a) && a.next < TWO32
  {
    var l := Read(w.folder.list, minted);
    ReadFacts(w, minted);
    DistinctWithin(order, w.folder.files.Keys);
    assert |w.folder.files.Keys| == |w.folder.files|;
    AssignFacts(Bases(order), l.uids, l.next);
  }

  /** given agrees with the assignment a and contains it for every file. */
  ghost predicate Covers(files: map<Path, File>, used: set<string>, given: set<(string, nat)>, a: Assignment) {
    && Bijective(given)
    && (forall g :: g in given ==> g.0 in used && 1 <= g.1 < a.next)
    && (forall p :: p in files ==> Base(p) in a.uids && (Base(p), a.uids[Base(p)]) in given)
  }

  /** a continues the list l without disturbing it. */
  ghost predicate Continues(l: List, a: Assignment) {
    && UidsBelow(a.uids, a.next) && l.next <= a.next < TWO32
    && (forall b :: b in l.uids ==> b in a.uids && a.uids[b] == l.uids[b])
    && (forall b :: b in a.uids && b !in l.uids ==> a.uids[b] >= l.next)
  }

  lemma SnapshotCovers(
    files: map<Path, File>, used: set<string>, given: set<(string, nat)>, l: List, a: Assignment, v: View)
    requires FilesInv(files, used) && ListInv(files, used, given, l) && Continues(l, a)
    requires Snapshot(files, a.uids, v.messages)
    ensures Covers(files, used, given + Pairs(v), a)
  {
    PairsFacts(files, a.uids, v);
    GivenStaysBijective(files, used, given, l, a, Pairs(v));
  }

  lemma PrunedListInv(
    files: map<Path, File>, used: set<string>, given: set<(string, nat)>, a: Assignment, validity: nat, live: map<string, nat>)
    requires FilesInv(files, used) && UidsBelow(a.uids, a.next) && Pruned(files, a.uids, live)
    requires IsUint32(validity) && 1 <= a.next < TWO32 && Covers(files, used, given, a)
    ensures ListInv(files, used, given, List(live, validity, a.next))
    ensures forall b :: b in live ==> Storable(b) && IsUint32(live[b])
  {
    forall b | b in live ensures (b, live[b]) in given && Storable(b) {
      var p :| p in files && !Hidden(p.name) && Base(p) == b;
      assert Base(p) in used;
    }
  }

  /** A Refresh that writes the list: everything in its snapshot is now on disk. */
  lemma WritingKeepsInv(
    files: map<Path, File>, used: set<string>, given: set<(string, nat)>, l: List, a: Assignment, v: View, list: Option<string>)
    requires FilesInv(files, used) && ListInv(files, used, given, l) && Continues(l, a)
    requires Snapshot(files, a.uids, v.messages)
    requires Rewritten(files, a.uids, l.validity, a.next, list)
    ensures list.Some? && Parse(list.value).Some?
    ensures Written(list.value, Parse(list.value).value)
    ensures Parse(list.value).value.validity == l.validity && Parse(list.value).value.next == a.next
    ensures ListInv(files, used, given + Pairs(v), Parse(list.value).value)
  {
    var live: map<string, nat> :| Pruned(files, a.uids, live) && Written(list.value, List(live, l.validity, a.next));
    SnapshotCovers(files, used, given, l, a, v);
    PrunedListInv(files, used, given + Pairs(v), a, l.validity, live);
    RoundTrip(list.value, List(live, l.validity, a.next));
  }

  lemma RefreshInOrderKeepsInv(w: World, box: nat, minted: nat, order: seq<Path>, writes: bool, w': World, ok: bool)
    requires Inv(w) && 1 <= minted < TWO32 && Room(w.folder, minted)
    requires box in w'.boxes && w'.used == w.used
    requires RefreshedInOrder(w.folder, minted, order, writes, w'.folder, w'.boxes[box], ok)
    requires w'.given == if ok then w.given + Pairs(w'.boxes[box]) else w.given
    ensures Inv(w')
  {
    var files, l, v := w.folder.files, Read(w.folder.list, minted), w'.boxes[box];
    var a := Assign(Bases(order), l.uids, l.next);
    RefreshAssigns(w, minted, order);
    if ok && a.uids != l.uids {
      WritingKeepsInv(files, w.used, w.given, l, a, v, w'.folder.list);
    } else if ok {
      PairsFacts(files, a.uids, v);
      NothingNew(w, l, Pairs(v));
    }
  }

  lemma NothingNew(w: World, l: List, pairs: set<(string, nat)>)
    requires Inv(w) && ListInv(w.folder.files, w.used, w.given, l)
    requires forall g :: g in pairs ==> g.0 in l.uids && l.uids[g.0] == g.1
    ensures w.given + pairs == w.given
  {
    forall g | g in pairs ensures g in w.given { assert g == (g.0, l.uids[g.0]); }
  }

  lemma AlikeAssigned(files: map<Path, File>, l: List, c: List, order: seq<Path>)
    requires ReadsAlike(files, l, c) && ScanOrder(files, order)
    ensures var a, o := Assign(Bases(order), l.uids, l.next), Assign(Bases(order), c.uids, c.next);
      && a.next == o.next && (a.uids != l.uids <==> o.uids != c.uids)
      && forall p :: p in files && !Hidden(p.name) ==> Base(p) in a.uids && Base(p) in o.uids && a.uids[Base(p)] == o.uids[Base(p)]
  {
    forall b | b in Bases(order) ensures SameEntry(l, c, b) {
      var i :| 0 <= i < |order| && Bases(order)[i] == b;
      assert order[i] in order;
    }
    AssignAlike(Bases(order), l.uids, c.uids, l.next);
    AssignKeys(Bases(order), l.uids, l.next);
    AssignKeys(Bases(order), c.uids, c.next);
    forall p | p in files && !Hidden(p.name) ensures Base(p) in Bases(order) {
      assert p in order;
      var i :| 0 <= i < |order| && order[i] == p;
      assert Bases(order)[i] == Base(p);
    }
    assert forall b :: b in Bases(order) ==> SameEntry(l, c, b);
    NothingAssigned(Bases(order), l.uids, l.next);
    NothingAssigned(Bases(order), c.uids, c.next);
  }

  /** Assign changes the map exactly when some name was unknown. */
  lemma NothingAssigned(bases: seq<string>, uids: map<string, nat>, next: nat)
    ensures Assign(bases, uids, next).uids == uids <==> forall b :: b in bases ==> b in uids
  {
    AssignKeys(bases, uids, next);
  }

  lemma AlikeRewritten(files: map<Path, File>, u: map<string, nat>, o: map<string, nat>, validity: nat, next: nat, list: Option<string>)
    requires Rewritten(files, o, validity, next, list)
    requires forall p :: p in files && !Hidden(p.name) ==> Base(p) in u && Base(p) in o && u[Base(p)] == o[Base(p)]
    ensures Rewritten(files, u, validity, next, list)
  {
    var live: map<string, nat> :| Pruned(files, o, live) && Written(list.value, List(live, validity, next));
    assert Pruned(files, u, live);
  }

  /** A list that says the same about the files there leads to the same Refresh. */
  lemma AlikeRefresh(f: Folder, l: List, c: List, order: seq<Path>, writes: bool, f': Folder, v': View, ok: bool)
    requires ReadsAlike(f.files, l, c) && RefreshedFrom(f, c, order, writes, f', v', ok)
    ensures RefreshedFrom(f, l, order, writes, f', v', ok)
  {
    var a, o := Assign(Bases(order), l.uids, l.next), Assign(Bases(order), c.uids, c.next);
    AlikeAssigned(f.files, l, c, order);
    AlikeSnapshot(f.files, a.uids, o.uids, v'.messages);
    if o.uids != c.uids && writes { AlikeRewritten(f.files, a.uids, o.uids, l.validity, a.next, f'.list); }
  }

  lemma AlikeSnapshot(files: map<Path, File>, u: map<string, nat>, o: map<string, nat>, messages: seq<Message>)
    requires Snapshot(files, o, messages)
    requires forall p :: p in files && !Hidden(p.name) ==> Base(p) in u && Base(p) in o && u[Base(p)] == o[Base(p)]
    ensures Snapshot(files, u, messages)
  {
    forall i | 0 <= i < |messages| ensures Matches(files, u, messages[i], i + 1) {
      assert Matches(files, o, messages[i], i + 1);
    }
  }

  /** Every Refresh of a run that gets to its scan is one over the whole list. */
  lemma RefreshIsWhole(w: World, a: Action, w': World, ok: bool) returns (order: seq<Path>)
    requires a.Refresh? && Next(w, a, w') && Scans(a.fault) && RefreshStep(w, a.box, a.minted, a.fault, w', ok)
    ensures RefreshedInOrder(w.folder, a.minted, order, Writes(a.fault), w'.folder, w'.boxes[a.box], ok)
  {
    var l, c := Read(w.folder.list, a.minted), Read(Received(w.folder.list, a.fault), a.minted);
    order :| RefreshedFrom(w.folder, c, order, Writes(a.fault), w'.folder, w'.boxes[a.box], ok);
    AlikeRefresh(w.folder, l, c, order, Writes(a.fault), w'.folder, w'.boxes[a.box], ok);
  }

  lemma RefreshKeepsInv(w: World, a: Action, w': World)
    requires Inv(w) && a.Refresh? && Next(w, a, w')
    ensures Inv(w')
  {
    var ok :| RefreshStep(w, a.box, a.minted, a.fault, w', ok);
    if Scans(a.fault) {
      var order := RefreshIsWhole(w, a, w', ok);
      RefreshInOrderKeepsInv(w, a.box, a.minted, order, Writes(a.fault), w', ok);
    }
  }

  lemma StepKeepsInv(w: World, w': World)
    requires Inv(w) && Steps(w, w')
    ensures Inv(w')
  {
    var a :| Next(w, a, w');
    match a
    case Place(_, _, _, _) => PlaceKeepsInv(w, a, w');
    case Refresh(_, _, _) => RefreshKeepsInv(w, a, w');
    case SetFlags(_, _, _) => SetFlagsKeepsInv(w, a, w');
    case Expunge(_) => ExpungeKeepsInv(w, a, w');
  }

  // ----- the theorem -----

  /** The list on disk. */
  function Disk(w: World): Option<List> {
    match w.folder.list
    case None => None
    case Some(text) => Parse(text)
  }

  /** The UIDNEXT on disk, 1 while there is no list. */
  function CurrentNext(w: World): nat {
    match Disk(w)
    case None => 1
    case Some(l) => l.next
  }

  ghost predicate DiskContinues(d: Option<List>, d': Option<List>) {
    d.Some? ==> d'.Some? && d'.value.validity == d.value.validity && d'.value.next >= d.value.next
  }

  /** UIDVALIDITY and UIDNEXT on disk after a Refresh whose write, if any, succeeded. */
  lemma RefreshedDisk(w: World, minted: nat, order: seq<Path>, f': Folder, v': View, ok: bool)
    requires Inv(w) && 1 <= minted < TWO32 && Room(w.folder, minted)
    requires RefreshedInOrder(w.folder, minted, order, true, f', v', ok)
    ensures Read(w.folder.list, minted).next <= v'.next
    ensures match f'.list
      case None => w.folder.list.None? && v'.next == 1
      case Some(text) =>
        && Parse(text).Some? && Parse(text).value.next == v'.next
        && Parse(text).value.validity == Read(w.folder.list, minted).validity
  {
    var l := Read(w.folder.list, minted);
    var a := Assign(Bases(order), l.uids, l.next);
    RefreshAssigns(w, minted, order);
    if a.uids != l.uids { WritingKeepsInv(w.folder.files, w.used, w.given, l, a, v', f'.list); }
  }

  lemma RefreshContinues(w: World, a: Action, w': World)
    requires Inv(w) && a.Refresh? && Next(w, a, w')
    ensures w.given <= w'.given && DiskContinues(Disk(w), Disk(w'))
  {
    var ok :| RefreshStep(w, a.box, a.minted, a.fault, w', ok);
    if Writes(a.fault) && Scans(a.fault) {
      var order := RefreshIsWhole(w, a, w', ok);
      RefreshedDisk(w, a.minted, order, w'.folder, w'.boxes[a.box], ok);
    }
  }

  /** What a Refresh adds to the pairs given: UIDs no smaller than the UIDNEXT it found. */
  lemma RefreshGivesLater(w: World, a: Action, w': World)
    requires Inv(w) && a.Refresh? && Next(w, a, w')
    ensures forall g :: g in w'.given && g !in w.given ==> g.1 >= CurrentNext(w)
    ensures CurrentNext(w) <= CurrentNext(w')
    ensures w'.folder.files == w.folder.files
  {
    RefreshContinues(w, a, w');
    RefreshKeepsInv(w, a, w');
    var ok :| RefreshStep(w, a.box, a.minted, a.fault, w', ok);
    if ok {
      var v' := w'.boxes[a.box];
      var order := RefreshIsWhole(w, a, w', ok);
      var l := Read(w.folder.list, a.minted);
      RefreshAssigns(w, a.minted, order);
      PairsFacts(w.folder.files, Assign(Bases(order), l.uids, l.next).uids, v');
      forall g | g in Pairs(v') ensures g in w.given || g.1 >= l.next {
        if g.0 in l.uids { assert g == (g.0, l.uids[g.0]); }
      }
    }
  }

  lemma StepGivesLater(w: World, w': World)
    requires Inv(w) && Steps(w, w')
    ensures GivesLater(w, w')
  {
    var a :| Next(w, a, w');
    if a.Refresh? { RefreshGivesLater(w, a, w'); }
  }

  /** Whatever was given in between is no smaller than the UIDNEXT at the start. */
  ghost predicate GivesLater(w: World, w': World) {
    CurrentNext(w) <= CurrentNext(w') && forall g :: g in w'.given && g !in w.given ==> g.1 >= CurrentNext(w)
  }

  lemma {:induction false} WalkGivesLater(ws: seq<World>, i: nat, j: nat)
    requires Walk(ws) && Inv(ws[0]) && i <= j < |ws|
    ensures GivesLater(ws[i], ws[j])
    decreases j
  {
    hide Inv, Next, Disk;
    if i < j {
      WalkGivesLater(ws, i, j - 1);
      WalkFacts(ws, i, j - 1);
      assert StepsAt(ws, j - 1);
      StepGivesLater(ws[j - 1], ws[j]);
      StillLater(ws[i], ws[j - 1], ws[j]);
    }
  }

  lemma StillLater(w: World, u: World, w': World)
    requires GivesLater(w, u) && GivesLater(u, w')
    ensures GivesLater(w, w')
  {
  }

  /** Section 2.3.1.1 of RFC 3501: a UID given later is above every UID given before, over every run. */
  lemma LaterUidsAreHigher(ws: seq<World>, i: nat, j: nat)
    requires Run(ws) && i <= j < |ws|
    ensures forall g, h :: h in ws[i].given && g in ws[j].given && g !in ws[i].given ==> h.1 < g.1
  {
    InitInv(ws[0]);
    hide Inv, Next, Init;
    WalkGivesLater(ws, i, j);
    WalkFacts(ws, i, i);
    InvMeans(ws[i]);
  }

  lemma StepContinues(w: World, w': World)
    requires Inv(w) && Steps(w, w')
    ensures w.given <= w'.given && DiskContinues(Disk(w), Disk(w'))
  {
    var a :| Next(w, a, w');
    if a.Refresh? { RefreshContinues(w, a, w'); }
  }

  lemma InitInv(w: World)
    requires Init(w)
    ensures Inv(w)
  {
  }

  lemma {:induction false} WalkFacts(ws: seq<World>, i: nat, j: nat)
    requires Walk(ws) && Inv(ws[0]) && i <= j < |ws|
    ensures Inv(ws[i]) && Inv(ws[j])
    ensures ws[i].given <= ws[j].given && DiskContinues(Disk(ws[i]), Disk(ws[j]))
    decreases j
  {
    hide Inv, Next, Disk;
    if j > 0 {
      WalkFacts(ws, if i < j then i else i - 1, j - 1);
      assert StepsAt(ws, j - 1);
      StepKeepsInv(ws[j - 1], ws[j]);
      StepContinues(ws[j - 1], ws[j]);
    }
  }

  lemma InvMeans(w: World)
    requires Inv(w)
    ensures Bijective(w.given)
    ensures forall g :: g in w.given ==> Disk(w).Some? && 1 <= g.1 < Disk(w).value.next
    ensures Disk(w).Some? ==> forall b :: b in Disk(w).value.uids ==> (b, Disk(w).value.uids[b]) in w.given
  {
  }

  lemma Across(given: set<(string, nat)>, later: set<(string, nat)>)
    requires given <= later && Bijective(later)
    ensures forall g, h :: g in given && h in later ==> (g.0 == h.0 <==> g.1 == h.1)
  {
  }

  /**
    Section 2.3.1.1 of RFC 3501 over every run: once a list is on disk it stays
    and its UIDVALIDITY never changes; across any two moments a base name and a
    UID that a successful Refresh paired belong to each other alone, whatever
    was renamed, expunged or pruned in between; and every UID given so far is
    below the UIDNEXT on disk.
   */
  lemma UidsAreSafe(ws: seq<World>, i: nat, j: nat)
    requires Run(ws) && i <= j < |ws|
    ensures SafeBetween(ws[i], ws[j])
  {
    InitInv(ws[0]);
    WalkIsSafe(ws, i, j);
  }

  ghost predicate SafeBetween(w: World, w': World) {
    && (Disk(w).Some? ==> Disk(w').Some? && Disk(w').value.validity == Disk(w).value.validity)
    && (forall g, h :: g in w.given && h in w'.given ==> (g.0 == h.0 <==> g.1 == h.1))
    && (forall g :: g in w'.given ==> Disk(w').Some? && 1 <= g.1 < Disk(w').value.next)
    && (Disk(w').Some? ==> forall b :: b in Disk(w').value.uids ==> (b, Disk(w').value.uids[b]) in w'.given)
  }

  /** The same from any world that satisfies the invariant. */
  lemma WalkIsSafe(ws: seq<World>, i: nat, j: nat)
    requires Walk(ws) && Inv(ws[0]) && i <= j < |ws|
    ensures SafeBetween(ws[i], ws[j])
  {
    hide Inv, Next;
    WalkFacts(ws, i, j);
    InvMeans(ws[j]);
    Across(ws[i].given, ws[j].given);
  }

  // ----- the order of new UIDs -----

  lemma BasesDistinct(files: map<Path, File>, order: seq<Path>)
    requires UniqueBases(files) && ScanOrder(files, order)
    ensures Distinct(Bases(order))
  {
    forall i, j | 0 <= i < j < |order| ensures Bases(order)[i] != Bases(order)[j] {
      assert order[i] in order && order[j] in order && order[i] != order[j];
    }
  }

  /** Of two messages new to the list, the one delivered earlier gets the smaller UID. */
  lemma UidsFollowDelivery(w: World, minted: nat, order: seq<Path>, p: Path, q: Path)
    requires Inv(w) && 1 <= minted < TWO32 && Room(w.folder, minted) && ScanOrder(w.folder.files, order)
    requires p in w.folder.files && q in w.folder.files && w.folder.files[p].mtime < w.folder.files[q].mtime
    requires Base(p) !in Read(w.folder.list, minted).uids && Base(q) !in Read(w.folder.list, minted).uids
    ensures var l := Read(w.folder.list, minted);
      var a := Assign(Bases(order), l.uids, l.next);
      Base(p) in a.uids && Base(q) in a.uids && a.uids[Base(p)] < a.uids[Base(q)]
  {
    var l := Read(w.folder.list, minted);
    RefreshAssigns(w, minted, order);
    BasesDistinct(w.folder.files, order);
    var i, j := OlderComesFirst(w.folder.files, order, p, q);
    DistinctWithin(order, w.folder.files.Keys);
    assert |w.folder.files.Keys| == |w.folder.files|;
    ReadFacts(w, minted);
    AssignInScanOrder(Bases(order), l.uids, l.next, i, j);
  }

  ghost predicate NewAt(order: seq<Path>, uids: map<string, nat>, j: int) {
    0 <= j < |order| && Base(order[j]) !in uids
  }

  /** In UID order, a new message at scan position k is last exactly when no other new one follows it. */
  lemma LastNew(bases: seq<string>, uids: map<string, nat>, next: nat, k: nat)
    requires 1 <= next && next + |bases| < TWO32 && UidsBelow(uids, next)
    requires Distinct(bases) && k < |bases| && bases[k] !in uids
    ensures var a := Assign(bases, uids, next);
      && bases[k] in a.uids
      && ((forall b :: b in a.uids ==> a.uids[b] <= a.uids[bases[k]]) <==>
          forall j :: k < j < |bases| ==> bases[j] in uids)
  {
    AssignFacts(bases, uids, next);
    assert bases[k] in bases;
    if forall j :: k < j < |bases| ==> bases[j] in uids {
      forall b | b in Assign(bases, uids, next).uids
        ensures Assign(bases, uids, next).uids[b] <= Assign(bases, uids, next).uids[bases[k]]
      {
        NoneLater(bases, uids, next, k, b);
      }
    } else {
      var j :| k < j < |bases| && bases[j] !in uids;
      AssignInScanOrder(bases, uids, next, k, j);
    }
  }

  lemma NoneLater(bases: seq<string>, uids: map<string, nat>, next: nat, k: nat, b: string)
    requires 1 <= next && next + |bases| < TWO32 && UidsBelow(uids, next)
    requires Distinct(bases) && k < |bases| && bases[k] !in uids
    requires forall j :: k < j < |bases| ==> bases[j] in uids
    requires b in Assign(bases, uids, next).uids
    ensures bases[k] in Assign(bases, uids, next).uids
    ensures Assign(bases, uids, next).uids[b] <= Assign(bases, uids, next).uids[bases[k]]
  {
    hide Assign;
    AssignFacts(bases, uids, next);
    assert bases[k] in bases;
    if b !in uids && b != bases[k] {
      var j :| 0 <= j < |bases| && bases[j] == b;
      AssignInScanOrder(bases, uids, next, j, k);
    }
  }

  /** The last message of a snapshot has the highest UID of all files. */
  lemma LastIsHighest(files: map<Path, File>, order: seq<Path>, uids: map<string, nat>, ms: seq<Message>)
    requires Snapshot(files, uids, ms) && ScanOrder(files, order) && order != []
    ensures |ms| > 0
    ensures var b := BaseName(ms[|ms| - 1].name);
      b in uids && forall c :: c in Bases(order) ==> c in uids && uids[c] <= uids[b]
  {
    assert order[0] in order;
    var last := |ms| - 1;
    forall c | c in Bases(order) ensures c in uids && uids[c] <= ms[last].uid {
      var n :| 0 <= n < |order| && Bases(order)[n] == c;
      assert order[n] in order;
      var m :| 0 <= m < |ms| && PathOf(ms[m]) == order[n];
      assert Matches(files, uids, ms[m], m + 1);
      if m < last { assert ms[m].uid <= ms[last].uid; }
    }
    assert Matches(files, uids, ms[last], last + 1);
  }

  /** Whose UID is highest, told by the assignment alone. */
  lemma HighestIs(bases: seq<string>, known: map<string, nat>, a: Assignment, b: string, top: string)
    requires UidsBelow(a.uids, a.next) && b in bases && top in a.uids
    requires forall c :: c in a.uids ==> c in known || c in bases
    requires forall c :: c in known ==> c in a.uids && b in a.uids && a.uids[c] < a.uids[b]
    requires forall c :: c in bases ==> c in a.uids && a.uids[c] <= a.uids[top]
    ensures top == b <==> forall c :: c in a.uids ==> a.uids[c] <= a.uids[b]
  {
  }

  /**
    Append reports the last message of its Refresh as the appended one. That is
    right exactly when no other message new to the list sorts after it by date.
   */
  lemma AppendedIsLastWhen(w: World, minted: nat, order: seq<Path>, writes: bool, f': Folder, v': View, ok: bool, k: nat)
    requires Inv(w) && 1 <= minted < TWO32 && Room(w.folder, minted)
    requires RefreshedInOrder(w.folder, minted, order, writes, f', v', ok)
    requires NewAt(order, Read(w.folder.list, minted).uids, k)
    ensures |v'.messages| > 0
    ensures BaseName(v'.messages[|v'.messages| - 1].name) == Base(order[k]) <==>
            forall j :: k < j ==> !NewAt(order, Read(w.folder.list, minted).uids, j)
  {
    hide Inv, Parse, Snapshot, ScanOrder, Assign, Rewritten;
    var l, bases := Read(w.folder.list, minted), Bases(order);
    var a := Assign(bases, l.uids, l.next);
    LastIsHighest(w.folder.files, order, a.uids, v'.messages);
    var top := BaseName(v'.messages[|v'.messages| - 1].name);
    NewIsHighest(w, minted, order, k, top);
    assert forall j :: 0 <= j < |order| ==> (NewAt(order, l.uids, j) <==> bases[j] !in l.uids);
  }

  lemma NewIsHighest(w: World, minted: nat, order: seq<Path>, k: nat, top: string)
    requires Inv(w) && 1 <= minted < TWO32 && Room(w.folder, minted) && ScanOrder(w.folder.files, order)
    requires var l := Read(w.folder.list, minted);
      var a := Assign(Bases(order), l.uids, l.next);
      && NewAt(order, l.uids, k) && top in a.uids
      && forall c :: c in Bases(order) ==> c in a.uids && a.uids[c] <= a.uids[top]
    ensures top == Base(order[k]) <==>
      forall j :: k < j < |order| ==> Bases(order)[j] in Read(w.folder.list, minted).uids
  {
    var l, bases := Read(w.folder.list, minted), Bases(order);
    var a := Assign(bases, l.uids, l.next);
    RefreshAssigns(w, minted, order);
    ReadFacts(w, minted);
    BasesDistinct(w.folder.files, order);
    DistinctWithin(order, w.folder.files.Keys);
    assert |w.folder.files.Keys| == |w.folder.files|;
    assert bases[k] in bases;
    LastNew(bases, l.uids, l.next, k);
    HighestIs(bases, l.uids, a, bases[k], top);
  }

  // ----- the same, told by dates -----

  /** A new message dated before another new one is not the last of the snapshot. */
  lemma OlderIsNotLast(w: World, minted: nat, order: seq<Path>, writes: bool, f': Folder, v': View, ok: bool, p: Path, q: Path)
    requires Inv(w) && 1 <= minted < TWO32 && Room(w.folder, minted)
    requires RefreshedInOrder(w.folder, minted, order, writes, f', v', ok)
    requires p in w.folder.files && q in w.folder.files && w.folder.files[p].mtime < w.folder.files[q].mtime
    requires Base(p) !in Read(w.folder.list, minted).uids && Base(q) !in Read(w.folder.list, minted).uids
    ensures |v'.messages| > 0 && BaseName(v'.messages[|v'.messages| - 1].name) != Base(p)
  {
    var i, j := OlderComesFirst(w.folder.files, order, p, q);
    assert NewAt(order, Read(w.folder.list, minted).uids, j);
    AppendedIsLastWhen(w, minted, order, writes, f', v', ok, i);
  }

  lemma OlderComesFirst(files: map<Path, File>, order: seq<Path>, p: Path, q: Path) returns (i: nat, j: nat)
    requires ScanOrder(files, order) && p in files && q in files && files[p].mtime < files[q].mtime
    requires !Hidden(p.name) && !Hidden(q.name)
    ensures i < j < |order| && order[i] == p && order[j] == q
  {
    assert p in order && q in order;
    i :| 0 <= i < |order| && order[i] == p;
    j :| 0 <= j < |order| && order[j] == q;
  }

  /** p is a visible file the list does not know. */
  ghost predicate Unlisted(f: Folder, minted: nat, p: Path) {
    p in f.files && !Hidden(p.name) && Base(p) !in Read(f.list, minted).uids
  }

  /** The appended message is the last one when every other unlisted message is older, and is not when one is newer. */
  lemma AppendedByDate(w: World, minted: nat, order: seq<Path>, writes: bool, f': Folder, v': View, ok: bool, p: Path)
    requires Inv(w) && 1 <= minted < TWO32 && Room(w.folder, minted)
    requires RefreshedInOrder(w.folder, minted, order, writes, f', v', ok) && Unlisted(w.folder, minted, p)
    ensures |v'.messages| > 0
    ensures (forall q :: Unlisted(w.folder, minted, q) && q != p ==> w.folder.files[q].mtime < w.folder.files[p].mtime) ==>
      BaseName(v'.messages[|v'.messages| - 1].name) == Base(p)
    ensures (exists q :: Unlisted(w.folder, minted, q) && w.folder.files[q].mtime > w.folder.files[p].mtime) ==>
      BaseName(v'.messages[|v'.messages| - 1].name) != Base(p)
  {
    assert p in order;
    var k :| 0 <= k < |order| && order[k] == p;
    AppendedIsLastWhen(w, minted, order, writes, f', v', ok, k);
    if forall q :: Unlisted(w.folder, minted, q) && q != p ==> w.folder.files[q].mtime < w.folder.files[p].mtime {
      NoneAfter(w.folder, minted, order, p, k);
    }
    if q :| Unlisted(w.folder, minted, q) && w.folder.files[q].mtime > w.folder.files[p].mtime {
      OlderIsNotLast(w, minted, order, writes, f', v', ok, p, q);
    }
  }

  lemma NoneAfter(f: Folder, minted: nat, order: seq<Path>, p: Path, k: nat)
    requires ScanOrder(f.files, order) && k < |order| && order[k] == p
    requires forall q :: Unlisted(f, minted, q) && q != p ==> f.files[q].mtime < f.files[p].mtime
    ensures forall j :: k < j ==> !NewAt(order, Read(f.list, minted).uids, j)
  {
    forall j | k < j < |order| ensures Base(order[j]) in Read(f.list, minted).uids {
      assert order[j] in order && order[j] != order[k] && !Unlisted(f, minted, order[j]);
    }
  }
}
