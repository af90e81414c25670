/** The Mailbox object and the directory it works on. */
module Mailboxes {
  import opened Text
  import opened Sorting
  import opened Flags
  import opened UidList
  import opened Maildir

  /** A folder on disk, shared by every mailbox object open on it. */
  class Directory {
    var files: map<Path, File>
    var list: Option<string>

    constructor (files: map<Path, File>, list: Option<string>)
      ensures this.files == files && this.list == list
    {
      this.files, this.list := files, list;
    }

    function Now(): Folder
      reads this
    {
      Folder(files, list)
    }
  }

  /** One directory entry with its stat result. */
  datatype Found = Found(path: Path, file: File)

  function Paths(found: seq<Found>): (r: seq<Path>)
    ensures |r| == |found| && forall i :: 0 <= i < |r| ==> r[i] == found[i].path
  {
    seq(|found|, i requires 0 <= i < |found| => found[i].path)
  }

  ghost predicate Scanned(files: map<Path, File>, found: seq<Found>) {
    && (forall i :: 0 <= i < |found| ==> found[i].path in files && found[i].file == files[found[i].path])
    && Distinct(Paths(found))
    && (forall p :: p in Paths(found) <==> p in files && !Hidden(p.name))
  }

  /** ReadDir over new/ and then cur/, hidden names skipped. */
  method Scan(files: map<Path, File>) returns (found: seq<Found>)
    ensures Scanned(files, found)
  {
    found := ScanSub(files, New, {}, []);
    found := ScanSub(files, Cur, {} + InSub(files, New), found);
    ScannedAll(files, {} + InSub(files, New) + InSub(files, Cur), found);
  }

  function InSub(files: map<Path, File>, sub: Sub): set<Path> { set p | p in files && p.sub == sub }

  method ScanSub(files: map<Path, File>, sub: Sub, ghost done: set<Path>, before: seq<Found>) returns (found: seq<Found>)
    requires ScannedPart(files, done, before) && forall p :: p in done ==> p.sub != sub
    ensures ScannedPart(files, done + InSub(files, sub), found)
  {
    found := before;
    var pending := InSub(files, sub);
    ghost var all := pending;
    ghost var seen := done;
    while pending != {}
      invariant pending <= all && seen == done + (all - pending)
      invariant ScannedPart(files, seen, found)
    {
      var p :| p in pending;
      pending := pending - {p};
      ghost var last := found;
      if !Hidden(p.name) { found := found + [Found(p, files[p])]; }
      ExtendScan(files, seen, last, p, found);
      seen := seen + {p};
    }
  }

  lemma ScannedAll(files: map<Path, File>, seen: set<Path>, found: seq<Found>)
    requires ScannedPart(files, seen, found) && forall p :: p in files ==> p in seen
    ensures Scanned(files, found)
  {
    forall p | p in Paths(found) ensures p in files && !Hidden(p.name) {
      var i :| 0 <= i < |found| && Paths(found)[i] == p;
    }
    forall p | p in files && !Hidden(p.name) ensures p in Paths(found) {
      var i :| 0 <= i < |found| && found[i].path == p;
      assert Paths(found)[i] == p;
    }
  }

  lemma ExtendScan(files: map<Path, File>, seen: set<Path>, before: seq<Found>, p: Path, found: seq<Found>)
    requires ScannedPart(files, seen, before) && p in files && p !in seen
    requires found == if Hidden(p.name) then before else before + [Found(p, files[p])]
    ensures ScannedPart(files, seen + {p}, found)
  {
    forall q | q in seen + {p} && !Hidden(q.name) ensures exists i :: 0 <= i < |found| && found[i].path == q {
      if q == p {
        assert found[|before|].path == p;
      } else {
        var i :| 0 <= i < |before| && before[i].path == q;
        assert found[i].path == q;
      }
    }
  }

  ghost predicate ScannedPart(files: map<Path, File>, seen: set<Path>, found: seq<Found>) {
    && (forall i :: 0 <= i < |found| ==>
         found[i].path in files && found[i].path in seen && !Hidden(found[i].path.name) && found[i].file == files[found[i].path])
    && (forall i, j :: 0 <= i < j < |found| ==> found[i].path != found[j].path)
    && (forall p :: p in seen && !Hidden(p.name) ==> exists i :: 0 <= i < |found| && found[i].path == p)
  }

  /** The scan in delivery order. */
  method ScanByTime(files: map<Path, File>) returns (found: seq<Found>)
    ensures Scanned(files, found) && ScanOrder(files, Paths(found))
  {
    var raw := Scan(files);
    found := SortBy(raw, (e: Found) => e.file.mtime);
    SortedScan(files, raw, found);
    forall i, j | 0 <= i < j < |found| ensures files[found[i].path].mtime <= files[found[j].path].mtime {
      assert found[i].file.mtime <= found[j].file.mtime;
    }
  }

  lemma SortedScan(files: map<Path, File>, raw: seq<Found>, found: seq<Found>)
    requires Scanned(files, raw) && multiset(raw) == multiset(found)
    ensures Scanned(files, found)
  {
    SameMembers(raw, found);
    forall i, j | 0 <= i < j < |raw| ensures raw[i] != raw[j] { assert Paths(raw)[i] != Paths(raw)[j]; }
    DistinctPermutation(raw, found);
    forall i | 0 <= i < |found| ensures found[i].path in files && found[i].file == files[found[i].path] {
      assert found[i] in raw;
    }
    forall i, j | 0 <= i < j < |found| ensures Paths(found)[i] != Paths(found)[j] {
      assert found[i] != found[j];
    }
    forall p | p in Paths(found) ensures p in files && !Hidden(p.name) {
      var i :| 0 <= i < |found| && found[i].path == p;
      assert found[i] in raw;
      var j :| 0 <= j < |raw| && raw[j] == found[i];
      assert Paths(raw)[j] == p;
    }
    forall p | p in files && !Hidden(p.name) ensures p in Paths(found) {
      assert p in Paths(raw);
      var j :| 0 <= j < |raw| && raw[j].path == p;
      assert raw[j] in raw && raw[j] in found;
      var i :| 0 <= i < |found| && found[i] == raw[j];
      assert Paths(found)[i] == p;
    }
  }

  method AssignUids(found: seq<Found>, l: List) returns (uids: map<string, nat>, next: nat, dirty: bool)
    ensures Assignment(uids, next) == Assign(Bases(Paths(found)), l.uids, l.next)
    ensures dirty == (uids != l.uids)
  {
    uids, next, dirty := l.uids, l.next, false;
    ghost var bases := Bases(Paths(found));
    for i := 0 to |found|
      invariant Assignment(uids, next) == Assign(bases[..i], l.uids, l.next)
      invariant if dirty then exists b :: b in uids && b !in l.uids else uids == l.uids
    {
      assert bases[..i + 1][..i] == bases[..i];
      var base := Base(found[i].path);
      if base !in uids {
        assert !dirty ==> base !in l.uids;
        uids := uids[base := next];
        next := (next + 1) % TWO32;
        assert dirty ==> exists b :: b in uids && b !in l.uids;
        dirty := true;
      }
    }
    assert bases[..|found|] == bases;
  }

  /** The snapshot in UID order, renumbered. */
  method BuildMessages(ghost files: map<Path, File>, found: seq<Found>, uids: map<string, nat>) returns (messages: seq<Message>)
    requires Scanned(files, found)
    requires forall i :: 0 <= i < |found| ==> Base(found[i].path) in uids
    ensures Snapshot(files, uids, messages)
  {
    var msgs: seq<Message> := [];
    for i := 0 to |found|
      invariant |msgs| == i
      invariant forall k :: 0 <= k < i ==> PathOf(msgs[k]) == found[k].path && Matches(files, uids, msgs[k], 0)
    {
      var p := found[i].path;
      assert Paths(found)[i] in Paths(found);
      var flags := ParseFlags(p.name);
      msgs := msgs + [Message(uids[Base(p)], 0, p.name, p.sub, flags, p.sub == New, |found[i].file.data|, found[i].file.mtime)];
    }
    var sorted := SortBy(msgs, (m: Message) => m.uid);
    SortedEntries(files, found, uids, msgs, sorted);
    messages := Renumbered(sorted);
    forall p | p in files && !Hidden(p.name) ensures exists i :: 0 <= i < |messages| && PathOf(messages[i]) == p {
      var i :| 0 <= i < |sorted| && PathOf(sorted[i]) == p;
      assert PathOf(messages[i]) == p;
    }
    forall i, j | 0 <= i < j < |messages| ensures messages[i].uid <= messages[j].uid {
      assert sorted[i].uid <= sorted[j].uid;
    }
  }

  lemma SortedEntries(files: map<Path, File>, found: seq<Found>, uids: map<string, nat>, msgs: seq<Message>, sorted: seq<Message>)
    requires Scanned(files, found) && |msgs| == |found| && multiset(msgs) == multiset(sorted)
    requires forall k :: 0 <= k < |found| ==> PathOf(msgs[k]) == found[k].path && Matches(files, uids, msgs[k], 0)
    ensures forall i :: 0 <= i < |sorted| ==> Matches(files, uids, sorted[i], 0)
    ensures forall i, j :: 0 <= i < j < |sorted| ==> PathOf(sorted[i]) != PathOf(sorted[j])
    ensures forall p :: p in files && !Hidden(p.name) ==> exists i :: 0 <= i < |sorted| && PathOf(sorted[i]) == p
  {
    SameMembers(msgs, sorted);
    forall i, j | 0 <= i < j < |msgs| ensures msgs[i] != msgs[j] { assert Paths(found)[i] != Paths(found)[j]; }
    DistinctPermutation(msgs, sorted);
    forall i | 0 <= i < |sorted| ensures Matches(files, uids, sorted[i], 0) { assert sorted[i] in msgs; }
    forall i, j | 0 <= i < j < |sorted| ensures PathOf(sorted[i]) != PathOf(sorted[j]) {
      assert sorted[i] != sorted[j];
    }
    forall p | p in files && !Hidden(p.name) ensures exists i :: 0 <= i < |sorted| && PathOf(sorted[i]) == p {
      assert p in Paths(found);
      var k :| 0 <= k < |found| && found[k].path == p;
      assert msgs[k] in msgs && msgs[k] in sorted;
    }
  }

  /** The loop that numbers the messages from 1. */
  method Renumbered(messages: seq<Message>) returns (r: seq<Message>)
    ensures r == Renumber(messages)
  {
    r := messages;
    for i := 0 to |messages|
      invariant |r| == |messages|
      invariant forall k :: 0 <= k < |r| ==> r[k] == if k < i then messages[k].(seqNum := k + 1) else messages[k]
    {
      r := r[i := r[i].(seqNum := i + 1)];
    }
  }

  method Prune(ghost files: map<Path, File>, messages: seq<Message>, ghost uids: map<string, nat>) returns (live: map<string, nat>)
    requires Snapshot(files, uids, messages)
    ensures Pruned(files, uids, live)
  {
    live := map[];
    for i := 0 to |messages|
      invariant forall b :: b in live ==> b in uids && live[b] == uids[b]
      invariant forall b :: b in live ==> exists p :: p in files && !Hidden(p.name) && Base(p) == b
      invariant forall k :: 0 <= k < i ==> Base(PathOf(messages[k])) in live
    {
      assert PathOf(messages[i]) in files;
      live := live[BaseName(messages[i].name) := messages[i].uid];
    }
    forall p | p in files && !Hidden(p.name) ensures Base(p) in live {
      var i :| 0 <= i < |messages| && PathOf(messages[i]) == p;
    }
  }

  method TakeSnapshot(files: map<Path, File>, l: List)
    returns (ghost order: seq<Path>, uids: map<string, nat>, next: nat, dirty: bool, messages: seq<Message>)
    ensures ScanOrder(files, order)
    ensures Assignment(uids, next) == Assign(Bases(order), l.uids, l.next)
    ensures Snapshot(files, uids, messages)
    ensures dirty == (uids != l.uids)
  {
    var found := ScanByTime(files);
    order := Paths(found);
    uids, next, dirty := AssignUids(found, l);
    AssignKeys(Bases(order), l.uids, l.next);
    assert forall i :: 0 <= i < |found| ==> Bases(order)[i] == Base(found[i].path);
    messages := BuildMessages(files, found, uids);
  }

  class Mailbox {
    const dir: Directory
    var messages: seq<Message>
    var uidValidity: nat
    var uidNext: nat

    constructor (dir: Directory)
      ensures this.dir == dir && Now() == View([], 0, 0)
    {
      this.dir := dir;
      messages, uidValidity, uidNext := [], 0, 0;
    }

    function Now(): View
      reads this
    {
      View(messages, uidValidity, uidNext)
    }

    method Refresh(minted: nat, fault: Fault) returns (ok: bool)
      modifies this, dir`list
      ensures Refreshed(old(dir.Now()), old(Now()), minted, fault, dir.Now(), Now(), ok)
      ensures fault.NoFault? ==> ok
    {
      hide Parse, Snapshot, ScanOrder, Pruned, Written, Assign, Rewritten, RefreshedFrom;
      if fault == ListUnreadable { return false; }
      ghost var f := dir.Now();
      var l := ReadUidList(Received(dir.list, fault), minted);
      uidValidity := l.validity;
      if !Scans(fault) { return false; }
      var order, uids, next, dirty, msgs := TakeSnapshot(dir.files, l);
      ghost var v := View(msgs, l.validity, next);
      if dirty {
        var live := Prune(f.files, msgs, uids);
        var text := WriteUidList(live, l.validity, next);
        if Writes(fault) {
          ListWritten(f, l, order, uids, v, live, text);
          dir.list := Some(text);
          ok := true;
        } else {
          ListKept(f, l, order, uids, v, false, false);
          ok := false;
        }
      } else {
        ListKept(f, l, order, uids, v, Writes(fault), true);
        ok := true;
      }
      messages, uidNext := msgs, next;
    }

    method SetFlags(i: nat, flags: string, diskOk: bool) returns (ok: bool)
      requires i < |messages|
      modifies this`messages, dir`files
      ensures FlagsSet(old(dir.Now()), old(Now()), i, flags, dir.Now(), Now(), ok)
      ensures ok <==> old(PathOf(messages[i]) == FlaggedPath(messages[i], flags)) || (diskOk && old(PathOf(messages[i]) in dir.files))
    {
      var m := messages[i];
      var newName := FileName(BaseName(m.name), flags);
      var oldPath, newPath := Path(m.sub, m.name), Path(Cur, newName);
      if oldPath != newPath {
        if !diskOk || oldPath !in dir.files { return false; }
        dir.files := Rename(dir.files, oldPath, newPath);
      }
      messages := messages[i := m.(name := newName, sub := Cur, flags := flags, recent := false)];
      ok := true;
    }

    /**
      Append: deliver under a new name, date it, move it to cur/ when it has
      flags, refresh, and return the last message. name and now come from
      Deliver, which may fail; None is a zero time.
     */
    method Append(
      data: string, flags: string, internal: Option<int>, name: string, now: int, delivers: bool, renames: bool,
      minted: nat, fault: Fault)
      returns (ok: bool, appended: Option<Message>)
      requires Deliverable(name) && forall p :: p in dir.files ==> Base(p) != name
      modifies this, dir
      ensures ok ==> messages != [] && appended == Some(messages[|messages| - 1])
      ensures delivers && (flags == "" || renames) && fault.NoFault? ==> ok
      ensures !delivers ==> !ok && dir.Now() == old(dir.Now()) && Now() == old(Now())
      ensures Appended(
        old(dir.Now()), old(Now()), name, flags, File(data, if internal.Some? then internal.value else now),
        delivers, renames, minted, fault, dir.Now(), Now(), ok)
      ensures ok ==> dir.files == old(dir.files)[PlacedPath(name, flags) :=
                                    File(data, if internal.Some? then internal.value else now)]
      ensures ok ==> RefreshedTo(Folder(dir.files, old(dir.list)), minted, fault, dir.Now(), Now())
      ensures forall p :: p in old(dir.files) ==> p in dir.files && dir.files[p] == old(dir.files)[p]
    {
      hide Refreshed, RefreshedTo, Deliverable;
      var file := File(data, if internal.Some? then internal.value else now);
      ok := Place(name, flags, file, delivers, renames);
      if !ok { return false, None; }
      ok, appended := ShowLast(name, flags, minted, fault);
    }

    /** The rest of Append: refresh and return the last message. */
    method ShowLast(ghost name: string, ghost flags: string, minted: nat, fault: Fault) returns (ok: bool, last: Option<Message>)
      requires Deliverable(name) && PlacedPath(name, flags) in dir.files
      modifies this, dir`list
      ensures ok ==> messages != [] && last == Some(messages[|messages| - 1])
      ensures fault.NoFault? ==> ok
      ensures ok ==> RefreshedTo(old(dir.Now()), minted, fault, dir.Now(), Now())
      ensures Refreshed(old(dir.Now()), old(Now()), minted, fault, dir.Now(), Now(), ok)
    {
      hide Refreshed, RefreshedTo;
      ok := Refresh(minted, fault);
      PlacedIsShown(old(dir.Now()), old(Now()), name, flags, minted, fault, dir.Now(), Now(), ok);
      if !ok || messages == [] { return false, None; }
      last := Some(messages[|messages| - 1]);
    }

    /** The file part of Append: into new/, then to cur/ under its flags. */
    method Place(name: string, flags: string, file: File, delivers: bool, renames: bool) returns (ok: bool)
      requires Deliverable(name) && forall p :: p in dir.files ==> Base(p) != name
      modifies dir`files
      ensures ok <==> PlacedOk(flags, delivers, renames)
      ensures dir.files == PlacedFiles(old(dir.files), name, flags, file, delivers, renames)
      ensures ok ==> dir.files == old(dir.files)[PlacedPath(name, flags) := file]
      ensures forall p :: p in old(dir.files) ==> p in dir.files && dir.files[p] == old(dir.files)[p]
    {
      if !delivers { return false; }
      ghost var before := dir.files;
      NewPaths(before, name, flags);
      dir.files := dir.files[Path(New, name) := file];
      if flags == "" { return true; }
      if !renames { return false; }
      MoveToCur(before, name, flags, file);
      dir.files := Rename(dir.files, Path(New, name), Path(Cur, FileName(name, flags)));
      ok := true;
    }

    /** removable says which removals the disk grants; removing a missing file is no error. */
    method Expunge(removable: Path -> bool) returns (seqs: seq<nat>, ok: bool)
      modifies this`messages, dir`files
      ensures Expunged(old(dir.Now()), old(Now()), dir.Now(), Now(), seqs, ok)
      ensures (forall p :: p in DeletedPaths(old(messages)) && p in old(dir.files) ==> removable(p)) ==> ok
    {
      var kept, gone, removed := RemoveDeleted(removable);
      if !removed { return [], false; }
      if gone == [] { return [], true; }
      messages := Renumbered(kept);
      seqs := SortBy(gone, (n: nat) => -(n as int));
      ok := true;
      assert forall i, j :: 0 <= i < j < |seqs| ==> -(seqs[i] as int) <= -(seqs[j] as int);
    }

    /** The loop over the snapshot; it stops at the first removal that fails. */
    method RemoveDeleted(removable: Path -> bool) returns (kept: seq<Message>, gone: seq<nat>, ok: bool)
      modifies dir`files
      ensures ok ==>
        && kept == Kept(messages) && gone == DeletedSeqs(messages)
        && dir.files == old(dir.files) - DeletedPaths(messages)
      ensures !ok ==> exists lost :: lost <= DeletedPaths(messages) && dir.files == old(dir.files) - lost
      ensures (forall p :: p in DeletedPaths(messages) && p in old(dir.files) ==> removable(p)) ==> ok
    {
      kept, gone := [], [];
      for i := 0 to |messages|
        invariant kept == Kept(messages[..i]) && gone == DeletedSeqs(messages[..i])
        invariant DeletedPaths(messages[..i]) <= DeletedPaths(messages)
        invariant dir.files == old(dir.files) - DeletedPaths(messages[..i])
      {
        var m := messages[i];
        DeletedPathsStep(messages, i);
        assert messages[..i + 1][..i] == messages[..i];
        if IsDeleted(m) {
          if PathOf(m) in dir.files && !removable(PathOf(m)) {
            assert PathOf(m) in DeletedPaths(messages);
            return [], [], false;
          }
          RemoveOneMore(old(dir.files), DeletedPaths(messages[..i]), PathOf(m));
          dir.files := dir.files - {PathOf(m)};
          gone := gone + [m.seqNum];
        } else {
          kept := kept + [m];
        }
      }
      assert messages[..|messages|] == messages;
      ok := true;
    }
  }

  /** v' and f' are what a successful Refresh of f leaves. */
  ghost predicate RefreshedTo(f: Folder, minted: nat, fault: Fault, f': Folder, v': View) {
    exists order :: RefreshedFrom(f, Read(Received(f.list, fault), minted), order, Writes(fault), f', v', true)
  }

  /** What a Refresh makes of a folder with a placed message. */
  lemma PlacedIsShown(
    f: Folder, v: View, name: string, flags: string, minted: nat, fault: Fault, f': Folder, v': View, ok: bool)
    requires Deliverable(name) && PlacedPath(name, flags) in f.files && Refreshed(f, v, minted, fault, f', v', ok)
    ensures fault.NoFault? ==> ok
    ensures ok ==> v'.messages != [] && RefreshedTo(f, minted, fault, f', v')
  {
    PlacedPathFacts(name, flags);
  }

  lemma NewPaths(files: map<Path, File>, name: string, flags: string)
    requires Deliverable(name) && forall p :: p in files ==> Base(p) != name
    ensures Path(New, name) !in files && PlacedPath(name, flags) !in files
  {
    PlacedPathFacts(name, flags);
    PlacedPathFacts(name, "");
  }

  lemma MoveToCur(files: map<Path, File>, name: string, flags: string, file: File)
    requires Path(New, name) !in files
    ensures Rename(files[Path(New, name) := file], Path(New, name), Path(Cur, FileName(name, flags))) ==
            files[Path(Cur, FileName(name, flags)) := file]
  {
  }

  lemma RemoveOneMore(files: map<Path, File>, gone: set<Path>, p: Path)
    ensures files - gone - {p} == files - (gone + {p})
  {
  }

  lemma ListWritten(
    f: Folder, l: List, order: seq<Path>, uids: map<string, nat>, v: View, live: map<string, nat>, text: string)
    requires ScanOrder(f.files, order) && Snapshot(f.files, uids, v.messages)
    requires v.validity == l.validity && uids != l.uids
    requires Assignment(uids, v.next) == Assign(Bases(order), l.uids, l.next)
    requires Pruned(f.files, uids, live) && Written(text, List(live, v.validity, v.next))
    ensures RefreshedFrom(f, l, order, true, Folder(f.files, Some(text)), v, true)
  {
  }

  lemma ListKept(
    f: Folder, l: List, order: seq<Path>, uids: map<string, nat>, v: View, writes: bool, ok: bool)
    requires ScanOrder(f.files, order) && Snapshot(f.files, uids, v.messages)
    requires v.validity == l.validity && (if uids == l.uids then ok else !writes && !ok)
    requires Assignment(uids, v.next) == Assign(Bases(order), l.uids, l.next)
    ensures RefreshedFrom(f, l, order, writes, f, v, ok)
  {
  }

  lemma DeletedPathsStep(messages: seq<Message>, i: nat)
    requires i < |messages|
    ensures DeletedPaths(messages[..i + 1]) ==
      DeletedPaths(messages[..i]) + if IsDeleted(messages[i]) then {PathOf(messages[i])} else {}
    ensures DeletedPaths(messages[..i + 1]) <= DeletedPaths(messages)
  {
    var s := messages[..i + 1];
    assert forall k :: 0 <= k < i ==> s[k] == messages[..i][k];
    assert forall k :: 0 <= k <= i ==> s[k] == messages[k];
  }
}
