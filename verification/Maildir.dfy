/** A Maildir folder, the snapshots taken of it and what each mailbox call does to both. */
module Maildir {
  import opened Text
  import opened Sorting
  import opened Flags
  import opened UidList

  datatype Sub = New | Cur
  datatype Path = Path(sub: Sub, name: string)
  datatype File = File(data: string, mtime: int)

  /** The directory: its message files and, once written, the UID list. */
  datatype Folder = Folder(files: map<Path, File>, list: Option<string>)

  datatype Message = Message(
    uid: nat, seqNum: nat, name: string, sub: Sub, flags: string, recent: bool, size: nat, internal: int)

  /** The state of a Mailbox object: a snapshot and its two UID numbers. */
  datatype View = View(messages: seq<Message>, validity: nat, next: nat)

  function Base(p: Path): string { BaseName(p.name) }

  function PathOf(m: Message): Path { Path(m.sub, m.name) }

  /** m shows the flags its file name carries. */
  ghost predicate FlagsTold(m: Message) { m.flags == FlagsOf(m.name) }

  predicate Hidden(name: string) { "." <= name }

  ghost predicate UniqueBases(files: map<Path, File>) {
    forall p, q :: p in files && q in files && Base(p) == Base(q) ==> p == q
  }

  // ----- Refresh -----

  /** The scan: every visible file once, oldest first, ties in any order. */
  ghost predicate ScanOrder(files: map<Path, File>, order: seq<Path>) {
    && Distinct(order)
    && (forall p :: p in order <==> p in files && !Hidden(p.name))
    && (forall i, j :: 0 <= i < j < |order| ==> files[order[i]].mtime <= files[order[j]].mtime)
  }

  datatype Assignment = Assignment(uids: map<string, nat>, next: nat)

  /** UIDs for unknown base names in scan order; the counter is a uint32 and wraps. */
  function Assign(bases: seq<string>, uids: map<string, nat>, next: nat): Assignment {
    if bases == [] then Assignment(uids, next)
    else AssignOne(Assign(bases[..|bases| - 1], uids, next), bases[|bases| - 1])
  }

  function AssignOne(a: Assignment, b: string): Assignment {
    if b in a.uids then a else Assignment(a.uids[b := a.next], (a.next + 1) % TWO32)
  }

  function Bases(order: seq<Path>): (r: seq<string>)
    ensures |r| == |order| && forall i :: 0 <= i < |r| ==> r[i] == Base(order[i])
  {
    seq(|order|, i requires 0 <= i < |order| => Base(order[i]))
  }

  function Entered(p: Path, f: File, uid: nat, seqNum: nat): Message {
    Message(uid, seqNum, p.name, p.sub, FlagsOf(p.name), p.sub.New?, |f.data|, f.mtime)
  }

  /** m is how the visible file at its path enters a snapshot. */
  ghost predicate Matches(files: map<Path, File>, uids: map<string, nat>, m: Message, seqNum: nat) {
    var p := PathOf(m);
    p in files && !Hidden(p.name) && Base(p) in uids && m == Entered(p, files[p], uids[Base(p)], seqNum)
  }

  /** messages is the snapshot of files under uids: all visible files, in UID order, numbered from 1. */
  ghost predicate Snapshot(files: map<Path, File>, uids: map<string, nat>, messages: seq<Message>) {
    && (forall i :: 0 <= i < |messages| ==> Matches(files, uids, messages[i], i + 1))
    && (forall i, j :: 0 <= i < j < |messages| ==> messages[i].uid <= messages[j].uid)
    && (forall i, j :: 0 <= i < j < |messages| ==> PathOf(messages[i]) != PathOf(messages[j]))
    && (forall p :: p in files && !Hidden(p.name) ==> exists i :: 0 <= i < |messages| && PathOf(messages[i]) == p)
  }

  /** The part of the assignment that belongs to files still there. */
  ghost predicate Pruned(files: map<Path, File>, uids: map<string, nat>, live: map<string, nat>) {
    && (forall b :: b in live ==> b in uids && live[b] == uids[b])
    && (forall b :: b in live ==> exists p :: p in files && !Hidden(p.name) && Base(p) == b)
    && (forall p :: p in files && !Hidden(p.name) ==> Base(p) in live)
  }

  /** list is a file that holds the assignment pruned to the files still there. */
  ghost predicate Rewritten(files: map<Path, File>, uids: map<string, nat>, validity: nat, next: nat, list: Option<string>) {
    list.Some? && exists live: map<string, nat> :: Pruned(files, uids, live) && Written(list.value, List(live, validity, next))
  }

  /** Where the disk may let Refresh down. ListCut: reading the list breaks off after that many bytes. */
  datatype Fault =
    | NoFault
    | ListUnreadable
    | ListCut(at: nat, scans: bool, writes: bool)
    | ScanFails
    | WriteFails

  predicate Scans(fault: Fault) { !fault.ListUnreadable? && !fault.ScanFails? && (fault.ListCut? ==> fault.scans) }

  predicate Writes(fault: Fault) { fault.NoFault? || (fault.ListCut? && fault.writes) }

  /** What is read of the list file. */
  function Received(list: Option<string>, fault: Fault): Option<string> {
    if fault.ListCut? then Cut(list, fault.at) else list
  }

  /** A scan in this order over the list l, with or without a working write. */
  ghost predicate RefreshedFrom(f: Folder, l: List, order: seq<Path>, writes: bool, f': Folder, v': View, ok: bool) {
    var a := Assign(Bases(order), l.uids, l.next);
    var dirty := a.uids != l.uids;
    && ScanOrder(f.files, order)
    && v'.validity == l.validity && v'.next == a.next
    && Snapshot(f.files, a.uids, v'.messages)
    && f'.files == f.files
    && ok == (writes || !dirty)
    && (if dirty && writes then Rewritten(f.files, a.uids, l.validity, a.next, f'.list) else f'.list == f.list)
  }

  ghost predicate RefreshedInOrder(
    f: Folder, minted: nat, order: seq<Path>, writes: bool, f': Folder, v': View, ok: bool)
  {
    RefreshedFrom(f, Read(f.list, minted), order, writes, f', v', ok)
  }

  /** One call of Mailbox.Refresh by a mailbox whose state was v. */
  ghost predicate Refreshed(f: Folder, v: View, minted: nat, fault: Fault, f': Folder, v': View, ok: bool) {
    var l := Read(Received(f.list, fault), minted);
    if fault.ListUnreadable? then f' == f && v' == v && !ok
    else if !Scans(fault) then f' == f && v' == v.(validity := l.validity) && !ok
    else exists order: seq<Path> :: RefreshedFrom(f, l, order, Writes(fault), f', v', ok)
  }

  // ----- SetFlags, Expunge, delivery -----

  function FlaggedPath(m: Message, flags: string): Path { Path(Cur, FileName(BaseName(m.name), flags)) }

  function Flagged(m: Message, flags: string): Message {
    m.(name := FileName(BaseName(m.name), flags), sub := Cur, flags := flags, recent := false)
  }

  /** A flag change to canonical flags is told by the new name. */
  lemma FlaggedIsTold(m: Message, flags: string)
    requires Canonical(flags)
    ensures FlagsTold(Flagged(m, flags)) && BaseName(Flagged(m, flags).name) == BaseName(m.name)
  {
    BaseNameNoSep(m.name);
    FileNameRoundTrip(BaseName(m.name), flags);
  }

  /** os.Rename: the target, if any, is replaced. */
  function Rename(files: map<Path, File>, from: Path, to: Path): map<Path, File>
    requires from in files
  {
    (files - {from})[to := files[from]]
  }

  /** One call of Mailbox.SetFlags on the i-th message. */
  ghost predicate FlagsSet(f: Folder, v: View, i: nat, flags: string, f': Folder, v': View, ok: bool)
    requires i < |v.messages|
  {
    var m := v.messages[i];
    var from, to := PathOf(m), FlaggedPath(m, flags);
    && f'.list == f.list
    && (ok ==> v' == v.(messages := v.messages[i := Flagged(m, flags)]))
    && (ok && from != to ==> from in f.files && f'.files == Rename(f.files, from, to))
    && (!ok ==> from != to && v' == v)
    && (!ok || from == to ==> f'.files == f.files)
  }

  predicate IsDeleted(m: Message) { DELETED in m.flags }

  function Kept(messages: seq<Message>): seq<Message> {
    if messages == [] then []
    else Kept(messages[..|messages| - 1]) +
         (if IsDeleted(messages[|messages| - 1]) then [] else [messages[|messages| - 1]])
  }

  function Renumber(messages: seq<Message>): (r: seq<Message>)
    ensures |r| == |messages|
    ensures forall i :: 0 <= i < |r| ==> r[i] == messages[i].(seqNum := i + 1)
  {
    seq(|messages|, i requires 0 <= i < |messages| => messages[i].(seqNum := i + 1))
  }

  function DeletedPaths(messages: seq<Message>): set<Path> {
    set i | 0 <= i < |messages| && IsDeleted(messages[i]) :: PathOf(messages[i])
  }

  /** The sequence numbers of the removed messages, in snapshot order. */
  function DeletedSeqs(messages: seq<Message>): seq<nat> {
    if messages == [] then []
    else DeletedSeqs(messages[..|messages| - 1]) +
         (if IsDeleted(messages[|messages| - 1]) then [messages[|messages| - 1].seqNum] else [])
  }

  /** seqs are those numbers, sorted highest first. */
  ghost predicate ExpungeNumbers(messages: seq<Message>, seqs: seq<nat>) {
    multiset(seqs) == multiset(DeletedSeqs(messages)) && Descending(seqs)
  }

  ghost predicate Numbered(messages: seq<Message>) {
    forall i :: 0 <= i < |messages| ==> messages[i].seqNum == i + 1
  }

  /** The positions of the removed messages, last first. */
  function DeletedPositions(messages: seq<Message>): seq<nat> {
    if messages == [] then []
    else (if IsDeleted(messages[|messages| - 1]) then [|messages|] else []) + DeletedPositions(messages[..|messages| - 1])
  }

  /** In a numbered snapshot the reported numbers are exactly the positions, strictly descending. */
  lemma ExpungeNumbersDescend(messages: seq<Message>, seqs: seq<nat>)
    requires Numbered(messages) && ExpungeNumbers(messages, seqs)
    ensures seqs == DeletedPositions(messages) && StrictlyDescending(seqs)
    ensures forall k :: k in seqs <==> 1 <= k <= |messages| && IsDeleted(messages[k - 1])
  {
    hide DeletedPositions, DeletedSeqs;
    DeletedPositionsMembers(messages);
    DeletedPositionsDescend(messages);
    DeletedPositionsAreSeqs(messages);
    DescendingUnique(DeletedPositions(messages), seqs);
  }

  lemma {:induction false} DeletedPositionsMembers(messages: seq<Message>)
    ensures forall k :: k in DeletedPositions(messages) <==> 1 <= k <= |messages| && IsDeleted(messages[k - 1])
  {
    if messages != [] { DeletedPositionsMembers(messages[..|messages| - 1]); }
  }

  lemma {:induction false} DeletedPositionsDescend(messages: seq<Message>)
    ensures StrictlyDescending(DeletedPositions(messages))
  {
    if messages != [] {
      var rest := messages[..|messages| - 1];
      DeletedPositionsDescend(rest);
      DeletedPositionsMembers(rest);
      var s := DeletedPositions(rest);
      assert forall i :: 0 <= i < |s| ==> s[i] in s;
    }
  }

  lemma {:induction false} DeletedPositionsAreSeqs(messages: seq<Message>)
    requires Numbered(messages)
    ensures multiset(DeletedPositions(messages)) == multiset(DeletedSeqs(messages))
  {
    if messages != [] { DeletedPositionsAreSeqs(messages[..|messages| - 1]); }
  }

  lemma {:induction false} KeptMembers(messages: seq<Message>)
    ensures forall m :: m in Kept(messages) <==> m in messages && !IsDeleted(m)
    ensures |Kept(messages)| <= |messages|
  {
    if messages != [] {
      var n := |messages| - 1;
      KeptMembers(messages[..n]);
      assert messages == messages[..n] + [messages[n]];
    }
  }

  lemma NothingDeleted(messages: seq<Message>)
    requires DeletedPositions(messages) == []
    ensures Kept(messages) == messages && DeletedPaths(messages) == {}
  {
    DeletedPositionsMembers(messages);
    forall i | 0 <= i < |messages| ensures !IsDeleted(messages[i]) { assert i + 1 !in DeletedPositions(messages); }
    AllKept(messages);
  }

  lemma {:induction false} AllKept(messages: seq<Message>)
    requires forall i :: 0 <= i < |messages| ==> !IsDeleted(messages[i])
    ensures Kept(messages) == messages
  {
    if messages != [] {
      AllKept(messages[..|messages| - 1]);
      assert messages == messages[..|messages| - 1] + [messages[|messages| - 1]];
    }
  }

  /** One call of Mailbox.Expunge; on a failed removal some files may already be gone. */
  ghost predicate Expunged(f: Folder, v: View, f': Folder, v': View, seqs: seq<nat>, ok: bool) {
    && f'.list == f.list
    && (ok ==>
         && f'.files == f.files - DeletedPaths(v.messages)
         && ExpungeNumbers(v.messages, seqs)
         && v' == if seqs == [] then v else v.(messages := Renumber(Kept(v.messages))))
    && (!ok ==> v' == v && seqs == [])
    && (!ok ==> exists gone :: gone <= DeletedPaths(v.messages) && f'.files == f.files - gone)
  }

  /** Names Deliver generates: visible, storable in the list, no flag part. */
  ghost predicate Deliverable(name: string) {
    name != "" && !Hidden(name) && Storable(name) && NoSep(name)
  }

  /** Where Append leaves a message: in new/ without flags, else in cur/. */
  function PlacedPath(name: string, flags: string): Path {
    if flags == "" then Path(New, name) else Path(Cur, FileName(name, flags))
  }

  predicate PlacedOk(flags: string, delivers: bool, renames: bool) { delivers && (flags == "" || renames) }

  /** The files after the delivery part of Append: a failed rename leaves the message in new/. */
  function PlacedFiles(
    files: map<Path, File>, name: string, flags: string, file: File, delivers: bool, renames: bool): map<Path, File>
  {
    if !delivers then files
    else if PlacedOk(flags, delivers, renames) then files[PlacedPath(name, flags) := file]
    else files[Path(New, name) := file]
  }

  /** One call of Mailbox.Append: the delivery part, then a Refresh if it worked. */
  ghost predicate Appended(
    f: Folder, v: View, name: string, flags: string, file: File, delivers: bool, renames: bool, minted: nat, fault: Fault,
    f': Folder, v': View, ok: bool)
  {
    var placed := f.(files := PlacedFiles(f.files, name, flags, file, delivers, renames));
    if PlacedOk(flags, delivers, renames) then Refreshed(placed, v, minted, fault, f', v', ok)
    else f' == placed && v' == v && !ok
  }

  lemma PlacedPathFacts(name: string, flags: string)
    requires Deliverable(name)
    ensures Base(PlacedPath(name, flags)) == name && !Hidden(PlacedPath(name, flags).name)
    ensures FlagsOf(PlacedPath(name, flags).name) == Canon(flags)
    ensures PlacedPath(name, flags).sub == if flags == "" then New else Cur
  {
    FileNameRoundTrip(name, flags);
    SepIndexFacts(name);
    if flags == "" {
      PickCongruent(KNOWN, flags, "");
      assert SepIndex(name).None?;
    }
  }

  // ----- what Assign guarantees -----

  /** Every name is assigned in the end, and known names keep their UID. */
  lemma {:induction false} AssignKeys(bases: seq<string>, uids: map<string, nat>, next: nat)
    ensures var a := Assign(bases, uids, next);
      && (forall b :: b in a.uids <==> b in uids || b in bases)
      && (forall b :: b in uids ==> a.uids[b] == uids[b])
  {
    if bases != [] {
      var n := |bases| - 1;
      AssignKeys(bases[..n], uids, next);
      assert bases == bases[..n] + [bases[n]];
    }
  }

  /** The names unknown to uids, in the order they turn up. */
  function NewNames(bases: seq<string>, uids: map<string, nat>): seq<string> {
    if bases == [] then []
    else
      var known, last := NewNames(bases[..|bases| - 1], uids), bases[|bases| - 1];
      if last in uids || last in known then known else known + [last]
  }

  /** names are numbered from next on in a, beside what uids holds. */
  ghost predicate NumbersNew(uids: map<string, nat>, next: nat, names: seq<string>, a: Assignment) {
    && a.next == next + |names| && Distinct(names)
    && (forall i :: 0 <= i < |names| ==> names[i] !in uids && names[i] in a.uids && a.uids[names[i]] == next + i)
    && (forall b :: b in a.uids <==> b in uids || b in names)
    && (forall b :: b in uids ==> a.uids[b] == uids[b])
  }

  lemma NumbersOneMore(uids: map<string, nat>, next: nat, names: seq<string>, a: Assignment, b: string)
    requires NumbersNew(uids, next, names, a) && next + |names| + 1 < TWO32
    ensures NumbersNew(uids, next, if b in uids || b in names then names else names + [b], AssignOne(a, b))
  {
  }

  /** While the counter does not wrap, the unknown names get consecutive UIDs. */
  lemma {:induction false} AssignNumbers(bases: seq<string>, uids: map<string, nat>, next: nat)
    requires next + |bases| < TWO32
    ensures NumbersNew(uids, next, NewNames(bases, uids), Assign(bases, uids, next))
    ensures |NewNames(bases, uids)| <= |bases|
    ensures forall b :: b in NewNames(bases, uids) <==> b in bases && b !in uids
  {
    if bases != [] {
      var n := |bases| - 1;
      assert forall b :: b in bases <==> b in bases[..n] || b == bases[n];
      AssignNumbers(bases[..n], uids, next);
      NumbersOneMore(uids, next, NewNames(bases[..n], uids), Assign(bases[..n], uids, next), bases[n]);
    }
  }

  /** Two maps that agree on the names of a scan lead to assignments that do. */
  lemma {:induction false} AssignAlike(bases: seq<string>, uids: map<string, nat>, others: map<string, nat>, next: nat)
    requires forall b :: b in bases ==> (b in uids <==> b in others) && (b in uids ==> uids[b] == others[b])
    ensures var a, c := Assign(bases, uids, next), Assign(bases, others, next);
      a.next == c.next && forall b :: b in bases ==> b in a.uids && b in c.uids && a.uids[b] == c.uids[b]
  {
    if bases != [] {
      var n := |bases| - 1;
      AssignAlike(bases[..n], uids, others, next);
      AssignKeys(bases[..n], uids, next);
      AssignKeys(bases[..n], others, next);
      assert bases == bases[..n] + [bases[n]];
    }
  }

  // ----- and while the counter does not wrap -----

  ghost predicate UidsBelow(uids: map<string, nat>, next: nat) {
    && (forall b :: b in uids ==> 1 <= uids[b] < next)
    && (forall b, c :: b in uids && c in uids && uids[b] == uids[c] ==> b == c)
  }

  /** a adds UIDs from next on for the names unknown to uids and changes nothing else. */
  ghost predicate Extends(uids: map<string, nat>, next: nat, bases: seq<string>, a: Assignment) {
    && next <= a.next <= next + |bases|
    && UidsBelow(a.uids, a.next)
    && (forall b :: b in uids ==> b in a.uids && a.uids[b] == uids[b])
    && (forall b :: b in a.uids <==> b in uids || b in bases)
    && (forall b :: b in a.uids && b !in uids ==> a.uids[b] >= next)
    && (a.uids == uids ==> a.next == next)
  }

  lemma AssignOneFacts(uids: map<string, nat>, next: nat, bases: seq<string>, a: Assignment, b: string)
    requires 1 <= next && next + |bases| + 1 < TWO32 && Extends(uids, next, bases, a)
    ensures Extends(uids, next, bases + [b], AssignOne(a, b))
  {
    var a' := AssignOne(a, b);
    if b !in a.uids {
      assert a'.next == a.next + 1;
      assert b in a'.uids && b !in uids;
    }
    assert forall c :: c in bases + [b] <==> c in bases || c == b;
  }

  /** Known names keep their UID; unknown ones get distinct UIDs from next on; the new next is above all. */
  lemma {:induction false} AssignFacts(bases: seq<string>, uids: map<string, nat>, next: nat)
    requires 1 <= next && next + |bases| < TWO32 && UidsBelow(uids, next)
    ensures Extends(uids, next, bases, Assign(bases, uids, next))
  {
    if bases != [] {
      var n := |bases| - 1;
      AssignFacts(bases[..n], uids, next);
      AssignOneFacts(uids, next, bases[..n], Assign(bases[..n], uids, next), bases[n]);
      assert bases == bases[..n] + [bases[n]];
    }
  }

  /** Among names unknown before, scan order is UID order. */
  lemma {:induction false} AssignInScanOrder(bases: seq<string>, uids: map<string, nat>, next: nat, i: nat, j: nat)
    requires 1 <= next && next + |bases| < TWO32 && UidsBelow(uids, next)
    requires i < j < |bases| && Distinct(bases)
    requires bases[i] !in uids && bases[j] !in uids
    ensures var a := Assign(bases, uids, next);
      bases[i] in a.uids && bases[j] in a.uids && a.uids[bases[i]] < a.uids[bases[j]]
  {
    var n := |bases| - 1;
    AssignFacts(bases[..n], uids, next);
    var a := Assign(bases[..n], uids, next);
    if j == n {
      assert bases[i] in bases[..n] && bases[j] !in bases[..n];
    } else {
      AssignInScanOrder(bases[..n], uids, next, i, j);
    }
  }
}
