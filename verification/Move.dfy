/** COPY and MOVE: what a client asked to move is neither lost nor duplicated. */
module Move {
  import opened Text
  import opened Sorting
  import opened Flags
  import opened Maildir
  import opened Mailboxes
  import opened ParserCode

  /** What Deliver and the disk contribute to one CopyTo. */
  datatype Env = Env(
    name: string, now: int, delivers: bool, renames: bool, minted: nat, openFault: Fault, minted2: nat, fault: Fault)

  ghost predicate FreshIn(name: string, files: map<Path, File>) {
    Deliverable(name) && forall p :: p in files ==> Base(p) != name
  }

  /** The disk and the destination let the copy through. */
  predicate Smooth(env: Env) { env.delivers && env.renames && env.openFault.NoFault? && env.fault.NoFault? }

  /** What one CopyTo goes through: the destination once it is open, the new mailbox object's state then and at the end. */
  datatype Copying = Copying(begun: Folder, view: View, after: View)

  /** One call of Mailbox.CopyTo into the folder f. */
  ghost predicate CopiedTo(
    source: map<Path, File>, m: Message, f: Folder, env: Env, c: Copying, f': Folder, ok: bool)
  {
    if PathOf(m) !in source then f' == f && !ok
    else exists isOpen :: OpenedFor(f, env, c, isOpen) && AppendedAfter(source[PathOf(m)].data, m, env, c, isOpen, f', ok)
  }

  ghost predicate AppendedAfter(data: string, m: Message, env: Env, c: Copying, isOpen: bool, f': Folder, ok: bool) {
    if isOpen then
      Appended(c.begun, c.view, env.name, m.flags, File(data, m.internal), env.delivers, env.renames, env.minted2, env.fault,
               f', c.after, ok)
    else f' == c.begun && !ok
  }

  ghost predicate OpenedFor(f: Folder, env: Env, c: Copying, isOpen: bool) {
    Refreshed(f, View([], 0, 0), env.minted, env.openFault, c.begun, c.view, isOpen)
  }

  /** Mailbox.CopyTo: read the file, open the destination, append there with the same flags and date. */
  method CopyTo(mb: Mailbox, i: nat, dst: Directory, env: Env) returns (ok: bool, ghost c: Copying)
    requires i < |mb.messages| && FreshIn(env.name, dst.files)
    modifies dst
    ensures ok ==> PathOf(mb.messages[i]) in old(mb.dir.files)
    ensures PathOf(mb.messages[i]) in old(mb.dir.files) && Smooth(env) ==> ok
    ensures ok ==> dst.files == old(dst.files)[PlacedPath(env.name, mb.messages[i].flags) :=
                                  File(old(mb.dir.files)[PathOf(mb.messages[i])].data, mb.messages[i].internal)]
    ensures CopiedTo(old(mb.dir.files), mb.messages[i], old(dst.Now()), env, c, dst.Now(), ok)
    ensures forall p :: p in old(dst.files) ==> p in dst.files && dst.files[p] == old(dst.files)[p]
  {
    hide Refreshed, Appended, Deliverable, RefreshedTo;
    c := Copying(dst.Now(), View([], 0, 0), View([], 0, 0));
    var m := mb.messages[i];
    if PathOf(m) !in mb.dir.files { return false, c; }
    var data := mb.dir.files[PathOf(m)].data;
    var box := new Mailbox(dst);
    var isOpen := box.Refresh(env.minted, env.openFault);
    c := Copying(dst.Now(), box.Now(), View([], 0, 0));
    assert OpenedFor(old(dst.Now()), env, c, isOpen);
    if !isOpen { return false, c; }
    var appended;
    ok, appended := box.Append(data, m.flags, Some(m.internal), env.name, env.now, env.delivers, env.renames, env.minted2, env.fault);
    c := c.(after := box.Now());
    assert OpenedFor(old(dst.Now()), env, c, true);
  }

  // ----- the messages of a command -----

  /** Positions in the snapshot, ascending. */
  ghost predicate Positions(selected: seq<nat>, n: nat) {
    && (forall k :: 0 <= k < |selected| ==> selected[k] < n)
    && (forall j, k :: 0 <= j < k < |selected| ==> selected[j] < selected[k])
  }

  /** The number a sequence set speaks about: the UID, or the sequence number. */
  function NumberOf(m: Message, uidMode: bool): nat { if uidMode then m.uid else m.seqNum }

  /** What "*" means: the UID of the last message, or the number of messages. */
  function Highest(messages: seq<Message>, uidMode: bool): nat {
    if !uidMode then |messages| else if messages == [] then 0 else messages[|messages| - 1].uid
  }

  /** session.selected: the positions whose number the set covers, in snapshot order. */
  method Select(messages: seq<Message>, set_: seq<Range>, uidMode: bool) returns (selected: seq<nat>)
    ensures Positions(selected, |messages|)
    ensures forall i :: 0 <= i < |messages| ==> (i in selected <==>
      exists k :: 0 <= k < |set_| && Covers(set_[k], NumberOf(messages[i], uidMode), Highest(messages, uidMode)))
  {
    selected := [];
    var max := Highest(messages, uidMode);
    for i := 0 to |messages|
      invariant Positions(selected, i)
      invariant forall j :: 0 <= j < i ==> (j in selected <==>
        exists k :: 0 <= k < |set_| && Covers(set_[k], NumberOf(messages[j], uidMode), max))
    {
      var hit := Contains(set_, NumberOf(messages[i], uidMode), max);
      if hit { selected := selected + [i]; }
    }
  }

  ghost predicate DistinctNames(messages: seq<Message>) {
    forall i, j :: 0 <= i < j < |messages| ==> BaseName(messages[i].name) != BaseName(messages[j].name)
  }

  /** A snapshot of distinct messages with well-formed flags, as Refresh builds it. */
  ghost predicate GoodSnapshot(messages: seq<Message>) {
    && Numbered(messages)
    && (forall i :: 0 <= i < |messages| ==> FlagsTold(messages[i]))
    && DistinctNames(messages)
  }

  /** Every snapshot Refresh takes of a folder with unique base names is good. */
  lemma RefreshGivesGoodSnapshot(files: map<Path, File>, uids: map<string, nat>, messages: seq<Message>)
    requires UniqueBases(files) && Snapshot(files, uids, messages)
    ensures GoodSnapshot(messages)
  {
    forall i | 0 <= i < |messages| ensures FlagsTold(messages[i]) && messages[i].seqNum == i + 1 {
      assert Matches(files, uids, messages[i], i + 1);
    }
    forall i, j | 0 <= i < j < |messages| ensures BaseName(messages[i].name) != BaseName(messages[j].name) {
      assert Matches(files, uids, messages[i], i + 1) && Matches(files, uids, messages[j], j + 1);
      assert Base(PathOf(messages[i])) != Base(PathOf(messages[j]));
    }
  }

  /** Deliver never repeats a name: not one in the folder, not one of the snapshot, not its own. */
  ghost predicate FreshNames(envs: seq<Env>, files: map<Path, File>, messages: seq<Message>) {
    && (forall k :: 0 <= k < |envs| ==> FreshIn(envs[k].name, files))
    && (forall k, i :: 0 <= k < |envs| && 0 <= i < |messages| ==> envs[k].name != BaseName(messages[i].name))
    && (forall j, k :: 0 <= j < k < |envs| ==> envs[j].name != envs[k].name)
  }

  function CopyPath(m: Message, env: Env): Path { PlacedPath(env.name, m.flags) }

  /** The k-th selected message has its copy: same bytes, same date, the flags it had. */
  ghost predicate Copied(
    messages: seq<Message>, selected: seq<nat>, envs: seq<Env>, source: map<Path, File>, files: map<Path, File>, k: nat)
    requires k < |selected| <= |envs| && selected[k] < |messages|
  {
    var m := messages[selected[k]];
    && PathOf(m) in source && CopyPath(m, envs[k]) in files
    && files[CopyPath(m, envs[k])] == File(source[PathOf(m)].data, m.internal)
    && FlagsOf(CopyPath(m, envs[k]).name) == Canon(m.flags)
  }

  ghost predicate Preserved(before: map<Path, File>, after: map<Path, File>) {
    forall p :: p in before ==> p in after && after[p] == before[p]
  }

  /** The destination folder between the copies of a command, and what each copy went through. */
  datatype Copies = Copies(folders: seq<Folder>, steps: seq<Copying>)

  /** One CopyTo after the other. */
  ghost predicate CopyTrace(messages: seq<Message>, selected: seq<nat>, envs: seq<Env>, cs: Copies)
    requires Positions(selected, |messages|)
  {
    && |cs.folders| == |cs.steps| + 1 && |cs.steps| <= |selected| && |selected| <= |envs|
    && forall k :: 0 <= k < |cs.steps| ==> CopyAt(messages, selected, envs, cs, k)
  }

  ghost predicate CopyAt(messages: seq<Message>, selected: seq<nat>, envs: seq<Env>, cs: Copies, k: nat)
    requires Positions(selected, |messages|) && k < |selected| && k < |envs| && k + 1 < |cs.folders| && k < |cs.steps|
  {
    CopyStep(messages[selected[k]], cs.folders[k], envs[k], cs.steps[k], cs.folders[k + 1])
  }

  ghost predicate CopyStep(m: Message, f: Folder, env: Env, c: Copying, f': Folder) {
    exists source: map<Path, File>, ok: bool :: CopiedTo(source, m, f, env, c, f', ok)
  }

  lemma TraceOneMore(
    messages: seq<Message>, selected: seq<nat>, envs: seq<Env>, cs: Copies, source: map<Path, File>, c: Copying, f': Folder,
    ok: bool)
    requires Positions(selected, |messages|) && CopyTrace(messages, selected, envs, cs) && |cs.steps| < |selected|
    requires CopiedTo(source, messages[selected[|cs.steps|]], cs.folders[|cs.steps|], envs[|cs.steps|], c, f', ok)
    ensures CopyTrace(messages, selected, envs, Copies(cs.folders + [f'], cs.steps + [c]))
  {
    var more := Copies(cs.folders + [f'], cs.steps + [c]);
    assert CopyStep(messages[selected[|cs.steps|]], cs.folders[|cs.steps|], envs[|cs.steps|], c, f');
    forall k | 0 <= k < |more.steps| ensures CopyAt(messages, selected, envs, more, k) {
      if k < |cs.steps| { assert CopyAt(messages, selected, envs, cs, k); }
    }
  }

  /** The copy loop. It adds files and disturbs none, whether or not it finishes. */
  method CopyAll(mb: Mailbox, selected: seq<nat>, dst: Directory, envs: seq<Env>) returns (ok: bool, ghost cs: Copies)
    requires Positions(selected, |mb.messages|) && |envs| == |selected| && FreshNames(envs, dst.files, mb.messages)
    modifies dst
    ensures Preserved(old(dst.files), dst.files)
    ensures ok ==> forall k :: 0 <= k < |selected| ==>
      Copied(mb.messages, selected, envs, old(mb.dir.files), dst.files, k)
    ensures ok ==> forall p :: p in dst.files && p !in old(dst.files) ==>
      exists k :: 0 <= k < |selected| && p == CopyPath(mb.messages[selected[k]], envs[k])
    ensures AllOnDisk(mb.messages, selected, old(mb.dir.files)) && (forall k :: 0 <= k < |envs| ==> Smooth(envs[k])) ==> ok
    ensures CopyTrace(mb.messages, selected, envs, cs)
    ensures cs.folders[0] == old(dst.Now()) && cs.folders[|cs.steps|] == dst.Now()
  {
    hide CopiedTo, CopyTrace;
    ghost var source, before := mb.dir.files, dst.files;
    cs := Copies([dst.Now()], []);
    EmptyTrace(mb.messages, selected, envs, dst.Now());
    for i := 0 to |selected|
      invariant CopyTrace(mb.messages, selected, envs, cs) && |cs.steps| == i && |cs.folders| == i + 1
      invariant cs.folders[0] == old(dst.Now()) && cs.folders[i] == dst.Now()
      invariant Preserved(before, dst.files) && (dst != mb.dir ==> mb.dir.files == source)
      invariant forall k :: 0 <= k < i ==> Copied(mb.messages, selected, envs, source, dst.files, k)
      invariant forall p :: p in dst.files && p !in before ==>
        exists k :: 0 <= k < i && p == CopyPath(mb.messages[selected[k]], envs[k])
    {
      ghost var m, files := mb.messages[selected[i]], dst.files;
      StillFresh(mb.messages, selected, envs, before, files, i);
      assert selected[i] in selected;
      ghost var c, from := cs.steps, mb.dir.files;
      ghost var step;
      ok, step := CopyTo(mb, selected[i], dst, envs[i]);
      TraceOneMore(mb.messages, selected, envs, cs, from, step, dst.Now(), ok);
      cs := Copies(cs.folders + [dst.Now()], c + [step]);
      if !ok { return false, cs; }
      CopyIsNew(envs[i].name, m.flags, files);
      CopyOneMore(mb.messages, selected, envs, source, before, files, i, dst.files);
    }
    ok := true;
  }

  lemma EmptyTrace(messages: seq<Message>, selected: seq<nat>, envs: seq<Env>, f: Folder)
    requires Positions(selected, |messages|) && |selected| <= |envs|
    ensures CopyTrace(messages, selected, envs, Copies([f], []))
  {
  }

  lemma CopyIsNew(name: string, flags: string, files: map<Path, File>)
    requires FreshIn(name, files)
    ensures PlacedPath(name, flags) !in files && Base(PlacedPath(name, flags)) == name
    ensures FlagsOf(PlacedPath(name, flags).name) == Canon(flags)
  {
    PlacedPathFacts(name, flags);
  }

  lemma StillFresh(
    messages: seq<Message>, selected: seq<nat>, envs: seq<Env>, before: map<Path, File>, files: map<Path, File>, i: nat)
    requires Positions(selected, |messages|) && |envs| == |selected| && FreshNames(envs, before, messages) && i < |selected|
    requires forall p :: p in files && p !in before ==>
      exists k :: 0 <= k < i && p == CopyPath(messages[selected[k]], envs[k])
    ensures FreshIn(envs[i].name, files)
    ensures PathOf(messages[selected[i]]) in files ==> PathOf(messages[selected[i]]) in before
  {
    forall p | p in files && p !in before ensures Base(p) != envs[i].name && p != PathOf(messages[selected[i]]) {
      var k :| 0 <= k < i && p == CopyPath(messages[selected[k]], envs[k]);
      PlacedPathFacts(envs[k].name, messages[selected[k]].flags);
    }
  }

  lemma CopyOneMore(
    messages: seq<Message>, selected: seq<nat>, envs: seq<Env>, source: map<Path, File>, before: map<Path, File>,
    files: map<Path, File>, i: nat, files': map<Path, File>)
    requires Positions(selected, |messages|) && |envs| == |selected| && i < |selected|
    requires Preserved(before, files)
    requires forall k :: 0 <= k < i ==> Copied(messages, selected, envs, source, files, k)
    requires forall p :: p in files && p !in before ==>
      exists k :: 0 <= k < i && p == CopyPath(messages[selected[k]], envs[k])
    requires var c := CopyPath(messages[selected[i]], envs[i]);
      && PathOf(messages[selected[i]]) in source && c !in files
      && FlagsOf(c.name) == Canon(messages[selected[i]].flags)
      && files' == files[c := File(source[PathOf(messages[selected[i]])].data, messages[selected[i]].internal)]
    ensures Preserved(before, files')
    ensures forall k :: 0 <= k <= i ==> Copied(messages, selected, envs, source, files', k)
    ensures forall p :: p in files' && p !in before ==>
      exists k :: 0 <= k <= i && p == CopyPath(messages[selected[k]], envs[k])
  {
    forall p | p in files' && p !in before
      ensures exists k :: 0 <= k <= i && p == CopyPath(messages[selected[k]], envs[k])
    {
      if p in files {
        var k :| 0 <= k < i && p == CopyPath(messages[selected[k]], envs[k]);
      }
    }
    forall k | 0 <= k < i ensures Copied(messages, selected, envs, source, files', k) {
      assert Copied(messages, selected, envs, source, files, k);
    }
  }

  // ----- marking and expunging the originals -----

  function Doomed(m: Message): Message { Flagged(m, Canon(m.flags + [DELETED])) }

  lemma DoomedFacts(m: Message)
    ensures IsDeleted(Doomed(m)) && BaseName(Doomed(m).name) == BaseName(m.name)
    ensures PathOf(Doomed(m)) == FlaggedPath(m, Canon(m.flags + [DELETED]))
  {
    PickMembers(KNOWN, m.flags + [DELETED]);
    BaseNameNoSep(m.name);
    FileNameRoundTrip(BaseName(m.name), Canon(m.flags + [DELETED]));
  }

  /** after is before with the messages at the given positions flagged Deleted. */
  ghost predicate Marked(before: seq<Message>, marked: seq<nat>, after: seq<Message>) {
    |after| == |before| &&
    forall i :: 0 <= i < |before| ==> after[i] == if i in marked then Doomed(before[i]) else before[i]
  }

  ghost predicate Involves(messages: seq<Message>, marked: seq<nat>, b: string) {
    exists i :: i in marked && 0 <= i < |messages| && BaseName(messages[i].name) == b
  }

  /** Marking renames the files of the marked messages and touches no other. */
  ghost predicate OthersUntouched(before: seq<Message>, marked: seq<nat>, files: map<Path, File>, files': map<Path, File>) {
    forall p :: p in files && !Involves(before, marked, Base(p)) ==> p in files' && files'[p] == files[p]
  }

  ghost predicate AllOnDisk(messages: seq<Message>, positions: seq<nat>, files: map<Path, File>) {
    forall i :: i in positions && 0 <= i < |messages| ==> PathOf(messages[i]) in files
  }

  lemma MarkOne(files: map<Path, File>, m: Message, files': map<Path, File>)
    requires UniqueBases(files) && PathOf(m) in files
    requires files' == if PathOf(m) == PathOf(Doomed(m)) then files else Rename(files, PathOf(m), PathOf(Doomed(m)))
    ensures UniqueBases(files') && PathOf(Doomed(m)) in files'
    ensures forall p :: p in files && Base(p) != BaseName(m.name) ==> p in files' && files'[p] == files[p]
  {
    DoomedFacts(m);
    assert Base(PathOf(m)) == Base(PathOf(Doomed(m)));
  }

  /** The folder and the mailbox object at one moment. */
  datatype Snap = Snap(folder: Folder, view: View)

  /** One SetFlags or Expunge after the other. */
  ghost predicate SnapTrace(snaps: seq<Snap>) { |snaps| > 0 && forall k :: 0 <= k < |snaps| - 1 ==> SnapAt(snaps, k) }

  ghost predicate SnapAt(snaps: seq<Snap>, k: nat)
    requires k < |snaps| - 1
  {
    FlagStep(snaps[k], snaps[k + 1]) || ExpungeStep(snaps[k], snaps[k + 1])
  }

  ghost predicate FlagStep(s: Snap, s': Snap) {
    exists i: nat, flags: string, ok: bool ::
      i < |s.view.messages| && FlagsSet(s.folder, s.view, i, flags, s'.folder, s'.view, ok)
  }

  ghost predicate ExpungeStep(s: Snap, s': Snap) {
    exists seqs: seq<nat>, ok: bool :: Expunged(s.folder, s.view, s'.folder, s'.view, seqs, ok)
  }

  lemma SnapOneMore(snaps: seq<Snap>, s': Snap)
    requires SnapTrace(snaps) && (FlagStep(snaps[|snaps| - 1], s') || ExpungeStep(snaps[|snaps| - 1], s'))
    ensures SnapTrace(snaps + [s'])
  {
    forall k | 0 <= k < |snaps| ensures SnapAt(snaps + [s'], k) {
      if k < |snaps| - 1 { assert SnapAt(snaps, k); }
    }
  }

  /** SetFlags as one more step of a trace. */
  method FlagOnce(mb: Mailbox, i: nat, flags: string, diskOk: bool, ghost snaps: seq<Snap>) returns (ok: bool, ghost more: seq<Snap>)
    requires i < |mb.messages| && |snaps| > 0 && SnapTrace(snaps) && snaps[|snaps| - 1] == Snap(mb.dir.Now(), mb.Now())
    modifies mb`messages, mb.dir`files
    ensures FlagsSet(old(mb.dir.Now()), old(mb.Now()), i, flags, mb.dir.Now(), mb.Now(), ok)
    ensures diskOk && old(PathOf(mb.messages[i]) in mb.dir.files) ==> ok
    ensures |more| > 0 && SnapTrace(more) && more[0] == snaps[0] && more[|more| - 1] == Snap(mb.dir.Now(), mb.Now())
  {
    hide FlagsSet, SnapTrace;
    ok := mb.SetFlags(i, flags, diskOk);
    ghost var s' := Snap(mb.dir.Now(), mb.Now());
    FlagStepOf(snaps[|snaps| - 1], i, flags, s', ok);
    SnapOneMore(snaps, s');
    more := snaps + [s'];
  }

  lemma FlagStepOf(s: Snap, i: nat, flags: string, s': Snap, ok: bool)
    requires i < |s.view.messages| && FlagsSet(s.folder, s.view, i, flags, s'.folder, s'.view, ok)
    ensures FlagStep(s, s')
  {
  }

  lemma ExpungeStepOf(s: Snap, s': Snap, seqs: seq<nat>, ok: bool)
    requires Expunged(s.folder, s.view, s'.folder, s'.view, seqs, ok)
    ensures ExpungeStep(s, s')
  {
  }

  /** The first k selected messages are marked, and nothing else has changed. */
  ghost predicate MarkedFirst(
    before: seq<Message>, selected: seq<nat>, k: nat, files: map<Path, File>, messages: seq<Message>, now: map<Path, File>)
    requires k <= |selected|
  {
    && Marked(before, selected[..k], messages) && UniqueBases(now)
    && AllOnDisk(messages, selected, now) && OthersUntouched(before, selected[..k], files, now)
  }

  lemma MarkedFirstStep(
    before: seq<Message>, selected: seq<nat>, k: nat, files: map<Path, File>, f: Folder, v: View, f': Folder, v': View)
    requires Positions(selected, |before|) && GoodSnapshot(before) && k < |selected|
    requires MarkedFirst(before, selected, k, files, v.messages, f.files)
    requires selected[k] < |v.messages|
    requires FlagsSet(f, v, selected[k], Canon(v.messages[selected[k]].flags + [DELETED]), f', v', true)
    ensures MarkedFirst(before, selected, k + 1, files, v'.messages, f'.files)
  {
    assert selected[k] in selected;
    StillUnmarked(before, selected, k, v.messages);
    MarkOne(f.files, before[selected[k]], f'.files);
    MarkStep(before, selected, k, files, v.messages, f.files, v'.messages, f'.files);
  }

  /** What the next message to mark looks like. */
  lemma NextToMark(
    before: seq<Message>, selected: seq<nat>, k: nat, files: map<Path, File>, messages: seq<Message>, now: map<Path, File>)
    requires Positions(selected, |before|) && GoodSnapshot(before) && k < |selected|
    requires MarkedFirst(before, selected, k, files, messages, now)
    ensures selected[k] < |messages| && Canonical(messages[selected[k]].flags) && PathOf(messages[selected[k]]) in now
  {
    assert selected[k] in selected;
    StillUnmarked(before, selected, k, messages);
    FlagsOfCanonical(messages[selected[k]].name);
  }

  method MarkAll(mb: Mailbox, selected: seq<nat>, diskOk: nat -> bool) returns (ok: bool, ghost snaps: seq<Snap>)
    requires Positions(selected, |mb.messages|) && GoodSnapshot(mb.messages) && UniqueBases(mb.dir.files)
    requires AllOnDisk(mb.messages, selected, mb.dir.files)
    modifies mb`messages, mb.dir`files
    ensures ok ==> Marked(old(mb.messages), selected, mb.messages) && UniqueBases(mb.dir.files)
    ensures ok ==> AllOnDisk(mb.messages, selected, mb.dir.files)
    ensures OthersUntouched(old(mb.messages), selected, old(mb.dir.files), mb.dir.files)
    ensures GoodSnapshot(mb.messages)
    ensures (forall k :: diskOk(k)) ==> ok
    ensures |snaps| > 0 && SnapTrace(snaps) && snaps[0] == Snap(old(mb.dir.Now()), old(mb.Now()))
    ensures snaps[|snaps| - 1] == Snap(mb.dir.Now(), mb.Now())
  {
    hide SnapTrace, MarkedFirst, FlagsSet, GoodSnapshot, UniqueBases, AllOnDisk, OthersUntouched, Marked;
    ghost var before, files := mb.messages, mb.dir.files;
    snaps := [Snap(mb.dir.Now(), mb.Now())];
    OneSnap(snaps[0]);
    NoneMarked(before, selected, files);
    for k := 0 to |selected|
      invariant MarkedFirst(before, selected, k, files, mb.messages, mb.dir.files)
      invariant |snaps| > 0 && SnapTrace(snaps) && snaps[0] == Snap(old(mb.dir.Now()), old(mb.Now()))
      invariant snaps[|snaps| - 1] == Snap(mb.dir.Now(), mb.Now())
    {
      ghost var f, v := mb.dir.Now(), mb.Now();
      NextToMark(before, selected, k, files, mb.messages, mb.dir.files);
      SoFar(before, selected, k, files, mb.messages, mb.dir.files);
      var flags := Add(mb.messages[selected[k]].flags, DELETED);
      ok, snaps := FlagOnce(mb, selected[k], flags, diskOk(k), snaps);
      if !ok {
        FailedChangesNothing(f, v, selected[k], flags, mb.dir.Now(), mb.Now());
        return false, snaps;
      }
      MarkedFirstStep(before, selected, k, files, f, v, mb.dir.Now(), mb.Now());
    }
    SoFar(before, selected, |selected|, files, mb.messages, mb.dir.files);
    ok := true;
  }

  lemma NoneMarked(before: seq<Message>, selected: seq<nat>, files: map<Path, File>)
    requires UniqueBases(files) && AllOnDisk(before, selected, files)
    ensures MarkedFirst(before, selected, 0, files, before, files)
  {
  }

  lemma FailedChangesNothing(f: Folder, v: View, i: nat, flags: string, f': Folder, v': View)
    requires i < |v.messages| && FlagsSet(f, v, i, flags, f', v', false)
    ensures f' == f && v' == v
  {
  }

  /** Whenever the marking stops, what it has done so far is safe. */
  lemma SoFar(
    before: seq<Message>, selected: seq<nat>, k: nat, files: map<Path, File>, messages: seq<Message>, now: map<Path, File>)
    requires k <= |selected| && GoodSnapshot(before) && MarkedFirst(before, selected, k, files, messages, now)
    ensures GoodSnapshot(messages) && OthersUntouched(before, selected, files, now)
    ensures k == |selected| ==> Marked(before, selected, messages) && AllOnDisk(messages, selected, now) && UniqueBases(now)
  {
    MarkedSoFar(before, selected, k, files, messages, now);
    assert selected[..|selected|] == selected;
  }

  lemma OneSnap(s: Snap)
    ensures SnapTrace([s])
  {
  }

  /** Whenever the marking stops, the snapshot is good and only selected messages' files were touched. */
  lemma MarkedSoFar(
    before: seq<Message>, selected: seq<nat>, k: nat, files: map<Path, File>, messages: seq<Message>, now: map<Path, File>)
    requires k <= |selected| && GoodSnapshot(before) && Marked(before, selected[..k], messages)
    requires OthersUntouched(before, selected[..k], files, now)
    ensures GoodSnapshot(messages) && OthersUntouched(before, selected, files, now)
  {
    MarkedIsGood(before, selected[..k], messages);
    forall p | p in files && !Involves(before, selected, Base(p)) ensures p in now && now[p] == files[p] {
      assert forall i :: i in selected[..k] ==> i in selected;
    }
  }

  lemma MarkedIsGood(before: seq<Message>, marked: seq<nat>, messages: seq<Message>)
    requires GoodSnapshot(before) && Marked(before, marked, messages)
    ensures GoodSnapshot(messages)
  {
    forall i | 0 <= i < |before|
      ensures BaseName(messages[i].name) == BaseName(before[i].name) && messages[i].seqNum == i + 1 && FlagsTold(messages[i])
    {
      CanonIdempotent(before[i].flags + [DELETED]);
      FlaggedIsTold(before[i], Canon(before[i].flags + [DELETED]));
    }
  }

  lemma StillUnmarked(before: seq<Message>, selected: seq<nat>, k: nat, messages: seq<Message>)
    requires Positions(selected, |before|) && k < |selected| && Marked(before, selected[..k], messages)
    ensures messages[selected[k]] == before[selected[k]]
  {
    assert selected[k] !in selected[..k];
  }

  lemma MarkStep(
    before: seq<Message>, selected: seq<nat>, k: nat, files: map<Path, File>,
    messages: seq<Message>, now: map<Path, File>, messages': seq<Message>, now': map<Path, File>)
    requires Positions(selected, |before|) && GoodSnapshot(before) && k < |selected|
    requires Marked(before, selected[..k], messages) && AllOnDisk(messages, selected, now)
    requires OthersUntouched(before, selected[..k], files, now)
    requires var i := selected[k];
      messages' == messages[i := Doomed(before[i])] && PathOf(Doomed(before[i])) in now'
    requires forall p :: p in now && Base(p) != BaseName(before[selected[k]].name) ==> p in now' && now'[p] == now[p]
    ensures Marked(before, selected[..k + 1], messages')
    ensures AllOnDisk(messages', selected, now')
    ensures OthersUntouched(before, selected[..k + 1], files, now')
  {
    var i := selected[k];
    assert selected[..k + 1] == selected[..k] + [i];
    forall j | j in selected && 0 <= j < |messages'| ensures PathOf(messages'[j]) in now' {
      if j != i {
        DoomedFacts(before[j]);
        assert Base(PathOf(messages[j])) == BaseName(before[j].name) != BaseName(before[i].name);
      }
    }
    forall p | p in files && !Involves(before, selected[..k + 1], Base(p)) ensures p in now' && now'[p] == files[p] {
      assert i in selected[..k + 1];
      assert forall j :: j in selected[..k] ==> j in selected[..k + 1];
    }
  }

  // ----- MOVE -----

  /** Copies have new base names, so base names stay unique. */
  lemma CopiesKeepUnique(
    messages: seq<Message>, selected: seq<nat>, envs: seq<Env>, before: map<Path, File>, files: map<Path, File>)
    requires Positions(selected, |messages|) && |envs| == |selected| && FreshNames(envs, before, messages)
    requires UniqueBases(before)
    requires forall p :: p in files && p !in before ==>
      exists k :: 0 <= k < |selected| && p == CopyPath(messages[selected[k]], envs[k])
    ensures UniqueBases(files)
  {
    forall p, q | p in files && q in files && Base(p) == Base(q) ensures p == q {
      if p !in before {
        var k :| 0 <= k < |selected| && p == CopyPath(messages[selected[k]], envs[k]);
        CopyIsNew(envs[k].name, messages[selected[k]].flags, before);
        SameCopy(messages, selected, envs, before, k, q);
      } else if q !in before {
        var k :| 0 <= k < |selected| && q == CopyPath(messages[selected[k]], envs[k]);
        CopyIsNew(envs[k].name, messages[selected[k]].flags, before);
      }
    }
  }

  lemma SameCopy(messages: seq<Message>, selected: seq<nat>, envs: seq<Env>, before: map<Path, File>, k: nat, q: Path)
    requires Positions(selected, |messages|) && |envs| == |selected| && FreshNames(envs, before, messages) && k < |selected|
    requires Base(q) == envs[k].name
    requires q in before || exists j :: 0 <= j < |selected| && q == CopyPath(messages[selected[j]], envs[j])
    ensures q == CopyPath(messages[selected[k]], envs[k])
  {
    var j :| 0 <= j < |selected| && q == CopyPath(messages[selected[j]], envs[j]);
    CopyIsNew(envs[j].name, messages[selected[j]].flags, before);
  }

  /** Every selected message has left the source. */
  ghost predicate SourcesGone(messages: seq<Message>, selected: seq<nat>, files: map<Path, File>) {
    forall p :: p in files ==> !Involves(messages, selected, Base(p))
  }

  /** Every file that is neither a selected message's nor one the snapshot had flagged Deleted is as before. */
  ghost predicate RestStays(messages: seq<Message>, selected: seq<nat>, before: map<Path, File>, after: map<Path, File>) {
    forall p :: p in before && !Involves(messages, selected, Base(p)) && p !in DeletedPaths(messages) ==>
      p in after && after[p] == before[p]
  }

  /** The date and size m shows are those of its file. */
  ghost predicate DatedAs(files: map<Path, File>, m: Message)
    requires PathOf(m) in files
  {
    m.internal == files[PathOf(m)].mtime && m.size == |files[PathOf(m)].data|
  }

  /** The snapshot shows the dates and sizes of its files, as Refresh leaves it. */
  ghost predicate Dated(files: map<Path, File>, messages: seq<Message>) {
    forall i :: 0 <= i < |messages| && PathOf(messages[i]) in files ==> DatedAs(files, messages[i])
  }

  /** Every selected message has a copy with the bytes and the date of its file and the flags of its file name. */
  ghost predicate TrueCopies(messages: seq<Message>, selected: seq<nat>, source: map<Path, File>, target: map<Path, File>)
    requires Positions(selected, |messages|)
  {
    forall k :: 0 <= k < |selected| ==> TrueCopy(messages[selected[k]], source, target)
  }

  ghost predicate TrueCopy(m: Message, source: map<Path, File>, target: map<Path, File>) {
    var p := Path(m.sub, m.name);
    p in source && exists q :: q in target && target[q] == source[p] && FlagsOf(q.name) == FlagsOf(p.name)
  }

  /** From a snapshot that is right about its files, what is copied is the file itself. */
  lemma CopiesAreTrue(
    messages: seq<Message>, selected: seq<nat>, envs: seq<Env>, source: map<Path, File>, target: map<Path, File>)
    requires Positions(selected, |messages|) && |envs| == |selected| && GoodSnapshot(messages) && Dated(source, messages)
    requires forall k :: 0 <= k < |selected| ==> Copied(messages, selected, envs, source, target, k)
    ensures TrueCopies(messages, selected, source, target)
  {
    forall k | 0 <= k < |selected| ensures TrueCopy(messages[selected[k]], source, target) {
      var m := messages[selected[k]];
      assert Copied(messages, selected, envs, source, target, k) && FlagsTold(m);
      FlagsOfCanonical(m.name);
      var q := CopyPath(m, envs[k]);
      assert DatedAs(source, m);
      assert q in target && target[q] == source[PathOf(m)] && FlagsOf(q.name) == FlagsOf(m.name);
    }
  }

  /** Every selected message has its copy and has left the source; the rest of the source is as it was. */
  ghost predicate Conserved(
    messages: seq<Message>, selected: seq<nat>, envs: seq<Env>, before: map<Path, File>, after: map<Path, File>,
    target: map<Path, File>)
    requires Positions(selected, |messages|) && |envs| == |selected|
  {
    && (forall k :: 0 <= k < |selected| ==> Copied(messages, selected, envs, before, target, k))
    && SourcesGone(messages, selected, after) && RestStays(messages, selected, before, after)
  }

  /** The new snapshot: the unselected messages not flagged Deleted, same UIDs and names, renumbered. */
  ghost predicate SnapshotKept(messages: seq<Message>, selected: seq<nat>, messages': seq<Message>) {
    && (forall i :: 0 <= i < |messages| && i !in selected && !IsDeleted(messages[i]) ==>
         exists j :: 0 <= j < |messages'| && messages'[j] == messages[i].(seqNum := j + 1))
    && (forall j :: 0 <= j < |messages'| ==> SurvivorOf(messages, selected, messages'[j], j))
  }

  ghost predicate SurvivorOf(messages: seq<Message>, selected: seq<nat>, m: Message, j: nat) {
    exists i :: 0 <= i < |messages| && i !in selected && !IsDeleted(messages[i]) && m == messages[i].(seqNum := j + 1)
  }

  /** However far the removal gets, it takes only files of marked or already Deleted messages. */
  lemma ExpungeSparesRest(
    messages: seq<Message>, selected: seq<nat>, marked: seq<Message>, files: map<Path, File>, before: map<Path, File>,
    gone: set<Path>)
    requires Marked(messages, selected, marked) && OthersUntouched(messages, selected, before, files)
    requires gone <= DeletedPaths(marked)
    ensures RestStays(messages, selected, before, files - gone)
  {
    forall p | p in before && !Involves(messages, selected, Base(p)) && p !in DeletedPaths(messages)
      ensures p !in DeletedPaths(marked)
    {
      forall i | 0 <= i < |marked| && IsDeleted(marked[i]) ensures PathOf(marked[i]) != p {
        DoomedFacts(messages[i]);
        if i in selected { assert Base(PathOf(marked[i])) == BaseName(messages[i].name); }
      }
    }
  }

  lemma ExpungeRemovesMarked(
    messages: seq<Message>, selected: seq<nat>, marked: seq<Message>, files: map<Path, File>, before: map<Path, File>)
    requires Marked(messages, selected, marked) && AllOnDisk(marked, selected, files) && UniqueBases(files)
    requires OthersUntouched(messages, selected, before, files)
    ensures SourcesGone(messages, selected, files - DeletedPaths(marked))
    ensures RestStays(messages, selected, before, files - DeletedPaths(marked))
  {
    ExpungeSparesRest(messages, selected, marked, files, before, DeletedPaths(marked));
    forall p | p in files - DeletedPaths(marked) ensures !Involves(messages, selected, Base(p)) {
      forall i | i in selected && 0 <= i < |messages| ensures BaseName(messages[i].name) != Base(p) {
        DoomedFacts(messages[i]);
        assert PathOf(marked[i]) in files && PathOf(marked[i]) in DeletedPaths(marked);
        assert Base(PathOf(marked[i])) == BaseName(messages[i].name);
      }
    }
  }

  /** The snapshot and the reported numbers are those of flagging the selected messages and expunging. */
  ghost predicate MarkedAndExpunged(messages: seq<Message>, selected: seq<nat>, seqs: seq<nat>, messages': seq<Message>) {
    exists marked :: Marked(messages, selected, marked) && ExpungeNumbers(marked, seqs)
      && messages' == if seqs == [] then marked else Renumber(Kept(marked))
  }

  lemma MarkedDeleted(messages: seq<Message>, selected: seq<nat>, marked: seq<Message>)
    requires Numbered(messages) && Marked(messages, selected, marked)
    ensures Numbered(marked)
    ensures forall i :: 0 <= i < |messages| ==> (IsDeleted(marked[i]) <==> i in selected || IsDeleted(messages[i]))
  {
    forall i | 0 <= i < |messages|
      ensures IsDeleted(marked[i]) <==> i in selected || IsDeleted(messages[i])
      ensures marked[i].seqNum == i + 1
    {
      DoomedFacts(messages[i]);
    }
  }

  /** What is reported and what stays after flagging the selected messages and expunging. */
  ghost predicate MoveShown(messages: seq<Message>, selected: seq<nat>, seqs: seq<nat>, messages': seq<Message>) {
    && SnapshotKept(messages, selected, messages') && StrictlyDescending(seqs)
    && forall k :: k in seqs <==> 1 <= k <= |messages| && (k - 1 in selected || IsDeleted(messages[k - 1]))
  }

  lemma MovedNumbers(messages: seq<Message>, selected: seq<nat>, marked: seq<Message>, seqs: seq<nat>)
    requires Numbered(messages) && Marked(messages, selected, marked) && ExpungeNumbers(marked, seqs)
    ensures StrictlyDescending(seqs)
    ensures forall k :: k in seqs <==> 1 <= k <= |messages| && (k - 1 in selected || IsDeleted(messages[k - 1]))
  {
    hide ExpungeNumbers, IsDeleted;
    MarkedDeleted(messages, selected, marked);
    ExpungeNumbersDescend(marked, seqs);
  }

  lemma KeptAfter(marked: seq<Message>, seqs: seq<nat>, messages': seq<Message>)
    requires Numbered(marked) && ExpungeNumbers(marked, seqs)
    requires messages' == if seqs == [] then marked else Renumber(Kept(marked))
    ensures messages' == Renumber(Kept(marked))
  {
    hide ExpungeNumbers;
    ExpungeNumbersDescend(marked, seqs);
    if seqs == [] { NothingDeleted(marked); }
  }

  lemma ExpungeKeepsRest(
    messages: seq<Message>, selected: seq<nat>, marked: seq<Message>, seqs: seq<nat>, messages': seq<Message>)
    requires Numbered(messages) && Marked(messages, selected, marked) && ExpungeNumbers(marked, seqs)
    requires messages' == if seqs == [] then marked else Renumber(Kept(marked))
    ensures MoveShown(messages, selected, seqs, messages')
  {
    hide ExpungeNumbers, IsDeleted, Kept, Numbered, Marked, SnapshotKept;
    MovedNumbers(messages, selected, marked, seqs);
    MarkedDeleted(messages, selected, marked);
    KeptAfter(marked, seqs, messages');
    KeptIsRest(messages, selected, marked);
  }

  lemma KeptIsRest(messages: seq<Message>, selected: seq<nat>, marked: seq<Message>)
    requires Marked(messages, selected, marked)
    requires forall i :: 0 <= i < |messages| ==> (IsDeleted(marked[i]) <==> i in selected || IsDeleted(messages[i]))
    ensures SnapshotKept(messages, selected, Renumber(Kept(marked)))
  {
    var kept := Kept(marked);
    KeptMembers(marked);
    forall i | 0 <= i < |messages| && i !in selected && !IsDeleted(messages[i])
      ensures exists j :: 0 <= j < |kept| && Renumber(kept)[j] == messages[i].(seqNum := j + 1)
    {
      assert marked[i] in marked && marked[i] in kept;
      var j :| 0 <= j < |kept| && kept[j] == messages[i];
      assert Renumber(kept)[j] == messages[i].(seqNum := j + 1);
    }
    forall j | 0 <= j < |kept| ensures SurvivorOf(messages, selected, Renumber(kept)[j], j) {
      assert kept[j] in kept && kept[j] in marked;
      var i :| 0 <= i < |marked| && marked[i] == kept[j];
    }
  }

  lemma CopiesSurvive(
    messages: seq<Message>, selected: seq<nat>, envs: seq<Env>, source: map<Path, File>,
    copied: map<Path, File>, after: map<Path, File>)
    requires Positions(selected, |messages|) && |envs| == |selected| && FreshNames(envs, source, messages)
    requires forall k :: 0 <= k < |selected| ==> Copied(messages, selected, envs, source, copied, k)
    requires RestStays(messages, selected, copied, after)
    ensures forall k :: 0 <= k < |selected| ==> Copied(messages, selected, envs, source, after, k)
  {
    forall k | 0 <= k < |selected| ensures Copied(messages, selected, envs, source, after, k) {
      assert Copied(messages, selected, envs, source, copied, k);
      var c := CopyPath(messages[selected[k]], envs[k]);
      PlacedPathFacts(envs[k].name, messages[selected[k]].flags);
      assert Base(c) == envs[k].name;
      assert forall i :: 0 <= i < |messages| ==> Base(PathOf(messages[i])) != Base(c);
    }
  }

  /** Every selected message is there and nothing fails on the way. */
  ghost predicate Unhindered(
    messages: seq<Message>, selected: seq<nat>, files: map<Path, File>, envs: seq<Env>, diskOk: nat -> bool,
    removable: Path -> bool)
  {
    && AllOnDisk(messages, selected, files) && (forall k :: 0 <= k < |envs| ==> Smooth(envs[k]))
    && (forall k :: diskOk(k)) && (forall p :: removable(p))
  }

  /** Every message not flagged Deleted before is still in the source, or has its copy. */
  ghost predicate NothingLost(
    messages: seq<Message>, selected: seq<nat>, envs: seq<Env>, before: map<Path, File>, after: map<Path, File>,
    target: map<Path, File>)
    requires Positions(selected, |messages|) && |envs| == |selected|
  {
    forall i :: 0 <= i < |messages| && PathOf(messages[i]) in before && !IsDeleted(messages[i]) ==>
      StaysOrCopied(messages, selected, envs, before, after, target, i)
  }

  ghost predicate StaysOrCopied(
    messages: seq<Message>, selected: seq<nat>, envs: seq<Env>, before: map<Path, File>, after: map<Path, File>,
    target: map<Path, File>, i: nat)
    requires Positions(selected, |messages|) && |envs| == |selected| && i < |messages| && PathOf(messages[i]) in before
  {
    || (PathOf(messages[i]) in after && after[PathOf(messages[i])] == before[PathOf(messages[i])])
    || exists k :: 0 <= k < |selected| && selected[k] == i && Copied(messages, selected, envs, before, target, k)
  }

  /** Once all copies are made, marking and removing lose nothing, wherever they stop. */
  lemma CopiedIsSafe(
    messages: seq<Message>, selected: seq<nat>, envs: seq<Env>, before: map<Path, File>, copied: map<Path, File>,
    after: map<Path, File>, target: map<Path, File>)
    requires Positions(selected, |messages|) && |envs| == |selected| && GoodSnapshot(messages) && Preserved(before, copied)
    requires forall k :: 0 <= k < |selected| ==> Copied(messages, selected, envs, before, target, k)
    requires RestStays(messages, selected, copied, after)
    ensures NothingLost(messages, selected, envs, before, after, target)
  {
    forall i | 0 <= i < |messages| && PathOf(messages[i]) in before && !IsDeleted(messages[i])
      ensures StaysOrCopied(messages, selected, envs, before, after, target, i)
    {
      if i in selected {
        var k :| 0 <= k < |selected| && selected[k] == i;
        assert Copied(messages, selected, envs, before, target, k);
      } else {
        UnselectedStays(messages, selected, i);
      }
    }
  }

  lemma UnselectedStays(messages: seq<Message>, selected: seq<nat>, i: nat)
    requires GoodSnapshot(messages) && i < |messages| && i !in selected && !IsDeleted(messages[i])
    ensures !Involves(messages, selected, Base(PathOf(messages[i]))) && PathOf(messages[i]) !in DeletedPaths(messages)
  {
    forall k | 0 <= k < |messages| && k != i ensures Base(PathOf(messages[k])) != Base(PathOf(messages[i])) {
      assert BaseName(messages[if k < i then k else i].name) != BaseName(messages[if k < i then i else k].name);
    }
  }

  /** The second half of a move: flag the originals Deleted and expunge. */
  method MarkAndExpunge(mb: Mailbox, selected: seq<nat>, diskOk: nat -> bool, removable: Path -> bool)
    returns (seqs: seq<nat>, ok: bool, ghost snaps: seq<Snap>)
    requires Positions(selected, |mb.messages|) && GoodSnapshot(mb.messages) && UniqueBases(mb.dir.files)
    requires AllOnDisk(mb.messages, selected, mb.dir.files)
    modifies mb`messages, mb.dir`files
    ensures GoodSnapshot(mb.messages)
    ensures RestStays(old(mb.messages), selected, old(mb.dir.files), mb.dir.files)
    ensures ok ==> SourcesGone(old(mb.messages), selected, mb.dir.files)
    ensures ok ==> MarkedAndExpunged(old(mb.messages), selected, seqs, mb.messages)
    ensures (forall k :: diskOk(k)) && (forall p :: removable(p)) ==> ok
    ensures |snaps| > 0 && SnapTrace(snaps) && snaps[0] == Snap(old(mb.dir.Now()), old(mb.Now()))
    ensures snaps[|snaps| - 1] == Snap(mb.dir.Now(), mb.Now())
  {
    hide SnapTrace;
    ghost var messages, before := mb.messages, mb.dir.files;
    ok, snaps := MarkAll(mb, selected, diskOk);
    if !ok { return [], false, snaps; }
    ghost var v, files := mb.Now(), mb.dir.files;
    seqs, ok := mb.Expunge(removable);
    ExpungeStepOf(snaps[|snaps| - 1], Snap(mb.dir.Now(), mb.Now()), seqs, ok);
    SnapOneMore(snaps, Snap(mb.dir.Now(), mb.Now()));
    snaps := snaps + [Snap(mb.dir.Now(), mb.Now())];
    if ok {
      ExpungeRemovesMarked(messages, selected, v.messages, files, before);
      ExpungedIsGood(v.messages, seqs, mb.messages);
    } else {
      ghost var gone :| gone <= DeletedPaths(v.messages) && mb.dir.files == files - gone;
      ExpungeSparesRest(messages, selected, v.messages, files, before, gone);
    }
  }

  /** What Expunge leaves of a good snapshot is one. */
  lemma ExpungedIsGood(messages: seq<Message>, seqs: seq<nat>, messages': seq<Message>)
    requires GoodSnapshot(messages) && messages' == if seqs == [] then messages else Renumber(Kept(messages))
    ensures GoodSnapshot(messages')
  {
    KeptMembers(messages);
    KeptDistinct(messages);
    forall i | 0 <= i < |Kept(messages)| ensures FlagsTold(Kept(messages)[i]) {
      assert Kept(messages)[i] in Kept(messages);
    }
  }

  lemma {:induction false} KeptDistinct(messages: seq<Message>)
    requires DistinctNames(messages)
    ensures DistinctNames(Kept(messages))
  {
    if messages != [] {
      var n := |messages| - 1;
      KeptDistinct(messages[..n]);
      KeptMembers(messages[..n]);
      var front := Kept(messages[..n]);
      forall i | 0 <= i < |front| ensures BaseName(front[i].name) != BaseName(messages[n].name) {
        assert front[i] in front && front[i] in messages[..n];
      }
    }
  }

  /**
    cmdCopyMove with move set, after its arguments are parsed: copy every
    selected message, flag the originals Deleted, expunge. The destination may
    be the source folder itself. Whatever fails on the way, nothing is lost.
   */
  method MoveMessages(
    mb: Mailbox, selected: seq<nat>, dst: Directory, envs: seq<Env>, diskOk: nat -> bool, removable: Path -> bool)
    returns (seqs: seq<nat>, ok: bool, ghost cs: Copies, ghost snaps: seq<Snap>)
    requires Positions(selected, |mb.messages|) && GoodSnapshot(mb.messages) && UniqueBases(mb.dir.files)
    requires |envs| == |selected| && FreshNames(envs, dst.files, mb.messages)
    modifies mb`messages, mb.dir`files, dst
    ensures GoodSnapshot(mb.messages)
    ensures NothingLost(old(mb.messages), selected, envs, old(mb.dir.files), mb.dir.files, dst.files)
    ensures ok ==> Conserved(old(mb.messages), selected, envs, old(mb.dir.files), mb.dir.files, dst.files)
    ensures ok && Dated(old(mb.dir.files), old(mb.messages)) ==>
      TrueCopies(old(mb.messages), selected, old(mb.dir.files), dst.files)
    ensures ok ==> MarkedAndExpunged(old(mb.messages), selected, seqs, mb.messages)
    ensures ok ==> MoveShown(old(mb.messages), selected, seqs, mb.messages)
    ensures dst != mb.dir ==> Preserved(old(dst.files), dst.files)
    ensures Unhindered(old(mb.messages), selected, old(mb.dir.files), envs, diskOk, removable) ==> ok
    ensures CopyTrace(old(mb.messages), selected, envs, cs) && cs.folders[0] == old(dst.Now())
    ensures |snaps| > 0 && SnapTrace(snaps) && snaps[|snaps| - 1] == Snap(mb.dir.Now(), mb.Now())
    ensures snaps[0] == Snap(if dst == mb.dir then cs.folders[|cs.steps|] else old(mb.dir.Now()), old(mb.Now()))
    ensures dst != mb.dir ==> cs.folders[|cs.steps|] == dst.Now()
  {
    hide CopyTrace, SnapTrace, Copied, MarkedAndExpunged, MoveShown, GoodSnapshot, UniqueBases, FreshNames, Positions,
      NothingLost, SourcesGone, RestStays, AllOnDisk, CopyPath, Dated, TrueCopies;
    ghost var messages, source := mb.messages, mb.dir.files;
    ok, cs := CopyAll(mb, selected, dst, envs);
    snaps := [Snap(mb.dir.Now(), mb.Now())];
    OneSnap(snaps[0]);
    if !ok {
      PreservedIsSafe(messages, selected, envs, source, mb.dir.files, dst.files);
      return [], false, cs, snaps;
    }
    ghost var copied := mb.dir.files;
    CopiedMeansThere(messages, selected, envs, source, dst.files, copied);
    if dst == mb.dir { CopiesKeepUnique(messages, selected, envs, source, copied); }
    seqs, ok, snaps := MarkAndExpunge(mb, selected, diskOk, removable);
    if dst == mb.dir { CopiesSurvive(messages, selected, envs, source, copied, mb.dir.files); }
    CopiedIsSafe(messages, selected, envs, source, copied, mb.dir.files, dst.files);
    if ok {
      if Dated(source, messages) { CopiesAreTrue(messages, selected, envs, source, dst.files); }
      StillRest(messages, selected, source, copied, mb.dir.files);
      GoodIsNumbered(messages);
      MoveIsShown(messages, selected, seqs, mb.messages);
    }
  }

  lemma GoodIsNumbered(messages: seq<Message>)
    requires GoodSnapshot(messages)
    ensures Numbered(messages)
  {
  }

  lemma StillRest(
    messages: seq<Message>, selected: seq<nat>, before: map<Path, File>, copied: map<Path, File>, after: map<Path, File>)
    requires Preserved(before, copied) && RestStays(messages, selected, copied, after)
    ensures RestStays(messages, selected, before, after)
  {
  }

  lemma MoveIsShown(messages: seq<Message>, selected: seq<nat>, seqs: seq<nat>, messages': seq<Message>)
    requires Numbered(messages) && MarkedAndExpunged(messages, selected, seqs, messages')
    ensures MoveShown(messages, selected, seqs, messages')
  {
    var marked :| Marked(messages, selected, marked) && ExpungeNumbers(marked, seqs)
      && messages' == if seqs == [] then marked else Renumber(Kept(marked));
    ExpungeKeepsRest(messages, selected, marked, seqs, messages');
  }

  lemma PreservedIsSafe(
    messages: seq<Message>, selected: seq<nat>, envs: seq<Env>, before: map<Path, File>, after: map<Path, File>,
    target: map<Path, File>)
    requires Positions(selected, |messages|) && |envs| == |selected| && Preserved(before, after)
    ensures NothingLost(messages, selected, envs, before, after, target)
  {
  }

  lemma CopiedMeansThere(
    messages: seq<Message>, selected: seq<nat>, envs: seq<Env>, source: map<Path, File>,
    target: map<Path, File>, copied: map<Path, File>)
    requires Positions(selected, |messages|) && |envs| == |selected| && Preserved(source, copied)
    requires forall k :: 0 <= k < |selected| ==> Copied(messages, selected, envs, source, target, k)
    ensures AllOnDisk(messages, selected, copied)
  {
    forall i | i in selected ensures PathOf(messages[i]) in copied {
      var k :| 0 <= k < |selected| && selected[k] == i;
      assert Copied(messages, selected, envs, source, target, k);
    }
  }
}
