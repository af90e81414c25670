/** STORE: which flags change, on the snapshot and on disk. */
module Stores {
  import opened Flags
  import opened Maildir
  import opened Mailboxes
  import opened Move

  datatype StoreOp = Replace | Plus | Minus | Unknown

  /** r is what the operation makes of the flags f. */
  ghost predicate Changed(op: StoreOp, f: string, wanted: string, r: string) {
    Canonical(r) && forall c :: c in r <==>
      match op
      case Replace => c in wanted
      case Plus => c in f || c in wanted
      case Minus => c in f && c !in wanted
      case Unknown => c in f
  }

  lemma CanonicalKnown(f: string)
    requires Canonical(f)
    ensures forall c :: c in f ==> c in KNOWN
  {
    PickMembers(KNOWN, f);
  }

  lemma AddsOne(f: string, x: char)
    requires Canonical(f) && x in KNOWN
    ensures Canonical(Canon(f + [x])) && forall c :: c in Canon(f + [x]) <==> c in f || c == x
  {
    CanonicalKnown(f);
    PickMembers(KNOWN, f + [x]);
    CanonIdempotent(f + [x]);
  }

  method NewFlags(op: StoreOp, f: string, wanted: string) returns (r: string)
    requires Canonical(f) && Canonical(wanted)
    ensures Changed(op, f, wanted, r)
  {
    hide Canonical, Canon;
    r := f;
    match op {
      case Replace => r := wanted;
      case Plus =>
        for k := 0 to |wanted|
          invariant Canonical(r) && forall c :: c in r <==> c in f || c in wanted[..k]
        {
          assert wanted[..k + 1] == wanted[..k] + [wanted[k]];
          CanonicalKnown(wanted);
          AddsOne(r, wanted[k]);
          r := Add(r, wanted[k]);
        }
        assert wanted[..|wanted|] == wanted;
      case Minus =>
        for k := 0 to |wanted|
          invariant Canonical(r) && forall c :: c in r <==> c in f && c !in wanted[..k]
        {
          assert wanted[..k + 1] == wanted[..k] + [wanted[k]];
          r := Remove(r, wanted[k]);
        }
        assert wanted[..|wanted|] == wanted;
      case Unknown =>
    }
  }

  /** A flag change to canonical flags keeps a snapshot good. */
  lemma FlaggedIsGood(messages: seq<Message>, i: nat, flags: string)
    requires GoodSnapshot(messages) && i < |messages| && Canonical(flags)
    ensures GoodSnapshot(messages[i := Flagged(messages[i], flags)])
  {
    FlaggedIsTold(messages[i], flags);
  }

  /** Message i of a snapshot before and after a STORE: the flags changed as asked, or nothing at all. */
  ghost predicate StoredOne(op: StoreOp, wanted: string, before: Message, after: Message) {
    after == before || (Changed(op, before.flags, wanted, after.flags) && after == Flagged(before, after.flags))
  }

  ghost predicate StoredAll(op: StoreOp, wanted: string, selected: seq<nat>, before: seq<Message>, after: seq<Message>) {
    && |after| == |before|
    && forall i :: 0 <= i < |before| ==>
         if i in selected then StoredOne(op, wanted, before[i], after[i]) else after[i] == before[i]
  }

  lemma StoreOneMore(
    op: StoreOp, wanted: string, selected: seq<nat>, k: nat, before: seq<Message>, messages: seq<Message>, after: Message)
    requires k < |selected| && Positions(selected, |before|) && StoredAll(op, wanted, selected[..k], before, messages)
    requires StoredOne(op, wanted, before[selected[k]], after)
    ensures messages[selected[k]] == before[selected[k]]
    ensures StoredAll(op, wanted, selected[..k + 1], before, messages[selected[k] := after])
  {
    assert selected[..k + 1] == selected[..k] + [selected[k]];
    assert selected[k] !in selected[..k];
  }

  // ----- what a STORE does, message by message -----

  /** m gets these flags exactly when there is nothing to rename or its file is there and the rename works. */
  ghost predicate StoredAs(
    m: Message, flags: string, diskOk: bool, files: map<Path, File>, m': Message, files': map<Path, File>)
  {
    var from, to := Path(m.sub, m.name), Path(Cur, BaseName(m.name) + ":2," + flags);
    if from == to || (diskOk && from in files) then
      && m' == Message(m.uid, m.seqNum, to.name, Cur, flags, false, m.size, m.internal) && FlagsOf(to.name) == flags
      && (from in files ==> to in files' && files'[to] == files[from])
    else m' == m && (from in files ==> from in files' && files'[from] == files[from])
  }

  ghost predicate StoredMessage(
    op: StoreOp, wanted: string, m: Message, diskOk: bool, files: map<Path, File>, m': Message, files': map<Path, File>)
  {
    exists flags :: Changed(op, m.flags, wanted, flags) && StoredAs(m, flags, diskOk, files, m', files')
  }

  /** Every file comes from one of the same base name, with its bytes and date. */
  ghost predicate NothingNew(files: map<Path, File>, files': map<Path, File>) {
    forall p :: p in files' ==> exists q :: q in files && Base(q) == Base(p) && files[q] == files'[p]
  }

  /**
    A STORE: the selected messages have their flags changed, each exactly as far
    as the disk lets it; the other messages, and the files that belong to none
    of the selected, are as before, and no file is new.
   */
  ghost predicate Stored(
    op: StoreOp, wanted: string, selected: seq<nat>, diskOk: nat -> bool, before: seq<Message>, files: map<Path, File>,
    after: seq<Message>, files': map<Path, File>)
  {
    && |after| == |before| && (forall i :: 0 <= i < |before| && i !in selected ==> after[i] == before[i])
    && (forall k :: 0 <= k < |selected| ==> StoredAt(op, wanted, selected, diskOk, before, files, after, files', k))
    && OthersUntouched(before, selected, files, files') && NothingNew(files, files')
  }

  ghost predicate StoredAt(
    op: StoreOp, wanted: string, selected: seq<nat>, diskOk: nat -> bool, before: seq<Message>, files: map<Path, File>,
    after: seq<Message>, files': map<Path, File>, k: nat)
    requires k < |selected|
  {
    var i := selected[k];
    i < |before| && i < |after| && StoredMessage(op, wanted, before[i], diskOk(k), files, after[i], files')
  }

  // ----- one message more -----

  /** One SetFlags, and when it works. */
  ghost predicate FlagsTried(
    f: map<Path, File>, m: Message, flags: string, diskOk: bool, f': map<Path, File>, m': Message)
  {
    var from, to := PathOf(m), FlaggedPath(m, flags);
    if from == to then f' == f && m' == Flagged(m, flags)
    else if diskOk && from in f then f' == Rename(f, from, to) && m' == Flagged(m, flags)
    else f' == f && m' == m
  }

  lemma TriedStores(
    m: Message, flags: string, diskOk: bool, files: map<Path, File>, f: map<Path, File>, f': map<Path, File>, m': Message)
    requires Canonical(flags) && FlagsTried(f, m, flags, diskOk, f', m')
    requires PathOf(m) in f <==> PathOf(m) in files
    requires PathOf(m) in files ==> f[PathOf(m)] == files[PathOf(m)]
    ensures StoredAs(m, flags, diskOk, files, m', f')
  {
    FlaggedIsTold(m, flags);
  }

  /** Away from the base name of m, the files are as they were. */
  lemma TriedElsewhere(f: map<Path, File>, m: Message, flags: string, diskOk: bool, f': map<Path, File>, m': Message)
    requires Canonical(flags) && FlagsTried(f, m, flags, diskOk, f', m') && UniqueBases(f)
    ensures forall p :: p in f && Base(p) != BaseName(m.name) ==> p in f' && f'[p] == f[p]
    ensures NothingNew(f, f') && UniqueBases(f')
  {
    FlaggedIsTold(m, flags);
    var from, to := PathOf(m), FlaggedPath(m, flags);
    assert Base(from) == BaseName(m.name) == Base(to);
    hide Flagged, FlaggedPath, Canonical, FlagsOf, BaseName, FlagsTold, UniqueBases, Rename, NothingNew;
    if f' == f { NothingNewAtAll(f); } else { RenamedElsewhere(f, from, to); }
  }

  lemma NothingNewAtAll(f: map<Path, File>)
    ensures NothingNew(f, f)
  {
  }

  lemma RenamedElsewhere(f: map<Path, File>, from: Path, to: Path)
    requires from in f && Base(from) == Base(to) && UniqueBases(f)
    ensures var f' := Rename(f, from, to);
      && (forall p :: p in f && Base(p) != Base(from) ==> p in f' && f'[p] == f[p])
      && NothingNew(f, f') && UniqueBases(f')
  {
    var f' := Rename(f, from, to);
    forall p | p in f' ensures exists q :: q in f && Base(q) == Base(p) && f[q] == f'[p] {
      var q := if p == to then from else p;
      assert q in f && Base(q) == Base(p) && f[q] == f'[p];
    }
  }

  lemma NothingNewTwice(files: map<Path, File>, f: map<Path, File>, f': map<Path, File>)
    requires NothingNew(files, f) && NothingNew(f, f')
    ensures NothingNew(files, f')
  {
    forall p | p in f' ensures exists q :: q in files && Base(q) == Base(p) && files[q] == f'[p] {
      var r :| r in f && Base(r) == Base(p) && f[r] == f'[p];
      var q :| q in files && Base(q) == Base(r) && files[q] == f[r];
    }
  }

  /** The file of a message not tried yet is where it was. */
  lemma UntriedFile(
    before: seq<Message>, done: seq<nat>, i: nat, files: map<Path, File>, f: map<Path, File>)
    requires i < |before| && DistinctNames(before) && i !in done && UniqueBases(files) && UniqueBases(f)
    requires OthersUntouched(before, done, files, f) && NothingNew(files, f)
    ensures PathOf(before[i]) in f <==> PathOf(before[i]) in files
    ensures PathOf(before[i]) in files ==> f[PathOf(before[i])] == files[PathOf(before[i])]
  {
    var p := PathOf(before[i]);
    assert Base(p) == BaseName(before[i].name);
    forall j | 0 <= j < |before| && j != i ensures BaseName(before[j].name) != Base(p) { OtherName(before, j, i); }
    assert !Involves(before, done, Base(p));
    if p in f {
      var q :| q in files && Base(q) == Base(p) && files[q] == f[p];
      assert q in f;
    }
  }

  /** What was stored for one message stays when another one is tried. */
  lemma StoredStays(
    m: Message, flags: string, diskOk: bool, files: map<Path, File>, m': Message, f: map<Path, File>, f': map<Path, File>,
    other: string)
    requires Canonical(flags) && StoredAs(m, flags, diskOk, files, m', f) && BaseName(m.name) != other
    requires forall p :: p in f && Base(p) != other ==> p in f' && f'[p] == f[p]
    ensures StoredAs(m, flags, diskOk, files, m', f')
  {
    FlaggedIsTold(m, flags);
    assert Base(Path(m.sub, m.name)) == BaseName(m.name) == Base(Path(Cur, BaseName(m.name) + ":2," + flags));
  }

  lemma MessageStays(
    op: StoreOp, wanted: string, m: Message, diskOk: bool, files: map<Path, File>, m': Message, f: map<Path, File>,
    f': map<Path, File>, other: string)
    requires StoredMessage(op, wanted, m, diskOk, files, m', f) && BaseName(m.name) != other
    requires forall p :: p in f && Base(p) != other ==> p in f' && f'[p] == f[p]
    ensures StoredMessage(op, wanted, m, diskOk, files, m', f')
  {
    var flags :| Changed(op, m.flags, wanted, flags) && StoredAs(m, flags, diskOk, files, m', f);
    StoredStays(m, flags, diskOk, files, m', f, f', other);
  }

  /** The first k selected messages are stored. */
  ghost predicate StoredFirst(
    op: StoreOp, wanted: string, selected: seq<nat>, diskOk: nat -> bool, before: seq<Message>, files: map<Path, File>,
    messages: seq<Message>, f: map<Path, File>, k: nat)
    requires k <= |selected|
  {
    UniqueBases(f) && Stored(op, wanted, selected[..k], diskOk, before, files, messages, f)
  }

  lemma StoredNone(
    op: StoreOp, wanted: string, selected: seq<nat>, diskOk: nat -> bool, before: seq<Message>, files: map<Path, File>)
    requires UniqueBases(files)
    ensures StoredFirst(op, wanted, selected, diskOk, before, files, before, files, 0)
  {
  }

  lemma StoreNext(
    op: StoreOp, wanted: string, selected: seq<nat>, diskOk: nat -> bool, before: seq<Message>, files: map<Path, File>,
    messages: seq<Message>, f: map<Path, File>, k: nat, flags: string, messages': seq<Message>, f': map<Path, File>)
    requires Positions(selected, |before|) && DistinctNames(before) && k < |selected| && UniqueBases(files)
    requires StoredFirst(op, wanted, selected, diskOk, before, files, messages, f, k)
    requires selected[k] < |messages| && Changed(op, messages[selected[k]].flags, wanted, flags)
    requires |messages'| == |messages| && messages' == messages[selected[k] := messages'[selected[k]]]
    requires FlagsTried(f, messages[selected[k]], flags, diskOk(k), f', messages'[selected[k]])
    ensures StoredFirst(op, wanted, selected, diskOk, before, files, messages', f', k + 1)
  {
    hide FlagsTried, StoredAs, StoredMessage, NothingNew, OthersUntouched, UniqueBases, DistinctNames, Changed;
    var i, done, more := selected[k], selected[..k], selected[..k + 1];
    assert more == done + [i] && i !in done && messages[i] == before[i];
    OneStored(op, wanted, before, done, i, flags, diskOk(k), files, f, f', messages'[i]);
    MoreUntouched(before, done, i, files, f, f');
    forall j | 0 <= j < k + 1 ensures StoredAt(op, wanted, more, diskOk, before, files, messages', f', j) {
      if j < k { EarlierStays(op, wanted, selected, diskOk, before, files, messages, f, k, messages', f', j); }
    }
  }

  lemma OneStored(
    op: StoreOp, wanted: string, before: seq<Message>, done: seq<nat>, i: nat, flags: string, diskOk: bool,
    files: map<Path, File>, f: map<Path, File>, f': map<Path, File>, m': Message)
    requires i < |before| && DistinctNames(before) && i !in done && UniqueBases(files) && UniqueBases(f)
    requires OthersUntouched(before, done, files, f) && NothingNew(files, f)
    requires Changed(op, before[i].flags, wanted, flags) && FlagsTried(f, before[i], flags, diskOk, f', m')
    ensures StoredMessage(op, wanted, before[i], diskOk, files, m', f')
    ensures NothingNew(files, f') && UniqueBases(f')
    ensures forall p :: p in f && Base(p) != BaseName(before[i].name) ==> p in f' && f'[p] == f[p]
  {
    hide FlagsTried, StoredAs, NothingNew, OthersUntouched, UniqueBases, DistinctNames;
    ChangedIsCanonical(op, before[i].flags, wanted, flags);
    TriedElsewhere(f, before[i], flags, diskOk, f', m');
    UntriedFile(before, done, i, files, f);
    TriedStores(before[i], flags, diskOk, files, f, f', m');
    NothingNewTwice(files, f, f');
  }

  lemma EarlierStays(
    op: StoreOp, wanted: string, selected: seq<nat>, diskOk: nat -> bool, before: seq<Message>, files: map<Path, File>,
    messages: seq<Message>, f: map<Path, File>, k: nat, messages': seq<Message>, f': map<Path, File>, j: nat)
    requires Positions(selected, |before|) && DistinctNames(before) && j < k < |selected|
    requires StoredAt(op, wanted, selected[..k], diskOk, before, files, messages, f, j)
    requires |messages'| == |messages| && selected[k] < |messages|
    requires messages' == messages[selected[k] := messages'[selected[k]]]
    requires forall p :: p in f && Base(p) != BaseName(before[selected[k]].name) ==> p in f' && f'[p] == f[p]
    ensures StoredAt(op, wanted, selected[..k + 1], diskOk, before, files, messages', f', j)
  {
    var m, i := before[selected[j]], selected[k];
    OtherName(before, selected[j], i);
    MessageStays(op, wanted, m, diskOk(j), files, messages[selected[j]], f, f', BaseName(before[i].name));
  }

  lemma OtherName(before: seq<Message>, j: nat, i: nat)
    requires DistinctNames(before) && j < |before| && i < |before| && j != i
    ensures BaseName(before[j].name) != BaseName(before[i].name)
  {
  }

  lemma MoreUntouched(
    before: seq<Message>, done: seq<nat>, i: nat, files: map<Path, File>, f: map<Path, File>, f': map<Path, File>)
    requires i < |before| && OthersUntouched(before, done, files, f)
    requires forall p :: p in f && Base(p) != BaseName(before[i].name) ==> p in f' && f'[p] == f[p]
    ensures OthersUntouched(before, done + [i], files, f')
  {
    forall p | p in files && !Involves(before, done + [i], Base(p)) ensures p in f' && f'[p] == files[p] {
      assert i in done + [i];
      assert forall j :: j in done ==> j in done + [i];
    }
  }

  // ----- the code -----

  /** One turn of the loop: whether SetFlags works is told by the disk and the file alone. */
  method TryFlags(mb: Mailbox, i: nat, flags: string, diskOk: bool) returns (done: bool)
    requires i < |mb.messages|
    modifies mb`messages, mb.dir`files
    ensures |mb.messages| == |old(mb.messages)| && mb.messages == old(mb.messages)[i := mb.messages[i]]
    ensures FlagsTried(old(mb.dir.files), old(mb.messages[i]), flags, diskOk, mb.dir.files, mb.messages[i])
    ensures mb.messages[i] == if done then Flagged(old(mb.messages[i]), flags) else old(mb.messages[i])
  {
    done := mb.SetFlags(i, flags, diskOk);
    assert old(mb.messages)[i := old(mb.messages)[i]] == old(mb.messages);
  }

  method StoreMessages(mb: Mailbox, op: StoreOp, wanted: string, selected: seq<nat>, diskOk: nat -> bool)
    requires GoodSnapshot(mb.messages) && Canonical(wanted) && Positions(selected, |mb.messages|)
    requires op.Unknown? ==> selected == []
    modifies mb`messages, mb.dir`files
    ensures GoodSnapshot(mb.messages) && StoredAll(op, wanted, selected, old(mb.messages), mb.messages)
    ensures old(UniqueBases(mb.dir.files)) ==>
      Stored(op, wanted, selected, diskOk, old(mb.messages), old(mb.dir.files), mb.messages, mb.dir.files)
  {
    hide Stored, StoredAt, StoredFirst, FlagsTried, UniqueBases, Changed, StoredOne;
    ghost var before, files := mb.messages, mb.dir.files;
    ghost var unique := UniqueBases(files);
    if unique { StoredNone(op, wanted, selected, diskOk, before, files); }
    for k := 0 to |selected|
      invariant GoodSnapshot(mb.messages) && StoredAll(op, wanted, selected[..k], before, mb.messages)
      invariant unique ==> StoredFirst(op, wanted, selected, diskOk, before, files, mb.messages, mb.dir.files, k)
    {
      var i := selected[k];
      ghost var messages, f := mb.messages, mb.dir.files;
      FlagsOfCanonical(messages[i].name);
      var next := NewFlags(op, mb.messages[i].flags, wanted);
      ChangedIsCanonical(op, messages[i].flags, wanted, next);
      var done := TryFlags(mb, i, next, diskOk(k));
      StoreTurn(op, wanted, selected, k, before, messages, next, done, mb.messages);
      if unique {
        StoreNext(op, wanted, selected, diskOk, before, files, messages, f, k, next, mb.messages, mb.dir.files);
      }
    }
    assert selected[..|selected|] == selected;
    if unique { StoredLast(op, wanted, selected, diskOk, before, files, mb.messages, mb.dir.files); }
  }

  lemma StoredLast(
    op: StoreOp, wanted: string, selected: seq<nat>, diskOk: nat -> bool, before: seq<Message>, files: map<Path, File>,
    messages: seq<Message>, f: map<Path, File>)
    requires StoredFirst(op, wanted, selected, diskOk, before, files, messages, f, |selected|)
    ensures Stored(op, wanted, selected, diskOk, before, files, messages, f)
  {
    assert selected[..|selected|] == selected;
  }

  lemma ChangedIsCanonical(op: StoreOp, f: string, wanted: string, r: string)
    requires Changed(op, f, wanted, r)
    ensures Canonical(r)
  {
  }

  lemma StoreTurn(
    op: StoreOp, wanted: string, selected: seq<nat>, k: nat, before: seq<Message>, messages: seq<Message>, flags: string,
    done: bool, messages': seq<Message>)
    requires k < |selected| && Positions(selected, |before|) && StoredAll(op, wanted, selected[..k], before, messages)
    requires GoodSnapshot(messages) && Changed(op, messages[selected[k]].flags, wanted, flags) && Canonical(flags)
    requires |messages'| == |messages| && messages' == messages[selected[k] := messages'[selected[k]]]
    requires messages'[selected[k]] == if done then Flagged(messages[selected[k]], flags) else messages[selected[k]]
    ensures GoodSnapshot(messages') && StoredAll(op, wanted, selected[..k + 1], before, messages')
  {
    var i := selected[k];
    assert i !in selected[..k] && messages[i] == before[i];
    StoreOneMore(op, wanted, selected, k, before, messages, messages'[i]);
    if done {
      FlaggedIsGood(messages, i, flags);
    } else {
      assert messages[i := messages[i]] == messages;
    }
  }
}
