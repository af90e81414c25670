/** The IMAP commands that move the selected mailbox and tell the client about it. */
module ImapSession {
  import opened Text
  import opened Flags
  import opened UidList
  import opened Maildir
  import opened Mailboxes
  import opened Move
  import opened Stores
  import opened ImapView

  datatype Phase = NotAuthenticated | Authenticated | Selected

  function RecentIn(messages: seq<Message>): nat {
    if messages == [] then 0
    else RecentIn(messages[..|messages| - 1]) + if messages[|messages| - 1].recent then 1 else 0
  }

  /** It is the number of messages that carry the mark. */
  lemma {:induction false} RecentIsCount(messages: seq<Message>)
    ensures RecentIn(messages) == |set i | 0 <= i < |messages| && messages[i].recent|
  {
    if messages != [] {
      var n := |messages| - 1;
      RecentIsCount(messages[..n]);
      var before := set i | 0 <= i < n && messages[..n][i].recent;
      assert (set i | 0 <= i < |messages| && messages[i].recent) == before + if messages[n].recent then {n} else {};
    }
  }

  method CountRecent(messages: seq<Message>) returns (n: nat)
    ensures n == RecentIn(messages)
  {
    n := 0;
    for i := 0 to |messages|
      invariant n == RecentIn(messages[..i])
    {
      assert messages[..i + 1][..i] == messages[..i];
      if messages[i].recent { n := n + 1; }
    }
    assert messages[..|messages|] == messages;
  }

  /** An Expunge whose numbers nobody hears; it succeeds when every file is removable. */
  ghost predicate QuietlyExpunged(f: Folder, v: View, f': Folder, v': View, removable: Path -> bool) {
    exists seqs, done :: Expunged(f, v, f', v', seqs, done) && ((forall p :: removable(p)) ==> done)
  }

  /** A MOVE that lost nothing, and whose numbers take a listening client to the new snapshot. */
  ghost predicate MovedAndHeard(
    messages: seq<Message>, selected: seq<nat>, envs: seq<Env>, before: map<Path, File>, after: map<Path, File>,
    target: map<Path, File>, seqs: seq<nat>, messages': seq<Message>)
    requires Positions(selected, |messages|) && |envs| == |selected|
  {
    && Conserved(messages, selected, envs, before, after, target)
    && (Dated(before, messages) ==> TrueCopies(messages, selected, before, target))
    && HearAll(Some(Uids(messages)), Expunges(seqs), Uids(messages')) == Some(Uids(messages'))
  }

  method MoveHearing(
    mb: Mailbox, selected: seq<nat>, dst: Directory, envs: seq<Env>, diskOk: nat -> bool, removable: Path -> bool)
    returns (seqs: seq<nat>, ok: bool)
    requires Positions(selected, |mb.messages|) && GoodSnapshot(mb.messages) && UniqueBases(mb.dir.files)
    requires |envs| == |selected| && FreshNames(envs, dst.files, mb.messages)
    modifies mb`messages, mb.dir`files, dst
    ensures GoodSnapshot(mb.messages)
    ensures NothingLost(old(mb.messages), selected, envs, old(mb.dir.files), mb.dir.files, dst.files)
    ensures ok ==> MovedAndHeard(
      old(mb.messages), selected, envs, old(mb.dir.files), mb.dir.files, dst.files, seqs, mb.messages)
    ensures Unhindered(old(mb.messages), selected, old(mb.dir.files), envs, diskOk, removable) ==> ok
  {
    hide Conserved, NothingLost, Unhindered, MarkedAndExpunged, MoveShown, FreshNames, Positions, Dated, TrueCopies;
    ghost var messages := mb.messages;
    ghost var cs, snaps;
    seqs, ok, cs, snaps := MoveMessages(mb, selected, dst, envs, diskOk, removable);
    if ok { MoveHeard(messages, selected, mb.messages, seqs); }
  }

  // ----- what keeps a snapshot good -----

  /** Refresh leaves a good snapshot, whether it takes a new one or keeps the old. */
  lemma RefreshedIsGood(f: Folder, v: View, minted: nat, fault: Fault, f': Folder, v': View, ok: bool)
    requires UniqueBases(f.files) && GoodSnapshot(v.messages) && Refreshed(f, v, minted, fault, f', v', ok)
    ensures GoodSnapshot(v'.messages)
  {
    if Scans(fault) {
      var l := Read(Received(f.list, fault), minted);
      var order: seq<Path> :| RefreshedFrom(f, l, order, Writes(fault), f', v', ok);
      RefreshGivesGoodSnapshot(f.files, Assign(Bases(order), l.uids, l.next).uids, v'.messages);
    }
  }

  /** f' and v' are what a Refresh leaves of some folder with these files and a mailbox in state v. */
  ghost predicate RefreshedAgain(v: View, minted: nat, fault: Fault, f': Folder, v': View) {
    exists f: Folder, ok: bool :: f.files == f'.files && Refreshed(f, v, minted, fault, f', v', ok)
  }

  lemma RefreshedOnce(f: Folder, v: View, minted: nat, fault: Fault, f': Folder, v': View, ok: bool)
    requires f.files == f'.files && Refreshed(f, v, minted, fault, f', v', ok)
    ensures RefreshedAgain(v, minted, fault, f', v')
  {
  }

  class Connection {
    var phase: Phase
    var mbox: Mailbox?
    var readOnly: bool
    var out: seq<Response>

    constructor ()
      ensures Valid() && phase == Authenticated && mbox == null && out == []
    {
      phase, mbox, readOnly, out := Authenticated, null, false, [];
    }

    /** The snapshot of the selected mailbox, if there is one. */
    function Shown(): View
      reads this, mbox
    {
      if mbox == null then View([], 0, 0) else mbox.Now()
    }

    /** Every method keeps it: the selected snapshot is numbered, with canonical flags and distinct base names. */
    ghost predicate Valid()
      reads this, mbox
    {
      && (phase == Selected ==> mbox != null)
      && (mbox != null ==> GoodSnapshot(mbox.messages))
    }

    /** cmdSelect and EXAMINE: a new mailbox object, its EXISTS and RECENT. */
    method Select(dir: Directory, examine: bool, minted: nat, fault: Fault) returns (ok: bool)
      requires Valid() && phase != NotAuthenticated && UniqueBases(dir.files)
      modifies this, dir`list
      ensures Valid()
      ensures ok ==> phase == Selected && fresh(mbox) && mbox.dir == dir && readOnly == examine
      ensures ok ==> out == old(out) + [Exists(|mbox.messages|), Recent(RecentIn(mbox.messages))]
      ensures ok ==> Refreshed(old(dir.Now()), View([], 0, 0), minted, fault, dir.Now(), mbox.Now(), true)
      ensures !ok ==> phase == old(phase) && mbox == old(mbox) && out == old(out)
      ensures fault.NoFault? ==> ok
    {
      var mb := new Mailbox(dir);
      ok := mb.Refresh(minted, fault);
      if !ok { return; }
      RefreshedIsGood(old(dir.Now()), View([], 0, 0), minted, fault, dir.Now(), mb.Now(), true);
      mbox, readOnly, phase := mb, examine, Selected;
      var recent := CountRecent(mb.messages);
      out := out + [Exists(|mb.messages|), Recent(recent)];
    }

    /** pollAndReport: the count only when it changed, and nothing after a failed Refresh. */
    method PollAndReport(minted: nat, fault: Fault) returns (changed: bool, ghost ok: bool)
      requires Valid() && mbox != null && UniqueBases(mbox.dir.files)
      modifies this`out, mbox, mbox.dir`list
      ensures Valid() && mbox == old(mbox)
      ensures Refreshed(old(mbox.dir.Now()), old(mbox.Now()), minted, fault, mbox.dir.Now(), mbox.Now(), ok)
      ensures out == old(out) + if ok then PollReport(|old(mbox.messages)|, |mbox.messages|, RecentIn(mbox.messages), false) else []
      ensures changed == (ok && |mbox.messages| != |old(mbox.messages)|)
    {
      var before := |mbox.messages|;
      var done := mbox.Refresh(minted, fault);
      ok := done;
      RefreshedIsGood(old(mbox.dir.Now()), old(mbox.Now()), minted, fault, mbox.dir.Now(), mbox.Now(), ok);
      if !done { return false, false; }
      if |mbox.messages| != before {
        var recent := CountRecent(mbox.messages);
        out := out + [Exists(|mbox.messages|), Recent(recent)];
        return true, true;
      }
      return false, true;
    }

    /** The report at the end of an APPEND to the selected folder: always the count. */
    method ReportAppended(minted: nat, fault: Fault) returns (ghost ok: bool)
      requires Valid() && mbox != null && UniqueBases(mbox.dir.files)
      modifies this`out, mbox, mbox.dir`list
      ensures Valid() && mbox == old(mbox)
      ensures Refreshed(old(mbox.dir.Now()), old(mbox.Now()), minted, fault, mbox.dir.Now(), mbox.Now(), ok)
      ensures out == old(out) + PollReport(|old(mbox.messages)|, |mbox.messages|, 0, true)
    {
      var done := mbox.Refresh(minted, fault);
      ok := done;
      RefreshedIsGood(old(mbox.dir.Now()), old(mbox.Now()), minted, fault, mbox.dir.Now(), mbox.Now(), ok);
      out := out + [Exists(|mbox.messages|)];
    }

    /**
      cmdAppend with its arguments parsed. The message goes in through a mailbox
      object of its own; only a selected session on the same folder is told.
     */
    method CmdAppend(dir: Directory, data: string, flags: string, internal: Option<int>, env: Env, minted3: nat, fault3: Fault)
      returns (ok: bool)
      requires Valid() && phase != NotAuthenticated && FreshIn(env.name, dir.files) && UniqueBases(dir.files)
      modifies this`out, mbox, dir
      ensures Valid() && mbox == old(mbox) && phase == old(phase)
      ensures ok ==> data != "" && dir.files == old(dir.files)[PlacedPath(env.name, flags) :=
                       File(data, if internal.Some? then internal.value else env.now)]
      ensures forall p :: p in old(dir.files) ==> p in dir.files && dir.files[p] == old(dir.files)[p]
      ensures ok && phase == Selected && mbox.dir == dir ==>
        && out == old(out) + [Exists(|mbox.messages|)]
        && RefreshedAgain(old(Shown()), minted3, fault3, dir.Now(), mbox.Now())
      ensures !(ok && phase == Selected && mbox.dir == dir) ==>
        out == old(out) && (mbox != null ==> mbox.Now() == old(Shown()))
      ensures data != "" && Smooth(env) ==> ok
    {
      hide GoodSnapshot, Refreshed, RefreshedTo, RefreshedAgain, Deliverable;
      if data == "" { return false; }
      var mb := new Mailbox(dir);
      ok := mb.Refresh(env.minted, env.openFault);
      if !ok { return; }
      var appended;
      ok, appended := mb.Append(data, flags, internal, env.name, env.now, env.delivers, env.renames, env.minted2, env.fault);
      if !ok { return; }
      if phase == Selected && mbox.dir == dir {
        AppendKeepsUnique(old(dir.files), env.name, flags, dir.files);
        ghost var f, v := dir.Now(), mbox.Now();
        ghost var done := ReportAppended(minted3, fault3);
        RefreshedOnce(f, v, minted3, fault3, dir.Now(), mbox.Now(), done);
      }
    }

    /** cmdStore with its arguments parsed; a message the disk fails is skipped. FETCH responses are not modelled. */
    method CmdStore(op: StoreOp, wanted: string, selected: seq<nat>, diskOk: nat -> bool) returns (ok: bool)
      requires Valid() && Canonical(wanted) && (phase == Selected ==> Positions(selected, |mbox.messages|))
      modifies mbox, if mbox == null then {} else {mbox.dir}
      ensures Valid() && out == old(out)
      ensures phase == Selected && !readOnly ==> StoredAll(op, wanted, selected, old(mbox.messages), mbox.messages)
      ensures ok && old(mbox != null && UniqueBases(mbox.dir.files)) ==>
        Stored(op, wanted, selected, diskOk, old(mbox.messages), old(mbox.dir.files), mbox.messages, mbox.dir.files)
      ensures ok <==> phase == Selected && !readOnly && (op.Unknown? ==> selected == [])
      ensures !ok && mbox != null ==> mbox.messages == old(mbox.messages) && mbox.dir.files == old(mbox.dir.files)
    {
      if phase != Selected || readOnly { return false; }
      if op.Unknown? && selected != [] { return false; }
      StoreMessages(mbox, op, wanted, selected, diskOk);
      ok := true;
    }

    /** The EXPUNGE responses, in the order Expunge returned the numbers. */
    method ReportExpunged(seqs: seq<nat>)
      modifies this`out
      ensures out == old(out) + Expunges(seqs)
    {
      for i := 0 to |seqs|
        invariant out == old(out) + Expunges(seqs[..i])
      {
        assert Expunges(seqs[..i + 1]) == Expunges(seqs[..i]) + [Response.Expunge(seqs[i])];
        out := out + [Response.Expunge(seqs[i])];
      }
      assert seqs[..|seqs|] == seqs;
    }

    method CmdExpunge(removable: Path -> bool) returns (ghost seqs: seq<nat>, ok: bool)
      requires Valid()
      modifies this`out, mbox, if mbox == null then {} else {mbox.dir}
      ensures Valid() && mbox == old(mbox)
      ensures phase != Selected || readOnly ==> !ok && out == old(out)
      ensures phase == Selected && !readOnly ==>
        Expunged(old(mbox.dir.Now()), old(mbox.Now()), mbox.dir.Now(), mbox.Now(), seqs, ok)
      ensures phase == Selected && !readOnly ==> out == old(out) + Expunges(seqs)
      ensures phase == Selected && !readOnly && (forall p :: removable(p)) ==> ok
    {
      if phase != Selected || readOnly { return [], false; }
      var numbers;
      numbers, ok := mbox.Expunge(removable);
      seqs := numbers;
      if ok {
        ExpungedIsGood(old(mbox.messages), numbers, mbox.messages);
        ReportExpunged(numbers);
      }
    }

    /** CLOSE expunges silently and leaves the selected state whatever the disk says. */
    method CmdClose(removable: Path -> bool) returns (ok: bool)
      requires Valid()
      modifies this, mbox, if mbox == null then {} else {mbox.dir}
      ensures Valid() && out == old(out)
      ensures old(phase) == Selected ==> ok && phase == Authenticated && mbox == null
      ensures old(phase) != Selected ==> !ok && phase == old(phase) && mbox == old(mbox)
      ensures old(phase) == Selected && old(readOnly) ==> old(mbox).dir.files == old(mbox.dir.files)
      ensures old(phase) == Selected && !old(readOnly) ==>
        QuietlyExpunged(old(mbox.dir.Now()), old(mbox.Now()), old(mbox).dir.Now(), old(mbox).Now(), removable)
    {
      if phase != Selected { return false; }
      if !readOnly {
        var numbers, done := mbox.Expunge(removable);
        assert Expunged(old(mbox.dir.Now()), old(mbox.Now()), mbox.dir.Now(), mbox.Now(), numbers, done);
      }
      mbox, phase := null, Authenticated;
      ok := true;
    }

    /**
      MOVE to another folder, or to the selected one. The destination is opened
      first, which may write its list, also when the selected mailbox turns out
      to be read-only.
     */
    method CmdMove(
      selected: seq<nat>, dst: Directory, minted: nat, openFault: Fault, envs: seq<Env>, diskOk: nat -> bool, removable: Path -> bool)
      returns (seqs: seq<nat>, ok: bool, ghost opened_: Folder)
      requires Valid() && phase == Selected && UniqueBases(mbox.dir.files)
      requires Positions(selected, |mbox.messages|) && |envs| == |selected| && FreshNames(envs, dst.files, mbox.messages)
      modifies this`out, mbox`messages, mbox.dir`files, dst
      ensures Valid() && mbox == old(mbox)
      ensures exists v, isOpen :: Refreshed(old(dst.Now()), View([], 0, 0), minted, openFault, opened_, v, isOpen) &&
                (!isOpen || readOnly ==> !ok && dst.Now() == opened_ && mbox.messages == old(mbox.messages))
      ensures NothingLost(old(mbox.messages), selected, envs, old(mbox.dir.files), mbox.dir.files, dst.files)
      ensures ok ==> MovedAndHeard(
        old(mbox.messages), selected, envs, old(mbox.dir.files), mbox.dir.files, dst.files, seqs, mbox.messages)
      ensures out == old(out) + if ok then Expunges(seqs) else []
      ensures Unhindered(old(mbox.messages), selected, old(mbox.dir.files), envs, diskOk, removable) ==>
        !readOnly && openFault.NoFault? ==> ok
    {
      hide NothingLost, MovedAndHeard, Unhindered, FreshNames, GoodSnapshot, Positions, UniqueBases, Expunges, Refreshed;
      var box := new Mailbox(dst);
      var isOpen := box.Refresh(minted, openFault);
      opened_ := dst.Now();
      if !isOpen || readOnly {
        PreservedIsSafe(mbox.messages, selected, envs, mbox.dir.files, mbox.dir.files, dst.files);
        return [], false, opened_;
      }
      seqs, ok := MoveHearing(mbox, selected, dst, envs, diskOk, removable);
      if ok { ReportExpunged(seqs); }
    }
  }

  lemma AppendKeepsUnique(before: map<Path, File>, name: string, flags: string, after: map<Path, File>)
    requires UniqueBases(before) && FreshIn(name, before) && PlacedPath(name, flags) in after
    requires after == before[PlacedPath(name, flags) := after[PlacedPath(name, flags)]]
    ensures UniqueBases(after)
  {
    PlacedPathFacts(name, flags);
  }

  /** The EXPUNGE responses of a MOVE take the client from the old snapshot to the new one. */
  lemma MoveHeard(messages: seq<Message>, selected: seq<nat>, messages': seq<Message>, seqs: seq<nat>)
    requires Numbered(messages) && MarkedAndExpunged(messages, selected, seqs, messages')
    ensures HearAll(Some(Uids(messages)), Expunges(seqs), Uids(messages')) == Some(Uids(messages'))
  {
    var marked :| Marked(messages, selected, marked) && ExpungeNumbers(marked, seqs)
      && messages' == if seqs == [] then marked else Renumber(Kept(marked));
    MarkedDeleted(messages, selected, marked);
    assert Uids(marked) == Uids(messages);
    ExpungedHeard(View(marked, 0, 0), seqs, View(messages', 0, 0));
  }
}
