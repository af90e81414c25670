/** What the mailbox calls mean for files and messages, field by field. */
module MailboxLaws {
  import opened Text
  import opened Flags
  import opened UidList
  import opened Maildir
  import opened Move

  // ----- what a snapshot shows -----

  /** m shows the file at p: its name and folder, the flags of its name, its size and its date. */
  ghost predicate Tells(m: Message, p: Path, file: File) {
    && m.name == p.name && m.sub == p.sub && m.flags == FlagsOf(p.name) && (m.recent <==> p.sub == New)
    && m.size == |file.data| && m.internal == file.mtime
  }

  /** After a Refresh that scans, every visible file is shown, exactly once, and nothing else is. */
  lemma SnapshotTells(f: Folder, v: View, minted: nat, fault: Fault, f': Folder, v': View, ok: bool)
    requires Refreshed(f, v, minted, fault, f', v', ok) && Scans(fault)
    ensures forall p :: p in f.files && !Hidden(p.name) ==>
      exists i :: 0 <= i < |v'.messages| && Tells(v'.messages[i], p, f.files[p])
    ensures forall i :: 0 <= i < |v'.messages| ==>
      var p := Path(v'.messages[i].sub, v'.messages[i].name);
      p in f.files && !Hidden(p.name) && Tells(v'.messages[i], p, f.files[p])
    ensures forall i, j :: 0 <= i < j < |v'.messages| ==>
      v'.messages[i].name != v'.messages[j].name || v'.messages[i].sub != v'.messages[j].sub
  {
    var l := Read(Received(f.list, fault), minted);
    var order: seq<Path> :| RefreshedFrom(f, l, order, Writes(fault), f', v', ok);
    hide Parse, Rewritten, Assign, ScanOrder;
    AllTold(f.files, Assign(Bases(order), l.uids, l.next).uids, v'.messages);
  }

  lemma AllTold(files: map<Path, File>, uids: map<string, nat>, ms: seq<Message>)
    requires Snapshot(files, uids, ms)
    ensures forall p :: p in files && !Hidden(p.name) ==> exists i :: 0 <= i < |ms| && Tells(ms[i], p, files[p])
    ensures forall i :: 0 <= i < |ms| ==>
      var p := Path(ms[i].sub, ms[i].name); p in files && !Hidden(p.name) && Tells(ms[i], p, files[p])
    ensures forall i, j :: 0 <= i < j < |ms| ==> ms[i].name != ms[j].name || ms[i].sub != ms[j].sub
  {
    forall i | 0 <= i < |ms|
      ensures var p := Path(ms[i].sub, ms[i].name); p in files && !Hidden(p.name) && Tells(ms[i], p, files[p])
    {
      assert Matches(files, uids, ms[i], i + 1);
    }
    forall p | p in files && !Hidden(p.name) ensures exists i :: 0 <= i < |ms| && Tells(ms[i], p, files[p]) {
      var i :| 0 <= i < |ms| && PathOf(ms[i]) == p;
      assert Tells(ms[i], p, files[p]);
    }
    forall i, j | 0 <= i < j < |ms| ensures ms[i].name != ms[j].name || ms[i].sub != ms[j].sub {
      assert PathOf(ms[i]) != PathOf(ms[j]);
    }
  }

  // ----- flags set are flags shown -----

  /** The file of m, moved to cur/ under these flags: the only one of its base name. */
  lemma FlaggedFile(f: Folder, v: View, i: nat, flags: string, f': Folder, v': View)
    requires i < |v.messages| && FlagsSet(f, v, i, flags, f', v', true) && Canonical(flags) && UniqueBases(f.files)
    requires PathOf(v.messages[i]) in f.files && !Hidden(v.messages[i].name)
    ensures var m := v.messages[i];
      var to := Path(Cur, BaseName(m.name) + ":2," + flags);
      && to in f'.files && f'.files[to] == f.files[PathOf(m)] && !Hidden(to.name) && FlagsOf(to.name) == flags
      && Base(to) == BaseName(m.name)
    ensures UniqueBases(f'.files)
  {
    var m := v.messages[i];
    FlaggedIsTold(m, flags);
    BaseNameNoSep(m.name);
    assert Base(PathOf(m)) == BaseName(m.name);
    assert Base(FlaggedPath(m, flags)) == BaseName(m.name);
  }

  /**
    After a SetFlags that worked, the next Refresh of any mailbox object shows
    the message with exactly the flags set, in cur/, not recent, with its size
    and date, and no other message of its base name.
   */
  lemma FlagsSetAreShown(
    f: Folder, v: View, i: nat, flags: string, f1: Folder, v1: View,
    u: View, minted: nat, fault: Fault, f2: Folder, u2: View, ok: bool)
    requires i < |v.messages| && FlagsSet(f, v, i, flags, f1, v1, true) && Canonical(flags) && UniqueBases(f.files)
    requires PathOf(v.messages[i]) in f.files && !Hidden(v.messages[i].name)
    requires Refreshed(f1, u, minted, fault, f2, u2, ok) && Scans(fault)
    ensures exists j :: 0 <= j < |u2.messages| && ShownAs(u2.messages[j], v.messages[i].name, flags, f.files[PathOf(v.messages[i])])
    ensures forall j :: 0 <= j < |u2.messages| && BaseName(u2.messages[j].name) == BaseName(v.messages[i].name) ==>
      ShownAs(u2.messages[j], v.messages[i].name, flags, f.files[PathOf(v.messages[i])])
  {
    var m := v.messages[i];
    var to, file := Path(Cur, BaseName(m.name) + ":2," + flags), f.files[PathOf(m)];
    FlaggedFile(f, v, i, flags, f1, v1);
    SnapshotTells(f1, u, minted, fault, f2, u2, ok);
    hide FlagsSet, Refreshed, FlagsOf;
    var j :| 0 <= j < |u2.messages| && Tells(u2.messages[j], to, f1.files[to]);
    assert ShownAs(u2.messages[j], m.name, flags, file);
    forall k | 0 <= k < |u2.messages| && BaseName(u2.messages[k].name) == BaseName(m.name)
      ensures ShownAs(u2.messages[k], m.name, flags, file)
    {
      var p := Path(u2.messages[k].sub, u2.messages[k].name);
      assert Base(p) == Base(to) && p in f1.files;
    }
  }

  ghost predicate ShownAs(m: Message, name: string, flags: string, file: File) {
    && BaseName(m.name) == BaseName(name) && m.sub == Cur && m.flags == flags && !m.recent
    && m.size == |file.data| && m.internal == file.mtime
  }

  // ----- copies -----

  /** A Refresh leaves a snapshot whose sizes and dates are those of the files. */
  lemma RefreshDates(f: Folder, v: View, minted: nat, fault: Fault, f': Folder, v': View, ok: bool)
    requires Refreshed(f, v, minted, fault, f', v', ok) && Scans(fault)
    ensures Dated(f'.files, v'.messages)
  {
    SnapshotTells(f, v, minted, fault, f', v', ok);
    hide Tells;
    forall i | 0 <= i < |v'.messages| ensures PathOf(v'.messages[i]) in f'.files ==> DatedAs(f'.files, v'.messages[i]) {
      TellsDate(f.files, v'.messages[i]);
    }
  }

  lemma TellsDate(files: map<Path, File>, m: Message)
    requires PathOf(m) in files && Tells(m, PathOf(m), files[PathOf(m)])
    ensures DatedAs(files, m)
  {
  }

  /** A flag change keeps that, */
  lemma FlagsKeepDates(f: Folder, v: View, i: nat, flags: string, f': Folder, v': View, ok: bool)
    requires i < |v.messages| && FlagsSet(f, v, i, flags, f', v', ok) && UniqueBases(f.files) && DistinctNames(v.messages)
    requires Dated(f.files, v.messages)
    ensures Dated(f'.files, v'.messages)
  {
    var m := v.messages[i];
    BaseNameNoSep(m.name);
    FileNameRoundTrip(BaseName(m.name), flags);
    forall k | 0 <= k < |v'.messages| && PathOf(v'.messages[k]) in f'.files ensures DatedAs(f'.files, v'.messages[k]) {
      if k != i {
        NamesDiffer(v.messages, k, i);
        assert Base(PathOf(v.messages[k])) != Base(FlaggedPath(m, flags));
      }
    }
  }

  lemma NamesDiffer(ms: seq<Message>, k: nat, i: nat)
    requires DistinctNames(ms) && k < |ms| && i < |ms| && k != i
    ensures BaseName(ms[k].name) != BaseName(ms[i].name)
  {
  }

  /** and so does an Expunge. */
  lemma ExpungeKeepsDates(f: Folder, v: View, f': Folder, v': View, seqs: seq<nat>, ok: bool)
    requires Expunged(f, v, f', v', seqs, ok) && Dated(f.files, v.messages)
    ensures Dated(f'.files, v'.messages)
  {
    KeptMembers(v.messages);
    forall k | 0 <= k < |v'.messages| && PathOf(v'.messages[k]) in f'.files ensures DatedAs(f'.files, v'.messages[k]) {
      if ok && seqs != [] {
        assert Kept(v.messages)[k] in Kept(v.messages);
        var j :| 0 <= j < |v.messages| && v.messages[j] == Kept(v.messages)[k];
      }
    }
  }

  // ----- Expunge -----

  /** A successful Expunge takes the file of every message whose flags hold T, and no other file. */
  lemma ExpungeTakes(f: Folder, v: View, f': Folder, v': View, seqs: seq<nat>)
    requires Expunged(f, v, f', v', seqs, true)
    ensures forall p :: p in f'.files <==>
      p in f.files && forall i :: 0 <= i < |v.messages| && Path(v.messages[i].sub, v.messages[i].name) == p ==> 'T' !in v.messages[i].flags
    ensures forall p :: p in f'.files ==> f'.files[p] == f.files[p]
    ensures |seqs| == 0 <==> forall i :: 0 <= i < |v.messages| ==> 'T' !in v.messages[i].flags
  {
    TakenAreDeleted(v.messages);
    NoneReported(v.messages, seqs);
  }

  lemma TakenAreDeleted(ms: seq<Message>)
    ensures forall p :: p in DeletedPaths(ms) <==>
      exists i :: 0 <= i < |ms| && Path(ms[i].sub, ms[i].name) == p && 'T' in ms[i].flags
  {
    forall p ensures p in DeletedPaths(ms) <==> exists i :: 0 <= i < |ms| && Path(ms[i].sub, ms[i].name) == p && 'T' in ms[i].flags {
      if i :| 0 <= i < |ms| && Path(ms[i].sub, ms[i].name) == p && 'T' in ms[i].flags {
        assert IsDeleted(ms[i]) && PathOf(ms[i]) == p;
      }
    }
  }

  lemma NoneReported(ms: seq<Message>, seqs: seq<nat>)
    requires ExpungeNumbers(ms, seqs)
    ensures |seqs| == 0 <==> forall i :: 0 <= i < |ms| ==> 'T' !in ms[i].flags
  {
    assert |seqs| == |multiset(seqs)| == |multiset(DeletedSeqs(ms))| == |DeletedSeqs(ms)|;
    CountReported(ms);
  }

  lemma {:induction false} CountReported(ms: seq<Message>)
    ensures |DeletedSeqs(ms)| == 0 <==> forall i :: 0 <= i < |ms| ==> 'T' !in ms[i].flags
  {
    if ms != [] {
      var n := |ms| - 1;
      CountReported(ms[..n]);
      assert forall i :: 0 <= i < n ==> ms[..n][i] == ms[i];
    }
  }
}
