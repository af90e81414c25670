/**
  A client that missed a report: a poll whose Refresh could not write its list
  has replaced the snapshot without a word. What becomes of the client, over
  every run that follows.
 */
module ImapBehind {
  import opened Text
  import opened Sorting
  import opened Flags
  import opened UidList
  import opened Maildir
  import opened UidSafety
  import opened ImapView
  import UidFaults

  // ----- a client behind its session -----

  /** The part of the snapshot the client knows. */
  function Known(v: View, n: nat, next: nat): View
    requires n <= |v.messages|
  {
    View(v.messages[..n], v.validity, next)
  }

  /** Each message of the snapshot is a file of its own, and the messages are numbered. */
  ghost predicate Listing(files: map<Path, File>, ms: seq<Message>) {
    && Numbered(ms)
    && (forall i :: 0 <= i < |ms| ==> PathOf(ms[i]) in files)
    && forall i, j :: 0 <= i < j < |ms| ==> PathOf(ms[i]) != PathOf(ms[j])
  }

  /** The client holds the first n messages of a longer snapshot, and they are right. */
  ghost predicate Behind(s: Session, n: nat, next: nat) {
    var v := View0(s);
    && Inv(s.w) && n < |v.messages| && Listing(s.w.folder.files, v.messages)
    && SyncedIn(s.w, Known(v, n, next))
    && s.client == Some(Uids(v.messages[..n]))
  }

  // ----- how it starts -----

  /** u shows what v shows, under the same UIDs, and then more. */
  ghost predicate Continues(w: World, v: View, u: View) {
    && Listing(w.folder.files, u.messages) && Ascends(Uids(u.messages)) && Uids(v.messages) <= Uids(u.messages)
    && forall i :: 0 <= i < |v.messages| && i < |u.messages| ==> (BaseName(u.messages[i].name), u.messages[i].uid) in w.given
  }

  lemma SameName(w: World, v: View, u: View, i: nat)
    requires Inv(w) && SyncedIn(w, v) && Continues(w, v, u) && i < |v.messages|
    ensures i < |u.messages| && u.messages[i].uid == v.messages[i].uid < v.next
    ensures BaseName(u.messages[i].name) == BaseName(v.messages[i].name)
  {
    InvMeans(w);
    hide Inv, Disk, OthersLater;
    assert Uids(u.messages)[i] == Uids(v.messages)[i];
    assert Shown(w.folder.files, w.given, v, v.messages[i]);
    assert (BaseName(v.messages[i].name), v.messages[i].uid) in w.given;
    assert (BaseName(u.messages[i].name), u.messages[i].uid) in w.given;
  }

  /** What is known of v is known of the longer snapshot. */
  lemma KnownPrefix(w: World, v: View, u: View)
    requires Inv(w) && SyncedIn(w, v) && Continues(w, v, u)
    ensures |v.messages| <= |u.messages| && SyncedIn(w, Known(u, |v.messages|, v.next))
    ensures Uids(u.messages[..|v.messages|]) == Uids(v.messages)
  {
    var n := |v.messages|;
    assert |Uids(v.messages)| <= |Uids(u.messages)|;
    var k := Known(u, n, v.next);
    assert Uids(u.messages)[..n] == Uids(v.messages);
    assert Uids(k.messages) == Uids(v.messages);
    KnownLater(w, v, u);
    KnownRight(w, v, u);
    hide Inv, Continues, RightMessages, OthersLater, CurrentNext;
  }

  lemma KnownShown(w: World, v: View, u: View, i: nat)
    requires Inv(w) && SyncedIn(w, v) && Continues(w, v, u) && i < |v.messages| <= |u.messages|
    ensures Shown(w.folder.files, w.given, Known(u, |v.messages|, v.next), u.messages[i])
  {
    SameName(w, v, u, i);
  }

  lemma KnownRight(w: World, v: View, u: View)
    requires Inv(w) && SyncedIn(w, v) && Continues(w, v, u) && |v.messages| <= |u.messages|
    ensures RightMessages(w.folder.files, w.given, Known(u, |v.messages|, v.next))
    ensures Numbered(u.messages[..|v.messages|])
  {
    hide Inv, SyncedIn, Shown;
    var n := |v.messages|;
    var k := Known(u, n, v.next);
    forall i | 0 <= i < n ensures Shown(w.folder.files, w.given, k, k.messages[i]) { KnownShown(w, v, u, i); }
    FrontIsRight(w.folder.files, u.messages, n);
  }

  lemma FrontIsRight(files: map<Path, File>, ms: seq<Message>, n: nat)
    requires Listing(files, ms) && Ascends(Uids(ms)) && n <= |ms|
    ensures Numbered(ms[..n]) && Ascends(Uids(ms[..n]))
    ensures forall i, j :: 0 <= i < j < n ==> PathOf(ms[..n][i]) != PathOf(ms[..n][j])
  {
    assert Uids(ms[..n]) == Uids(ms)[..n];
  }

  lemma KnownLater(w: World, v: View, u: View)
    requires Inv(w) && SyncedIn(w, v) && Continues(w, v, u) && |v.messages| <= |u.messages|
    ensures OthersLater(w.folder.files, w.given, Known(u, |v.messages|, v.next))
  {
    hide Inv, Continues;
    var k := Known(u, |v.messages|, v.next);
    forall g, p | g in w.given && p in w.folder.files && Base(p) == g.0 && g.1 < k.next ensures InView(k, g.0) {
      assert InView(v, g.0);
      var i :| 0 <= i < |v.messages| && BaseName(v.messages[i].name) == g.0;
      SameName(w, v, u, i);
      assert k.messages[i] == u.messages[i];
    }
  }

  /** A snapshot is a listing. */
  lemma SnapshotLists(files: map<Path, File>, uids: map<string, nat>, ms: seq<Message>)
    requires Snapshot(files, uids, ms)
    ensures Listing(files, ms)
  {
    forall i | 0 <= i < |ms| ensures PathOf(ms[i]) in files && ms[i].seqNum == i + 1 {
      assert Matches(files, uids, ms[i], i + 1);
    }
  }

  /** A message of a snapshot whose UID was below the UIDNEXT it started from was listed. */
  lemma OldIsGiven(w: World, minted: nat, order: seq<Path>, f': Folder, u: View, i: nat)
    requires Inv(w) && 1 <= minted < TWO32 && Room(w.folder, minted)
    requires RefreshedInOrder(w.folder, minted, order, false, f', u, false) && i < |u.messages|
    ensures u.messages[i].uid < Read(w.folder.list, minted).next ==>
      (BaseName(u.messages[i].name), u.messages[i].uid) in w.given
  {
    var l := Read(w.folder.list, minted);
    var a := Assign(Bases(order), l.uids, l.next);
    RefreshAssigns(w, minted, order);
    ReadFacts(w, minted);
    assert Matches(w.folder.files, a.uids, u.messages[i], i + 1);
    hide Inv, Parse, Snapshot, Assign, ScanOrder;
    var b := BaseName(u.messages[i].name);
    if u.messages[i].uid < l.next { assert b in l.uids && (b, l.uids[b]) in w.given; }
  }

  lemma FailedContinues(w: World, v: View, minted: nat, order: seq<Path>, f': Folder, u: View)
    requires Inv(w) && SyncedIn(w, v) && 1 <= minted < TWO32 && Room(w.folder, minted)
    requires RefreshedInOrder(w.folder, minted, order, false, f', u, false)
    ensures Continues(w, v, u)
  {
    FailedLists(w, minted, order, f', u);
    FailedPrefix(w, v, minted, order, f', u);
    assert |Uids(v.messages)| <= |Uids(u.messages)|;
    ReadNext(w, minted);
    hide Inv, Parse, RefreshedFrom, RightMessages, OthersLater, Disk, Listing, Ascends;
    forall i | 0 <= i < |v.messages| && i < |u.messages| ensures (BaseName(u.messages[i].name), u.messages[i].uid) in w.given {
      assert Uids(u.messages)[i] == Uids(v.messages)[i];
      KnownBelow(w, v, i);
      OldIsGiven(w, minted, order, f', u, i);
    }
  }

  lemma KnownBelow(w: World, v: View, i: nat)
    requires SyncedIn(w, v) && i < |v.messages|
    ensures v.messages[i].uid < v.next <= CurrentNext(w)
  {
    assert Shown(w.folder.files, w.given, v, v.messages[i]);
  }

  lemma FailedLists(w: World, minted: nat, order: seq<Path>, f': Folder, u: View)
    requires Inv(w) && 1 <= minted < TWO32 && Room(w.folder, minted)
    requires RefreshedInOrder(w.folder, minted, order, false, f', u, false)
    ensures Listing(w.folder.files, u.messages) && Ascends(Uids(u.messages))
  {
    var l := Read(w.folder.list, minted);
    var a := Assign(Bases(order), l.uids, l.next);
    RefreshAssigns(w, minted, order);
    SnapshotLists(w.folder.files, a.uids, u.messages);
    SnapshotAscends(w.folder.files, a, u.messages);
  }

  lemma FailedPrefix(w: World, v: View, minted: nat, order: seq<Path>, f': Folder, u: View)
    requires Inv(w) && SyncedIn(w, v) && 1 <= minted < TWO32 && Room(w.folder, minted)
    requires RefreshedInOrder(w.folder, minted, order, false, f', u, false)
    ensures Uids(v.messages) <= Uids(u.messages)
  {
    var older, newer := Uids(v.messages), Uids(u.messages);
    FailedLists(w, minted, order, f', u);
    SyncedLists(w, v);
    forall n | n in older ensures n in newer && n < v.next { OldUidShown(w, v, minted, order, f', u, n); }
    forall n | n in newer && n !in older ensures n >= v.next { NewUidLater(w, v, minted, order, f', u, n); }
    hide Inv, SyncedIn, RefreshedFrom, Listing;
    AscendingPrefix(older, newer, v.next, |older|);
    assert older[..|older|] == older;
  }

  lemma NewUidLater(w: World, v: View, minted: nat, order: seq<Path>, f': Folder, u: View, n: nat)
    requires Inv(w) && SyncedIn(w, v) && 1 <= minted < TWO32 && Room(w.folder, minted)
    requires RefreshedInOrder(w.folder, minted, order, false, f', u, false) && n in Uids(u.messages) && n !in Uids(v.messages)
    ensures n >= v.next
  {
    FailedLists(w, minted, order, f', u);
    ReadNext(w, minted);
    var i :| 0 <= i < |u.messages| && u.messages[i].uid == n;
    OldIsGiven(w, minted, order, f', u, i);
    hide Inv, RefreshedFrom, Disk, OthersLater, Parse;
    if n < v.next { OldGivenShown(w, v, (BaseName(u.messages[i].name), n), PathOf(u.messages[i])); }
  }

  lemma ReadNext(w: World, minted: nat)
    requires Inv(w)
    ensures CurrentNext(w) == Read(w.folder.list, minted).next
  {
  }

  lemma OldUidShown(w: World, v: View, minted: nat, order: seq<Path>, f': Folder, u: View, n: nat)
    requires Inv(w) && SyncedIn(w, v) && 1 <= minted < TWO32 && Room(w.folder, minted) && n in Uids(v.messages)
    requires RefreshedInOrder(w.folder, minted, order, false, f', u, false)
    ensures n in Uids(u.messages) && n < v.next
  {
    var l := Read(w.folder.list, minted);
    var a := Assign(Bases(order), l.uids, l.next);
    var i: nat :| i < |v.messages| && v.messages[i].uid == n;
    var m := v.messages[i];
    SyncedShown(w, v, i);
    RefreshAssigns(w, minted, order);
    assert !Hidden(PathOf(m).name);
    hide Inv, Parse, Assign, ScanOrder, OthersLater, SyncedIn, ListInv, Room, Read, UidsBelow, Snapshot, Rewritten;
    ListedUid(w, l, m);
    AssignedIsShown(w.folder.files, l, Bases(order), a, u, m);
  }

  /** A message that is listed, and whose file is there, is shown under the UID of the list. */
  lemma AssignedIsShown(files: map<Path, File>, l: List, bases: seq<string>, a: Assignment, u: View, m: Message)
    requires Extends(l.uids, l.next, bases, a) && Snapshot(files, a.uids, u.messages)
    requires PathOf(m) in files && !Hidden(m.name) && BaseName(m.name) in l.uids && l.uids[BaseName(m.name)] == m.uid
    ensures m.uid in Uids(u.messages)
  {
    var j :| 0 <= j < |u.messages| && PathOf(u.messages[j]) == PathOf(m);
    assert Matches(files, a.uids, u.messages[j], j + 1);
    assert Uids(u.messages)[j] == m.uid;
  }

  lemma SyncedShown(w: World, v: View, i: nat)
    requires SyncedIn(w, v) && i < |v.messages|
    ensures Shown(w.folder.files, w.given, v, v.messages[i]) && v.messages[i].uid < v.next
  {
  }

  lemma ListedUid(w: World, l: List, m: Message)
    requires ListInv(w.folder.files, w.used, w.given, l)
    requires PathOf(m) in w.folder.files && (BaseName(m.name), m.uid) in w.given
    ensures BaseName(m.name) in l.uids && l.uids[BaseName(m.name)] == m.uid
  {
    var b := BaseName(m.name);
    assert Base(PathOf(m)) == b;
    assert (b, l.uids[b]) in w.given;
  }

  /** A session in step, after a poll whose Refresh could not write the list: the client is behind. */
  lemma FailedPollFallsBehind(s: Session, minted: nat, order: seq<Path>, s': Session)
    requires InStep(s) && 1 <= minted < TWO32 && Room(s.w.folder, minted)
    requires s'.box == s.box && s'.client == s.client && Next(s.w, Refresh(s.box, minted, WriteFails), s'.w)
    requires RefreshedInOrder(s.w.folder, minted, order, false, s'.w.folder, View0(s'), false)
    ensures Behind(s', |View0(s).messages|, View0(s).next)
  {
    var v, u := View0(s), View0(s');
    FailedShowsMore(s.w, v, minted, order, s'.w.folder, u);
    FailedContinues(s.w, v, minted, order, s'.w.folder, u);
    OthersKeepSynced(s.w, Refresh(s.box, minted, WriteFails), s'.w, v);
    StepContinues(s.w, s'.w) by { assert Steps(s.w, s'.w); }
    hide Inv, SyncedIn, Disk;
    assert Continues(s'.w, v, u);
    KnownPrefix(s'.w, v, u);
  }

  // ----- what each event does -----

  lemma OthersKeepBehind(s: Session, n: nat, next: nat, a: Action, s': Session)
    requires Behind(s, n, next) && SessionStep(s, Others(a), s')
    ensures Behind(s', n, next)
  {
    var v := View0(s);
    OthersKeepSynced(s.w, a, s'.w, Known(v, n, next));
    assert View0(s') == v;
    OthersKeepListing(s.w, a, s'.w, v.messages);
  }

  lemma OthersKeepListing(w: World, a: Action, w': World, ms: seq<Message>)
    requires (a.Place? || a.Refresh?) && Next(w, a, w') && Listing(w.folder.files, ms)
    ensures Listing(w'.folder.files, ms)
  {
  }

  /** A poll that sees the count change brings the client in step; one that does not leaves it behind. */
  lemma PollFromBehind(s: Session, n: nat, next: nat, minted: nat, always: bool, s': Session)
    requires Behind(s, n, next) && SessionStep(s, Poll(minted, always), s')
    ensures if |View0(s').messages| != |View0(s).messages| || always then InStep(s') else Behind(s', n, next)
  {
    var k, v, u := Known(View0(s), n, next), View0(s), View0(s');
    RefreshAppends(s.w, k, s.box, minted, s'.w);
    RefreshShowsAll(s.w, s.box, minted, s'.w);
    OthersKeepSynced(s.w, Refresh(s.box, minted, NoFault), s'.w, k);
    var recent :| s'.client == HearAll(s.client, PollReport(|v.messages|, |u.messages|, recent, always), Uids(u.messages));
    hide Inv, SyncedIn, Disk, Next;
    if |u.messages| != |v.messages| || always {
      HearAnyReport(Uids(k.messages), Uids(u.messages), |v.messages|, recent, always);
    } else {
      SyncedLists(s'.w, u);
      KnownPrefix(s'.w, k, u);
    }
  }

  lemma HearAnyReport(older: seq<nat>, newer: seq<nat>, before: nat, recent: nat, always: bool)
    requires older <= newer && (before != |newer| || always)
    ensures HearAll(Some(older), PollReport(before, |newer|, recent, always), newer) == Some(newer)
  {
    assert older + newer[|older|..|newer|] == newer;
    if always {
      HearOne(Some(older), Exists(|newer|), newer);
    } else {
      HearTwo(Some(older), Exists(|newer|), Recent(recent), newer);
    }
  }

  lemma SyncedLists(w: World, u: View)
    requires SyncedIn(w, u)
    ensures Listing(w.folder.files, u.messages) && Ascends(Uids(u.messages))
    ensures forall i :: 0 <= i < |u.messages| ==> (BaseName(u.messages[i].name), u.messages[i].uid) in w.given
  {
    forall i | 0 <= i < |u.messages| ensures Shown(w.folder.files, w.given, u, u.messages[i]) {}
  }

  // ----- STORE -----

  lemma FlaggedListing(files: map<Path, File>, ms: seq<Message>, i: nat, flags: string, files': map<Path, File>)
    requires UniqueBases(files) && Listing(files, ms) && i < |ms|
    requires var from, to := PathOf(ms[i]), FlaggedPath(ms[i], flags);
      Base(to) == Base(from) && files' == if from == to then files else Rename(files, from, to)
    ensures Listing(files', ms[i := Flagged(ms[i], flags)])
  {
    var from, to, ms' := PathOf(ms[i]), FlaggedPath(ms[i], flags), ms[i := Flagged(ms[i], flags)];
    assert PathOf(ms'[i]) == to;
    forall k | 0 <= k < |ms| && k != i ensures PathOf(ms[k]) != from && PathOf(ms[k]) != to {
      assert PathOf(ms[if k < i then k else i]) != PathOf(ms[if k < i then i else k]);
    }
  }

  /** Renaming a file the view does not show leaves the view right. */
  lemma RenameElsewhere(
    files: map<Path, File>, given: set<(string, nat)>, next: nat, v: View, from: Path, to: Path)
    requires UniqueBases(files) && Synced(files, given, next, v) && from in files && Base(to) == Base(from)
    requires forall i :: 0 <= i < |v.messages| ==> PathOf(v.messages[i]) != from
    ensures Synced(Rename(files, from, to), given, next, v)
  {
    var files' := Rename(files, from, to);
    forall i | 0 <= i < |v.messages| ensures Shown(files', given, v, v.messages[i]) {
      assert Shown(files, given, v, v.messages[i]);
    }
    forall g, p | g in given && p in files' && Base(p) == g.0 && g.1 < v.next ensures InView(v, g.0) {
      assert p in files || (p == to && Base(from) == g.0);
    }
  }

  lemma StoreKeepsBehind(s: Session, n: nat, next: nat, i: nat, flags: string, s': Session)
    requires Behind(s, n, next) && SessionStep(s, Store(i, flags), s')
    ensures Behind(s', n, next)
  {
    var v, v', files, files' := View0(s), View0(s'), s.w.folder.files, s'.w.folder.files;
    var m := v.messages[i];
    RenameKeepsFiles(files, s.w.used, PathOf(m), flags);
    SetFlagsKeepsInv(s.w, SetFlags(s.box, i, flags), s'.w);
    FlaggedListing(files, v.messages, i, flags, files');
    assert Disk(s'.w) == Disk(s.w) && s'.w.given == s.w.given;
    hide Inv, Disk, Listing, Next;
    KnownAfterStore(s.w, v, n, next, i, flags, s'.w, v', files');
    assert v'.messages[..n] == if i < n then v.messages[..n][i := Flagged(m, flags)] else v.messages[..n];
    assert Uids(v'.messages[..n]) == Uids(v.messages[..n]);
  }

  lemma KnownAfterStore(
    w: World, v: View, n: nat, next: nat, i: nat, flags: string, w': World, v': View, files': map<Path, File>)
    requires UniqueBases(w.folder.files) && n <= |v.messages| && i < |v.messages| && Listing(w.folder.files, v.messages)
    requires SyncedIn(w, Known(v, n, next)) && CurrentNext(w') == CurrentNext(w) && w'.given == w.given
    requires v' == v.(messages := v.messages[i := Flagged(v.messages[i], flags)]) && w'.folder.files == files'
    requires var from, to := PathOf(v.messages[i]), FlaggedPath(v.messages[i], flags);
      && Base(to) == Base(from) && from in w.folder.files
      && files' == if from == to then w.folder.files else Rename(w.folder.files, from, to)
    ensures SyncedIn(w', Known(v', n, next))
  {
    var files, k, k' := w.folder.files, Known(v, n, next), Known(v', n, next);
    var from, to := PathOf(v.messages[i]), FlaggedPath(v.messages[i], flags);
    hide CurrentNext, Synced;
    if i < n {
      assert k'.messages == k.messages[i := Flagged(k.messages[i], flags)];
      FlaggedStaysSynced(files, w.given, CurrentNext(w), k, i, flags, files', k');
    } else {
      assert k'.messages == k.messages;
      forall j | 0 <= j < n ensures PathOf(k.messages[j]) != from { assert PathOf(v.messages[j]) != PathOf(v.messages[i]); }
      if from != to { RenameElsewhere(files, w.given, CurrentNext(w), k, from, to); }
    }
  }

  // ----- EXPUNGE -----

  /** Some message the client does not know of is removed. */
  ghost predicate LosesUnheard(ms: seq<Message>, n: nat) { exists k :: n <= k < |ms| && IsDeleted(ms[k]) }

  /** The client is told a number it does not have, or exactly what becomes of the messages it knows. */
  lemma {:induction false} HearShort(ms: seq<Message>, n: nat, server: seq<nat>)
    requires n <= |ms|
    ensures HearAll(Some(Uids(ms[..n])), Expunges(DeletedPositions(ms)), server) ==
      if LosesUnheard(ms, n) then None else Some(Uids(Kept(ms[..n])))
    decreases |ms|
  {
    if |ms| == n {
      assert ms[..n] == ms;
      HearExpunge(ms, server);
    } else {
      var m := |ms| - 1;
      PositionsOf(ms);
      assert ms[..m][..n] == ms[..n];
      if IsDeleted(ms[m]) {
        HearTooMuch(Uids(ms[..n]), m + 1, DeletedPositions(ms[..m]), server);
      } else {
        HearShort(ms[..m], n, server);
        LosesLast(ms, n);
      }
    }
  }

  lemma HearTooMuch(c: seq<nat>, k: nat, ks: seq<nat>, server: seq<nat>)
    requires k > |c|
    ensures HearAll(Some(c), Expunges([k] + ks), server) == None
  {
    var all := Expunges([k] + ks);
    assert all[0] == Response.Expunge(k) && all[1..] == Expunges(ks);
    HearNone(Expunges(ks), server);
  }

  lemma LosesLast(ms: seq<Message>, n: nat)
    requires n < |ms| && !IsDeleted(ms[|ms| - 1])
    ensures LosesUnheard(ms, n) <==> LosesUnheard(ms[..|ms| - 1], n)
  {
    var m := |ms| - 1;
    var front := ms[..m];
    if k :| n <= k < |ms| && IsDeleted(ms[k]) { assert IsDeleted(front[k]); }
    if k :| n <= k < |front| && IsDeleted(front[k]) { assert IsDeleted(ms[k]); }
  }

  /** When nothing unheard is removed, the rest of the snapshot stays behind what is kept of the known part. */
  lemma {:induction false} KeptParts(ms: seq<Message>, n: nat)
    requires n <= |ms| && !LosesUnheard(ms, n)
    ensures Kept(ms) == Kept(ms[..n]) + ms[n..] && DeletedPaths(ms) == DeletedPaths(ms[..n])
    decreases |ms|
  {
    if |ms| == n {
      assert ms[..n] == ms && ms[n..] == [];
    } else {
      var m := |ms| - 1;
      LosesLast(ms, n);
      assert !IsDeleted(ms[m]);
      KeptParts(ms[..m], n);
      LastOf(ms);
      PathsOfLast(ms);
      hide Kept, DeletedPaths, IsDeleted, LosesUnheard;
      assert ms[..m][..n] == ms[..n] && ms[n..] == ms[..m][n..] + [ms[m]];
    }
  }

  lemma PathsOfLast(ms: seq<Message>)
    requires ms != [] && !IsDeleted(ms[|ms| - 1])
    ensures DeletedPaths(ms) == DeletedPaths(ms[..|ms| - 1])
  {
    var m := |ms| - 1;
    var front := ms[..m];
    assert forall k :: 0 <= k < m ==> front[k] == ms[k];
  }

  lemma KeptIsListing(files: map<Path, File>, ms: seq<Message>, ms': seq<Message>)
    requires Listing(files, ms) && |ms'| == |Kept(ms)|
    requires forall i :: 0 <= i < |ms'| ==> ms'[i] == Kept(ms)[i].(seqNum := i + 1)
    ensures Listing(files - DeletedPaths(ms), ms')
  {
    KeptMembers(ms);
    KeptApart(ms);
    forall i | 0 <= i < |ms'| ensures PathOf(ms'[i]) in files - DeletedPaths(ms) {
      var m := Kept(ms)[i];
      assert m in Kept(ms);
      KeptFile(files, ms, m);
    }
  }

  lemma KeptFile(files: map<Path, File>, ms: seq<Message>, m: Message)
    requires Listing(files, ms) && m in ms && !IsDeleted(m)
    ensures PathOf(m) in files - DeletedPaths(ms)
  {
    var k :| 0 <= k < |ms| && ms[k] == m;
    forall j | 0 <= j < |ms| && IsDeleted(ms[j]) ensures PathOf(ms[j]) != PathOf(m) {
      assert PathOf(ms[if j < k then j else k]) != PathOf(ms[if j < k then k else j]);
    }
  }

  ghost predicate Apart(ms: seq<Message>) { forall i, j :: 0 <= i < j < |ms| ==> PathOf(ms[i]) != PathOf(ms[j]) }

  lemma {:induction false} KeptApart(ms: seq<Message>)
    requires Apart(ms)
    ensures Apart(Kept(ms))
  {
    if ms != [] {
      var m := |ms| - 1;
      KeptApart(ms[..m]);
      KeptMembers(ms[..m]);
      var front := Kept(ms[..m]);
      forall i | 0 <= i < |front| ensures PathOf(front[i]) != PathOf(ms[m]) {
        assert front[i] in front && front[i] in ms[..m];
      }
    }
  }

  /** An EXPUNGE that removes an unheard message loses the client; another one leaves it as far behind as it was. */
  lemma ExpungeFromBehind(s: Session, n: nat, next: nat, s': Session)
    requires Behind(s, n, next) && SessionStep(s, ExpungeCmd, s')
    ensures var ms := View0(s).messages;
      if LosesUnheard(ms, n) then s'.client == None else Behind(s', |Kept(ms[..n])|, next)
  {
    var w, w', v, v' := s.w, s'.w, View0(s), View0(s');
    var ms := v.messages;
    ExpungeKeepsInv(w, Action.Expunge(s.box), w');
    var seqs :| Expunged(w.folder, v, w'.folder, v', seqs, true) &&
      s'.client == HearAll(s.client, Expunges(seqs), Uids(v'.messages));
    ExpungedShown(v, seqs, v');
    HearShort(ms, n, Uids(v'.messages));
    if !LosesUnheard(ms, n) {
      KeptParts(ms, n);
      KeptIsListing(w.folder.files, ms, v'.messages);
      assert Disk(w') == Disk(w) && w'.given == w.given;
      hide Inv, Disk, Listing, Next, LosesUnheard, HearAll;
      KnownAfterExpunge(w, v, n, next, w', v');
    }
  }

  lemma ExpungedShown(v: View, seqs: seq<nat>, v': View)
    requires Numbered(v.messages) && ExpungeNumbers(v.messages, seqs)
    requires v' == if seqs == [] then v else v.(messages := Renumber(Kept(v.messages)))
    ensures seqs == DeletedPositions(v.messages) && v'.next == v.next && |v'.messages| == |Kept(v.messages)|
    ensures forall i :: 0 <= i < |v'.messages| ==> v'.messages[i] == Kept(v.messages)[i].(seqNum := i + 1)
  {
    hide ExpungeNumbers;
    ExpungeNumbersDescend(v.messages, seqs);
    if seqs == [] { NothingDeleted(v.messages); }
  }

  lemma KnownAfterExpunge(w: World, v: View, n: nat, next: nat, w': World, v': View)
    requires UniqueBases(w.folder.files) && n < |v.messages| && SyncedIn(w, Known(v, n, next))
    requires CurrentNext(w') == CurrentNext(w) && w'.given == w.given
    requires Kept(v.messages) == Kept(v.messages[..n]) + v.messages[n..]
    requires DeletedPaths(v.messages) == DeletedPaths(v.messages[..n])
    requires w'.folder.files == w.folder.files - DeletedPaths(v.messages) && |v'.messages| == |Kept(v.messages)|
    requires forall i :: 0 <= i < |v'.messages| ==> v'.messages[i] == Kept(v.messages)[i].(seqNum := i + 1)
    ensures var n' := |Kept(v.messages[..n])|;
      && n' < |v'.messages| && SyncedIn(w', Known(v', n', next))
      && Uids(v'.messages[..n']) == Uids(Kept(v.messages[..n]))
  {
    hide CurrentNext, Synced;
    var n' := |Kept(v.messages[..n])|;
    var k, k' := Known(v, n, next), Known(v', n', next);
    forall i | 0 <= i < n' ensures k'.messages[i] == Kept(k.messages)[i].(seqNum := i + 1) {
      assert Kept(v.messages)[i] == Kept(v.messages[..n])[i];
    }
    ExpungedStaysSynced(w.folder.files, w.given, CurrentNext(w), k, w'.folder.files, k');
  }

  // ----- every run -----

  datatype Status = Missing(n: nat) | Told | Lost

  /** What an event makes of the client. */
  ghost function After(st: Status, s: Session, e: Event, s': Session): Status {
    match st
    case Told => Told
    case Lost => Lost
    case Missing(n) =>
      match e
      case Poll(_, always) => if |View0(s').messages| != |View0(s).messages| || always then Told else st
      case ExpungeCmd =>
        if LosesUnheard(View0(s).messages, n) then Lost
        else if n <= |View0(s).messages| then Missing(|Kept(View0(s).messages[..n])|)
        else st
      case _ => st
  }

  ghost predicate Runs(ss: seq<Session>, es: seq<Event>) {
    |ss| == |es| + 1 && forall k :: 0 <= k < |es| ==> EventAt(ss, es, k)
  }

  ghost predicate EventAt(ss: seq<Session>, es: seq<Event>, k: nat)
    requires k < |es| && |ss| == |es| + 1
  {
    SessionStep(ss[k], es[k], ss[k + 1])
  }

  ghost function StatusAt(ss: seq<Session>, es: seq<Event>, n: nat, k: nat): Status
    requires |ss| == |es| + 1 && k < |ss|
  {
    if k == 0 then Missing(n) else After(StatusAt(ss, es, n, k - 1), ss[k - 1], es[k - 1], ss[k])
  }

  /** The client as its status says: in step, lost, or with the first messages of a longer snapshot. */
  ghost predicate Fits(st: Status, s: Session) {
    match st
    case Told => InStep(s)
    case Lost => s.client == None
    case Missing(n) => exists next :: Behind(s, n, next)
  }

  lemma LostStaysLost(s: Session, e: Event, s': Session)
    requires s.client == None && SessionStep(s, e, s')
    ensures s'.client == None
  {
    match e
    case Poll(minted, always) =>
      var recent :| s'.client == HearAll(s.client,
        PollReport(|View0(s).messages|, |View0(s').messages|, recent, always), Uids(View0(s').messages));
      HearNone(PollReport(|View0(s).messages|, |View0(s').messages|, recent, always), Uids(View0(s').messages));
    case ExpungeCmd =>
      var seqs :| Expunged(s.w.folder, View0(s), s'.w.folder, View0(s'), seqs, true) &&
        s'.client == HearAll(s.client, Expunges(seqs), Uids(View0(s').messages));
      HearNone(Expunges(seqs), Uids(View0(s').messages));
    case _ =>
  }

  lemma EventFits(st: Status, s: Session, e: Event, s': Session)
    requires Fits(st, s) && SessionStep(s, e, s')
    ensures Fits(After(st, s, e, s'), s')
  {
    match st
    case Told => ToldStaysTold(s, e, s');
    case Lost => LostStaysLost(s, e, s');
    case Missing(n) =>
      var next :| Behind(s, n, next);
      MissingFits(s, n, next, e, s');
  }

  lemma ToldStaysTold(s: Session, e: Event, s': Session)
    requires InStep(s) && SessionStep(s, e, s')
    ensures InStep(s')
  {
    hide InStep, SessionStep;
    assert SessionSteps(s, s');
    StepKeepsStep(s, s');
  }

  lemma MissingFits(s: Session, n: nat, next: nat, e: Event, s': Session)
    requires Behind(s, n, next) && SessionStep(s, e, s')
    ensures Fits(After(Missing(n), s, e, s'), s')
  {
    assert n <= |View0(s).messages|;
    hide Behind, SessionStep, InStep, LosesUnheard;
    match e
    case Others(a) => OthersKeepBehind(s, n, next, a, s');
    case Poll(minted, always) => PollFromBehind(s, n, next, minted, always, s');
    case Store(i, flags) => StoreKeepsBehind(s, n, next, i, flags, s');
    case ExpungeCmd => ExpungeFromBehind(s, n, next, s');
  }

  /**
    From a failed poll on, over every run: the client stays behind, with the
    first messages of the snapshot, until the first poll that sees the count
    change (or APPEND) brings it in step for good, or the first EXPUNGE of a
    message it was not told of makes it lose count for good.
   */
  lemma {:induction false} BehindRun(ss: seq<Session>, es: seq<Event>, n: nat, next: nat, k: nat)
    requires Runs(ss, es) && Behind(ss[0], n, next) && k < |ss|
    ensures Fits(StatusAt(ss, es, n, k), ss[k])
  {
    hide Behind, SessionStep, InStep, LosesUnheard;
    if k > 0 {
      BehindRun(ss, es, n, next, k - 1);
      assert EventAt(ss, es, k - 1);
      EventFits(StatusAt(ss, es, n, k - 1), ss[k - 1], es[k - 1], ss[k]);
    }
  }

  // ----- on a concrete folder -----

  /**
    An empty mailbox was selected; "a" arrives; the poll cannot write the list.
    The next poll can, sees one message as before, and says nothing: the client
    still holds none, and the number of its EXPUNGE is beyond it.
   */
  lemma SilentExample() returns (f: Folder, f': Folder)
    ensures var v, order := UidFaults.OneView("a"), [Path(New, "a")];
      && RefreshedInOrder(f, 1, order, false, f, v, false) && RefreshedInOrder(f, 1, order, true, f', v, true)
      && PollReport(|v.messages|, |v.messages|, 1, false) == []
      && HearAll(Some([]), [], Uids(v.messages)) == Some([]) != Some(Uids(v.messages))
      && HearAll(Some([]), Expunges([1]), []) == None
  {
    var empty, full := Render(7, 1, []), Render(7, 2, [Entry("a", 1)]);
    UidFaults.EmptyListReads();
    UidFaults.OneWritten("a");
    UidFaults.OneNewFile("a", empty, empty, false);
    UidFaults.OneNewFile("a", empty, full, true);
    f, f' := Folder(UidFaults.OneFile("a"), Some(empty)), Folder(UidFaults.OneFile("a"), Some(full));
    hide Render, RefreshedInOrder;
    assert [1] + [] == [1];
    HearTooMuch([], 1, [], []);
    assert Uids(UidFaults.OneView("a").messages)[0] == 1;
  }
}
