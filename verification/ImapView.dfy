/**
  A client that only listens to EXISTS and EXPUNGE stays in step with the
  selected mailbox, over every run in which nobody else removes or renames mail.
 */
module ImapView {
  import opened Text
  import opened Sorting
  import opened Flags
  import opened UidList
  import opened Maildir
  import opened UidSafety

  datatype Response = Exists(n: nat) | Recent(n: nat) | Expunge(k: nat)

  function Uids(messages: seq<Message>): (r: seq<nat>)
    ensures |r| == |messages| && forall i :: 0 <= i < |r| ==> r[i] == messages[i].uid
  {
    seq(|messages|, i requires 0 <= i < |messages| => messages[i].uid)
  }

  // ----- the client -----

  /**
    What the client holds after one response, None once it is lost. EXISTS may
    only grow the mailbox; the client then learns the new messages from the
    server. EXPUNGE removes one position and moves the ones above it down.
   */
  function Hear(client: Option<seq<nat>>, r: Response, server: seq<nat>): Option<seq<nat>> {
    match client
    case None => None
    case Some(c) =>
      match r
      case Exists(n) => if |c| <= n <= |server| then Some(c + server[|c|..n]) else None
      case Recent(_) => client
      case Expunge(k) => if 1 <= k <= |c| then Some(c[..k - 1] + c[k..]) else None
  }

  function HearAll(client: Option<seq<nat>>, rs: seq<Response>, server: seq<nat>): Option<seq<nat>>
    decreases rs
  {
    if rs == [] then client else HearAll(Hear(client, rs[0], server), rs[1..], server)
  }

  function Expunges(ks: seq<nat>): (r: seq<Response>)
    ensures |r| == |ks| && forall i :: 0 <= i < |r| ==> r[i] == Response.Expunge(ks[i])
  {
    seq(|ks|, i requires 0 <= i < |ks| => Response.Expunge(ks[i]))
  }

  /** EXPUNGE numbers that make sense on a prefix leave what follows it alone. */
  lemma {:induction false} ExpungesLeaveTail(c: seq<nat>, tail: seq<nat>, ks: seq<nat>, server: seq<nat>)
    requires HearAll(Some(c), Expunges(ks), server).Some?
    ensures HearAll(Some(c + tail), Expunges(ks), server) == Some(HearAll(Some(c), Expunges(ks), server).value + tail)
  {
    if ks == [] {
    } else {
      var rs := Expunges(ks);
      assert rs[1..] == Expunges(ks[1..]);
      var k := ks[0];
      HearNone(Expunges(ks[1..]), server);
      var c' := c[..k - 1] + c[k..];
      assert (c + tail)[..k - 1] + (c + tail)[k..] == c' + tail;
      ExpungesLeaveTail(c', tail, ks[1..], server);
    }
  }

  lemma {:induction false} HearNone(rs: seq<Response>, server: seq<nat>)
    ensures HearAll(None, rs, server) == None
  {
    if rs != [] { HearNone(rs[1..], server); }
  }

  lemma HearLastGone(c: seq<nat>, u: nat, ks: seq<nat>, server: seq<nat>)
    ensures HearAll(Some(c + [u]), Expunges([|c| + 1] + ks), server) == HearAll(Some(c), Expunges(ks), server)
  {
    var all := Expunges([|c| + 1] + ks);
    assert all[0] == Response.Expunge(|c| + 1) && all[1..] == Expunges(ks);
    assert (c + [u])[..|c|] + (c + [u])[|c| + 1..] == c;
  }

  lemma LastOf(messages: seq<Message>)
    requires messages != []
    ensures var front, last := messages[..|messages| - 1], messages[|messages| - 1];
      && Uids(messages) == Uids(front) + [last.uid]
      && (IsDeleted(last) ==> Kept(messages) == Kept(front))
      && (!IsDeleted(last) ==> Kept(messages) == Kept(front) + [last])
  {
  }

  lemma PositionsOf(messages: seq<Message>)
    requires messages != []
    ensures var front, last := messages[..|messages| - 1], messages[|messages| - 1];
      DeletedPositions(messages) == if IsDeleted(last) then [|front| + 1] + DeletedPositions(front) else DeletedPositions(front)
  {
  }

  lemma HearKeptLast(c: seq<nat>, u: nat, ks: seq<nat>, kept: seq<nat>, server: seq<nat>)
    requires HearAll(Some(c), Expunges(ks), server) == Some(kept)
    ensures HearAll(Some(c + [u]), Expunges(ks), server) == Some(kept + [u])
  {
    hide HearAll;
    ExpungesLeaveTail(c, [u], ks, server);
  }

  /** Hearing the removed positions, last first, leaves exactly the kept messages. */
  lemma {:induction false} HearExpunge(messages: seq<Message>, server: seq<nat>)
    ensures HearAll(Some(Uids(messages)), Expunges(DeletedPositions(messages)), server) == Some(Uids(Kept(messages)))
  {
    if messages != [] {
      hide HearAll, IsDeleted, DeletedPositions, Kept;
      var n := |messages| - 1;
      var front, last := messages[..n], messages[n];
      HearExpunge(front, server);
      LastOf(messages);
      PositionsOf(messages);
      if IsDeleted(last) {
        HearLastGone(Uids(front), last.uid, DeletedPositions(front), server);
      } else {
        HearKeptLast(Uids(front), last.uid, DeletedPositions(front), Uids(Kept(front)), server);
        assert Uids(Kept(messages)) == Uids(Kept(front)) + [last.uid];
      }
    }
  }

  // ----- the session -----

  /** The world of the selected folder, the session's mailbox object in it, and its client. */
  datatype Session = Session(w: World, box: nat, client: Option<seq<nat>>)

  function View0(s: Session): View { ViewAt(s.w, s.box) }

  datatype Event =
    | Others(a: Action)               // a delivery, or a Refresh by any other mailbox object
    | Poll(minted: nat, always: bool) // NOOP and IDLE; always: the report at the end of APPEND
    | Store(i: nat, flags: string)
    | ExpungeCmd                      // EXPUNGE, and the last step of MOVE

  /** pollAndReport tells the client the new count only when it changed. */
  function PollReport(before: nat, after: nat, recent: nat, always: bool): seq<Response> {
    if always then [Exists(after)] else if after != before then [Exists(after), Recent(recent)] else []
  }

  ghost predicate SessionStep(s: Session, e: Event, s': Session) {
    && s'.box == s.box
    && match e
       case Others(a) =>
         && (a.Place? || (a.Refresh? && a.box != s.box)) && Next(s.w, a, s'.w) && s'.client == s.client
       case Poll(minted, always) =>
         && Next(s.w, Refresh(s.box, minted, NoFault), s'.w)
         && exists recent :: s'.client == HearAll(s.client,
                 PollReport(|View0(s).messages|, |View0(s').messages|, recent, always), Uids(View0(s').messages))
       case Store(i, flags) =>
         && i < |View0(s).messages| && s'.client == s.client
         && BoxStep(s.w, s.box, s'.w)
         && FlagsSet(s.w.folder, View0(s), i, flags, s'.w.folder, View0(s'), true)
       case ExpungeCmd =>
         && BoxStep(s.w, s.box, s'.w)
         && exists seqs :: Expunged(s.w.folder, View0(s), s'.w.folder, View0(s'), seqs, true)
              && s'.client == HearAll(s.client, Expunges(seqs), Uids(View0(s').messages))
  }

  /** SELECT: a new mailbox object, refreshed, and a client told only its EXISTS. */
  ghost predicate Selected(w: World, s: Session, minted: nat) {
    && Inv(w) && s.box !in w.boxes
    && Next(w, Refresh(s.box, minted, NoFault), s.w)
    && s.client == HearAll(Some([]), [Exists(|View0(s).messages|)], Uids(View0(s).messages))
  }

  // ----- the invariant -----

  ghost predicate Ascends(uids: seq<nat>) { forall i, j :: 0 <= i < j < |uids| ==> uids[i] < uids[j] }

  ghost predicate InView(v: View, b: string) { exists i :: 0 <= i < |v.messages| && BaseName(v.messages[i].name) == b }

  /** The snapshot v is right about every file it shows, and whatever else is there came later. */
  ghost predicate Synced(files: map<Path, File>, given: set<(string, nat)>, next: nat, v: View) {
    v.next <= next && Numbered(v.messages) && RightMessages(files, given, v) && OthersLater(files, given, v)
  }

  ghost predicate RightMessages(files: map<Path, File>, given: set<(string, nat)>, v: View) {
    && Ascends(Uids(v.messages))
    && (forall i :: 0 <= i < |v.messages| ==> Shown(files, given, v, v.messages[i]))
    && (forall i, j :: 0 <= i < j < |v.messages| ==> PathOf(v.messages[i]) != PathOf(v.messages[j]))
  }

  ghost predicate OthersLater(files: map<Path, File>, given: set<(string, nat)>, v: View) {
    forall g, p :: g in given && p in files && Base(p) == g.0 && g.1 < v.next ==> InView(v, g.0)
  }

  ghost predicate Shown(files: map<Path, File>, given: set<(string, nat)>, v: View, m: Message) {
    PathOf(m) in files && (BaseName(m.name), m.uid) in given && m.uid < v.next
  }

  ghost predicate SyncedIn(w: World, v: View) { Synced(w.folder.files, w.given, CurrentNext(w), v) }

  ghost predicate InStep(s: Session) {
    && Inv(s.w) && SyncedIn(s.w, View0(s))
    && s.client == Some(Uids(View0(s).messages))
  }

  // ----- one Refresh, from a good world -----

  /** What a successful Refresh leaves behind: the snapshot shows every file, under the UIDs given. */
  lemma RefreshShowsAll(w: World, box: nat, minted: nat, w': World)
    requires Inv(w) && Next(w, Refresh(box, minted, NoFault), w')
    ensures Inv(w') && SyncedIn(w', ViewAt(w', box))
    ensures forall p :: p in w.folder.files ==> InView(ViewAt(w', box), Base(p))
  {
    var a := Refresh(box, minted, NoFault);
    RefreshKeepsInv(w, a, w');
    RefreshGivesLater(w, a, w');
    var ok :| RefreshStep(w, box, minted, NoFault, w', ok);
    var order := RefreshIsWhole(w, a, w', ok);
    RefreshedDisk(w, minted, order, w'.folder, w'.boxes[box], ok);
    WholeShowsAll(w, minted, order, w', w'.boxes[box], ok);
  }

  lemma WholeShowsAll(w: World, minted: nat, order: seq<Path>, w': World, v': View, ok: bool)
    requires Inv(w) && 1 <= minted < TWO32 && Room(w.folder, minted)
    requires RefreshedInOrder(w.folder, minted, order, true, w'.folder, v', ok) && w'.given == w.given + Pairs(v')
    ensures RightMessages(w'.folder.files, w'.given, v') && Numbered(v'.messages)
    ensures forall p :: p in w.folder.files ==> InView(v', Base(p))
  {
    RefreshAssigns(w, minted, order);
    var l := Read(w.folder.list, minted);
    SnapshotSynced(w, w', l, Assign(Bases(order), l.uids, l.next), v');
    forall i, j | 0 <= i < j < |v'.messages| ensures PathOf(v'.messages[i]) != PathOf(v'.messages[j]) {}
  }

  lemma SnapshotSynced(w: World, w': World, l: List, a: Assignment, v: View)
    requires Inv(w) && Continues(l, a) && w'.folder.files == w.folder.files
    requires Snapshot(w.folder.files, a.uids, v.messages) && v.next == a.next && w'.given == w.given + Pairs(v)
    ensures Numbered(v.messages) && Ascends(Uids(v.messages))
    ensures forall i :: 0 <= i < |v.messages| ==> Shown(w'.folder.files, w'.given, v, v.messages[i])
    ensures forall p :: p in w.folder.files ==> InView(v, Base(p))
  {
    var ms := v.messages;
    forall i | 0 <= i < |ms| ensures Shown(w'.folder.files, w'.given, v, ms[i]) && ms[i].seqNum == i + 1 {
      assert Matches(w.folder.files, a.uids, ms[i], i + 1);
      assert (BaseName(ms[i].name), ms[i].uid) in Pairs(v);
    }
    SnapshotAscends(w.folder.files, a, ms);
    forall p | p in w.folder.files ensures InView(v, Base(p)) {
      var i :| 0 <= i < |ms| && PathOf(ms[i]) == p;
      assert BaseName(ms[i].name) == Base(p);
    }
  }

  lemma SnapshotAscends(files: map<Path, File>, a: Assignment, ms: seq<Message>)
    requires UniqueBases(files) && UidsBelow(a.uids, a.next) && Snapshot(files, a.uids, ms)
    ensures Ascends(Uids(ms))
  {
    forall i, j | 0 <= i < j < |ms| ensures Uids(ms)[i] < Uids(ms)[j] {
      assert Matches(files, a.uids, ms[i], i + 1) && Matches(files, a.uids, ms[j], j + 1);
      assert PathOf(ms[i]) != PathOf(ms[j]);
      assert Base(PathOf(ms[i])) != Base(PathOf(ms[j]));
    }
  }

  // ----- Refresh only appends -----

  /** Two ascending lists: the new one has all the old and nothing else below the bound. */
  lemma {:induction false} AscendingPrefix(older: seq<nat>, newer: seq<nat>, bound: nat, k: nat)
    requires Ascends(older) && Ascends(newer) && k <= |older|
    requires forall u :: u in older ==> u in newer && u < bound
    requires forall u :: u in newer && u !in older ==> u >= bound
    ensures k <= |newer| && newer[..k] == older[..k]
  {
    if k > 0 {
      AscendingPrefix(older, newer, bound, k - 1);
      assert forall m :: 0 <= m < k - 1 ==> newer[m] == newer[..k - 1][m] == older[..k - 1][m] == older[m];
      assert older[k - 1] in older;
      var i :| 0 <= i < |newer| && newer[i] == older[k - 1];
      assert i >= k - 1;
      assert newer[k - 1] in newer;
      assert newer[..k] == newer[..k - 1] + [newer[k - 1]] && older[..k] == older[..k - 1] + [older[k - 1]];
    }
  }

  /** The old snapshot is a prefix of the refreshed one. */
  lemma RefreshAppends(w: World, v: View, box: nat, minted: nat, w': World)
    requires Inv(w) && SyncedIn(w, v) && Next(w, Refresh(box, minted, NoFault), w')
    ensures Uids(v.messages) <= Uids(ViewAt(w', box).messages)
  {
    RefreshShowsAll(w, box, minted, w');
    RefreshContinues(w, Refresh(box, minted, NoFault), w');
    RefreshGivesLater(w, Refresh(box, minted, NoFault), w');
    ShowsAllAppends(w, v, w', ViewAt(w', box));
  }

  lemma ShowsAllAppends(w: World, v: View, w': World, v': View)
    requires Inv(w) && SyncedIn(w, v) && Inv(w') && SyncedIn(w', v')
    requires w.given <= w'.given && w'.folder.files == w.folder.files
    requires forall g :: g in w'.given && g !in w.given ==> g.1 >= CurrentNext(w)
    requires forall p :: p in w.folder.files ==> InView(v', Base(p))
    ensures Uids(v.messages) <= Uids(v'.messages)
  {
    var older, newer := Uids(v.messages), Uids(v'.messages);
    forall u | u in older ensures u in newer && u < v.next { OldStays(w, v, w', v', u); }
    forall u | u in newer && u !in older ensures u >= v.next { NewIsLater(w, v, w', v', u); }
    hide Inv, Shown, OthersLater, CurrentNext, InView;
    AscendingPrefix(older, newer, v.next, |older|);
    assert older[..|older|] == older;
  }

  lemma OldStays(w: World, v: View, w': World, v': View, u: nat)
    requires Inv(w') && SyncedIn(w, v) && SyncedIn(w', v') && w.given <= w'.given && u in Uids(v.messages)
    requires forall p :: p in w.folder.files ==> InView(v', Base(p))
    ensures u in Uids(v'.messages) && u < v.next
  {
    InvMeans(w');
    hide Inv, OthersLater, CurrentNext;
    var i :| 0 <= i < |v.messages| && v.messages[i].uid == u;
    assert Shown(w.folder.files, w.given, v, v.messages[i]);
    ShownStays(w, v, v.messages[i], w', v');
  }

  lemma NewIsLater(w: World, v: View, w': World, v': View, u: nat)
    requires Inv(w) && SyncedIn(w, v) && SyncedIn(w', v') && w'.folder.files == w.folder.files
    requires forall g :: g in w'.given && g !in w.given ==> g.1 >= CurrentNext(w)
    requires u in Uids(v'.messages) && u !in Uids(v.messages)
    ensures u >= v.next
  {
    hide Inv, OthersLater, CurrentNext;
    var k :| 0 <= k < |v'.messages| && v'.messages[k].uid == u;
    assert Shown(w'.folder.files, w'.given, v', v'.messages[k]);
    var g := (BaseName(v'.messages[k].name), u);
    if g in w.given && u < v.next { OldGivenShown(w, v, g, PathOf(v'.messages[k])); }
  }

  lemma ShownStays(w: World, v: View, m: Message, w': World, v': View)
    requires Bijective(w'.given) && w.given <= w'.given && RightMessages(w'.folder.files, w'.given, v')
    requires Shown(w.folder.files, w.given, v, m) && InView(v', BaseName(m.name))
    ensures m.uid in Uids(v'.messages) && m.uid < v.next
  {
    var b := BaseName(m.name);
    var k :| 0 <= k < |v'.messages| && BaseName(v'.messages[k].name) == b;
    assert Shown(w'.folder.files, w'.given, v', v'.messages[k]);
    assert (b, m.uid) in w'.given && (b, v'.messages[k].uid) in w'.given;
    assert Uids(v'.messages)[k] == m.uid;
  }

  lemma OldGivenShown(w: World, v: View, g: (string, nat), p: Path)
    requires Inv(w) && SyncedIn(w, v)
    requires g in w.given && p in w.folder.files && Base(p) == g.0 && g.1 < v.next
    ensures g.1 in Uids(v.messages)
  {
    assert InView(v, g.0);
    var i :| 0 <= i < |v.messages| && BaseName(v.messages[i].name) == g.0;
    assert Shown(w.folder.files, w.given, v, v.messages[i]);
    assert (g.0, v.messages[i].uid) in w.given;
    assert Uids(v.messages)[i] == g.1;
  }

  // ----- every event keeps the client in step -----

  lemma HearOne(client: Option<seq<nat>>, r: Response, server: seq<nat>)
    ensures HearAll(client, [r], server) == Hear(client, r, server)
  {
    assert [r][1..] == [];
  }

  lemma HearTwo(client: Option<seq<nat>>, r: Response, q: Response, server: seq<nat>)
    ensures HearAll(client, [r, q], server) == Hear(Hear(client, r, server), q, server)
  {
    assert [r, q][1..] == [q];
    HearOne(Hear(client, r, server), q, server);
  }

  /** Hearing the report gives the new mailbox if and only if the old one is a prefix of it. */
  lemma HearReportWhen(older: seq<nat>, newer: seq<nat>, recent: nat, always: bool)
    ensures HearAll(Some(older), PollReport(|older|, |newer|, recent, always), newer) == Some(newer) <==> older <= newer
  {
    if |older| <= |newer| {
      HearGrown(older, newer, recent, always);
      GrownIsPrefix(older, newer);
    } else if always {
      HearOne(Some(older), Exists(|newer|), newer);
    } else {
      HearTwo(Some(older), Exists(|newer|), Recent(recent), newer);
    }
  }

  lemma HearGrown(older: seq<nat>, newer: seq<nat>, recent: nat, always: bool)
    requires |older| <= |newer|
    ensures HearAll(Some(older), PollReport(|older|, |newer|, recent, always), newer) == Some(older + newer[|older|..])
  {
    assert newer[|older|..|newer|] == newer[|older|..];
    if always {
      HearOne(Some(older), Exists(|newer|), newer);
    } else if |newer| != |older| {
      HearTwo(Some(older), Exists(|newer|), Recent(recent), newer);
    } else {
      assert older + newer[|older|..] == older;
    }
  }

  lemma GrownIsPrefix(older: seq<nat>, newer: seq<nat>)
    requires |older| <= |newer|
    ensures older + newer[|older|..] == newer <==> older <= newer
  {
    assert newer == newer[..|older|] + newer[|older|..];
    if older + newer[|older|..] == newer { assert newer[..|older|] == older; }
  }

  /** Hearing the report of a mailbox that only grew gives the grown mailbox. */
  lemma HearReport(older: seq<nat>, newer: seq<nat>, recent: nat, always: bool)
    requires older <= newer
    ensures HearAll(Some(older), PollReport(|older|, |newer|, recent, always), newer) == Some(newer)
  {
    HearReportWhen(older, newer, recent, always);
  }

  /** Polling appends exactly what the report announces. */
  lemma PollKeepsStep(s: Session, minted: nat, always: bool, s': Session)
    requires InStep(s) && SessionStep(s, Poll(minted, always), s')
    ensures InStep(s')
  {
    RefreshAppends(s.w, View0(s), s.box, minted, s'.w);
    RefreshShowsAll(s.w, s.box, minted, s'.w);
    var older, newer := Uids(View0(s).messages), Uids(View0(s').messages);
    var recent :| s'.client == HearAll(s.client, PollReport(|older|, |newer|, recent, always), newer);
    HearReport(older, newer, recent, always);
  }

  /** Deliveries and Refreshes leave every snapshot as right as it was. */
  lemma OthersKeepSynced(w: World, a: Action, w': World, v: View)
    requires Inv(w) && SyncedIn(w, v) && (a.Place? || a.Refresh?) && Next(w, a, w')
    ensures Inv(w') && SyncedIn(w', v)
  {
    if a.Place? {
      PlaceKeepsInv(w, a, w');
      PlacedPathFacts(a.name, a.flags);
      PlaceKeepsSynced(w, a, w', v);
    } else {
      RefreshKeepsInv(w, a, w');
      RefreshContinues(w, a, w');
      RefreshGivesLater(w, a, w');
      RefreshKeepsSynced(w, w', v);
    }
  }

  lemma PlaceKeepsSynced(w: World, a: Action, w': World, v: View)
    requires Inv(w) && SyncedIn(w, v) && a.Place? && Next(w, a, w')
    requires Base(PlacedPath(a.name, a.flags)) == a.name
    ensures SyncedIn(w', v)
  {
    assert Disk(w') == Disk(w);
    hide Disk, Parse;
    forall i | 0 <= i < |v.messages| ensures Shown(w'.folder.files, w'.given, v, v.messages[i]) {
      assert Shown(w.folder.files, w.given, v, v.messages[i]);
    }
    assert forall g :: g in w'.given ==> g.0 in w.used;
  }

  lemma RefreshKeepsSynced(w: World, w': World, v: View)
    requires SyncedIn(w, v) && w'.folder.files == w.folder.files && w.given <= w'.given
    requires CurrentNext(w) <= CurrentNext(w')
    requires forall g :: g in w'.given && g !in w.given ==> g.1 >= CurrentNext(w)
    ensures SyncedIn(w', v)
  {
    hide CurrentNext;
    forall i | 0 <= i < |v.messages| ensures Shown(w'.folder.files, w'.given, v, v.messages[i]) {
      assert Shown(w.folder.files, w.given, v, v.messages[i]);
    }
  }

  /** Deliveries and other mailbox objects' scans do not disturb the snapshot. */
  lemma OthersKeepStep(s: Session, a: Action, s': Session)
    requires InStep(s) && SessionStep(s, Others(a), s')
    ensures InStep(s')
  {
    OthersKeepSynced(s.w, a, s'.w, View0(s));
    assert View0(s') == View0(s);
  }

  /** A flag change moves one file and keeps its base name and UID. */
  lemma StoreKeepsStep(s: Session, i: nat, flags: string, s': Session)
    requires InStep(s) && SessionStep(s, Store(i, flags), s')
    ensures InStep(s')
  {
    var v, v' := View0(s), View0(s');
    assert Shown(s.w.folder.files, s.w.given, v, v.messages[i]);
    RenameKeepsFiles(s.w.folder.files, s.w.used, PathOf(v.messages[i]), flags);
    SetFlagsKeepsInv(s.w, SetFlags(s.box, i, flags), s'.w);
    FlaggedStaysSynced(s.w.folder.files, s.w.given, CurrentNext(s.w), v, i, flags, s'.w.folder.files, v');
    assert Uids(v'.messages) == Uids(v.messages);
  }

  lemma FlaggedStaysSynced(
    files: map<Path, File>, given: set<(string, nat)>, next: nat, v: View, i: nat, flags: string, files': map<Path, File>, v': View)
    requires UniqueBases(files) && Synced(files, given, next, v) && i < |v.messages|
    requires v' == v.(messages := v.messages[i := Flagged(v.messages[i], flags)])
    requires var from, to := PathOf(v.messages[i]), FlaggedPath(v.messages[i], flags);
      && Base(to) == Base(from) && from in files
      && files' == if from == to then files else Rename(files, from, to)
    ensures Synced(files', given, next, v')
  {
    assert forall k :: 0 <= k < |v.messages| ==> Base(PathOf(v'.messages[k])) == Base(PathOf(v.messages[k]));
    assert Uids(v'.messages) == Uids(v.messages);
    FlaggedStaysRight(files, given, v, i, flags, files', v');
    forall g, p | g in given && p in files' && Base(p) == g.0 && g.1 < v'.next ensures InView(v', g.0) {
      var from, to := PathOf(v.messages[i]), FlaggedPath(v.messages[i], flags);
      FlaggedStillShown(files, given, next, v, g, if p == to then from else p, v');
    }
  }

  lemma FlaggedStaysRight(
    files: map<Path, File>, given: set<(string, nat)>, v: View, i: nat, flags: string, files': map<Path, File>, v': View)
    requires UniqueBases(files) && RightMessages(files, given, v) && i < |v.messages|
    requires v' == v.(messages := v.messages[i := Flagged(v.messages[i], flags)])
    requires Uids(v'.messages) == Uids(v.messages)
    requires forall k :: 0 <= k < |v.messages| ==> Base(PathOf(v'.messages[k])) == Base(PathOf(v.messages[k]))
    requires var from, to := PathOf(v.messages[i]), FlaggedPath(v.messages[i], flags);
      from in files && files' == if from == to then files else Rename(files, from, to)
    ensures RightMessages(files', given, v')
  {
    BasesDiffer(files, given, v);
    forall k | 0 <= k < |v'.messages| ensures Shown(files', given, v', v'.messages[k]) {
      assert Shown(files, given, v, v.messages[k]);
      assert k != i ==> PathOf(v.messages[k]) != PathOf(v.messages[i]);
    }
  }

  lemma FlaggedStillShown(
    files: map<Path, File>, given: set<(string, nat)>, next: nat, v: View, g: (string, nat), p: Path, v': View)
    requires Synced(files, given, next, v) && |v'.messages| == |v.messages|
    requires forall k :: 0 <= k < |v.messages| ==> Base(PathOf(v'.messages[k])) == Base(PathOf(v.messages[k]))
    requires g in given && p in files && Base(p) == g.0 && g.1 < v.next
    ensures InView(v', g.0)
  {
    assert InView(v, g.0);
    var k :| 0 <= k < |v.messages| && BaseName(v.messages[k].name) == g.0;
    assert Base(PathOf(v.messages[k])) == g.0;
    assert BaseName(v'.messages[k].name) == g.0;
  }

  lemma BasesDiffer(files: map<Path, File>, given: set<(string, nat)>, v: View)
    requires UniqueBases(files) && RightMessages(files, given, v)
    ensures forall j, k :: 0 <= j < k < |v.messages| ==> Base(PathOf(v.messages[j])) != Base(PathOf(v.messages[k]))
  {
    forall j, k | 0 <= j < k < |v.messages| ensures Base(PathOf(v.messages[j])) != Base(PathOf(v.messages[k])) {
      assert Shown(files, given, v, v.messages[j]) && Shown(files, given, v, v.messages[k]);
    }
  }

  lemma AscendsOneMore(messages: seq<Message>, m: Message)
    requires Ascends(Uids(messages)) && forall j :: 0 <= j < |messages| ==> messages[j].uid < m.uid
    ensures Ascends(Uids(messages + [m]))
  {
    assert Uids(messages + [m]) == Uids(messages) + [m.uid];
  }

  /** What is kept stays in order. */
  lemma {:induction false} KeptAscends(messages: seq<Message>)
    requires Ascends(Uids(messages))
    ensures Ascends(Uids(Kept(messages)))
  {
    if messages != [] {
      var n := |messages| - 1;
      assert Uids(messages[..n]) == Uids(messages)[..n];
      KeptAscends(messages[..n]);
      KeptBelow(messages, n);
      AscendsOneMore(Kept(messages[..n]), messages[n]);
    }
  }

  lemma KeptBelow(messages: seq<Message>, n: nat)
    requires n < |messages| && Ascends(Uids(messages))
    ensures forall j :: 0 <= j < |Kept(messages[..n])| ==> Kept(messages[..n])[j].uid < messages[n].uid
  {
    var front := Kept(messages[..n]);
    KeptMembers(messages[..n]);
    forall j | 0 <= j < |front| ensures front[j].uid < messages[n].uid {
      assert front[j] in front && front[j] in messages[..n];
      var i :| 0 <= i < n && messages[i] == front[j];
      assert Uids(messages)[i] < Uids(messages)[n];
    }
  }

  /** Expunge drops the Deleted messages from the folder, the snapshot and the client alike. */
  lemma ExpungeKeepsStep(s: Session, s': Session)
    requires InStep(s) && SessionStep(s, ExpungeCmd, s')
    ensures InStep(s')
  {
    var w, w', v, v' := s.w, s'.w, View0(s), View0(s');
    ExpungeKeepsInv(w, Action.Expunge(s.box), w');
    var seqs :| Expunged(w.folder, v, w'.folder, v', seqs, true) &&
      s'.client == HearAll(s.client, Expunges(seqs), Uids(v'.messages));
    ExpungedHeard(v, seqs, v');
    ExpungedStaysSynced(w.folder.files, w.given, CurrentNext(w), v, w'.folder.files, v');
  }

  lemma ExpungedHeard(v: View, seqs: seq<nat>, v': View)
    requires Numbered(v.messages) && ExpungeNumbers(v.messages, seqs)
    requires v' == if seqs == [] then v else v.(messages := Renumber(Kept(v.messages)))
    ensures |v'.messages| == |Kept(v.messages)|
    ensures forall i :: 0 <= i < |v'.messages| ==> v'.messages[i] == Kept(v.messages)[i].(seqNum := i + 1)
    ensures HearAll(Some(Uids(v.messages)), Expunges(seqs), Uids(v'.messages)) == Some(Uids(v'.messages))
  {
    ExpungeNumbersDescend(v.messages, seqs);
    HearExpunge(v.messages, Uids(v'.messages));
    if seqs == [] { NothingDeleted(v.messages); }
    assert Uids(v'.messages) == Uids(Kept(v.messages));
  }

  lemma ExpungedStaysSynced(
    files: map<Path, File>, given: set<(string, nat)>, next: nat, v: View, files': map<Path, File>, v': View)
    requires UniqueBases(files) && Synced(files, given, next, v)
    requires files' == files - DeletedPaths(v.messages)
    requires v'.next == v.next && |v'.messages| == |Kept(v.messages)|
    requires forall i :: 0 <= i < |v'.messages| ==> v'.messages[i] == Kept(v.messages)[i].(seqNum := i + 1)
    ensures Synced(files', given, next, v')
  {
    ExpungedStaysRight(files, given, v, files', v');
    forall g, p | g in given && p in files' && Base(p) == g.0 && g.1 < v'.next ensures InView(v', g.0) {
      var m := StillThere(files, given, next, v, g, p);
      var i :| 0 <= i < |Kept(v.messages)| && Kept(v.messages)[i] == m;
      assert BaseName(v'.messages[i].name) == g.0;
    }
  }

  lemma ExpungedStaysRight(files: map<Path, File>, given: set<(string, nat)>, v: View, files': map<Path, File>, v': View)
    requires UniqueBases(files) && RightMessages(files, given, v)
    requires files' == files - DeletedPaths(v.messages)
    requires v'.next == v.next && |v'.messages| == |Kept(v.messages)|
    requires forall i :: 0 <= i < |v'.messages| ==> v'.messages[i] == Kept(v.messages)[i].(seqNum := i + 1)
    ensures RightMessages(files', given, v')
  {
    var kept := Kept(v.messages);
    KeptMembers(v.messages);
    KeptAscends(v.messages);
    assert Uids(v'.messages) == Uids(kept);
    forall i | 0 <= i < |v'.messages| ensures Shown(files', given, v', v'.messages[i]) {
      assert kept[i] in kept;
      KeptShown(files, given, v, kept[i]);
    }
    forall i, j | 0 <= i < j < |v'.messages| ensures PathOf(v'.messages[i]) != PathOf(v'.messages[j]) {
      assert kept[i] in kept && kept[j] in kept && Uids(kept)[i] < Uids(kept)[j];
      PathsDiffer(files, given, v, kept[i], kept[j]);
    }
  }

  lemma PathsDiffer(files: map<Path, File>, given: set<(string, nat)>, v: View, m: Message, n: Message)
    requires RightMessages(files, given, v) && m in v.messages && n in v.messages && m != n
    ensures PathOf(m) != PathOf(n)
  {
    var i :| 0 <= i < |v.messages| && v.messages[i] == m;
    var j :| 0 <= j < |v.messages| && v.messages[j] == n;
  }

  /** A file that survived the Expunge and was shown before belongs to a kept message. */
  lemma StillThere(files: map<Path, File>, given: set<(string, nat)>, next: nat, v: View, g: (string, nat), p: Path)
    returns (m: Message)
    requires UniqueBases(files) && Synced(files, given, next, v)
    requires g in given && p in files - DeletedPaths(v.messages) && Base(p) == g.0 && g.1 < v.next
    ensures m in Kept(v.messages) && BaseName(m.name) == g.0
  {
    assert InView(v, g.0);
    var k :| 0 <= k < |v.messages| && BaseName(v.messages[k].name) == g.0;
    m := v.messages[k];
    assert Shown(files, given, v, m);
    assert Base(PathOf(m)) == Base(p);
    KeptMembers(v.messages);
  }

  lemma KeptShown(files: map<Path, File>, given: set<(string, nat)>, v: View, m: Message)
    requires RightMessages(files, given, v) && m in v.messages && !IsDeleted(m)
    ensures Shown(files - DeletedPaths(v.messages), given, v, m)
  {
    var k :| 0 <= k < |v.messages| && v.messages[k] == m;
    assert Shown(files, given, v, v.messages[k]);
  }

  // ----- every run -----

  ghost predicate SessionRun(w: World, ss: seq<Session>) {
    && |ss| > 0 && SelectedSome(w, ss[0])
    && forall k :: 0 <= k < |ss| - 1 ==> SessionStepsAt(ss, k)
  }

  ghost predicate SessionStepsAt(ss: seq<Session>, k: nat)
    requires k < |ss| - 1
  {
    SessionSteps(ss[k], ss[k + 1])
  }

  ghost predicate SelectedSome(w: World, s: Session) { exists minted :: Selected(w, s, minted) }

  ghost predicate SessionSteps(s: Session, s': Session) { exists e :: SessionStep(s, e, s') }

  lemma SelectStartsInStep(w: World, s: Session)
    requires SelectedSome(w, s)
    ensures InStep(s)
  {
    var minted :| Selected(w, s, minted);
    RefreshShowsAll(w, s.box, minted, s.w);
    var uids := Uids(View0(s).messages);
    HearReport([], uids, 0, true);
  }

  lemma StepKeepsStep(s: Session, s': Session)
    requires InStep(s) && SessionSteps(s, s')
    ensures InStep(s')
  {
    var e :| SessionStep(s, e, s');
    match e
    case Others(a) => OthersKeepStep(s, a, s');
    case Poll(minted, always) => PollKeepsStep(s, minted, always, s');
    case Store(i, flags) => StoreKeepsStep(s, i, flags, s');
    case ExpungeCmd => ExpungeKeepsStep(s, s');
  }

  lemma {:induction false} RunInStep(w: World, ss: seq<Session>, k: nat)
    requires SessionRun(w, ss) && k < |ss|
    ensures InStep(ss[k])
  {
    hide InStep, SessionStep, Selected;
    if k == 0 {
      SelectStartsInStep(w, ss[0]);
    } else {
      RunInStep(w, ss, k - 1);
      assert SessionStepsAt(ss, k - 1);
      StepKeepsStep(ss[k - 1], ss[k]);
    }
  }

  /**
    From SELECT on, after every event of the run, the client that heard the
    responses one at a time holds exactly the server's snapshot, whose UIDs
    ascend and whose sequence numbers are its positions.
   */
  lemma ClientStaysInStep(w: World, ss: seq<Session>, k: nat)
    requires SessionRun(w, ss) && k < |ss|
    ensures ss[k].client == Some(Uids(View0(ss[k]).messages))
    ensures Numbered(View0(ss[k]).messages) && Ascends(Uids(View0(ss[k]).messages))
  {
    RunInStep(w, ss, k);
  }

  // ----- a poll that fails silently -----

  /** Mail arrives; nothing else happens. */
  ghost predicate Deliveries(us: seq<World>) {
    |us| > 0 && forall k :: 0 <= k < |us| - 1 ==> DeliveryAt(us, k)
  }

  ghost predicate DeliveryAt(us: seq<World>, k: nat)
    requires k < |us| - 1
  {
    exists a: Action :: a.Place? && Next(us[k], a, us[k + 1])
  }

  lemma OneMoreFile(w: World, a: Action, w': World)
    requires Inv(w) && a.Place? && Next(w, a, w')
    ensures |w'.folder.files| == |w.folder.files| + 1
  {
    PlacedPathFacts(a.name, a.flags);
    var p := PlacedPath(a.name, a.flags);
    assert p !in w.folder.files;
    assert w'.folder.files.Keys == w.folder.files.Keys + {p};
    assert |w'.folder.files| == |w'.folder.files.Keys| && |w.folder.files| == |w.folder.files.Keys|;
  }

  lemma {:induction false} DeliveriesKeepSynced(us: seq<World>, k: nat, v: View)
    requires Deliveries(us) && k < |us| && Inv(us[0]) && SyncedIn(us[0], v)
    ensures Inv(us[k]) && SyncedIn(us[k], v) && |us[k].folder.files| == |us[0].folder.files| + k
  {
    hide Inv, SyncedIn, Next;
    if k > 0 {
      DeliveriesKeepSynced(us, k - 1, v);
      assert DeliveryAt(us, k - 1);
      var a: Action :| a.Place? && Next(us[k - 1], a, us[k]);
      OthersKeepSynced(us[k - 1], a, us[k], v);
      OneMoreFile(us[k - 1], a, us[k]);
    }
  }

  function Places(messages: seq<Message>): (r: seq<Path>)
    ensures |r| == |messages| && forall i :: 0 <= i < |r| ==> r[i] == PathOf(messages[i])
  {
    seq(|messages|, i requires 0 <= i < |messages| => PathOf(messages[i]))
  }

  /** A snapshot has as many messages as there are files. */
  lemma SnapshotCounts(files: map<Path, File>, uids: map<string, nat>, messages: seq<Message>)
    requires Snapshot(files, uids, messages) && forall p :: p in files ==> !Hidden(p.name)
    ensures |messages| == |files|
  {
    var ps := Places(messages);
    forall p ensures p in ps <==> p in files.Keys {
      if p in ps {
        var i :| 0 <= i < |ps| && ps[i] == p;
        assert Matches(files, uids, messages[i], i + 1);
      }
      if p in files {
        var i :| 0 <= i < |messages| && PathOf(messages[i]) == p;
        assert ps[i] == p;
      }
    }
    DistinctCovers(ps, files.Keys);
    assert |files.Keys| == |files|;
  }

  /** A Refresh whose write failed shows a message the view before could not know. */
  lemma FailedShowsMore(w: World, v: View, minted: nat, order: seq<Path>, f': Folder, v': View)
    requires Inv(w) && SyncedIn(w, v) && 1 <= minted < TWO32
    requires RefreshedInOrder(w.folder, minted, order, false, f', v', false)
    ensures |v.messages| < |w.folder.files| && |v'.messages| == |w.folder.files| && f' == w.folder
  {
    var l := Read(w.folder.list, minted);
    ReadFacts(w, minted);
    SnapshotCounts(w.folder.files, Assign(Bases(order), l.uids, l.next).uids, v'.messages);
    NothingAssigned(Bases(order), l.uids, l.next);
    var b :| b in Bases(order) && b !in l.uids;
    var i :| 0 <= i < |order| && Bases(order)[i] == b;
    assert order[i] in order;
    hide Inv, Parse, Snapshot, SyncedIn;
    UnlistedUnseen(w, v, l, order[i]);
  }

  lemma UnlistedUnseen(w: World, v: View, l: List, p: Path)
    requires ListInv(w.folder.files, w.used, w.given, l) && SyncedIn(w, v) && p in w.folder.files && Base(p) !in l.uids
    ensures |v.messages| < |w.folder.files|
  {
    var ps, files := Places(v.messages), w.folder.files;
    forall q | q in ps ensures q in files.Keys - {p} {
      var i :| 0 <= i < |ps| && ps[i] == q;
      assert Shown(files, w.given, v, v.messages[i]);
    }
    DistinctWithin(ps, files.Keys - {p});
    assert |files.Keys| == |files|;
  }

  /**
    A poll whose Refresh could not write the list has replaced the snapshot
    without a word. The next poll brings the client back in step if and only if
    more mail has arrived in between; otherwise it sees an unchanged count, and
    the client is never told.
   */
  lemma SilentPoll(
    w: World, box: nat, minted: nat, order: seq<Path>, us: seq<World>, minted2: nat, w': World, recent: nat)
    requires Inv(w) && SyncedIn(w, ViewAt(w, box)) && 1 <= minted < TWO32 && Room(w.folder, minted)
    requires Deliveries(us) && Next(w, Refresh(box, minted, WriteFails), us[0])
    requires RefreshedInOrder(w.folder, minted, order, false, us[0].folder, ViewAt(us[0], box), false)
    requires Next(us[|us| - 1], Refresh(box, minted2, NoFault), w')
    ensures var before, failed, after := ViewAt(w, box).messages, ViewAt(us[|us| - 1], box).messages, ViewAt(w', box).messages;
      HearAll(Some(Uids(before)), PollReport(|failed|, |after|, recent, false), Uids(after)) == Some(Uids(after)) <==> |us| > 1
  {
    var v, n, last := ViewAt(w, box), |us| - 1, us[|us| - 1];
    OthersKeepSynced(w, Refresh(box, minted, WriteFails), us[0], v);
    FailedShowsMore(w, v, minted, order, us[0].folder, ViewAt(us[0], box));
    DeliveriesKeepSynced(us, n, v);
    DeliveriesKeepView(us, n, box);
    RefreshAppends(last, v, box, minted2, w');
    RefreshCounts(last, box, minted2, w');
    hide Inv, SyncedIn, Next, Deliveries, RefreshedInOrder, Hear, HearAll, PollReport;
    TellsGrowth(Uids(v.messages), Uids(ViewAt(w', box).messages), |ViewAt(us[0], box).messages|, recent);
  }

  lemma {:induction false} DeliveriesKeepView(us: seq<World>, k: nat, box: nat)
    requires Deliveries(us) && k < |us|
    ensures ViewAt(us[k], box) == ViewAt(us[0], box)
  {
    if k > 0 {
      DeliveriesKeepView(us, k - 1, box);
      assert DeliveryAt(us, k - 1);
    }
  }

  lemma RefreshCounts(w: World, box: nat, minted: nat, w': World)
    requires Inv(w) && Next(w, Refresh(box, minted, NoFault), w')
    ensures |ViewAt(w', box).messages| == |w.folder.files|
  {
    var ok :| RefreshStep(w, box, minted, NoFault, w', ok);
    var order := RefreshIsWhole(w, Refresh(box, minted, NoFault), w', ok);
    var l := Read(w.folder.list, minted);
    SnapshotCounts(w.folder.files, Assign(Bases(order), l.uids, l.next).uids, w'.boxes[box].messages);
  }

  /** What a poll tells a client that missed the growth from before to failed. */
  lemma TellsGrowth(before: seq<nat>, after: seq<nat>, failed: nat, recent: nat)
    requires before <= after && |before| < failed <= |after|
    ensures HearAll(Some(before), PollReport(failed, |after|, recent, false), after) == Some(after) <==> failed < |after|
  {
    if failed < |after| {
      HearReport(before, after, recent, false);
    }
  }
}
