/** A POP3 session between its PASS and its QUIT. */
module Pop3 {
  import opened Text
  import opened Flags
  import opened Maildir
  import opened Mailboxes
  import opened Move
  import UidFaults

  // ----- LIST -----

  /** The message numbers LIST prints: those not marked for deletion. */
  function Listed(n: nat, del: set<int>): seq<nat> {
    if n == 0 then [] else Listed(n - 1, del) + if n in del then [] else [n]
  }

  function Upto(n: nat, del: set<int>): set<int> { set d | d in del && 1 <= d <= n }

  lemma {:induction false} ListedCount(n: nat, del: set<int>)
    ensures |Listed(n, del)| == n - |Upto(n, del)|
  {
    if n == 0 {
      assert Upto(0, del) == {};
    } else {
      ListedCount(n - 1, del);
      assert Upto(n, del) == Upto(n - 1, del) + if n in del then {n} else {};
    }
  }

  /** LIST announces as many messages as it prints exactly when every mark is a message number. */
  lemma ListCountIsRight(n: nat, del: set<int>)
    ensures |Listed(n, del)| == n - |del| <==> forall d :: d in del ==> 1 <= d <= n
  {
    ListedCount(n, del);
    assert Upto(n, del) <= del;
    if |Upto(n, del)| == |del| {
      SubsetOfSameSize(Upto(n, del), del);
    } else {
      assert Upto(n, del) != del;
      var d :| d in del && d !in Upto(n, del);
    }
  }

  lemma SubsetOfSameSize(a: set<int>, b: set<int>)
    requires a <= b && |a| == |b|
    ensures a == b
  {
    assert |b - a| == |b| - |a|;
  }

  // ----- the session as a state machine -----

  /** The mailbox folder, the frozen snapshot and the deletion marks. */
  datatype Session = Session(folder: Folder, view: View, del: set<int>)

  datatype Event =
    | Dele(n: int)
    | Rset
    | Retr(n: int, ok: bool)   // ok: whether marking it Seen worked
    | Other                    // STAT, LIST, UIDL, TOP, NOOP
    | Delivery(name: string, file: File)
    | Pass(folder: Folder, view: View)   // a further login, whatever its folder holds by then; the marks are not cleared

  /** session.message: a number in range that is not marked. */
  predicate Resolves(s: Session, n: int) { 1 <= n <= |s.view.messages| && n !in s.del }

  function SeenFlags(m: Message): string { Canon(m.flags + [SEEN]) }

  ghost predicate Step(s: Session, e: Event, s': Session) {
    match e
    case Dele(n) => s' == if Resolves(s, n) then s.(del := s.del + {n}) else s
    case Rset => s' == s.(del := {})
    case Retr(n, ok) =>
      s'.del == s.del &&
      if Resolves(s, n) && PathOf(s.view.messages[n - 1]) in s.folder.files && SEEN !in s.view.messages[n - 1].flags
      then FlagsSet(s.folder, s.view, n - 1, SeenFlags(s.view.messages[n - 1]), s'.folder, s'.view, ok)
      else s' == s
    case Other => s' == s
    case Delivery(name, file) =>
      && Deliverable(name) && (forall p :: p in s.folder.files ==> Base(p) != name)
      && (forall i :: 0 <= i < |s.view.messages| ==> BaseName(s.view.messages[i].name) != name)
      && s' == s.(folder := s.folder.(files := s.folder.files[Path(New, name) := file]))
    case Pass(folder, view) => TakenOf(folder, view) && s' == Session(folder, view, s.del)
  }

  /** view is the snapshot a Refresh takes of the folder. */
  ghost predicate TakenOf(folder: Folder, view: View) {
    UniqueBases(folder.files) && exists uids :: Snapshot(folder.files, uids, view.messages)
  }

  // ----- what holds until QUIT -----

  /** m is still the message it was when the view was frozen, whatever flags it has gained. */
  ghost predicate SameMessage(m: Message, was: Message) {
    && BaseName(m.name) == BaseName(was.name) && m.uid == was.uid && m.seqNum == was.seqNum
    && (IsDeleted(m) <==> IsDeleted(was))
  }

  /** Every file of the start is still there under its base name, with its bytes. */
  ghost predicate NothingRemoved(files: map<Path, File>, now: map<Path, File>) {
    forall p :: p in files ==> StillThere(p, files[p], now)
  }

  ghost predicate StillThere(p: Path, f: File, now: map<Path, File>) {
    exists q :: q in now && Base(q) == Base(p) && now[q] == f
  }

  /** The view is the frozen one, its files are there, and nothing of the start is gone. */
  ghost predicate Held(frozen: seq<Message>, files: map<Path, File>, s: Session) {
    && UniqueBases(s.folder.files) && GoodSnapshot(s.view.messages)
    && |s.view.messages| == |frozen|
    && (forall i :: 0 <= i < |frozen| ==> SameMessage(s.view.messages[i], frozen[i]))
    && (forall i :: 0 <= i < |frozen| ==> PathOf(s.view.messages[i]) in s.folder.files)
    && NothingRemoved(files, s.folder.files)
  }

  ghost predicate Inv(frozen: seq<Message>, files: map<Path, File>, s: Session) {
    Held(frozen, files, s) && forall d :: d in s.del ==> 1 <= d <= |frozen|
  }

  /** PASS freezes the snapshot its Refresh took. */
  lemma PassStarts(f: Folder, v: View, del: set<int>)
    requires TakenOf(f, v)
    ensures Held(v.messages, f.files, Session(f, v, del))
  {
    var uids :| Snapshot(f.files, uids, v.messages);
    RefreshGivesGoodSnapshot(f.files, uids, v.messages);
    forall i | 0 <= i < |v.messages| ensures PathOf(v.messages[i]) in f.files {
      assert Matches(f.files, uids, v.messages[i], i + 1);
    }
    forall p | p in f.files ensures StillThere(p, f.files[p], f.files) {}
  }

  lemma RenameRemovesNothing(files: map<Path, File>, now: map<Path, File>, from: Path, to: Path)
    requires NothingRemoved(files, now) && UniqueBases(now) && from in now && Base(to) == Base(from)
    ensures NothingRemoved(files, Rename(now, from, to)) && UniqueBases(Rename(now, from, to))
  {
    var then_ := Rename(now, from, to);
    forall p | p in files ensures StillThere(p, files[p], then_) {
      assert StillThere(p, files[p], now);
      var q :| q in now && Base(q) == Base(p) && now[q] == files[p];
      var r := if q == from then to else q;
      assert r in then_ && Base(r) == Base(p) && then_[r] == files[p];
    }
  }

  lemma SeenFacts(m: Message)
    requires FlagsTold(m)
    ensures BaseName(Flagged(m, SeenFlags(m)).name) == BaseName(m.name)
    ensures IsDeleted(Flagged(m, SeenFlags(m))) <==> IsDeleted(m)
    ensures FlagsTold(Flagged(m, SeenFlags(m))) && SEEN in SeenFlags(m)
  {
    FlagsOfCanonical(m.name);
    PickMembers(KNOWN, m.flags + [SEEN]);
    PickMembers(KNOWN, m.flags);
    CanonIdempotent(m.flags + [SEEN]);
    FlaggedIsTold(m, SeenFlags(m));
  }

  lemma RetrKeeps(frozen: seq<Message>, files: map<Path, File>, s: Session, n: int, ok: bool, s': Session)
    requires Held(frozen, files, s) && Step(s, Retr(n, ok), s')
    ensures Held(frozen, files, s')
  {
    if s' != s {
      var i, m := n - 1, s.view.messages[n - 1];
      var from, to := PathOf(m), FlaggedPath(m, SeenFlags(m));
      SeenFacts(m);
      assert Base(to) == Base(from);
      hide SeenFlags, FlagsTold, NothingRemoved, FlagsOf, UniqueBases, IsDeleted, Rename, GoodSnapshot, SameMessage;
      if ok && from != to { RenameRemovesNothing(files, s.folder.files, from, to); }
      if ok {
        FlaggedKeepsMessages(frozen, s.view.messages, i, SeenFlags(m));
        FlaggedKeepsFiles(s.folder.files, s.view.messages, i, SeenFlags(m), s'.folder.files, s'.view.messages);
      }
    }
  }

  lemma FlaggedKeepsMessages(frozen: seq<Message>, messages: seq<Message>, i: nat, flags: string)
    requires GoodSnapshot(messages) && i < |messages| == |frozen|
    requires forall k :: 0 <= k < |frozen| ==> SameMessage(messages[k], frozen[k])
    requires var m' := Flagged(messages[i], flags);
      BaseName(m'.name) == BaseName(messages[i].name) && (IsDeleted(m') <==> IsDeleted(messages[i])) && FlagsTold(m')
    ensures var messages' := messages[i := Flagged(messages[i], flags)];
      GoodSnapshot(messages') && forall k :: 0 <= k < |frozen| ==> SameMessage(messages'[k], frozen[k])
  {
    hide IsDeleted, FlagsTold;
  }

  lemma FlaggedKeepsFiles(
    files: map<Path, File>, messages: seq<Message>, i: nat, flags: string, files': map<Path, File>, messages': seq<Message>)
    requires GoodSnapshot(messages) && i < |messages| && PathOf(messages[i]) in files
    requires forall k :: 0 <= k < |messages| ==> PathOf(messages[k]) in files
    requires var from, to := PathOf(messages[i]), FlaggedPath(messages[i], flags);
      files' == if from == to then files else Rename(files, from, to)
    requires messages' == messages[i := Flagged(messages[i], flags)]
    ensures forall k :: 0 <= k < |messages| ==> PathOf(messages'[k]) in files'
  {
    hide FlagsTold;
    forall k | 0 <= k < |messages| && k != i ensures PathOf(messages[k]) in files' {
      assert Base(PathOf(messages[k])) != Base(PathOf(messages[i]));
    }
  }

  lemma DeliveryKeeps(frozen: seq<Message>, files: map<Path, File>, s: Session, name: string, file: File, s': Session)
    requires Held(frozen, files, s) && Step(s, Delivery(name, file), s')
    ensures Held(frozen, files, s')
  {
    PlacedPathFacts(name, "");
    var p := Path(New, name);
    assert Base(p) == name && p !in s.folder.files;
    AdditionRemovesNothing(files, s.folder.files, p, file);
  }

  lemma AdditionRemovesNothing(files: map<Path, File>, now: map<Path, File>, p: Path, file: File)
    requires NothingRemoved(files, now) && p !in now
    ensures NothingRemoved(files, now[p := file])
  {
    forall q | q in files ensures StillThere(q, files[q], now[p := file]) {
      assert StillThere(q, files[q], now);
      var r :| r in now && Base(r) == Base(q) && now[r] == files[q];
      assert now[p := file][r] == files[q];
    }
  }

  /** Everything but a further PASS keeps what the login froze. */
  lemma StepKeeps(frozen: seq<Message>, files: map<Path, File>, s: Session, e: Event, s': Session)
    requires Held(frozen, files, s) && Step(s, e, s') && !e.Pass?
    ensures Held(frozen, files, s')
  {
    match e
    case Retr(n, ok) => RetrKeeps(frozen, files, s, n, ok, s');
    case Delivery(name, file) => DeliveryKeeps(frozen, files, s, name, file, s');
    case _ =>
  }

  // ----- runs from one login on -----

  /** A session from its first login on. */
  ghost predicate Run(ss: seq<Session>, es: seq<Event>) {
    && |ss| == |es| + 1 && TakenOf(ss[0].folder, ss[0].view) && ss[0].del == {}
    && forall k :: 0 <= k < |es| ==> StepAt(ss, es, k)
  }

  ghost predicate StepAt(ss: seq<Session>, es: seq<Event>, k: nat)
    requires k < |es| && |ss| == |es| + 1
  {
    Step(ss[k], es[k], ss[k + 1])
  }

  /** The state the last login before event k left. */
  function Login(es: seq<Event>, k: nat): (n: nat)
    requires k <= |es|
    ensures n <= k
  {
    if k == 0 then 0 else if es[k - 1].Pass? then k else Login(es, k - 1)
  }

  /** The marks DELE'd since the last RSET that were accepted. */
  function Marks(ss: seq<Session>, es: seq<Event>, k: nat): set<int>
    requires |ss| == |es| + 1 && k < |ss|
  {
    if k == 0 then {}
    else match es[k - 1]
         case Rset => {}
         case Dele(n) => Marks(ss, es, k - 1) + if Resolves(ss[k - 1], n) then {n} else {}
         case _ => Marks(ss, es, k - 1)
  }

  /** Those of them DELE'd since the last PASS. */
  function Since(ss: seq<Session>, es: seq<Event>, k: nat): set<int>
    requires |ss| == |es| + 1 && k < |ss|
  {
    if k == 0 then {}
    else match es[k - 1]
         case Rset => {}
         case Pass(_, _) => {}
         case Dele(n) => Since(ss, es, k - 1) + if Resolves(ss[k - 1], n) then {n} else {}
         case _ => Since(ss, es, k - 1)
  }

  /** Those that date from before it. */
  function Carried(ss: seq<Session>, es: seq<Event>, k: nat): set<int>
    requires |ss| == |es| + 1 && k < |ss|
  {
    if k == 0 then {}
    else match es[k - 1]
         case Rset => {}
         case Pass(_, _) => ss[k - 1].del
         case _ => Carried(ss, es, k - 1)
  }

  lemma {:induction false} RunHolds(ss: seq<Session>, es: seq<Event>, k: nat)
    requires Run(ss, es) && k < |ss|
    ensures var login := ss[Login(es, k)]; Held(login.view.messages, login.folder.files, ss[k])
  {
    hide Held, Step;
    if k == 0 {
      PassStarts(ss[0].folder, ss[0].view, {});
    } else {
      assert StepAt(ss, es, k - 1);
      if es[k - 1].Pass? {
        FurtherPass(ss[k - 1], es[k - 1], ss[k]);
      } else {
        RunHolds(ss, es, k - 1);
        var login := ss[Login(es, k - 1)];
        StepKeeps(login.view.messages, login.folder.files, ss[k - 1], es[k - 1], ss[k]);
      }
    }
  }

  lemma FurtherPass(s: Session, e: Event, s': Session)
    requires Step(s, e, s') && e.Pass?
    ensures Held(s'.view.messages, s'.folder.files, s') && s'.del == s.del
  {
    PassStarts(e.folder, e.view, s.del);
  }

  lemma {:induction false} RunMarks(ss: seq<Session>, es: seq<Event>, k: nat)
    requires Run(ss, es) && k < |ss|
    ensures ss[k].del == Marks(ss, es, k)
    ensures ss[k].del == Since(ss, es, k) + Carried(ss, es, k) && Since(ss, es, k) !! Carried(ss, es, k)
  {
    if k > 0 {
      RunMarks(ss, es, k - 1);
      assert StepAt(ss, es, k - 1);
      MarksStep(ss[k - 1], es[k - 1], ss[k]);
    }
  }

  lemma MarksStep(s: Session, e: Event, s': Session)
    requires Step(s, e, s')
    ensures s'.del == match e
      case Rset => {}
      case Dele(n) => s.del + if Resolves(s, n) then {n} else {}
      case _ => s.del
    ensures e.Dele? && Resolves(s, e.n) ==> e.n !in s.del
  {
  }

  ghost predicate OneLogin(es: seq<Event>) { forall k :: 0 <= k < |es| ==> !es[k].Pass? }

  lemma {:induction false} OneLoginFacts(ss: seq<Session>, es: seq<Event>, k: nat)
    requires Run(ss, es) && OneLogin(es) && k < |ss|
    ensures Login(es, k) == 0
    ensures forall d :: d in ss[k].del ==> 1 <= d <= |ss[0].view.messages|
  {
    if k > 0 {
      OneLoginFacts(ss, es, k - 1);
      RunHolds(ss, es, k - 1);
      assert StepAt(ss, es, k - 1);
      MarksStep(ss[k - 1], es[k - 1], ss[k]);
    }
  }

  /**
    Over every run with one login: numbering is fixed, the marks are exactly the
    DELEs accepted since the last RSET and lie in 1..N, so LIST announces what
    it prints, and nothing has been removed.
   */
  lemma UntilQuit(ss: seq<Session>, es: seq<Event>, k: nat)
    requires Run(ss, es) && OneLogin(es) && k < |ss|
    ensures Inv(ss[0].view.messages, ss[0].folder.files, ss[k])
    ensures ss[k].del == Marks(ss, es, k)
    ensures |Listed(|ss[0].view.messages|, ss[k].del)| == |ss[0].view.messages| - |ss[k].del|
  {
    hide Held, Step;
    RunHolds(ss, es, k);
    RunMarks(ss, es, k);
    OneLoginFacts(ss, es, k);
    ListCountIsRight(|ss[0].view.messages|, ss[k].del);
  }

  /**
    With further logins: LIST announces what it prints if and only if no mark
    from before the last PASS is beyond the new view.
   */
  lemma ListAfterPass(ss: seq<Session>, es: seq<Event>, k: nat)
    requires Run(ss, es) && k < |ss|
    ensures var n := |ss[k].view.messages|;
      |Listed(n, ss[k].del)| == n - |ss[k].del| <==> forall d :: d in Carried(ss, es, k) ==> 1 <= d <= n
  {
    RunMarks(ss, es, k);
    SinceInRange(ss, es, k);
    ListCountIsRight(|ss[k].view.messages|, ss[k].del);
  }

  lemma {:induction false} SinceInRange(ss: seq<Session>, es: seq<Event>, k: nat)
    requires Run(ss, es) && k < |ss|
    ensures forall d :: d in Since(ss, es, k) ==> 1 <= d <= |ss[k].view.messages|
  {
    if k > 0 {
      SinceInRange(ss, es, k - 1);
      assert StepAt(ss, es, k - 1);
      if !es[k - 1].Pass? { SameLength(ss[k - 1], es[k - 1], ss[k]); }
    }
  }

  lemma SameLength(s: Session, e: Event, s': Session)
    requires Step(s, e, s') && !e.Pass?
    ensures |s'.view.messages| == |s.view.messages|
  {
  }

  // ----- QUIT -----

  /** Message i still has a file. */
  ghost predicate Lives(m: Message, files: map<Path, File>) { exists p :: p in files && Base(p) == BaseName(m.name) }

  /** Exactly the marked messages and those already flagged Deleted are gone; every other file is untouched. */
  ghost predicate RemovedExactly(
    messages: seq<Message>, marked: seq<nat>, files: map<Path, File>, files': map<Path, File>)
  {
    && (forall i :: 0 <= i < |messages| ==> (Lives(messages[i], files') <==> !(i in marked || IsDeleted(messages[i]))))
    && (forall p :: p in files' ==> p in files && files'[p] == files[p])
    && (forall p :: p in files && Newcomer(p, messages) ==> p in files')
  }

  lemma QuitRemovesExactly(
    messages: seq<Message>, marked: seq<nat>, after: seq<Message>, before: map<Path, File>, files: map<Path, File>)
    requires GoodSnapshot(messages) && UniqueBases(before)
    requires forall i :: 0 <= i < |messages| ==> PathOf(messages[i]) in before
    requires Flagging(messages, before, marked, after, files)
    ensures RemovedExactly(messages, marked, before, files - DeletedPaths(after))
  {
    var files' := files - DeletedPaths(after);
    ExpungeRemovesMarked(messages, marked, after, files, before);
    forall i | 0 <= i < |messages| ensures Lives(messages[i], files') <==> !(i in marked || IsDeleted(messages[i])) {
      MessageFate(messages, marked, after, before, files, i);
    }
    forall p | p in files' ensures p in before && files'[p] == before[p] {
      assert !Involves(messages, marked, Base(p));
    }
    forall p | p in before && Newcomer(p, messages) ensures p in files' {
      assert !Involves(messages, marked, Base(p));
      assert forall i :: 0 <= i < |messages| ==> PathOf(messages[i]) != p;
      assert p !in DeletedPaths(messages);
    }
  }

  lemma MessageFate(
    messages: seq<Message>, marked: seq<nat>, after: seq<Message>, before: map<Path, File>, files: map<Path, File>, i: nat)
    requires i < |messages| && GoodSnapshot(messages) && UniqueBases(before)
    requires forall k :: 0 <= k < |messages| ==> PathOf(messages[k]) in before
    requires Marked(messages, marked, after) && UniqueBases(files)
    requires forall p :: p in files && p !in before ==> Involves(messages, marked, Base(p))
    requires SourcesGone(messages, marked, files - DeletedPaths(after))
    requires RestStays(messages, marked, before, files - DeletedPaths(after))
    ensures Lives(messages[i], files - DeletedPaths(after)) <==> !(i in marked || IsDeleted(messages[i]))
  {
    var files', m := files - DeletedPaths(after), messages[i];
    var b := BaseName(m.name);
    assert Base(PathOf(m)) == b;
    if i in marked {
      assert Involves(messages, marked, b);
    } else {
      assert !Involves(messages, marked, b);
      if IsDeleted(m) {
        assert after[i] == m && PathOf(m) in DeletedPaths(after);
        forall p | p in files' ensures Base(p) != b { assert p != PathOf(m); }
      } else {
        assert PathOf(m) !in DeletedPaths(messages) by {
          assert forall k :: 0 <= k < |messages| && k != i ==> Base(PathOf(messages[k])) != b;
        }
        assert PathOf(m) in files';
      }
    }
  }

  /** QUIT with some mark: the loop flagged every one, and the Expunge worked. */
  ghost predicate Quits(s: Session, marked: seq<nat>, flagged: View, files: map<Path, File>, f': Folder, v': View, seqs: seq<nat>) {
    && s.del != {} && (forall i :: 0 <= i < |s.view.messages| ==> (i in marked <==> i + 1 in s.del))
    && Flagging(s.view.messages, s.folder.files, marked, flagged.messages, files)
    && Expunged(s.folder.(files := files), flagged, f', v', seqs, true)
  }

  /**
    A QUIT that could flag every mark removes exactly the messages marked since
    the last RSET and those already flagged Deleted when the view was frozen,
    and no file that belongs to none of the view's messages.
   */
  lemma QuitAppliesMarks(
    frozen: seq<Message>, files0: map<Path, File>, s: Session,
    marked: seq<nat>, flagged: View, files: map<Path, File>, f': Folder, v': View, seqs: seq<nat>)
    requires Held(frozen, files0, s) && Quits(s, marked, flagged, files, f', v', seqs)
    ensures forall i :: 0 <= i < |frozen| ==> (Lives(frozen[i], f'.files) <==> !(i + 1 in s.del || IsDeleted(frozen[i])))
    ensures forall p :: p in s.folder.files && Newcomer(p, frozen) ==> p in f'.files && f'.files[p] == s.folder.files[p]
  {
    QuitRemovesExactly(s.view.messages, marked, flagged.messages, s.folder.files, files);
    forall i | 0 <= i < |frozen| ensures Lives(frozen[i], f'.files) <==> !(i + 1 in s.del || IsDeleted(frozen[i])) {
      assert SameMessage(s.view.messages[i], frozen[i]);
      assert Lives(s.view.messages[i], f'.files) <==> Lives(frozen[i], f'.files);
    }
    forall p | p in s.folder.files && Newcomer(p, frozen) ensures p in f'.files && f'.files[p] == s.folder.files[p] {
      assert forall i :: 0 <= i < |frozen| ==> SameMessage(s.view.messages[i], frozen[i]);
      assert Newcomer(p, s.view.messages);
    }
  }

  /** p belongs to no message of the view. */
  ghost predicate Newcomer(p: Path, messages: seq<Message>) {
    forall i :: 0 <= i < |messages| ==> Base(p) != BaseName(messages[i].name)
  }

  /** Exactly these and the already Deleted messages of the view have left the folder. */
  ghost predicate GoneExactly(frozen: seq<Message>, marks: set<int>, after: map<Path, File>) {
    forall i :: 0 <= i < |frozen| ==> (Lives(frozen[i], after) <==> !(i + 1 in marks || IsDeleted(frozen[i])))
  }

  /**
    The whole session: any run, any number of logins, then a QUIT with marks.
    What leaves the folder of the last login is exactly what was DELE'd since
    that login, or was Deleted already, if and only if no mark from before that
    login and not RSET since falls on a message that was not Deleted. Mail
    delivered in the meantime stays in any case.
   */
  lemma QuitAfterRun(
    ss: seq<Session>, es: seq<Event>, marked: seq<nat>, flagged: View, files: map<Path, File>, f': Folder, v': View, seqs: seq<nat>)
    requires Run(ss, es) && Quits(ss[|es|], marked, flagged, files, f', v', seqs)
    ensures var frozen := ss[Login(es, |es|)].view.messages;
      && (GoneExactly(frozen, Since(ss, es, |es|), f'.files) <==>
          forall d :: d in Carried(ss, es, |es|) && 1 <= d <= |frozen| ==> IsDeleted(frozen[d - 1]))
      && forall p :: p in ss[|es|].folder.files && Newcomer(p, frozen) ==>
           p in f'.files && f'.files[p] == ss[|es|].folder.files[p]
  {
    hide Held, Step, Quits, Marks, Since, Carried, Lives;
    var login := ss[Login(es, |es|)];
    RunHolds(ss, es, |es|);
    RunMarks(ss, es, |es|);
    QuitAppliesMarks(login.view.messages, login.folder.files, ss[|es|], marked, flagged, files, f', v', seqs);
    GoneWhen(login.view.messages, Since(ss, es, |es|), Carried(ss, es, |es|), f'.files);
  }

  lemma GoneWhen(frozen: seq<Message>, since: set<int>, carried: set<int>, after: map<Path, File>)
    requires since !! carried && GoneExactly(frozen, since + carried, after)
    ensures GoneExactly(frozen, since, after) <==> forall d :: d in carried && 1 <= d <= |frozen| ==> IsDeleted(frozen[d - 1])
  {
    if d :| d in carried && 1 <= d <= |frozen| && !IsDeleted(frozen[d - 1]) {
      assert !Lives(frozen[d - 1], after);
    }
  }

  /** With one login nothing is carried over. */
  lemma {:induction false} NothingCarried(ss: seq<Session>, es: seq<Event>, k: nat)
    requires Run(ss, es) && OneLogin(es) && k < |ss|
    ensures Carried(ss, es, k) == {} && Since(ss, es, k) == Marks(ss, es, k) && Login(es, k) == 0
  {
    if k > 0 { NothingCarried(ss, es, k - 1); }
  }

  /** So with one login QUIT removes exactly what was DELE'd since the last RSET and what was already Deleted. */
  lemma QuitAfterOneLogin(
    ss: seq<Session>, es: seq<Event>, marked: seq<nat>, flagged: View, files: map<Path, File>, f': Folder, v': View, seqs: seq<nat>)
    requires Run(ss, es) && OneLogin(es) && Quits(ss[|es|], marked, flagged, files, f', v', seqs)
    ensures GoneExactly(ss[0].view.messages, Marks(ss, es, |es|), f'.files)
    ensures forall p :: p in ss[|es|].folder.files && Newcomer(p, ss[0].view.messages) ==>
      p in f'.files && f'.files[p] == ss[|es|].folder.files[p]
  {
    hide StepAt, Quits, GoneExactly, Newcomer, Marks, Since, Carried, OneLogin;
    QuitAfterRun(ss, es, marked, flagged, files, f', v', seqs);
    NothingCarried(ss, es, |es|);
  }

  // ----- two logins, on concrete folders -----

  function One(name: string): Folder { Folder(UidFaults.OneFile(name), None) }

  /** PASS on a folder with "a", DELE 1, then PASS on a folder as it is by then. */
  function TwoLogins(folder: Folder, view: View): seq<Session> {
    [Session(One("a"), UidFaults.OneView("a"), {}), Session(One("a"), UidFaults.OneView("a"), {1}), Session(folder, view, {1})]
  }

  lemma TwoLoginsRun(folder: Folder, view: View)
    requires TakenOf(folder, view)
    ensures var ss, es := TwoLogins(folder, view), [Dele(1), Pass(folder, view)];
      Run(ss, es) && Since(ss, es, 2) == {} && Carried(ss, es, 2) == {1} && Login(es, 2) == 2
  {
    var ss, es := TwoLogins(folder, view), [Dele(1), Pass(folder, view)];
    OneTaken("a");
    assert Resolves(ss[0], 1);
    assert StepAt(ss, es, 0) && StepAt(ss, es, 1);
    assert es[1].Pass? && es[0].Dele?;
  }

  lemma OneTaken(name: string)
    requires |name| == 1 && name != "."
    ensures TakenOf(One(name), UidFaults.OneView(name))
  {
    UidFaults.OneSnapshot(name);
  }

  /** The mail was removed elsewhere in between: LIST announces -1 messages and prints none. */
  lemma EmptyAfterSecondPass()
    ensures var f, v := Folder(map[], None), View([], 1, 1);
      var ss, es := TwoLogins(f, v), [Dele(1), Pass(f, v)];
      Run(ss, es) && |Listed(|ss[2].view.messages|, ss[2].del)| == 0 && |ss[2].view.messages| - |ss[2].del| == -1
  {
    var f, v := Folder(map[], None), View([], 1, 1);
    assert Snapshot(f.files, map[], v.messages);
    TwoLoginsRun(f, v);
  }

  /** The mail was replaced by "b" in between: QUIT removes "b", which nobody DELE'd. */
  lemma SecondPassRemovesOther(
    marked: seq<nat>, flagged: View, files: map<Path, File>, f': Folder, v': View, seqs: seq<nat>)
    requires Quits(Session(One("b"), UidFaults.OneView("b"), {1}), marked, flagged, files, f', v', seqs)
    ensures var ss, es := TwoLogins(One("b"), UidFaults.OneView("b")), [Dele(1), Pass(One("b"), UidFaults.OneView("b"))];
      Run(ss, es) && ss[2] == Session(One("b"), UidFaults.OneView("b"), {1}) && Since(ss, es, 2) == {}
    ensures !Lives(UidFaults.OneView("b").messages[0], f'.files)
  {
    OneTaken("b");
    TwoLoginsRun(One("b"), UidFaults.OneView("b"));
    var s := Session(One("b"), UidFaults.OneView("b"), {1});
    PassStarts(s.folder, s.view, s.del);
    QuitAppliesMarks(s.view.messages, s.folder.files, s, marked, flagged, files, f', v', seqs);
  }

  // ----- the code -----

  class PopSession {
    var authd: bool
    var mbox: Mailbox
    var del: set<int>

    /** After a successful PASS. */
    constructor (mbox: Mailbox)
      ensures this.mbox == mbox && authd && del == {}
    {
      this.mbox, authd, del := mbox, true, {};
    }

    function Now(): Session
      reads this, mbox, mbox.dir
    {
      Session(mbox.dir.Now(), mbox.Now(), del)
    }

    /** PASS after a good password: a new mailbox object over the user's folder. The marks stay as they are. */
    method CmdPass(dir: Directory, minted: nat, fault: Fault) returns (ok: bool)
      requires UniqueBases(dir.files)
      modifies this, dir`list
      ensures del == old(del)
      ensures ok ==> authd && fresh(mbox) && mbox.dir == dir && Step(old(Now()), Pass(dir.Now(), mbox.Now()), Now())
      ensures !ok ==> authd == old(authd) && mbox == old(mbox)
      ensures fault.NoFault? ==> ok
    {
      var mb := new Mailbox(dir);
      ok := mb.Refresh(minted, fault);
      if !ok { return; }
      TakenByRefresh(old(dir.Now()), minted, fault, dir.Now(), mb.Now());
      mbox, authd := mb, true;
    }

    /** The number of the command line, None when it is not one. */
    method CmdDele(n: Option<int>) returns (ok: bool)
      modifies this`del
      ensures n.Some? && authd ==> Step(old(Now()), Dele(n.value), Now()) && ok == Resolves(old(Now()), n.value)
      ensures n.None? || !authd ==> !ok && del == old(del)
      ensures ok == (authd && n.Some? && 1 <= n.value <= |mbox.messages| && n.value !in old(del))
      ensures del == old(del) + if ok then {n.value} else {}
    {
      if !authd || n.None? || n.value < 1 || n.value > |mbox.messages| || n.value in del { return false; }
      del := del + {n.value};
      ok := true;
    }

    method CmdRset() returns (ok: bool)
      modifies this`del
      ensures ok == authd && (ok ==> Step(old(Now()), Rset, Now())) && (!ok ==> del == old(del))
      ensures ok ==> del == {}
    {
      if !authd { return false; }
      del := {};
      ok := true;
    }

    /** LIST without an argument: the announced count, then one line per message. */
    method CmdList() returns (announced: int, lines: seq<nat>)
      ensures lines == Listed(|mbox.messages|, del) && announced == |mbox.messages| - |del|
      ensures (forall d :: d in del ==> 1 <= d <= |mbox.messages|) ==> announced == |lines|
    {
      announced := |mbox.messages| - |del|;
      lines := [];
      for i := 0 to |mbox.messages|
        invariant lines == Listed(i, del)
      {
        if i + 1 !in del { lines := lines + [i + 1]; }
      }
      ListCountIsRight(|mbox.messages|, del);
    }

    method CmdRetr(n: int, diskOk: bool) returns (data: Option<string>, ghost marked: bool)
      requires forall i :: 0 <= i < |mbox.messages| ==> Canonical(mbox.messages[i].flags)
      modifies mbox`messages, mbox.dir`files
      ensures authd ==> Step(old(Now()), Retr(n, marked), Now())
      ensures data == if authd && Resolves(old(Now()), n) && old(PathOf(mbox.messages[n - 1]) in mbox.dir.files)
                      then Some(old(mbox.dir.files[PathOf(mbox.messages[n - 1])].data)) else None
      ensures !authd ==> Now() == old(Now())
      ensures data.Some? ==> authd && 1 <= n <= |mbox.messages| && n !in del
      ensures data.Some? && diskOk ==> SEEN in mbox.messages[n - 1].flags
    {
      marked := false;
      if !authd || n < 1 || n > |mbox.messages| || n in del { return None, false; }
      var m := mbox.messages[n - 1];
      if PathOf(m) !in mbox.dir.files { return None, false; }
      data := Some(mbox.dir.files[PathOf(m)].data);
      if SEEN !in m.flags {
        var flags := Add(m.flags, SEEN);
        PickMembers(KNOWN, m.flags + [SEEN]);
        marked := mbox.SetFlags(n - 1, flags, diskOk);
      }
    }

    /** One turn of the loop of cmdQuit: an unmarked message, or one the disk fails, is skipped. */
    method FlagOne(
      ghost before: seq<Message>, ghost files: map<Path, File>, ghost marked: seq<nat>, i: nat, diskOk: bool, ghost all: bool)
      returns (ghost marked': seq<nat>, done: bool)
      requires i < |mbox.messages| == |before| && GoodSnapshot(before) && UniqueBases(files) && PathOf(before[i]) in files
      requires Flagging(before, files, marked, mbox.messages, mbox.dir.files)
      requires Chosen(marked, del, i, all) && (all ==> diskOk)
      modifies mbox`messages, mbox.dir`files
      ensures Flagging(before, files, marked', mbox.messages, mbox.dir.files)
      ensures Chosen(marked', del, i + 1, all) && |marked'| == |marked| + if done then 1 else 0
    {
      ghost var messages', files' := mbox.messages, mbox.dir.files;
      if i + 1 !in del {
        SkipOneMore(marked, del, i, all);
        return marked, false;
      }
      NotYetFlagged(before, files, marked, messages', files', i);
      FlagsOfCanonical(mbox.messages[i].name);
      var flags := Add(mbox.messages[i].flags, DELETED);
      done := mbox.SetFlags(i, flags, diskOk);
      if !done {
        SkipOneMore(marked, del, i, all);
        return marked, false;
      }
      FlagOneMore(before, files, marked, messages', files', i, mbox.messages, mbox.dir.files);
      ChooseOneMore(marked, del, i, all);
      return marked + [i], true;
    }

    /** The loop of cmdQuit: flag every marked message, skipping those that fail. */
    method FlagMarked(diskOk: nat -> bool) returns (ghost marked: seq<nat>, removed: nat)
      requires GoodSnapshot(mbox.messages) && UniqueBases(mbox.dir.files)
      requires forall i :: 0 <= i < |mbox.messages| ==> PathOf(mbox.messages[i]) in mbox.dir.files
      modifies mbox`messages, mbox.dir`files
      ensures Positions(marked, |old(mbox.messages)|) && removed == |marked|
      ensures Flagging(old(mbox.messages), old(mbox.dir.files), marked, mbox.messages, mbox.dir.files)
      ensures forall i :: i in marked ==> i + 1 in del
      ensures (forall i :: diskOk(i)) ==> forall i :: 0 <= i < |old(mbox.messages)| && i + 1 in del ==> i in marked
    {
      ghost var before, files := mbox.messages, mbox.dir.files;
      ghost var all := forall k :: diskOk(k);
      marked, removed := [], 0;
      for i := 0 to |mbox.messages|
        invariant Flagging(before, files, marked, mbox.messages, mbox.dir.files)
        invariant Chosen(marked, del, i, all) && removed == |marked|
      {
        var done;
        marked, done := FlagOne(before, files, marked, i, diskOk(i), all);
        if done { removed := removed + 1; }
      }
    }

    /** QUIT is the one command that removes mail. */
    method CmdQuit(diskOk: nat -> bool, removable: Path -> bool)
      returns (ghost marked: seq<nat>, ghost flagged: View, ghost files: map<Path, File>, ghost seqs: seq<nat>, removed: nat, ok: bool)
      requires GoodSnapshot(mbox.messages) && UniqueBases(mbox.dir.files)
      requires forall i :: 0 <= i < |mbox.messages| ==> PathOf(mbox.messages[i]) in mbox.dir.files
      modifies mbox`messages, mbox.dir`files
      ensures !authd || del == {} ==> ok && mbox.dir.files == old(mbox.dir.files)
      ensures authd && del != {} && ok ==>
        RemovedExactly(old(mbox.messages), marked, old(mbox.dir.files), mbox.dir.files) && removed == |marked|
      ensures authd && del != {} && ok && (forall i :: diskOk(i)) ==>
        Quits(old(Now()), marked, flagged, files, mbox.dir.Now(), mbox.Now(), seqs)
      ensures forall i :: i in marked ==> i + 1 in del
      ensures authd && (forall i :: diskOk(i)) ==>
        forall i :: 0 <= i < |old(mbox.messages)| && i + 1 in del ==> i in marked
      ensures (forall p :: removable(p)) ==> ok
    {
      hide RemovedExactly, Flagging, GoodSnapshot, UniqueBases, ExpungeNumbers, Kept;
      seqs := [];
      if !authd || |del| == 0 { return [], mbox.Now(), mbox.dir.files, [], 0, true; }
      ghost var before, was := mbox.messages, mbox.dir.files;
      marked, removed := FlagMarked(diskOk);
      flagged, files := mbox.Now(), mbox.dir.files;
      var numbers;
      numbers, ok := mbox.Expunge(removable);
      seqs := numbers;
      QuitRemovesExactly(before, marked, flagged.messages, was, files);
    }
  }

  lemma TakenByRefresh(f: Folder, minted: nat, fault: Fault, f': Folder, v': View)
    requires UniqueBases(f.files) && Refreshed(f, View([], 0, 0), minted, fault, f', v', true)
    ensures TakenOf(f', v')
  {
  }

  /** Only marked-for-deletion positions below i are chosen, in order, and all of them when nothing fails. */
  ghost predicate Chosen(marked: seq<nat>, del: set<int>, i: nat, all: bool) {
    && Positions(marked, i)
    && (forall k :: k in marked ==> k + 1 in del)
    && (all ==> forall k :: 0 <= k < i && k + 1 in del ==> k in marked)
  }

  lemma SkipOneMore(marked: seq<nat>, del: set<int>, i: nat, all: bool)
    requires Chosen(marked, del, i, all) && (i + 1 in del ==> !all)
    ensures Chosen(marked, del, i + 1, all)
  {
  }

  lemma ChooseOneMore(marked: seq<nat>, del: set<int>, i: nat, all: bool)
    requires Chosen(marked, del, i, all) && i + 1 in del
    ensures Chosen(marked + [i], del, i + 1, all)
  {
  }

  /** The state of the flagging loop: marked messages are renamed, everything else is as before. */
  ghost predicate Flagging(
    before: seq<Message>, files: map<Path, File>, marked: seq<nat>, messages: seq<Message>, now: map<Path, File>)
  {
    && Marked(before, marked, messages) && AllOnDisk(messages, marked, now) && UniqueBases(now)
    && OthersUntouched(before, marked, files, now)
    && (forall p :: p in now && p !in files ==> Involves(before, marked, Base(p)))
    && (forall p :: p in now && p in files ==> now[p] == files[p])
  }

  lemma NotYetFlagged(
    before: seq<Message>, files: map<Path, File>, marked: seq<nat>, messages: seq<Message>, now: map<Path, File>, i: nat)
    requires GoodSnapshot(before) && i < |before| && Positions(marked, i)
    requires Flagging(before, files, marked, messages, now) && PathOf(before[i]) in files
    ensures messages[i] == before[i] && PathOf(before[i]) in now && now[PathOf(before[i])] == files[PathOf(before[i])]
  {
    assert i !in marked;
    assert !Involves(before, marked, Base(PathOf(before[i])));
  }

  lemma FlagOneMore(
    before: seq<Message>, files: map<Path, File>, marked: seq<nat>, messages: seq<Message>, now: map<Path, File>, i: nat,
    messages': seq<Message>, now': map<Path, File>)
    requires GoodSnapshot(before) && i < |before| && Positions(marked, i)
    requires Flagging(before, files, marked, messages, now) && PathOf(before[i]) in files && PathOf(before[i]) in now
    requires now[PathOf(before[i])] == files[PathOf(before[i])] && UniqueBases(files)
    requires messages' == messages[i := Doomed(before[i])]
    requires now' == if PathOf(before[i]) == PathOf(Doomed(before[i])) then now
                     else Rename(now, PathOf(before[i]), PathOf(Doomed(before[i])))
    ensures Positions(marked + [i], i + 1) && Flagging(before, files, marked + [i], messages', now')
  {
    DoomedFacts(before[i]);
    MarkOne(now, before[i], now');
    MarkOneMore(before, files, marked, messages, now, i, messages', now');
    assert i in marked + [i] && Involves(before, marked + [i], BaseName(before[i].name));
    FlagOneMoreFiles(before, files, marked, now, i, now');
  }

  lemma MarkOneMore(
    before: seq<Message>, files: map<Path, File>, marked: seq<nat>, messages: seq<Message>, now: map<Path, File>, i: nat,
    messages': seq<Message>, now': map<Path, File>)
    requires GoodSnapshot(before) && i < |before| && Positions(marked, i)
    requires Marked(before, marked, messages) && AllOnDisk(messages, marked, now)
    requires OthersUntouched(before, marked, files, now) && PathOf(before[i]) in now
    requires messages' == messages[i := Doomed(before[i])] && PathOf(Doomed(before[i])) in now'
    requires forall p :: p in now && Base(p) != BaseName(before[i].name) ==> p in now' && now'[p] == now[p]
    ensures Positions(marked + [i], i + 1)
    ensures Marked(before, marked + [i], messages') && AllOnDisk(messages', marked + [i], now')
    ensures OthersUntouched(before, marked + [i], files, now')
  {
    var all := marked + [i];
    assert all[..|marked|] == marked && all[..|marked| + 1] == all && all[|marked|] == i && i !in marked;
    MarkStep(before, all, |marked|, files, messages, now, messages', now');
  }

  lemma FlagOneMoreFiles(
    before: seq<Message>, files: map<Path, File>, marked: seq<nat>, now: map<Path, File>, i: nat, now': map<Path, File>)
    requires i < |before| && Involves(before, marked + [i], BaseName(before[i].name)) && UniqueBases(files)
    requires forall p :: p in now && p !in files ==> Involves(before, marked, Base(p))
    requires forall p :: p in now && p in files ==> now[p] == files[p]
    requires var from, to := PathOf(before[i]), PathOf(Doomed(before[i]));
      && from in files && from in now && now[from] == files[from] && Base(to) == Base(from) == BaseName(before[i].name)
      && now' == if from == to then now else Rename(now, from, to)
    ensures forall p :: p in now' && p !in files ==> Involves(before, marked + [i], Base(p))
    ensures forall p :: p in now' && p in files ==> now'[p] == files[p]
  {
    forall p | p in now' && p !in files ensures Involves(before, marked + [i], Base(p)) {
      if p in now {
        var k :| k in marked && 0 <= k < |before| && BaseName(before[k].name) == Base(p);
        assert k in marked + [i];
      }
    }
  }
}
