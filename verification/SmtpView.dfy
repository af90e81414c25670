/** The SMTP session as its client sees it: told from commands and replies alone, over every command sequence. */
module SmtpView {
  import opened Text
  import opened Smtp

  /** What a client can conclude: greeted, under TLS, logged in as, the transaction so far, and whether anyone still answers. */
  datatype View = View(greeted: bool, secure: bool, user: string, sender: Option<string>, rcpts: seq<Rcpt>, alive: bool)

  function Cleared(v: View): View { v.(sender := None, rcpts := []) }

  /** The bare postmaster is the configured one; a local address has a mailbox. */
  function Resolved(c: Config, path: string): Rcpt {
    var asked := Lower(Trim(path));
    var addr := if asked == "postmaster" && c.postmaster != "" then c.postmaster else asked;
    var domain := DomainOf(addr);
    if domain.Some? && c.isLocal(domain.value) then
      Rcpt(addr, false, if c.lookup(addr).Some? then c.lookup(addr).value else "")
    else Rcpt(addr, true, "")
  }

  /** What a command has done, by the code it was answered with. */
  function Heard(c: Config, v: View, cmd: Command, code: int): View {
    match cmd
    case Helo(_) => if code == 250 then Cleared(v).(greeted := true) else v
    case StartTls(handshake) =>
      if code != 220 then v else if handshake then Cleared(v).(greeted := false, secure := true) else v.(alive := false)
    case Auth(o) => if o.Good? && code == 235 then v.(user := Lower(o.user)) else v
    case Mail(path, _) => if path.Some? && code == 250 then v.(sender := Some(Lower(path.value))) else v
    case RcptTo(path, _) => if path.Some? && code == 250 then v.(rcpts := v.rcpts + [Resolved(c, path.value)]) else v
    case Data(_, _, _, _, _) =>
      if code in {250, 451, 550, 552} then Cleared(v) else if code in {354, 421} then v.(alive := false) else v
    case Rset => Cleared(v)
    case Quit => v.(alive := false)
    case Else(_) => v
  }

  /** The code that a command is answered with in the end; 0 when nobody answers. */
  function Code(c: Config, s: State, cmd: Command): int {
    var es := Shown(c, s, cmd);
    if es != [] && es[|es| - 1].Reply? then es[|es| - 1].code else 0
  }

  /** The view after n commands. */
  function Watched(c: Config, cmds: seq<Command>, n: nat): View
    requires n <= |cmds|
  {
    if n == 0 then View(false, c.implicitTls, "", None, [], true)
    else
      var v := Watched(c, cmds, n - 1);
      if v.alive then Heard(c, v, cmds[n - 1], Code(c, After(c, cmds, n - 1), cmds[n - 1])) else v
  }

  function ViewOf(s: State): View {
    View(s.helo != "", s.tls, s.authed, if s.fromSet then Some(s.from) else None, s.rcpts, !s.closed)
  }

  // ----- the replies of one command -----

  lemma OneReply(c: Config, s: State, cmd: Command, code: int)
    requires !Stores(c, s, cmd) && Step(c, s, cmd).log == s.log + [Reply(code)]
    ensures Shown(c, s, cmd) == [Reply(code)] && Code(c, s, cmd) == code
  {
    assert (s.log + [Reply(code)])[|s.log|..] == [Reply(code)];
  }

  lemma TwoReplies(c: Config, s: State, cmd: Command, code: int)
    requires !Stores(c, s, cmd) && Step(c, s, cmd).log == s.log + [Reply(354)] + [Reply(code)]
    ensures Shown(c, s, cmd) == [Reply(354), Reply(code)] && Code(c, s, cmd) == code
  {
    assert (s.log + [Reply(354)] + [Reply(code)])[|s.log|..] == [Reply(354), Reply(code)];
  }

  lemma NothingShown(c: Config, s: State, cmd: Command)
    requires s.closed
    ensures Shown(c, s, cmd) == []
  {
  }

  // ----- one command -----

  ghost predicate Tells(c: Config, s: State, cmd: Command) {
    ViewOf(Step(c, s, cmd)) == Heard(c, ViewOf(s), cmd, Code(c, s, cmd))
  }

  ghost predicate OneAnswer(c: Config, s: State, cmd: Command) { Shown(c, s, cmd) == [Reply(Code(c, s, cmd))] }

  /** HELO is answered 250 for any name at all. */
  lemma HeloTells(c: Config, s: State, arg: string)
    requires !s.closed
    ensures Tells(c, s, Helo(arg)) && OneAnswer(c, s, Helo(arg)) && (Code(c, s, Helo(arg)) == 250 <==> arg != "")
  {
    OneReply(c, s, Helo(arg), if arg == "" then 501 else 250);
  }

  lemma StartTlsTells(c: Config, s: State, handshake: bool)
    requires !s.closed
    ensures Tells(c, s, StartTls(handshake)) && OneAnswer(c, s, StartTls(handshake))
    ensures (Code(c, s, StartTls(handshake)) == 220 <==> c.hasTls && !s.tls)
  {
    OneReply(c, s, StartTls(handshake), if !c.hasTls then 454 else if s.tls then 503 else 220);
  }

  /** A login is asked about on submission, under TLS, once. */
  lemma AuthTells(c: Config, s: State, o: AuthOutcome)
    requires !s.closed
    ensures Tells(c, s, Auth(o)) && OneAnswer(c, s, Auth(o))
    ensures o.Good? ==> (Code(c, s, Auth(o)) == 235 <==> c.mode == Submission && c.hasAuth && s.tls && s.authed == "")
  {
    var s' := Step(c, s, Auth(o));
    OneReply(c, s, Auth(o), s'.log[|s.log|].code);
  }

  /** When MAIL opens a transaction. */
  predicate MailOk(c: Config, v: View, path: Option<string>, sizeOk: bool) {
    && v.greeted && v.sender.None? && path.Some? && sizeOk
    && (c.mode == Submission ==> v.user != "" && Lower(path.value) == v.user)
  }

  lemma MailTells(c: Config, s: State, path: Option<string>, sizeOk: bool)
    requires !s.closed
    ensures Tells(c, s, Mail(path, sizeOk)) && OneAnswer(c, s, Mail(path, sizeOk))
    ensures Code(c, s, Mail(path, sizeOk)) == 250 <==> MailOk(c, ViewOf(s), path, sizeOk)
  {
    var s' := Step(c, s, Mail(path, sizeOk));
    OneReply(c, s, Mail(path, sizeOk), s'.log[|s.log|].code);
  }

  /** When RCPT adds a recipient: within the limits, and local with a mailbox or, on submission only, remote. */
  predicate RcptOk(c: Config, v: View, path: Option<string>, allowed: bool) {
    && v.sender.Some? && |v.rcpts| < c.maxRecipients && path.Some? && allowed
    && var r := Resolved(c, path.value);
       && DomainOf(r.addr).Some?
       && (if r.remote then c.mode == Submission else c.lookup(r.addr).Some?)
  }

  lemma RcptDoes(c: Config, s: State, path: Option<string>, allowed: bool) returns (code: int)
    ensures var ok, s' := RcptOk(c, ViewOf(s), path, allowed), DoRcpt(c, s, path, allowed);
      && s'.log == s.log + [Reply(code)] && (code == 250 <==> ok)
      && s' == s.(log := s'.log, rcpts := s'.rcpts)
      && s'.rcpts == if ok then s.rcpts + [Resolved(c, path.value)] else s.rcpts
  {
    hide Trim, Lower, DomainOf;
    var s' := DoRcpt(c, s, path, allowed);
    assert path.Some? ==> RcptAddr(c, path.value) == Resolved(c, path.value).addr;
    code := s'.log[|s.log|].code;
  }

  lemma RcptTells(c: Config, s: State, path: Option<string>, allowed: bool)
    requires !s.closed
    ensures Tells(c, s, RcptTo(path, allowed)) && OneAnswer(c, s, RcptTo(path, allowed))
    ensures Code(c, s, RcptTo(path, allowed)) == 250 <==> RcptOk(c, ViewOf(s), path, allowed)
  {
    var code := RcptDoes(c, s, path, allowed);
    hide DoRcpt, Resolved, RcptOk;
    assert Step(c, s, RcptTo(path, allowed)) == DoRcpt(c, s, path, allowed);
    OneReply(c, s, RcptTo(path, allowed), code);
    if code == 250 { assert path.Some? by { RcptHasPath(c, s, path, allowed); } }
  }

  lemma RcptHasPath(c: Config, s: State, path: Option<string>, allowed: bool)
    requires RcptOk(c, ViewOf(s), path, allowed)
    ensures path.Some?
  {
  }

  // ----- DATA -----

  /** When the message is taken and goes to the recipients. */
  predicate DataOk(c: Config, v: View, cmd: Command) {
    && cmd.Data? && v.rcpts != [] && cmd.allowed && cmd.transfer.Complete?
    && (if c.mode == Submission then cmd.maySend else !cmd.rejected)
  }

  /** What is shown of one recipient: it fails, or goes to the queue under the sender's name, or to its mailbox. */
  function Fate(v: View, i: nat, stored: bool): Event
    requires i < |v.rcpts|
  {
    var r := v.rcpts[i];
    if !stored then Failed(r.addr)
    else if r.remote then Enqueued(if v.sender.Some? then v.sender.value else "", r.addr)
    else Delivered(r.mb)
  }

  /** One event for every recipient in order, between 354 and a 250 that means at least one success. */
  ghost predicate DataShows(v: View, es: seq<Event>, stores: nat -> bool) {
    && |es| == |v.rcpts| + 2 && es[0] == Reply(354)
    && (forall i: nat :: i < |v.rcpts| ==> es[i + 1] == Fate(v, i, stores(i)))
    && es[|es| - 1] == Reply(if exists i: nat :: i < |v.rcpts| && stores(i) then 250 else 451)
  }

  lemma DataTells(c: Config, s: State, cmd: Command)
    requires !s.closed && cmd.Data? && Inv(c, s)
    ensures Tells(c, s, cmd)
    ensures Code(c, s, cmd) in {250, 451} <==> DataOk(c, ViewOf(s), cmd)
    ensures DataOk(c, ViewOf(s), cmd) ==> DataShows(ViewOf(s), Shown(c, s, cmd), cmd.stores)
    ensures !DataOk(c, ViewOf(s), cmd) ==> OneAnswer(c, s, cmd) || Shown(c, s, cmd) == [Reply(354), Reply(Code(c, s, cmd))]
  {
    if Stores(c, s, cmd) { LoopTells(c, s, cmd); } else { RefusalTells(c, s, cmd); }
  }

  lemma LoopTells(c: Config, s: State, cmd: Command)
    requires Stores(c, s, cmd) && Inv(c, s)
    ensures Tells(c, s, cmd) && Code(c, s, cmd) in {250, 451} && DataOk(c, ViewOf(s), cmd)
    ensures DataShows(ViewOf(s), Shown(c, s, cmd), cmd.stores)
  {
    hide Step, LoopShown, DataShows, Shown, Code, Inv, Stores, DataOk;
    LoopIsOk(c, s, cmd);
    LoopEnds(c, s, cmd);
    LoopCode(c, s, cmd);
  }

  lemma LoopIsOk(c: Config, s: State, cmd: Command)
    requires Stores(c, s, cmd) && Inv(c, s)
    ensures cmd.Data? && DataOk(c, ViewOf(s), cmd) && DataShows(ViewOf(s), LoopShown(s, cmd.stores), cmd.stores)
  {
    hide DataShows;
    LoopShows(s, LoopShown(s, cmd.stores), cmd.stores);
  }

  lemma LoopCode(c: Config, s: State, cmd: Command)
    requires Stores(c, s, cmd)
    ensures Shown(c, s, cmd) == LoopShown(s, cmd.stores) && Code(c, s, cmd) in {250, 451}
  {
    hide Step, StoreEvents, Accepted;
  }

  /** The transaction is over. */
  lemma LoopEnds(c: Config, s: State, cmd: Command)
    requires Stores(c, s, cmd)
    ensures ViewOf(Step(c, s, cmd)) == Cleared(ViewOf(s))
  {
    hide StoreEvents, Accepted;
  }

  lemma LoopShows(s: State, es: seq<Event>, stores: nat -> bool)
    requires s.rcpts != [] && s.fromSet && |es| == |s.rcpts| + 2 && es[0] == Reply(354)
    requires forall i :: 1 <= i <= |s.rcpts| ==> es[i] == StoreEvent(s.from, s.rcpts[i - 1], stores(i - 1))
    requires es[|s.rcpts| + 1] == Reply(if Accepted(|s.rcpts|, stores) == 0 then 451 else 250)
    ensures DataShows(ViewOf(s), es, stores)
  {
    AcceptedCounts(|s.rcpts|, stores);
    hide Accepted;
    forall i: nat | i < |s.rcpts| ensures es[i + 1] == Fate(ViewOf(s), i, stores(i)) {
      var j := i + 1;
      assert es[j] == StoreEvent(s.from, s.rcpts[j - 1], stores(j - 1));
    }
  }

  lemma RefusalTells(c: Config, s: State, cmd: Command)
    requires !s.closed && cmd.Data? && !Stores(c, s, cmd)
    ensures Tells(c, s, cmd) && Code(c, s, cmd) !in {250, 451} && !DataOk(c, ViewOf(s), cmd)
    ensures OneAnswer(c, s, cmd) || Shown(c, s, cmd) == [Reply(354), Reply(Code(c, s, cmd))]
  {
    hide Shown, Code;
    if s.rcpts == [] {
      OneReply(c, s, cmd, 503);
    } else if !cmd.allowed {
      OneReply(c, s, cmd, if c.mode == Inbound then 421 else 452);
    } else if c.mode == Submission && !cmd.maySend {
      OneReply(c, s, cmd, 450);
    } else if cmd.transfer.Broken? {
      OneReply(c, s, cmd, 354);
    } else {
      TwoReplies(c, s, cmd, if cmd.transfer.TooBig? then 552 else 550);
    }
  }

  // ----- over every command sequence -----

  lemma StepTells(c: Config, s: State, cmd: Command)
    requires !s.closed && Inv(c, s)
    ensures Tells(c, s, cmd)
  {
    match cmd
    case Helo(arg) => HeloTells(c, s, arg);
    case StartTls(handshake) => StartTlsTells(c, s, handshake);
    case Auth(o) => AuthTells(c, s, o);
    case Mail(path, sizeOk) => MailTells(c, s, path, sizeOk);
    case RcptTo(path, allowed) => RcptTells(c, s, path, allowed);
    case Data(_, _, _, _, _) => DataTells(c, s, cmd);
    case Rset => OneReply(c, s, cmd, 250);
    case Quit => OneReply(c, s, cmd, 221);
    case Else(code) => OneReply(c, s, cmd, code);
  }

  /** Whoever hears the replies knows the session: greeting, TLS, identity, sender and recipients in order. */
  lemma {:induction false} RepliesTellAll(c: Config, cmds: seq<Command>, n: nat)
    requires n <= |cmds|
    ensures ViewOf(After(c, cmds, n)) == Watched(c, cmds, n)
  {
    if n > 0 {
      hide After, Watched;
      RepliesTellAll(c, cmds, n - 1);
      SessionSafe(c, cmds, n - 1);
      NextTells(c, cmds, n - 1);
    }
  }

  lemma NextTells(c: Config, cmds: seq<Command>, n: nat)
    requires n < |cmds| && Inv(c, After(c, cmds, n)) && ViewOf(After(c, cmds, n)) == Watched(c, cmds, n)
    ensures ViewOf(After(c, cmds, n + 1)) == Watched(c, cmds, n + 1)
  {
    var s, cmd := After(c, cmds, n), cmds[n];
    assert After(c, cmds, n + 1) == Step(c, s, cmd);
    if s.closed {
      assert Step(c, s, cmd) == s;
    } else {
      hide Inv, Step, Code, Heard;
      StepTells(c, s, cmd);
    }
  }

  /** What a command is answered, told by the replies before it. */
  ghost predicate Answers(c: Config, v: View, cmd: Command, es: seq<Event>, code: int) {
    if !v.alive then es == []
    else match cmd
         case Helo(arg) => es == [Reply(code)] && (code == 250 <==> arg != "")
         case StartTls(_) => es == [Reply(code)] && (code == 220 <==> c.hasTls && !v.secure)
         case Auth(o) => es == [Reply(code)]
           && (o.Good? ==> (code == 235 <==> c.mode == Submission && c.hasAuth && v.secure && v.user == ""))
         case Mail(path, sizeOk) => es == [Reply(code)] && (code == 250 <==> MailOk(c, v, path, sizeOk))
         case RcptTo(path, allowed) => es == [Reply(code)] && (code == 250 <==> RcptOk(c, v, path, allowed))
         case Data(_, _, _, _, stores) =>
           if DataOk(c, v, cmd) then DataShows(v, es, stores)
           else code !in {250, 451} && (es == [Reply(code)] || es == [Reply(354), Reply(code)])
         case Rset => es == [Reply(250)]
         case Quit => es == [Reply(221)]
         case Else(_) => es == [Reply(code)]
  }

  /**
    Every command of every session is answered as the replies before it
    demand: MAIL and RCPT with 250 exactly under their conditions, DATA with
    one event per recipient accepted since the transaction began, and the log
    holds nothing else.
   */
  lemma AnswersAreRight(c: Config, cmds: seq<Command>, n: nat)
    requires n < |cmds|
    ensures var s := After(c, cmds, n);
      && Answers(c, Watched(c, cmds, n), cmds[n], Shown(c, s, cmds[n]), Code(c, s, cmds[n]))
      && After(c, cmds, n + 1).log == s.log + Shown(c, s, cmds[n])
  {
    var s := After(c, cmds, n);
    RepliesTellAll(c, cmds, n);
    SessionSafe(c, cmds, n);
    StepShows(c, s, cmds[n]);
    StepAnswers(c, s, cmds[n]);
  }

  lemma StepAnswers(c: Config, s: State, cmd: Command)
    requires Inv(c, s)
    ensures Answers(c, ViewOf(s), cmd, Shown(c, s, cmd), Code(c, s, cmd))
  {
    if s.closed {
      NothingShown(c, s, cmd);
    } else {
      hide DoHelo, DoStartTls, DoAuth, DoMail, DoRcpt, DoData, Shown, Code, DataShows, MailOk, RcptOk, DataOk, Tells, Inv;
      match cmd
      case Helo(arg) => HeloTells(c, s, arg);
      case StartTls(handshake) => StartTlsTells(c, s, handshake);
      case Auth(o) => AuthTells(c, s, o);
      case Mail(path, sizeOk) => MailTells(c, s, path, sizeOk);
      case RcptTo(path, allowed) => RcptTells(c, s, path, allowed);
      case Data(_, _, _, _, _) => DataTells(c, s, cmd);
      case Rset => OneReply(c, s, cmd, 250);
      case Quit => OneReply(c, s, cmd, 221);
      case Else(code) => OneReply(c, s, cmd, code);
    }
  }
}
