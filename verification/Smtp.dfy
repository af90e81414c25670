/** The SMTP session: what any sequence of commands can make it do. */
module Smtp {
  import opened Text

  datatype Mode = Inbound | Submission

  /** The listener's settings and the parts of the backend that do not change during a session. */
  datatype Config = Config(
    mode: Mode, hasTls: bool, implicitTls: bool, hasAuth: bool, maxRecipients: nat,
    postmaster: string, isLocal: string -> bool, lookup: string -> Option<string>)

  datatype Rcpt = Rcpt(addr: string, remote: bool, mb: string)

  /** What the outside world sees of a session. */
  datatype Event =
    | Reply(code: int)
    | Enqueued(from: string, addr: string)
    | Delivered(mb: string)
    | Failed(addr: string)

  datatype State = State(
    helo: string, tls: bool, authed: string, from: string, fromSet: bool, rcpts: seq<Rcpt>, closed: bool, log: seq<Event>)

  // ----- HELO names -----

  /** sanitizeHelo: a safe character for every character, at most 255 of them. */
  function Sanitize(h: string): (r: string)
    ensures h != "" ==> r != ""
  {
    var t := if |h| > 255 then h[..255] else h;
    seq(|t|, i requires 0 <= i < |t| => if SafeHelo(t[i]) then t[i] else '?')
  }

  predicate SafeHelo(c: char) { 'a' <= c <= 'z' || 'A' <= c <= 'Z' || '0' <= c <= '9' || c in ".-:[]_" }

  // ----- commands, each with what the network and the backend contribute -----

  datatype AuthOutcome = NoDialogue(code: int) | Good(user: string) | LockedOut | Bad

  datatype Transfer = Broken | TooBig | Complete

  datatype Command =
    | Helo(arg: string)
    | StartTls(handshake: bool)
    | Auth(outcome: AuthOutcome)
    | Mail(path: Option<string>, sizeOk: bool)
    | RcptTo(path: Option<string>, allowed: bool)
    | Data(allowed: bool, maySend: bool, transfer: Transfer, rejected: bool, stores: nat -> bool)
    | Rset
    | Quit
    | Else(code: int)

  // ----- the code as functions -----

  function Reset(s: State): State { s.(from := "", fromSet := false, rcpts := []) }

  function Say(s: State, code: int): State { s.(log := s.log + [Reply(code)]) }

  function Close(s: State): State { s.(closed := true) }

  function DoHelo(s: State, arg: string): State {
    if arg == "" then Say(s, 501) else Say(Reset(s.(helo := Sanitize(arg))), 250)
  }

  function DoStartTls(c: Config, s: State, handshake: bool): State {
    if !c.hasTls then Say(s, 454)
    else if s.tls then Say(s, 503)
    else if !handshake then Close(Say(s, 220))
    else Reset(Say(s, 220).(tls := true, helo := ""))
  }

  function DoAuth(c: Config, s: State, o: AuthOutcome): State {
    if c.mode != Submission || !c.hasAuth then Say(s, 503)
    else if !s.tls then Say(s, 530)
    else if s.authed != "" then Say(s, 503)
    else match o
         case NoDialogue(code) => Say(s, code)
         case Good(user) => Say(s.(authed := Lower(user)), 235)
         case LockedOut => Say(s, 454)
         case Bad => Say(s, 535)
  }

  function DoMail(c: Config, s: State, path: Option<string>, sizeOk: bool): State {
    if s.helo == "" then Say(s, 503)
    else if s.fromSet then Say(s, 503)
    else if c.mode == Submission && s.authed == "" then Say(s, 530)
    else if path.None? then Say(s, 501)
    else if !sizeOk then Say(s, 552)
    else if c.mode == Submission && Lower(path.value) != s.authed then Say(s, 553)
    else Say(s.(from := Lower(path.value), fromSet := true), 250)
  }

  function RcptAddr(c: Config, path: string): string {
    var addr := Lower(Trim(path));
    if addr == "postmaster" && c.postmaster != "" then c.postmaster else addr
  }

  function DoRcpt(c: Config, s: State, path: Option<string>, allowed: bool): State {
    if !s.fromSet then Say(s, 503)
    else if |s.rcpts| >= c.maxRecipients then Say(s, 452)
    else if path.None? then Say(s, 501)
    else
      var addr := RcptAddr(c, path.value);
      match DomainOf(addr)
      case None => Say(s, 501)
      case Some(domain) =>
        var local := c.isLocal(domain);
        if c.mode == Inbound && !local then Say(s, 554)
        else if !allowed then Say(s, 452)
        else if !local then Say(s.(rcpts := s.rcpts + [Rcpt(addr, true, "")]), 250)
        else match c.lookup(addr)
             case None => Say(s, 550)
             case Some(mb) => Say(s.(rcpts := s.rcpts + [Rcpt(addr, false, mb)]), 250)
  }

  /** What storing the message for one recipient shows. */
  function StoreEvent(from: string, r: Rcpt, ok: bool): Event {
    if !ok then Failed(r.addr) else if r.remote then Enqueued(from, r.addr) else Delivered(r.mb)
  }

  /** The events of the delivery loop over the first n recipients. */
  function StoreEvents(s: State, n: nat, stores: nat -> bool): (es: seq<Event>)
    requires n <= |s.rcpts|
    ensures |es| == n && forall i :: 0 <= i < n ==> es[i] == StoreEvent(s.from, s.rcpts[i], stores(i))
  {
    seq(n, i requires 0 <= i < n => StoreEvent(s.from, s.rcpts[i], stores(i)))
  }

  function Accepted(n: nat, stores: nat -> bool): nat {
    if n == 0 then 0 else Accepted(n - 1, stores) + if stores(n - 1) then 1 else 0
  }

  function DoData(c: Config, s: State, allowed: bool, maySend: bool, t: Transfer, rejected: bool, stores: nat -> bool): State {
    if s.rcpts == [] then Say(s, 503)
    else if c.mode == Inbound && !allowed then Close(Say(s, 421))
    else if c.mode == Submission && !allowed then Say(s, 452)
    else if c.mode == Submission && !maySend then Say(s, 450)
    else
      var s1 := Say(s, 354);
      match t
      case Broken => Close(s1)
      case TooBig => Say(Reset(s1), 552)
      case Complete =>
        if c.mode == Inbound && rejected then Say(Reset(s1), 550)
        else
          var s2 := s1.(log := s1.log + StoreEvents(s, |s.rcpts|, stores));
          Say(Reset(s2), if Accepted(|s.rcpts|, stores) == 0 then 451 else 250)
  }

  /** One command; a closed session answers nothing. */
  function Step(c: Config, s: State, cmd: Command): State {
    if s.closed then s
    else match cmd
         case Helo(arg) => DoHelo(s, arg)
         case StartTls(handshake) => DoStartTls(c, s, handshake)
         case Auth(o) => DoAuth(c, s, o)
         case Mail(path, sizeOk) => DoMail(c, s, path, sizeOk)
         case RcptTo(path, allowed) => DoRcpt(c, s, path, allowed)
         case Data(allowed, maySend, t, rejected, stores) => DoData(c, s, allowed, maySend, t, rejected, stores)
         case Rset => Say(Reset(s), 250)
         case Quit => Close(Say(s, 221))
         case Else(code) => Say(s, code)
  }

  function Start(c: Config): State { State("", c.implicitTls, "", "", false, [], false, []) }

  function After(c: Config, cmds: seq<Command>, n: nat): State
    requires n <= |cmds|
  {
    if n == 0 then Start(c) else Step(c, After(c, cmds, n - 1), cmds[n - 1])
  }

  // ----- what every session keeps -----

  /** An accepted recipient: remote only on submission, otherwise a resolved local mailbox. */
  ghost predicate GoodRcpt(c: Config, r: Rcpt) {
    if r.remote then c.mode == Submission
    else DomainOf(r.addr).Some? && c.isLocal(DomainOf(r.addr).value) && c.lookup(r.addr) == Some(r.mb)
  }

  ghost predicate Inv(c: Config, s: State) {
    && (s.rcpts != [] ==> s.fromSet) && (s.fromSet ==> s.helo != "")
    && (s.authed != "" ==> c.mode == Submission && s.tls)
    && (c.mode == Submission && s.fromSet ==> s.authed != "" && s.from == s.authed)
    && (forall i :: 0 <= i < |s.rcpts| ==> GoodRcpt(c, s.rcpts[i]))
    && |s.rcpts| <= c.maxRecipients
  }

  lemma StepKeepsInv(c: Config, s: State, cmd: Command)
    requires Inv(c, s)
    ensures Inv(c, Step(c, s, cmd))
  {
    if cmd.RcptTo? { RcptKeepsInv(c, s, cmd.path, cmd.allowed); }
  }

  /** RCPT leaves everything but the recipients and the log, and adds at most one good recipient. */
  lemma RcptAddsGood(c: Config, s: State, path: Option<string>, allowed: bool) returns (added: seq<Rcpt>)
    requires |s.rcpts| <= c.maxRecipients
    ensures var s' := DoRcpt(c, s, path, allowed); s' == s.(rcpts := s.rcpts + added, log := s'.log)
    ensures |added| <= 1 && (added != [] ==> s.fromSet && |s.rcpts| < c.maxRecipients && GoodRcpt(c, added[0]))
  {
    hide Trim, Lower, DomainOf;
    var s' := DoRcpt(c, s, path, allowed);
    assert s.rcpts + [] == s.rcpts;
    added := if |s'.rcpts| == |s.rcpts| then [] else [s'.rcpts[|s.rcpts|]];
  }

  lemma RcptKeepsInv(c: Config, s: State, path: Option<string>, allowed: bool)
    requires Inv(c, s)
    ensures Inv(c, DoRcpt(c, s, path, allowed))
  {
    var added := RcptAddsGood(c, s, path, allowed);
  }

  /** Over every command sequence: recipients imply MAIL implies HELO, identities and recipients are as the mode demands. */
  lemma {:induction false} SessionSafe(c: Config, cmds: seq<Command>, n: nat)
    requires n <= |cmds|
    ensures Inv(c, After(c, cmds, n))
  {
    if n > 0 {
      SessionSafe(c, cmds, n - 1);
      StepKeepsInv(c, After(c, cmds, n - 1), cmds[n - 1]);
    }
  }

  // ----- what a session can emit -----

  /** An event the session may show in its present state. */
  ghost predicate EventOk(c: Config, s: State, e: Event) {
    match e
    case Enqueued(from, addr) => c.mode == Submission && s.tls && s.authed != "" && from == s.authed
    case Delivered(mb) => exists i :: 0 <= i < |s.rcpts| && !s.rcpts[i].remote && s.rcpts[i].mb == mb && GoodRcpt(c, s.rcpts[i])
    case _ => true
  }

  lemma {:induction false} AcceptedCounts(n: nat, stores: nat -> bool)
    ensures Accepted(n, stores) == 0 <==> forall i :: 0 <= i < n ==> !stores(i)
  {
    if n > 0 { AcceptedCounts(n - 1, stores); }
  }

  /** The DATA reached its delivery loop. */
  predicate Stores(c: Config, s: State, cmd: Command) {
    && cmd.Data? && !s.closed && s.rcpts != [] && cmd.allowed && (c.mode == Submission ==> cmd.maySend)
    && cmd.transfer == Complete && !(c.mode == Inbound && cmd.rejected)
  }

  /** The events of a DATA that reached it. */
  function LoopShown(s: State, stores: nat -> bool): (es: seq<Event>)
    ensures |es| == |s.rcpts| + 2 && es[0] == Reply(354)
    ensures forall i :: 1 <= i <= |s.rcpts| ==> es[i] == StoreEvent(s.from, s.rcpts[i - 1], stores(i - 1))
    ensures es[|s.rcpts| + 1] == Reply(if Accepted(|s.rcpts|, stores) == 0 then 451 else 250)
  {
    [Reply(354)] + StoreEvents(s, |s.rcpts|, stores) + [Reply(if Accepted(|s.rcpts|, stores) == 0 then 451 else 250)]
  }

  /** The events of one command. */
  function Shown(c: Config, s: State, cmd: Command): seq<Event> {
    if Stores(c, s, cmd) then LoopShown(s, cmd.stores)
    else if |s.log| <= |Step(c, s, cmd).log| then Step(c, s, cmd).log[|s.log|..]
    else []
  }

  /** The log only grows, and outside a delivery loop only by replies. */
  lemma StepShows(c: Config, s: State, cmd: Command)
    ensures |s.log| <= |Step(c, s, cmd).log| && Step(c, s, cmd).log == s.log + Shown(c, s, cmd)
    ensures !Stores(c, s, cmd) ==> forall i :: 0 <= i < |Shown(c, s, cmd)| ==> Shown(c, s, cmd)[i].Reply?
    ensures cmd.Data? && !Stores(c, s, cmd) && Shown(c, s, cmd) != [] ==>
      var last := Shown(c, s, cmd)[|Shown(c, s, cmd)| - 1]; last != Reply(250) && last != Reply(451)
  {
    var s' := Step(c, s, cmd);
    if Stores(c, s, cmd) {
      var es := StoreEvents(s, |s.rcpts|, cmd.stores);
      var last := [Reply(if Accepted(|s.rcpts|, cmd.stores) == 0 then 451 else 250)];
      assert s'.log == s.log + [Reply(354)] + es + last;
      assert s.log + [Reply(354)] + es + last == s.log + ([Reply(354)] + es + last);
    } else {
      if cmd.Data? { DataReplies(c, s, cmd); } else { OtherReplies(c, s, cmd); }
      RepliesFollow(s, s');
    }
  }

  /** s' has at most two more log entries than s, replies all. */
  ghost predicate OnlyReplies(s: State, s': State) {
    || s'.log == s.log
    || (|s'.log| == |s.log| + 1 && s.log <= s'.log && s'.log[|s.log|].Reply?)
    || (|s'.log| == |s.log| + 2 && s.log <= s'.log && s'.log[|s.log|].Reply? && s'.log[|s.log| + 1].Reply?)
  }

  lemma DataReplies(c: Config, s: State, cmd: Command)
    requires cmd.Data? && !Stores(c, s, cmd)
    ensures OnlyReplies(s, Step(c, s, cmd))
    ensures |s.log| < |Step(c, s, cmd).log| ==>
      var last := Step(c, s, cmd).log[|Step(c, s, cmd).log| - 1]; last != Reply(250) && last != Reply(451)
  {
  }

  lemma OtherReplies(c: Config, s: State, cmd: Command)
    requires !cmd.Data?
    ensures OnlyReplies(s, Step(c, s, cmd))
  {
    hide Sanitize, Trim, Lower, DomainOf;
    if cmd.RcptTo? { hide DoHelo, DoStartTls, DoAuth, DoMail; } else { hide DoRcpt; }
  }

  lemma RepliesFollow(s: State, s': State)
    requires OnlyReplies(s, s')
    ensures |s.log| <= |s'.log| && s'.log == s.log + s'.log[|s.log|..]
    ensures forall i :: 0 <= i < |s'.log[|s.log|..]| ==> s'.log[|s.log|..][i].Reply?
    ensures |s.log| < |s'.log| ==> s'.log[|s.log|..][|s'.log| - |s.log| - 1] == s'.log[|s'.log| - 1]
  {
  }

  /**
    Over every command sequence: an Enqueue happens only on submission, under
    TLS, with the authenticated user as sender, never inbound; a delivery goes
    to a recipient's resolved local mailbox.
   */
  lemma EventsAreSafe(c: Config, cmds: seq<Command>, n: nat, i: nat)
    requires n < |cmds|
    requires i < |Shown(c, After(c, cmds, n), cmds[n])|
    ensures After(c, cmds, n + 1).log == After(c, cmds, n).log + Shown(c, After(c, cmds, n), cmds[n])
    ensures EventOk(c, After(c, cmds, n), Shown(c, After(c, cmds, n), cmds[n])[i])
  {
    var s := After(c, cmds, n);
    SessionSafe(c, cmds, n);
    StepShows(c, s, cmds[n]);
    if Stores(c, s, cmds[n]) && 1 <= i <= |s.rcpts| {
      assert GoodRcpt(c, s.rcpts[i - 1]);
    }
  }

  predicate IsStored(e: Event) { e.Enqueued? || e.Delivered? }

  /** After DATA, 250 means some recipient was stored and 451 means none was. */
  lemma DataReplyTellsTruth(c: Config, s: State, cmd: Command)
    requires cmd.Data? && Shown(c, s, cmd) != []
    ensures var es := Shown(c, s, cmd);
      && (es[|es| - 1] == Reply(250) ==> exists i :: 0 <= i < |es| && IsStored(es[i]))
      && (es[|es| - 1] == Reply(451) ==> forall i :: 0 <= i < |es| ==> !IsStored(es[i]))
  {
    StepShows(c, s, cmd);
    if Stores(c, s, cmd) { LoopTellsTruth(s, cmd.stores); }
  }

  lemma LoopTellsTruth(s: State, stores: nat -> bool)
    ensures var es := LoopShown(s, stores);
      && (es[|es| - 1] == Reply(250) ==> exists i :: 0 <= i < |es| && IsStored(es[i]))
      && (es[|es| - 1] == Reply(451) ==> forall i :: 0 <= i < |es| ==> !IsStored(es[i]))
  {
    AcceptedCounts(|s.rcpts|, stores);
    var es := LoopShown(s, stores);
    if Accepted(|s.rcpts|, stores) != 0 {
      var i :| 0 <= i < |s.rcpts| && stores(i);
      assert IsStored(es[i + 1]);
    }
  }

  // ----- the code -----

  class SmtpSession {
    const c: Config
    var helo: string
    var tls: bool
    var authed: string
    var from: string
    var fromSet: bool
    var rcpts: seq<Rcpt>
    var closed: bool
    var log: seq<Event>

    constructor (c: Config)
      ensures this.c == c && Now() == Start(c)
    {
      this.c := c;
      helo, tls, authed, from, fromSet, rcpts, closed, log := "", c.implicitTls, "", "", false, [], false, [];
    }

    function Now(): State
      reads this
    {
      State(helo, tls, authed, from, fromSet, rcpts, closed, log)
    }

    method Answer(code: int)
      modifies this`log
      ensures log == old(log) + [Reply(code)]
    {
      log := log + [Reply(code)];
    }

    method ResetTransaction()
      modifies this`from, this`fromSet, this`rcpts
      ensures Now() == Reset(old(Now()))
    {
      from, fromSet, rcpts := "", false, [];
    }

    method CmdHelo(arg: string)
      modifies this
      ensures Now() == DoHelo(old(Now()), arg)
    {
      if arg == "" { Answer(501); return; }
      helo := Sanitize(arg);
      ResetTransaction();
      Answer(250);
    }

    method CmdStartTls(handshake: bool)
      modifies this
      ensures Now() == DoStartTls(c, old(Now()), handshake)
    {
      if !c.hasTls { Answer(454); return; }
      if tls { Answer(503); return; }
      Answer(220);
      if !handshake { closed := true; return; }
      tls := true;
      helo := "";
      ResetTransaction();
    }

    method CmdAuth(o: AuthOutcome)
      modifies this
      ensures Now() == DoAuth(c, old(Now()), o)
    {
      if c.mode != Submission || !c.hasAuth { Answer(503); return; }
      if !tls { Answer(530); return; }
      if authed != "" { Answer(503); return; }
      match o {
        case NoDialogue(code) => Answer(code);
        case Good(user) => authed := Lower(user); Answer(235);
        case LockedOut => Answer(454);
        case Bad => Answer(535);
      }
    }

    method CmdMail(path: Option<string>, sizeOk: bool)
      modifies this
      ensures Now() == DoMail(c, old(Now()), path, sizeOk)
    {
      if helo == "" { Answer(503); return; }
      if fromSet { Answer(503); return; }
      if c.mode == Submission && authed == "" { Answer(530); return; }
      if path.None? { Answer(501); return; }
      if !sizeOk { Answer(552); return; }
      var addr := Lower(path.value);
      if c.mode == Submission && addr != authed { Answer(553); return; }
      from := addr;
      fromSet := true;
      Answer(250);
    }

    method CmdRcpt(path: Option<string>, allowed: bool)
      modifies this
      ensures Now() == DoRcpt(c, old(Now()), path, allowed)
    {
      if !fromSet { Answer(503); return; }
      if |rcpts| >= c.maxRecipients { Answer(452); return; }
      if path.None? { Answer(501); return; }
      var addr := Lower(Trim(path.value));
      if addr == "postmaster" && c.postmaster != "" { addr := c.postmaster; }
      var domain := DomainOf(addr);
      if domain.None? { Answer(501); return; }
      var local := c.isLocal(domain.value);
      if c.mode == Inbound {
        if !local { Answer(554); return; }
        if !allowed { Answer(452); return; }
      } else {
        if !allowed { Answer(452); return; }
      }
      if !local {
        rcpts := rcpts + [Rcpt(addr, true, "")];
        Answer(250);
        return;
      }
      var mb := c.lookup(addr);
      if mb.None? { Answer(550); return; }
      rcpts := rcpts + [Rcpt(addr, false, mb.value)];
      Answer(250);
    }

    method CmdData(allowed: bool, maySend: bool, t: Transfer, rejected: bool, stores: nat -> bool)
      modifies this
      ensures Now() == DoData(c, old(Now()), allowed, maySend, t, rejected, stores)
    {
      if rcpts == [] { Answer(503); return; }
      if c.mode == Inbound {
        if !allowed { Answer(421); closed := true; return; }
      } else if !allowed {
        Answer(452);
        return;
      } else if !maySend {
        Answer(450);
        return;
      }
      Answer(354);
      if t == Broken { closed := true; return; }
      if t == TooBig { ResetTransaction(); Answer(552); return; }
      if c.mode == Inbound && rejected { ResetTransaction(); Answer(550); return; }
      var accepted := StoreAll(stores);
      ResetTransaction();
      Answer(if accepted == 0 then 451 else 250);
    }

    /** The delivery loop: enqueue remote recipients, deliver to local ones, count the successes. */
    method StoreAll(stores: nat -> bool) returns (accepted: nat)
      modifies this`log
      ensures log == old(log) + StoreEvents(old(Now()), |rcpts|, stores)
      ensures accepted == Accepted(|rcpts|, stores)
    {
      accepted := 0;
      ghost var s := Now();
      for i := 0 to |rcpts|
        invariant log == old(log) + StoreEvents(s, i, stores) && accepted == Accepted(i, stores)
      {
        var r := rcpts[i];
        assert StoreEvents(s, i + 1, stores) == StoreEvents(s, i, stores) + [StoreEvent(from, r, stores(i))];
        if !stores(i) {
          log := log + [Failed(r.addr)];
          continue;
        }
        log := log + [if r.remote then Enqueued(from, r.addr) else Delivered(r.mb)];
        accepted := accepted + 1;
      }
    }

    /** One turn of the command loop. */
    method Handle(cmd: Command)
      modifies this
      ensures Now() == Step(c, old(Now()), cmd)
    {
      if closed { return; }
      match cmd {
        case Helo(arg) => CmdHelo(arg);
        case StartTls(handshake) => CmdStartTls(handshake);
        case Auth(o) => CmdAuth(o);
        case Mail(path, sizeOk) => CmdMail(path, sizeOk);
        case RcptTo(path, allowed) => CmdRcpt(path, allowed);
        case Data(allowed, maySend, t, rejected, stores) => CmdData(allowed, maySend, t, rejected, stores);
        case Rset => ResetTransaction(); Answer(250);
        case Quit => Answer(221); closed := true;
        case Else(code) => Answer(code);
      }
    }
  }
}
