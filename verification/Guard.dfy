/** The brute-force guard and the login check that drives it. Times are integers, the clock is passed in. */
module Guard {
  import opened Text

  /** None is Go's zero time, long before any clock reading. */
  datatype Entry = Entry(fails: nat, lockedUntil: Option<int>, last: Option<int>)

  datatype Params = Params(maxFailures: int, lockout: int)

  type Entries = map<string, Entry>

  const PRUNE_AT := 65536

  /** The settings the configuration accepts. */
  ghost predicate Sane(p: Params) { p.maxFailures >= 1 && p.lockout >= 0 }

  // ----- the code as functions -----

  predicate Locked(e: Entry, now: int) { e.lockedUntil.Some? && now < e.lockedUntil.value }

  predicate Blocked(s: Entries, key: string, now: int) { key in s && Locked(s[key], now) }

  /** After more than two lockouts without a failure, counting starts over. */
  predicate Forgiven(p: Params, e: Entry, now: int) { e.last.None? || now - e.last.value > 2 * p.lockout }

  predicate Stale(p: Params, e: Entry, now: int) {
    (e.lockedUntil.None? || now > e.lockedUntil.value) && Forgiven(p, e, now)
  }

  function Prune(p: Params, s: Entries, now: int): Entries { map k | k in s && !Stale(p, s[k], now) :: s[k] }

  function EntryOf(s: Entries, key: string): Entry { if key in s then s[key] else Entry(0, None, None) }

  /** The entry of a key after one more failure. */
  function Failed(p: Params, e: Entry, now: int): Entry {
    var fails := (if Forgiven(p, e, now) then 0 else e.fails) + 1;
    Entry(fails, if fails >= p.maxFailures then Some(now + p.lockout) else e.lockedUntil, Some(now))
  }

  function Fail(p: Params, s: Entries, key: string, now: int, prunes: bool): Entries {
    var kept := if key !in s && |s| >= PRUNE_AT && prunes then Prune(p, s, now) else s;
    kept[key := Failed(p, EntryOf(s, key), now)]
  }

  /** 250 ms, doubling per failure, at most 4 s. */
  function Delay(fails: nat): nat
    requires fails >= 1
  {
    250 * Pow2(if fails - 1 > 4 then 4 else fails - 1)
  }

  // ----- runs of the guard -----

  datatype Op = AskBlocked(key: string, at: int) | AddFailure(key: string, at: int) | Clear(key: string, at: int)

  function Do(p: Params, s: Entries, op: Op, prunes: bool): Entries {
    match op
    case AskBlocked(_, _) => s
    case AddFailure(key, at) => Fail(p, s, key, at, prunes)
    case Clear(key, _) => s - {key}
  }

  /** What the caller is told: 1 or 0 for Blocked, the delay for Fail. */
  function Answer(p: Params, s: Entries, op: Op): nat {
    match op
    case AskBlocked(key, at) => if Blocked(s, key, at) then 1 else 0
    case AddFailure(key, at) => Delay(Failed(p, EntryOf(s, key), at).fails)
    case Clear(_, _) => 0
  }

  function After(p: Params, ops: seq<Op>, n: nat, prunes: bool): Entries
    requires n <= |ops|
  {
    if n == 0 then map[] else Do(p, After(p, ops, n - 1, prunes), ops[n - 1], prunes)
  }

  ghost predicate Timed(ops: seq<Op>) { forall i, j :: 0 <= i < j < |ops| ==> ops[i].at <= ops[j].at }

  // ----- what still matters of an entry -----

  datatype Effect = Effect(lock: Option<int>, fails: nat, last: int)

  /** The part of an entry that can influence any answer from now on. */
  function Eff(p: Params, e: Entry, now: int): Effect {
    var lock := if Locked(e, now) then e.lockedUntil else None;
    if Forgiven(p, e, now) then Effect(lock, 0, 0) else Effect(lock, e.fails, e.last.value)
  }

  ghost predicate Past(s: Entries, now: int) { forall k :: k in s && s[k].last.Some? ==> s[k].last.value <= now }

  ghost predicate Agree(p: Params, s: Entries, u: Entries, now: int) {
    && Past(s, now) && Past(u, now)
    && forall k :: Eff(p, EntryOf(s, k), now) == Eff(p, EntryOf(u, k), now)
  }

  /** Agreement now is agreement later. */
  lemma AgreeLater(p: Params, s: Entries, u: Entries, now: int, later: int)
    requires Sane(p) && Agree(p, s, u, now) && now <= later
    ensures Agree(p, s, u, later)
  {
    forall k ensures Eff(p, EntryOf(s, k), later) == Eff(p, EntryOf(u, k), later) {
      assert Eff(p, EntryOf(s, k), now) == Eff(p, EntryOf(u, k), now);
    }
  }

  /** A failure depends on the effect alone and keeps agreement, pruned or not. */
  lemma FailAgrees(p: Params, s: Entries, u: Entries, key: string, now: int)
    requires Sane(p) && Agree(p, s, u, now)
    ensures Agree(p, Fail(p, s, key, now, true), Fail(p, u, key, now, false), now)
    ensures Failed(p, EntryOf(s, key), now).fails == Failed(p, EntryOf(u, key), now).fails
  {
    var s', u' := Fail(p, s, key, now, true), Fail(p, u, key, now, false);
    forall k ensures Eff(p, EntryOf(s', k), now) == Eff(p, EntryOf(u', k), now) {
      assert Eff(p, EntryOf(s, k), now) == Eff(p, EntryOf(u, k), now);
    }
  }

  lemma ClearAgrees(p: Params, s: Entries, u: Entries, key: string, now: int)
    requires Agree(p, s, u, now)
    ensures Agree(p, s - {key}, u - {key}, now)
  {
    forall k ensures Eff(p, EntryOf(s - {key}, k), now) == Eff(p, EntryOf(u - {key}, k), now) {
      assert Eff(p, EntryOf(s, k), now) == Eff(p, EntryOf(u, k), now);
    }
  }

  lemma BlockedAgrees(p: Params, s: Entries, u: Entries, key: string, now: int)
    requires Agree(p, s, u, now)
    ensures Blocked(s, key, now) == Blocked(u, key, now)
  {
    assert Eff(p, EntryOf(s, key), now) == Eff(p, EntryOf(u, key), now);
  }

  lemma {:induction false} AfterAgrees(p: Params, ops: seq<Op>, n: nat, now: int)
    requires Sane(p) && Timed(ops) && n <= |ops| && (n > 0 ==> ops[n - 1].at <= now)
    ensures Agree(p, After(p, ops, n, true), After(p, ops, n, false), now)
  {
    if n > 0 {
      var op := ops[n - 1];
      var s, u := After(p, ops, n - 1, true), After(p, ops, n - 1, false);
      AfterAgrees(p, ops, n - 1, op.at);
      match op {
        case AskBlocked(_, _) =>
        case AddFailure(key, at) => FailAgrees(p, s, u, key, at);
        case Clear(key, at) => ClearAgrees(p, s, u, key, at);
      }
      AgreeLater(p, After(p, ops, n, true), After(p, ops, n, false), op.at, now);
    }
  }

  /** Over every timed run, the guard answers each call as one that never prunes. */
  lemma PruningIsInvisible(p: Params, ops: seq<Op>, i: nat)
    requires Sane(p) && Timed(ops) && i < |ops|
    ensures Answer(p, After(p, ops, i, true), ops[i]) == Answer(p, After(p, ops, i, false), ops[i])
  {
    var op := ops[i];
    var s, u := After(p, ops, i, true), After(p, ops, i, false);
    AfterAgrees(p, ops, i, op.at);
    match op
    case AskBlocked(key, at) => BlockedAgrees(p, s, u, key, at);
    case AddFailure(key, at) => FailAgrees(p, s, u, key, at);
    case Clear(_, _) =>
  }

  // ----- what a lock means -----

  /** The i-th operation is a failure of key that reaches the threshold. */
  ghost predicate LocksAt(p: Params, ops: seq<Op>, key: string, i: nat, prunes: bool)
    requires i < |ops|
  {
    && ops[i].AddFailure? && ops[i].key == key
    && Failed(p, EntryOf(After(p, ops, i, prunes), key), ops[i].at).fails >= p.maxFailures
  }

  /** It is the reason for a lock that holds at time now: less than a lockout ago, and not cleared since. */
  ghost predicate LockedBy(p: Params, ops: seq<Op>, key: string, n: nat, now: int, i: nat, prunes: bool)
    requires i < n <= |ops|
  {
    LocksAt(p, ops, key, i, prunes) && now < ops[i].at + p.lockout && !ClearedIn(ops, key, i, n)
  }

  ghost predicate ClearedIn(ops: seq<Op>, key: string, i: nat, n: nat)
    requires i < n <= |ops|
  {
    exists j :: i < j < n && ops[j].Clear? && ops[j].key == key
  }

  lemma {:induction false} LockedSince(p: Params, ops: seq<Op>, key: string, n: nat, now: int)
    requires Sane(p) && Timed(ops) && n <= |ops| && (n > 0 ==> ops[n - 1].at <= now)
    ensures Locked(EntryOf(After(p, ops, n, false), key), now) <==>
      exists i :: 0 <= i < n && LockedBy(p, ops, key, n, now, i, false)
  {
    if n > 0 {
      var op, m := ops[n - 1], n - 1;
      LockedSince(p, ops, key, m, now);
      if op.key == key && op.Clear? {
        assert forall i :: 0 <= i < m ==> ClearedIn(ops, key, i, n);
      } else {
        forall i | 0 <= i < m ensures LockedBy(p, ops, key, n, now, i, false) == LockedBy(p, ops, key, m, now, i, false) {
          assert ClearedIn(ops, key, i, n) == ClearedIn(ops, key, i, m);
        }
        if LocksAt(p, ops, key, m, false) {
          assert LockedBy(p, ops, key, n, now, m, false) == (now < op.at + p.lockout);
        } else {
          assert EntryOf(After(p, ops, n, false), key).lockedUntil == EntryOf(After(p, ops, m, false), key).lockedUntil;
          assert !LockedBy(p, ops, key, n, now, m, false);
          if i :| 0 <= i < m && LockedBy(p, ops, key, m, now, i, false) {
            assert LockedBy(p, ops, key, n, now, i, false);
          }
        }
      }
    }
  }

  lemma LocksAlike(p: Params, ops: seq<Op>, key: string, i: nat)
    requires Sane(p) && Timed(ops) && i < |ops|
    ensures LocksAt(p, ops, key, i, true) == LocksAt(p, ops, key, i, false)
  {
    if ops[i].AddFailure? && ops[i].key == key {
      AfterAgrees(p, ops, i, ops[i].at);
      FailAgrees(p, After(p, ops, i, true), After(p, ops, i, false), key, ops[i].at);
    }
  }

  /**
    After any timed run, a key is blocked if and only if one of its failures
    reached the threshold less than a lockout ago and no success has cleared
    the key since.
   */
  lemma BlockedMeans(p: Params, ops: seq<Op>, key: string, n: nat, now: int)
    requires Sane(p) && Timed(ops) && n <= |ops| && (n > 0 ==> ops[n - 1].at <= now)
    ensures Blocked(After(p, ops, n, true), key, now) <==>
      exists i :: 0 <= i < n && LockedBy(p, ops, key, n, now, i, true)
  {
    AfterAgrees(p, ops, n, now);
    BlockedAgrees(p, After(p, ops, n, true), After(p, ops, n, false), key, now);
    LockedSince(p, ops, key, n, now);
    forall i | 0 <= i < n ensures LockedBy(p, ops, key, n, now, i, true) == LockedBy(p, ops, key, n, now, i, false) {
      LocksAlike(p, ops, key, i);
    }
  }

  // ----- Verify -----

  /** One login: who, from where, whether the password is right, and the four clock readings. */
  datatype Login = Login(user: string, ip: string, valid: bool, check1: int, check2: int, act1: int, act2: int)

  datatype Verdict = TemporarilyLocked | Invalid(delay: nat) | Accepted

  function UserKey(l: Login): string { "u:" + l.user }

  function IpKey(l: Login): string { "ip:" + l.ip }

  datatype Verified = Verified(entries: Entries, verdict: Verdict)

  function Max(a: nat, b: nat): nat { if b > a then b else a }

  function Verify(p: Params, s: Entries, l: Login, prunes: bool): Verified {
    if Blocked(s, UserKey(l), l.check1) || Blocked(s, IpKey(l), l.check2) then Verified(s, TemporarilyLocked)
    else if l.valid then Verified(s - {UserKey(l)} - {IpKey(l)}, Accepted)
    else
      var s1 := Fail(p, s, UserKey(l), l.act1, prunes);
      var d1 := Delay(Failed(p, EntryOf(s, UserKey(l)), l.act1).fails);
      var d2 := Delay(Failed(p, EntryOf(s1, IpKey(l)), l.act2).fails);
      Verified(Fail(p, s1, IpKey(l), l.act2, prunes), Invalid(Max(d1, d2)))
  }

  function AfterLogins(p: Params, ls: seq<Login>, n: nat, prunes: bool): Entries
    requires n <= |ls|
  {
    if n == 0 then map[] else Verify(p, AfterLogins(p, ls, n - 1, prunes), ls[n - 1], prunes).entries
  }

  function VerdictOf(p: Params, ls: seq<Login>, i: nat, prunes: bool): Verdict
    requires i < |ls|
  {
    Verify(p, AfterLogins(p, ls, i, prunes), ls[i], prunes).verdict
  }

  ghost predicate InOrder(l: Login) { l.check1 <= l.check2 <= l.act1 <= l.act2 }

  /** Logins one after the other, on a clock that never goes back. */
  ghost predicate Serial(ls: seq<Login>) {
    && (forall i :: 0 <= i < |ls| ==> InOrder(ls[i]))
    && forall i, j :: 0 <= i < j < |ls| ==> ls[i].act2 <= ls[j].check1
  }

  lemma VerifyAgrees(p: Params, s: Entries, u: Entries, l: Login)
    requires Sane(p) && InOrder(l) && Agree(p, s, u, l.check1)
    ensures Verify(p, s, l, true).verdict == Verify(p, u, l, false).verdict
    ensures Agree(p, Verify(p, s, l, true).entries, Verify(p, u, l, false).entries, l.act2)
  {
    AgreeLater(p, s, u, l.check1, l.check2);
    BlockedAgrees(p, s, u, UserKey(l), l.check1);
    BlockedAgrees(p, s, u, IpKey(l), l.check2);
    AgreeLater(p, s, u, l.check1, l.act1);
    AgreeLater(p, s, u, l.check1, l.act2);
    FailAgrees(p, s, u, UserKey(l), l.act1);
    var s1, u1 := Fail(p, s, UserKey(l), l.act1, true), Fail(p, u, UserKey(l), l.act1, false);
    AgreeLater(p, s1, u1, l.act1, l.act2);
    FailAgrees(p, s1, u1, IpKey(l), l.act2);
    ClearAgrees(p, s, u, UserKey(l), l.act2);
    ClearAgrees(p, s - {UserKey(l)}, u - {UserKey(l)}, IpKey(l), l.act2);
  }

  lemma {:induction false} LoginsAgree(p: Params, ls: seq<Login>, n: nat, now: int)
    requires Sane(p) && Serial(ls) && n <= |ls| && (n > 0 ==> ls[n - 1].act2 <= now)
    ensures Agree(p, AfterLogins(p, ls, n, true), AfterLogins(p, ls, n, false), now)
  {
    if n > 0 {
      var l := ls[n - 1];
      LoginsAgree(p, ls, n - 1, l.check1);
      VerifyAgrees(p, AfterLogins(p, ls, n - 1, true), AfterLogins(p, ls, n - 1, false), l);
      AgreeLater(p, AfterLogins(p, ls, n, true), AfterLogins(p, ls, n, false), l.act2, now);
    }
  }

  lemma VerdictAgrees(p: Params, ls: seq<Login>, i: nat)
    requires Sane(p) && Serial(ls) && i < |ls|
    ensures VerdictOf(p, ls, i, true) == VerdictOf(p, ls, i, false)
  {
    LoginsAgree(p, ls, i, ls[i].check1);
    VerifyAgrees(p, AfterLogins(p, ls, i, true), AfterLogins(p, ls, i, false), ls[i]);
  }

  /** What every login of a run is told. */
  function Verdicts(p: Params, ls: seq<Login>, prunes: bool): (vs: seq<Verdict>)
    ensures |vs| == |ls|
  {
    seq(|ls|, i requires 0 <= i < |ls| => VerdictOf(p, ls, i, prunes))
  }

  /** Every login gets the verdict, and the delay, that a guard without pruning would give. */
  lemma PruningKeepsVerdicts(p: Params, ls: seq<Login>)
    requires Sane(p) && Serial(ls)
    ensures Verdicts(p, ls, true) == Verdicts(p, ls, false)
  {
    forall i | 0 <= i < |ls| ensures Verdicts(p, ls, true)[i] == Verdicts(p, ls, false)[i] { VerdictAgrees(p, ls, i); }
  }

  // ----- the lockout bound -----

  ghost predicate Touches(l: Login, key: string) { key == "u:" + l.user || key == "ip:" + l.ip }

  /** When the failure of l was entered for key. */
  function FailAt(l: Login, key: string): int { if key == "u:" + l.user then l.act1 else l.act2 }

  /** The i-th login reached the password check on this key and failed it. */
  ghost predicate Checked(ls: seq<Login>, vs: seq<Verdict>, key: string, i: nat)
    requires i < |ls| == |vs|
  {
    Touches(ls[i], key) && vs[i].Invalid?
  }

  ghost function Failures(ls: seq<Login>, vs: seq<Verdict>, key: string, i: nat, j: nat): nat
    requires i <= j <= |ls| == |vs|
    decreases j
  {
    if j == i then 0 else Failures(ls, vs, key, i, j - 1) + if Checked(ls, vs, key, j - 1) then 1 else 0
  }

  ghost predicate NoSuccess(ls: seq<Login>, vs: seq<Verdict>, key: string, i: nat, j: nat)
    requires i <= j <= |ls| == |vs|
  {
    forall k :: i <= k < j && Touches(ls[k], key) ==> !vs[k].Accepted?
  }

  /**
    The books kept over a span: epochs is one more than the quiet resets, extra
    the failures past the threshold, first and last the times of the failures
    at both ends, and e the entry now.
   */
  datatype Books = Books(failures: nat, epochs: nat, extra: nat, first: int, last: int)

  ghost predicate Balanced(p: Params, b: Books, e: Entry) {
    && b.epochs >= 1 && e.fails >= 1 && e.last == Some(b.last)
    && b.failures <= p.maxFailures * (b.epochs - 1) + (if e.fails < p.maxFailures then e.fails else p.maxFailures) + b.extra
    && p.lockout * (2 * (b.epochs - 1) + b.extra) <= b.last - b.first
    && (e.fails >= p.maxFailures ==> e.lockedUntil == Some(b.last + p.lockout))
  }

  /** One more failure, at a time when the key was not locked. */
  function NextBooks(p: Params, b: Books, e: Entry, now: int): Books {
    if Forgiven(p, e, now) then b.(failures := b.failures + 1, epochs := b.epochs + 1, last := now)
    else if e.fails >= p.maxFailures then b.(failures := b.failures + 1, extra := b.extra + 1, last := now)
    else b.(failures := b.failures + 1, last := now)
  }

  lemma FailureBalances(p: Params, b: Books, e: Entry, now: int)
    requires Sane(p) && Balanced(p, b, e) && b.last <= now && !Locked(e, now)
    ensures Balanced(p, NextBooks(p, b, e, now), Failed(p, e, now))
  {
    var n := NextBooks(p, b, e, now);
    if Forgiven(p, e, now) {
      assert p.maxFailures * (n.epochs - 1) == p.maxFailures * (b.epochs - 1) + p.maxFailures;
      assert p.lockout * (2 * (n.epochs - 1) + n.extra) == p.lockout * (2 * (b.epochs - 1) + b.extra) + 2 * p.lockout;
    } else if e.fails >= p.maxFailures {
      assert p.lockout * (2 * (n.epochs - 1) + n.extra) == p.lockout * (2 * (b.epochs - 1) + b.extra) + p.lockout;
    }
  }

  lemma KeysDiffer(l: Login)
    ensures UserKey(l) != IpKey(l)
  {
    assert UserKey(l)[0] == 'u' && IpKey(l)[0] == 'i';
  }

  /** What a login with this verdict does to the entry of one key. */
  ghost predicate KeyStep(p: Params, l: Login, key: string, verdict: Verdict, e: Entry, e': Entry) {
    && (verdict.Invalid? && Touches(l, key) ==> e' == Failed(p, e, FailAt(l, key)) && !Locked(e, FailAt(l, key)))
    && (verdict.TemporarilyLocked? || !Touches(l, key) ==> e' == e)
    && (verdict.Accepted? && Touches(l, key) ==> e' == Entry(0, None, None))
  }

  lemma VerifyEntry(p: Params, s: Entries, l: Login, key: string)
    requires InOrder(l)
    ensures var v := Verify(p, s, l, false); KeyStep(p, l, key, v.verdict, EntryOf(s, key), EntryOf(v.entries, key))
  {
    KeysDiffer(l);
  }

  /** es is the history of one key's entry along the run. */
  ghost predicate History(p: Params, ls: seq<Login>, vs: seq<Verdict>, key: string, es: seq<Entry>) {
    && |vs| == |ls| && |es| == |ls| + 1
    && forall n :: 0 <= n < |ls| ==> KeyStep(p, ls[n], key, vs[n], es[n], es[n + 1])
  }

  lemma {:induction false} BooksBalance(
    p: Params, ls: seq<Login>, vs: seq<Verdict>, key: string, es: seq<Entry>, i: nat, j: nat) returns (b: Books)
    requires Sane(p) && Serial(ls) && History(p, ls, vs, key, es) && i < j <= |ls|
    requires NoSuccess(ls, vs, key, i, j) && Checked(ls, vs, key, i)
    ensures Balanced(p, b, es[j])
    ensures b.failures == Failures(ls, vs, key, i, j) && b.first == FailAt(ls[i], key)
    ensures b.last <= ls[j - 1].act2
    ensures Checked(ls, vs, key, j - 1) ==> b.last == FailAt(ls[j - 1], key)
    decreases j
  {
    var at := FailAt(ls[j - 1], key);
    assert KeyStep(p, ls[j - 1], key, vs[j - 1], es[j - 1], es[j - 1 + 1]);
    if j - 1 == i {
      assert Failures(ls, vs, key, i, i) == 0;
      b := Books(1, 1, 0, at, at);
    } else {
      b := BooksBalance(p, ls, vs, key, es, i, j - 1);
      if Checked(ls, vs, key, j - 1) {
        FailureBalances(p, b, es[j - 1], at);
        b := NextBooks(p, b, es[j - 1], at);
      }
    }
  }

  lemma RunHasHistory(p: Params, ls: seq<Login>, key: string) returns (es: seq<Entry>)
    requires Serial(ls)
    ensures History(p, ls, Verdicts(p, ls, false), key, es)
    ensures forall n :: 0 <= n <= |ls| ==> es[n] == EntryOf(AfterLogins(p, ls, n, false), key)
  {
    es := seq(|ls| + 1, n requires 0 <= n <= |ls| => EntryOf(AfterLogins(p, ls, n, false), key));
    hide KeyStep, Verify, AfterLogins, VerdictOf;
    forall n | 0 <= n < |ls| ensures KeyStep(p, ls[n], key, Verdicts(p, ls, false)[n], es[n], es[n + 1]) {
      HistoryStep(p, ls, key, n, Verdicts(p, ls, false)[n], es[n], es[n + 1]);
    }
  }

  lemma HistoryStep(p: Params, ls: seq<Login>, key: string, n: nat, v: Verdict, e: Entry, e': Entry)
    requires n < |ls| && InOrder(ls[n]) && v == VerdictOf(p, ls, n, false)
    requires e == EntryOf(AfterLogins(p, ls, n, false), key) && e' == EntryOf(AfterLogins(p, ls, n + 1, false), key)
    ensures KeyStep(p, ls[n], key, v, e, e')
  {
    VerifyEntry(p, AfterLogins(p, ls, n, false), ls[n], key);
  }

  /** A span pays for its failures: maxFailures per epoch, two lockouts per further epoch, one per extra failure. */
  ghost predicate Pays(p: Params, failures: nat, span: int, epochs: nat, extra: nat) {
    && epochs >= 1
    && failures <= p.maxFailures * epochs + extra
    && p.lockout * (2 * (epochs - 1) + extra) <= span
  }

  lemma BalancedPays(p: Params, b: Books, e: Entry)
    requires Sane(p) && Balanced(p, b, e)
    ensures Pays(p, b.failures, b.last - b.first, b.epochs, b.extra)
  {
    assert p.maxFailures * b.epochs == p.maxFailures * (b.epochs - 1) + p.maxFailures;
  }

  /**
    Between two checked failures of a key with no success in between, the
    failures number at most maxFailures per epoch plus the extra ones, and the
    span pays for them.
   */
  lemma LockoutBound(p: Params, ls: seq<Login>, key: string, i: nat, j: nat) returns (epochs: nat, extra: nat)
    requires Sane(p) && Serial(ls) && i < j <= |ls|
    requires var vs := Verdicts(p, ls, true);
      NoSuccess(ls, vs, key, i, j) && Checked(ls, vs, key, i) && Checked(ls, vs, key, j - 1)
    ensures Pays(p, Failures(ls, Verdicts(p, ls, true), key, i, j), FailAt(ls[j - 1], key) - FailAt(ls[i], key), epochs, extra)
  {
    PruningKeepsVerdicts(p, ls);
    var es := RunHasHistory(p, ls, key);
    var b := BooksBalance(p, ls, Verdicts(p, ls, false), key, es, i, j);
    BalancedPays(p, b, es[j]);
    return b.epochs, b.extra;
  }

  function Larger(a: int, b: int): int { if a < b then b else a }

  /**
    Most guesses come from spending each two lockouts of the span on a quiet
    reset and the rest on failures past the threshold.
   */
  function MostFailures(p: Params, span: int): int
    requires p.lockout > 0
  {
    var lockouts := span / p.lockout;
    p.maxFailures + lockouts + (lockouts / 2) * Larger(0, p.maxFailures - 2)
  }

  lemma PaysAtMost(p: Params, failures: nat, span: int, epochs: nat, extra: nat)
    requires Sane(p) && p.lockout > 0 && Pays(p, failures, span, epochs, extra)
    ensures failures <= MostFailures(p, span)
  {
    var n, q, j := 2 * (epochs - 1) + extra, span / p.lockout, epochs - 1;
    Quotient(p.lockout, n, span);
    assert p.maxFailures * epochs + extra == p.maxFailures + n + j * (p.maxFailures - 2) by {
      assert p.maxFailures * epochs == p.maxFailures * j + p.maxFailures;
      assert j * (p.maxFailures - 2) == p.maxFailures * j - 2 * j;
    }
    assert j <= q / 2;
    Scale(j, q / 2, p.maxFailures - 2);
  }

  lemma Quotient(lockout: int, n: int, span: int)
    requires lockout > 0 && lockout * n <= span
    ensures n <= span / lockout
  {
    var q := span / lockout;
    assert span == lockout * q + span % lockout;
    assert lockout * (q + 1) == lockout * q + lockout;
    if q + 1 <= n { Grows(lockout, q + 1, n); }
  }

  lemma Grows(c: int, a: int, b: int)
    requires c >= 0 && a <= b
    ensures c * a <= c * b
  {
    var d := b - a;
    assert c * d >= 0;
    assert c * b == c * a + c * d;
  }

  lemma Scale(a: nat, b: nat, m: int)
    requires a <= b
    ensures a * m <= b * Larger(0, m)
  {
    assert m > 0 ==> a * m <= b * m;
    assert m <= 0 ==> a * m <= 0;
  }

  /** The same as one number: what a span can pay for at most, told by how many lockouts fit into it. */
  lemma LockoutClosed(p: Params, ls: seq<Login>, key: string, i: nat, j: nat)
    requires Sane(p) && p.lockout > 0 && Serial(ls) && i < j <= |ls|
    requires var vs := Verdicts(p, ls, true);
      NoSuccess(ls, vs, key, i, j) && Checked(ls, vs, key, i) && Checked(ls, vs, key, j - 1)
    ensures Failures(ls, Verdicts(p, ls, true), key, i, j) <=
      MostFailures(p, FailAt(ls[j - 1], key) - FailAt(ls[i], key))
  {
    hide NoSuccess, Checked, Serial, Verdicts, Failures, MostFailures, Pays;
    var epochs, extra := LockoutBound(p, ls, key, i, j);
    var span := FailAt(ls[j - 1], key) - FailAt(ls[i], key);
    PaysAtMost(p, Failures(ls, Verdicts(p, ls, true), key, i, j), span, epochs, extra);
  }

  /** A span shorter than one lockout pays for at most maxFailures. */
  lemma ShortSpanPays(p: Params, failures: nat, span: int, epochs: nat, extra: nat)
    requires Sane(p) && Pays(p, failures, span, epochs, extra) && span < p.lockout
    ensures failures <= p.maxFailures
  {
    var n := 2 * (epochs - 1) + extra;
    assert n >= 1 ==> p.lockout * n >= p.lockout * 1;
  }

  /** Within less than one lockout, a key gets at most maxFailures guesses. */
  lemma LockoutShortSpan(p: Params, ls: seq<Login>, key: string, i: nat, j: nat)
    requires Sane(p) && Serial(ls) && i < j <= |ls|
    requires var vs := Verdicts(p, ls, true);
      NoSuccess(ls, vs, key, i, j) && Checked(ls, vs, key, i) && Checked(ls, vs, key, j - 1)
    requires FailAt(ls[j - 1], key) - FailAt(ls[i], key) < p.lockout
    ensures Failures(ls, Verdicts(p, ls, true), key, i, j) <= p.maxFailures
  {
    var epochs, extra := LockoutBound(p, ls, key, i, j);
    var span := FailAt(ls[j - 1], key) - FailAt(ls[i], key);
    ShortSpanPays(p, Failures(ls, Verdicts(p, ls, true), key, i, j), span, epochs, extra);
  }

  // ----- the code -----

  class LoginGuard {
    const p: Params
    var entries: Entries

    constructor (p: Params)
      ensures this.p == p && entries == map[]
    {
      this.p, entries := p, map[];
    }

    method IsBlocked(key: string, now: int) returns (b: bool)
      ensures b == Blocked(entries, key, now)
    {
      b := key in entries && entries[key].lockedUntil.Some? && now < entries[key].lockedUntil.value;
    }

    method AddFailure(key: string, now: int) returns (delay: nat)
      modifies this
      ensures entries == Fail(p, old(entries), key, now, true)
      ensures delay == Delay(Failed(p, EntryOf(old(entries), key), now).fails)
    {
      if key !in entries {
        if |entries| >= PRUNE_AT { DropStale(now); }
        entries := entries[key := Entry(0, None, None)];
      }
      var e := entries[key];
      if e.last.None? || now - e.last.value > 2 * p.lockout { e := e.(fails := 0); }
      e := e.(fails := e.fails + 1, last := Some(now));
      if e.fails >= p.maxFailures { e := e.(lockedUntil := Some(now + p.lockout)); }
      entries := entries[key := e];
      var shift := e.fails - 1;
      if shift > 4 { shift := 4; }
      delay := 250 * Pow2(shift);
    }

    method Success(key: string)
      modifies this
      ensures entries == old(entries) - {key}
    {
      entries := entries - {key};
    }

    /** prune: delete while ranging over the map. */
    method DropStale(now: int)
      modifies this
      ensures entries == Prune(p, old(entries), now)
    {
      var pending := entries.Keys;
      while pending != {}
        invariant pending <= entries.Keys <= old(entries).Keys
        invariant forall k :: k in entries ==> entries[k] == old(entries)[k]
        invariant forall k :: k in old(entries) && k !in pending ==> (k in entries <==> !Stale(p, old(entries)[k], now))
      {
        var k :| k in pending;
        pending := pending - {k};
        if Stale(p, entries[k], now) { entries := entries - {k}; }
      }
    }

    /** Authenticator.Verify, with the password check and the four clock readings given. */
    method CheckLogin(l: Login) returns (v: Verdict)
      modifies this
      ensures Verified(entries, v) == Verify(p, old(entries), l, true)
    {
      var userKey, ipKey := "u:" + l.user, "ip:" + l.ip;
      var locked := IsBlocked(userKey, l.check1);
      if !locked { locked := IsBlocked(ipKey, l.check2); }
      if locked { return TemporarilyLocked; }
      if !l.valid {
        var d1 := AddFailure(userKey, l.act1);
        var d2 := AddFailure(ipKey, l.act2);
        if d2 > d1 { d1 := d2; }
        return Invalid(d1);
      }
      Success(userKey);
      Success(ipKey);
      return Accepted;
    }
  }
}
