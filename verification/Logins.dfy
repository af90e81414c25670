/** What a login is told, from the verdicts before it alone: over every run of the login check. */
module Logins {
  import opened Text
  import opened Guard

  // ----- the history of a key -----

  /** The last failure entered for the key in the first n logins, unless a success came after it. */
  ghost function LastFail(ls: seq<Login>, vs: seq<Verdict>, key: string, n: nat): Option<int>
    requires n <= |ls| == |vs|
  {
    if n == 0 then None
    else if !Touches(ls[n - 1], key) || vs[n - 1].TemporarilyLocked? then LastFail(ls, vs, key, n - 1)
    else if vs[n - 1].Accepted? then None
    else Some(FailAt(ls[n - 1], key))
  }

  /** The failures entered for the key since its last success, none of them more than two lockouts behind the one before. */
  ghost function Streak(p: Params, ls: seq<Login>, vs: seq<Verdict>, key: string, n: nat): nat
    requires n <= |ls| == |vs|
  {
    if n == 0 then 0
    else if !Touches(ls[n - 1], key) || vs[n - 1].TemporarilyLocked? then Streak(p, ls, vs, key, n - 1)
    else if vs[n - 1].Accepted? then 0
    else
      var last := LastFail(ls, vs, key, n - 1);
      if last.Some? && FailAt(ls[n - 1], key) <= last.value + 2 * p.lockout then Streak(p, ls, vs, key, n - 1) + 1 else 1
  }

  ghost predicate AcceptedIn(ls: seq<Login>, vs: seq<Verdict>, key: string, i: nat, n: nat)
    requires i < n <= |ls| == |vs|
  {
    exists j: nat :: i < j < n && Touches(ls[j], key) && vs[j].Accepted?
  }

  /** The i-th login failed on the key, reached the threshold less than a lockout ago, and no success came since. */
  ghost predicate LocksUntilNow(p: Params, ls: seq<Login>, vs: seq<Verdict>, key: string, n: nat, now: int, i: nat)
    requires i < n <= |ls| == |vs|
  {
    && Checked(ls, vs, key, i) && Streak(p, ls, vs, key, i + 1) >= p.maxFailures
    && now < FailAt(ls[i], key) + p.lockout && !AcceptedIn(ls, vs, key, i, n)
  }

  ghost predicate LockHolds(p: Params, ls: seq<Login>, vs: seq<Verdict>, key: string, n: nat, now: int)
    requires n <= |ls| == |vs|
  {
    exists i: nat :: i < n && LocksUntilNow(p, ls, vs, key, n, now, i)
  }

  /** The answer to the n-th failure in a row is held back so many milliseconds. */
  function HeldBack(n: nat): nat {
    if n <= 1 then 250 else if n == 2 then 500 else if n == 3 then 1000 else if n == 4 then 2000 else 4000
  }

  lemma DelayIsHeldBack(n: nat)
    requires n >= 1
    ensures Delay(n) == HeldBack(n)
  {
    assert Pow2(0) == 1 && Pow2(1) == 2 && Pow2(2) == 4;
    assert Pow2(3) == 2 * Pow2(2);
    assert Pow2(4) == 2 * Pow2(3);
  }

  // ----- the entry is what the history says -----

  lemma {:induction false} EntryCounts(p: Params, ls: seq<Login>, vs: seq<Verdict>, key: string, es: seq<Entry>, n: nat)
    requires History(p, ls, vs, key, es) && es[0] == Entry(0, None, None) && n <= |ls|
    ensures es[n].fails == Streak(p, ls, vs, key, n) && es[n].last == LastFail(ls, vs, key, n)
  {
    if n > 0 {
      EntryCounts(p, ls, vs, key, es, n - 1);
      assert KeyStep(p, ls[n - 1], key, vs[n - 1], es[n - 1], es[n - 1 + 1]);
    }
  }

  lemma {:induction false} EntryLocks(
    p: Params, ls: seq<Login>, vs: seq<Verdict>, key: string, es: seq<Entry>, n: nat, now: int)
    requires Sane(p) && Serial(ls) && History(p, ls, vs, key, es) && es[0] == Entry(0, None, None)
    requires n <= |ls| && (n > 0 ==> ls[n - 1].act2 <= now)
    ensures Locked(es[n], now) <==> LockHolds(p, ls, vs, key, n, now)
  {
    if n > 0 {
      var m := n - 1;
      assert KeyStep(p, ls[m], key, vs[m], es[m], es[m + 1]);
      EntryLocks(p, ls, vs, key, es, m, now);
      EntryCounts(p, ls, vs, key, es, m);
      EntryCounts(p, ls, vs, key, es, n);
      HoldsStep(p, ls, vs, key, n, now);
    }
  }

  /** One more login adds itself as a reason, or, being a success, takes all away. */
  lemma HoldsStep(p: Params, ls: seq<Login>, vs: seq<Verdict>, key: string, n: nat, now: int)
    requires 0 < n <= |ls| == |vs|
    ensures LockHolds(p, ls, vs, key, n, now) <==>
      || (LockHolds(p, ls, vs, key, n - 1, now) && !(Touches(ls[n - 1], key) && vs[n - 1].Accepted?))
      || LocksUntilNow(p, ls, vs, key, n, now, n - 1)
  {
    var m := n - 1;
    var ends := Touches(ls[m], key) && vs[m].Accepted?;
    forall i: nat | i < m
      ensures LocksUntilNow(p, ls, vs, key, n, now, i) == (LocksUntilNow(p, ls, vs, key, m, now, i) && !ends)
    {
      assert AcceptedIn(ls, vs, key, i, n) == (AcceptedIn(ls, vs, key, i, m) || ends);
    }
    if LockHolds(p, ls, vs, key, m, now) && !ends {
      var i: nat :| i < m && LocksUntilNow(p, ls, vs, key, m, now, i);
      assert LocksUntilNow(p, ls, vs, key, n, now, i);
    }
  }

  // ----- what a login is told -----

  /** The verdict the n-th login deserves, by what happened on its two keys before. */
  ghost predicate Deserved(p: Params, ls: seq<Login>, vs: seq<Verdict>, n: nat)
    requires n < |ls| == |vs|
  {
    var l := ls[n];
    var user, ip := "u:" + l.user, "ip:" + l.ip;
    if LockHolds(p, ls, vs, user, n, l.check1) || LockHolds(p, ls, vs, ip, n, l.check2) then vs[n] == TemporarilyLocked
    else if l.valid then vs[n] == Accepted
    else
      var d1, d2 := HeldBack(Streak(p, ls, vs, user, n + 1)), HeldBack(Streak(p, ls, vs, ip, n + 1));
      vs[n] == Invalid(if d1 < d2 then d2 else d1)
  }

  /** The entry of one key before and after the n-th login. */
  lemma KeyMeans(p: Params, ls: seq<Login>, key: string, n: nat, now: int)
    requires Sane(p) && Serial(ls) && n < |ls| && ls[n].check1 <= now
    ensures var vs, s := Verdicts(p, ls, false), AfterLogins(p, ls, n, false);
      && Blocked(s, key, now) == LockHolds(p, ls, vs, key, n, now)
      && EntryOf(AfterLogins(p, ls, n + 1, false), key).fails == Streak(p, ls, vs, key, n + 1)
      && EntryOf(AfterLogins(p, ls, n + 1, false), key).last == LastFail(ls, vs, key, n + 1)
  {
    var es := RunHasHistory(p, ls, key);
    var vs := Verdicts(p, ls, false);
    EntryLocks(p, ls, vs, key, es, n, now);
    EntryCounts(p, ls, vs, key, es, n + 1);
  }

  lemma VerdictDeserved(p: Params, s: Entries, l: Login)
    ensures var v, user, ip := Verify(p, s, l, false), "u:" + l.user, "ip:" + l.ip;
      if Blocked(s, user, l.check1) || Blocked(s, ip, l.check2) then v.verdict == TemporarilyLocked
      else if l.valid then v.verdict == Accepted
      else
        && EntryOf(v.entries, user).fails >= 1 && EntryOf(v.entries, ip).fails >= 1
        && v.verdict == Invalid(Max(Delay(EntryOf(v.entries, user).fails), Delay(EntryOf(v.entries, ip).fails)))
  {
    KeysDiffer(l);
  }

  /**
    Over every run of logins: a login is refused as locked if and only if a
    failed login on its user or its address reached the threshold less than a
    lockout ago and no login on that key was accepted since; otherwise it is
    accepted if and only if the password is right, and a wrong one is answered
    after 250 ms, doubling with every failure in a row on either key, up to 4 s.
   */
  lemma LoginMeans(p: Params, ls: seq<Login>, n: nat)
    requires Sane(p) && Serial(ls) && n < |ls|
    ensures Deserved(p, ls, Verdicts(p, ls, true), n)
  {
    PruningKeepsVerdicts(p, ls);
    var l, s, s' := ls[n], AfterLogins(p, ls, n, false), AfterLogins(p, ls, n + 1, false);
    var user, ip := "u:" + l.user, "ip:" + l.ip;
    assert InOrder(l);
    KeyMeans(p, ls, user, n, l.check1);
    KeyMeans(p, ls, ip, n, l.check2);
    VerdictDeserved(p, s, l);
    hide Verify, LockHolds, Streak, Delay, Serial;
    if !Blocked(s, user, l.check1) && !Blocked(s, ip, l.check2) && !l.valid {
      DelayIsHeldBack(EntryOf(s', user).fails);
      DelayIsHeldBack(EntryOf(s', ip).fails);
    }
  }

  // ----- what a login leaves behind -----

  /** A success leaves no entry of either key. */
  lemma AcceptedClears(p: Params, ls: seq<Login>, n: nat)
    requires n < |ls| && Verdicts(p, ls, true)[n].Accepted?
    ensures "u:" + ls[n].user !in AfterLogins(p, ls, n + 1, true) && "ip:" + ls[n].ip !in AfterLogins(p, ls, n + 1, true)
  {
  }

  /**
    A wrong password is one more failure in a row on each of the two keys,
    entered at its own time; only a full table that finds the first of the two
    entries expired already when it makes room for the second drops it.
   */
  lemma InvalidCounts(p: Params, ls: seq<Login>, n: nat, key: string)
    requires Sane(p) && Serial(ls) && n < |ls| && Checked(ls, Verdicts(p, ls, true), key, n)
    ensures var vs, s' := Verdicts(p, ls, true), AfterLogins(p, ls, n + 1, true);
      || (key in s' && s'[key].fails == Streak(p, ls, vs, key, n + 1) && s'[key].last == Some(FailAt(ls[n], key)))
      || (key !in s' && DroppedAtOnce(p, |AfterLogins(p, ls, n, true)|, ls[n], key))
  {
    var l, s, u := ls[n], AfterLogins(p, ls, n, true), AfterLogins(p, ls, n, false);
    PruningKeepsVerdicts(p, ls);
    assert InOrder(l);
    KeyMeans(p, ls, key, n, l.check1);
    LoginsAgree(p, ls, n, l.check1);
    FailsAlike(p, s, u, l, key);
  }

  predicate DroppedAtOnce(p: Params, size: nat, l: Login, key: string) {
    size >= 65535 && key == "u:" + l.user && l.act1 + 2 * p.lockout < l.act2
  }

  lemma FailsAlike(p: Params, s: Entries, u: Entries, l: Login, key: string)
    requires Sane(p) && InOrder(l) && Agree(p, s, u, l.check1)
    requires Touches(l, key) && Verify(p, s, l, true).verdict.Invalid? && Verify(p, u, l, false).verdict.Invalid?
    ensures var s', u' := Verify(p, s, l, true).entries, Verify(p, u, l, false).entries;
      && key in u'
      && ((key in s' && s'[key].fails == u'[key].fails && s'[key].last == Some(FailAt(l, key)))
          || (key !in s' && DroppedAtOnce(p, |s|, l, key)))
  {
    KeysDiffer(l);
    AgreeLater(p, s, u, l.check1, l.act1);
    FailAgrees(p, s, u, UserKey(l), l.act1);
    var s1, u1 := Fail(p, s, UserKey(l), l.act1, true), Fail(p, u, UserKey(l), l.act1, false);
    AgreeLater(p, s1, u1, l.act1, l.act2);
    FailAgrees(p, s1, u1, IpKey(l), l.act2);
    FailGrows(p, s, UserKey(l), l.act1);
  }

  lemma FailGrows(p: Params, s: Entries, key: string, now: int)
    ensures |Fail(p, s, key, now, true)| <= |s| + 1
  {
    var kept := if key !in s && |s| >= PRUNE_AT then Prune(p, s, now) else s;
    KeysBound(kept, s);
    var grown := Fail(p, s, key, now, true);
    assert grown.Keys == kept.Keys + {key};
    assert |grown| == |grown.Keys| && |kept| == |kept.Keys|;
  }

  lemma KeysBound(t: Entries, s: Entries)
    requires t.Keys <= s.Keys
    ensures |t| <= |s|
  {
    SubsetSize(t.Keys, s.Keys);
    assert |t| == |t.Keys| && |s| == |s.Keys|;
  }

  lemma {:induction false} SubsetSize<T>(a: set<T>, b: set<T>)
    requires a <= b
    ensures |a| <= |b|
  {
    if a != {} {
      var x :| x in a;
      SubsetSize(a - {x}, b - {x});
    }
  }

  /** The entry no longer matters: its lock is over and two lockouts have gone by without a failure. */
  ghost predicate Expired(p: Params, e: Entry, now: int) {
    && (e.lockedUntil.Some? ==> e.lockedUntil.value < now)
    && (e.last.Some? ==> e.last.value + 2 * p.lockout < now)
  }

  /** Every other key keeps its entry, unless a full table drops it as expired; a refused login changes nothing. */
  lemma OthersKeepTheirs(p: Params, ls: seq<Login>, n: nat, key: string)
    requires Sane(p) && Serial(ls) && n < |ls| && (!Touches(ls[n], key) || Verdicts(p, ls, true)[n].TemporarilyLocked?)
    ensures var s, s' := AfterLogins(p, ls, n, true), AfterLogins(p, ls, n + 1, true);
      || ((key in s' <==> key in s) && (key in s ==> s'[key] == s[key]))
      || (key in s && key !in s' && |s| >= 65535 && Expired(p, s[key], ls[n].act2))
  {
    var l, s := ls[n], AfterLogins(p, ls, n, true);
    KeysDiffer(l);
    assert InOrder(l);
    FailGrows(p, s, UserKey(l), l.act1);
  }
}
