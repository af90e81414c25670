/** The per-key token buckets. float64 is taken as real and the clock is passed in. */
module RateLimit {

  datatype Bucket = Bucket(tokens: real, last: real)

  datatype Params = Params(limit: real, window: real)

  type Buckets = map<string, Bucket>

  const PRUNE_AT := 65536

  /** The settings the configuration accepts. */
  ghost predicate Sane(p: Params) { p.limit >= 0.0 && p.window > 0.0 }

  // ----- the code as functions -----

  /** Tokens that flow in during dt. */
  function Refill(p: Params, dt: real): real
    requires p.window > 0.0
  {
    dt / p.window * p.limit
  }

  function Capped(p: Params, tokens: real): real { if tokens > p.limit then p.limit else tokens }

  /** What a bucket holds at a later time. */
  function Filled(p: Params, b: Bucket, now: real): real
    requires p.window > 0.0
  {
    Capped(p, b.tokens + Refill(p, now - b.last))
  }

  predicate Full(p: Params, b: Bucket, now: real)
    requires p.window > 0.0
  {
    b.tokens + Refill(p, now - b.last) >= p.limit
  }

  function Prune(p: Params, s: Buckets, now: real): Buckets
    requires p.window > 0.0
  {
    map k | k in s && !Full(p, s[k], now) :: s[k]
  }

  /** The bucket of key as Allow sees it, before taking a token. */
  function Seen(p: Params, s: Buckets, key: string, now: real): Bucket
    requires p.window > 0.0
  {
    Bucket(if key in s then Filled(p, s[key], now) else p.limit, now)
  }

  datatype Outcome = Outcome(buckets: Buckets, granted: bool)

  /** One call of Limiter.Allow; prunes says whether the map is ever pruned. */
  function Allow(p: Params, s: Buckets, key: string, now: real, prunes: bool): Outcome
    requires p.window > 0.0
  {
    var b := Seen(p, s, key, now);
    var kept := if key !in s && |s| >= PRUNE_AT && prunes then Prune(p, s, now) else s;
    if b.tokens < 1.0 then Outcome(kept[key := b], false)
    else Outcome(kept[key := Bucket(b.tokens - 1.0, now)], true)
  }

  datatype Call = Call(key: string, at: real)

  ghost predicate Timed(calls: seq<Call>) { forall i, j :: 0 <= i < j < |calls| ==> calls[i].at <= calls[j].at }

  /** The buckets after the first n calls. */
  function After(p: Params, calls: seq<Call>, n: nat, prunes: bool): Buckets
    requires p.window > 0.0 && n <= |calls|
  {
    if n == 0 then map[] else Allow(p, After(p, calls, n - 1, prunes), calls[n - 1].key, calls[n - 1].at, prunes).buckets
  }

  /** The answer to the i-th call. */
  predicate Granted(p: Params, calls: seq<Call>, i: nat, prunes: bool)
    requires p.window > 0.0 && i < |calls|
  {
    Allow(p, After(p, calls, i, prunes), calls[i].key, calls[i].at, prunes).granted
  }

  /** How many of calls i..j were granted to key. */
  function Grants(p: Params, calls: seq<Call>, key: string, i: nat, j: nat): nat
    requires p.window > 0.0 && i <= j <= |calls|
    decreases j
  {
    if j == i then 0
    else Grants(p, calls, key, i, j - 1) + if calls[j - 1].key == key && Granted(p, calls, j - 1, true) then 1 else 0
  }

  // ----- arithmetic of the refill -----

  /** A window refills the whole limit, and any time its share of it. */
  lemma RefillRate(p: Params, dt: real)
    requires p.window > 0.0
    ensures Refill(p, dt) == p.limit * dt / p.window
  {
    assert dt / p.window * p.limit == dt * p.limit / p.window;
  }

  lemma RefillAdds(p: Params, a: real, b: real)
    requires p.window > 0.0
    ensures Refill(p, a + b) == Refill(p, a) + Refill(p, b)
  {
    assert (a + b) / p.window == a / p.window + b / p.window;
  }

  lemma RefillGrows(p: Params, dt: real)
    requires Sane(p) && dt >= 0.0
    ensures Refill(p, dt) >= 0.0
  {
    assert dt / p.window >= 0.0;
  }

  // ----- levels -----

  /** What key can draw on at time now: an absent bucket counts as full. */
  function Level(p: Params, s: Buckets, key: string, now: real): real
    requires p.window > 0.0
  {
    Seen(p, s, key, now).tokens
  }

  /** Every bucket is within its bounds and was last touched by time now. */
  ghost predicate Bounded(p: Params, s: Buckets, now: real) {
    forall k :: k in s ==> 0.0 <= s[k].tokens <= p.limit && s[k].last <= now
  }

  /** A bucket with t tokens, untouched for a while, holds what it held and what flowed in, up to the limit. */
  lemma BucketFills(p: Params, s: Buckets, key: string, now: real)
    requires p.window > 0.0 && key in s
    ensures var t := s[key].tokens + p.limit * (now - s[key].last) / p.window;
      Level(p, s, key, now) == if t > p.limit then p.limit else t
  {
    RefillRate(p, now - s[key].last);
  }

  /** Levels flow: the level later follows from the level now. */
  lemma LevelFlows(p: Params, s: Buckets, key: string, now: real, later: real)
    requires Sane(p) && Bounded(p, s, now) && now <= later
    ensures Level(p, s, key, later) == Capped(p, Level(p, s, key, now) + Refill(p, later - now))
    ensures 0.0 <= Level(p, s, key, now) <= p.limit
  {
    RefillGrows(p, later - now);
    if key in s {
      RefillAdds(p, now - s[key].last, later - now);
      RefillGrows(p, now - s[key].last);
      assert later - s[key].last == (now - s[key].last) + (later - now);
    }
  }

  /** Dropping full buckets changes no level, now or later. */
  lemma PruneKeepsLevels(p: Params, s: Buckets, key: string, now: real, later: real)
    requires Sane(p) && Bounded(p, s, now) && now <= later
    ensures Level(p, Prune(p, s, now), key, later) == Level(p, s, key, later)
  {
    LevelFlows(p, s, key, now, later);
    RefillGrows(p, later - now);
  }

  /** What one call does to the level of every key. */
  lemma AllowLevels(p: Params, s: Buckets, key: string, now: real, prunes: bool, other: string, later: real)
    requires Sane(p) && Bounded(p, s, now) && now <= later
    ensures var o := Allow(p, s, key, now, prunes);
      && Bounded(p, o.buckets, now)
      && o.granted == (Level(p, s, key, now) >= 1.0)
      && Level(p, o.buckets, key, now) == Level(p, s, key, now) - (if o.granted then 1.0 else 0.0)
      && (other != key ==> Level(p, o.buckets, other, later) == Level(p, s, other, later))
  {
    LevelFlows(p, s, key, now, now);
    PruneKeepsLevels(p, s, other, now, later);
    assert Refill(p, 0.0) == 0.0;
  }

  lemma {:induction false} AfterBounded(p: Params, calls: seq<Call>, n: nat, prunes: bool, now: real)
    requires Sane(p) && Timed(calls) && n <= |calls| && (n > 0 ==> calls[n - 1].at <= now)
    ensures Bounded(p, After(p, calls, n, prunes), now)
  {
    if n > 0 {
      var c := calls[n - 1];
      AfterBounded(p, calls, n - 1, prunes, c.at);
      AllowLevels(p, After(p, calls, n - 1, prunes), c.key, c.at, prunes, c.key, c.at);
    }
  }

  // ----- pruning is invisible -----

  /** Two limiters that agree on the levels agree after the same call, whether or not they prune. */
  lemma AllowAgrees(p: Params, s: Buckets, u: Buckets, key: string, now: real, other: string, later: real)
    requires Sane(p) && Bounded(p, s, now) && Bounded(p, u, now) && now <= later
    requires Level(p, s, key, now) == Level(p, u, key, now)
    requires other != key ==> Level(p, s, other, later) == Level(p, u, other, later)
    ensures Level(p, Allow(p, s, key, now, true).buckets, other, later) ==
            Level(p, Allow(p, u, key, now, false).buckets, other, later)
  {
    AllowLevels(p, s, key, now, true, other, later);
    AllowLevels(p, u, key, now, false, other, later);
    if other == key {
      LevelFlows(p, Allow(p, s, key, now, true).buckets, key, now, later);
      LevelFlows(p, Allow(p, u, key, now, false).buckets, key, now, later);
    }
  }

  lemma {:induction false} PrunedLevelsAgree(p: Params, calls: seq<Call>, n: nat, key: string, now: real)
    requires Sane(p) && Timed(calls) && n <= |calls| && (n > 0 ==> calls[n - 1].at <= now)
    ensures Level(p, After(p, calls, n, true), key, now) == Level(p, After(p, calls, n, false), key, now)
  {
    if n > 0 {
      var c := calls[n - 1];
      AfterBounded(p, calls, n - 1, true, c.at);
      AfterBounded(p, calls, n - 1, false, c.at);
      PrunedLevelsAgree(p, calls, n - 1, c.key, c.at);
      PrunedLevelsAgree(p, calls, n - 1, key, now);
      AllowAgrees(p, After(p, calls, n - 1, true), After(p, calls, n - 1, false), c.key, c.at, key, now);
    }
  }

  /** Over every timed run, the limiter answers each call as one that never prunes. */
  lemma PruningIsInvisible(p: Params, calls: seq<Call>, i: nat)
    requires Sane(p) && Timed(calls) && i < |calls|
    ensures Granted(p, calls, i, true) == Granted(p, calls, i, false)
  {
    var c := calls[i];
    PrunedLevelsAgree(p, calls, i, c.key, c.at);
    AfterBounded(p, calls, i, true, c.at);
    AfterBounded(p, calls, i, false, c.at);
    AllowLevels(p, After(p, calls, i, true), c.key, c.at, true, c.key, c.at);
    AllowLevels(p, After(p, calls, i, false), c.key, c.at, false, c.key, c.at);
  }

  // ----- the rate bound -----

  /** One call turns a token into a grant; waiting adds at most the refill. */
  lemma PotentialStep(p: Params, s: Buckets, key: string, before: real, c: Call)
    requires Sane(p) && Bounded(p, s, before) && before <= c.at
    ensures var o := Allow(p, s, c.key, c.at, true);
      Level(p, o.buckets, key, c.at) + (if c.key == key && o.granted then 1.0 else 0.0)
      <= Level(p, s, key, before) + Refill(p, c.at - before)
  {
    LevelFlows(p, s, key, before, c.at);
    AllowLevels(p, s, c.key, c.at, true, key, c.at);
  }

  lemma {:induction false} PotentialFlows(p: Params, calls: seq<Call>, key: string, i: nat, j: nat)
    requires Sane(p) && Timed(calls) && i < j <= |calls|
    ensures Grants(p, calls, key, i, j) as real + Level(p, After(p, calls, j, true), key, calls[j - 1].at)
            <= p.limit + Refill(p, calls[j - 1].at - calls[i].at)
    decreases j
  {
    var s, before := After(p, calls, j - 1, true), calls[if j - 1 == i then i else j - 2].at;
    hide Refill, Level, Allow, Bounded, Timed;
    AfterBounded(p, calls, j - 1, true, before);
    PotentialStep(p, s, key, before, calls[j - 1]);
    if j - 1 == i {
      LevelFlows(p, s, key, before, before);
    } else {
      PotentialFlows(p, calls, key, i, j - 1);
      RefillAdds(p, before - calls[i].at, calls[j - 1].at - before);
      assert (before - calls[i].at) + (calls[j - 1].at - before) == calls[j - 1].at - calls[i].at;
    }
  }

  /** What was granted and what is left never exceed a full bucket plus what flowed in. */
  lemma Potential(p: Params, calls: seq<Call>, key: string, i: nat, j: nat)
    requires Sane(p) && Timed(calls) && i < j <= |calls|
    ensures Grants(p, calls, key, i, j) as real + Level(p, After(p, calls, j, true), key, calls[j - 1].at)
            <= p.limit + p.limit * (calls[j - 1].at - calls[i].at) / p.window
  {
    hide Refill, Level, After, Grants, Timed;
    PotentialFlows(p, calls, key, i, j);
    RefillRate(p, calls[j - 1].at - calls[i].at);
  }

  /** In any interval of length T, a key is granted at most limit + limit * T / window. */
  lemma RateBound(p: Params, calls: seq<Call>, key: string, i: nat, j: nat)
    requires Sane(p) && Timed(calls) && i < j <= |calls|
    ensures Grants(p, calls, key, i, j) as real <= p.limit + p.limit * (calls[j - 1].at - calls[i].at) / p.window
  {
    Potential(p, calls, key, i, j);
    AfterBounded(p, calls, j, true, calls[j - 1].at);
    LevelFlows(p, After(p, calls, j, true), key, calls[j - 1].at, calls[j - 1].at);
  }

  /** Since the m-th call, the grants to the key and x more stay within the limit and what the time since adds. */
  ghost predicate HasRoom(p: Params, calls: seq<Call>, key: string, m: nat, n: nat, now: real, x: real)
    requires p.window > 0.0 && m <= n <= |calls| && m < |calls|
  {
    var t := now - calls[m].at;
    Grants(p, calls, key, m, n) as real + x <= p.limit + p.limit * t / p.window
  }

  lemma RoomIs(p: Params, calls: seq<Call>, key: string, m: nat, n: nat, now: real, x: real)
    requires Sane(p) && m <= n <= |calls| && m < |calls|
    ensures HasRoom(p, calls, key, m, n, now, x) <==>
      Grants(p, calls, key, m, n) as real + x <= p.limit + Refill(p, now - calls[m].at)
  {
    hide Refill, Grants;
    RefillRate(p, now - calls[m].at);
  }

  /** When the level of key was last touched by the n-th call or earlier, and how much of it must have been there then. */
  function Since(calls: seq<Call>, key: string, n: nat, now: real): real
    requires 0 < n <= |calls|
  {
    if calls[n - 1].key == key then calls[n - 1].at else now
  }

  function Before(p: Params, calls: seq<Call>, key: string, n: nat, now: real, x: real): real
    requires p.window > 0.0 && 0 < n <= |calls|
  {
    var c := calls[n - 1];
    if c.key != key then x else x + (if Granted(p, calls, n - 1, true) then 1.0 else 0.0) - Refill(p, now - c.at)
  }

  lemma LevelBefore(p: Params, calls: seq<Call>, key: string, n: nat, now: real, x: real)
    requires Sane(p) && Timed(calls) && 0 < n <= |calls| && calls[n - 1].at <= now
    ensures x <= Level(p, After(p, calls, n, true), key, now) <==>
      x <= p.limit
      && Before(p, calls, key, n, now, x) <= Level(p, After(p, calls, n - 1, true), key, Since(calls, key, n, now))
  {
    var c, s := calls[n - 1], After(p, calls, n - 1, true);
    AfterBounded(p, calls, n - 1, true, c.at);
    assert After(p, calls, n, true) == Allow(p, s, c.key, c.at, true).buckets;
    assert Granted(p, calls, n - 1, true) == Allow(p, s, c.key, c.at, true).granted;
    hide Refill, Level, Allow, After, Granted, Bounded, Timed;
    CallAndWait(p, s, c, key, now, x);
  }

  lemma CallAndWait(p: Params, s: Buckets, c: Call, key: string, now: real, x: real)
    requires Sane(p) && Bounded(p, s, c.at) && c.at <= now
    ensures var o := Allow(p, s, c.key, c.at, true);
      x <= Level(p, o.buckets, key, now) <==>
        && x <= p.limit
        && if c.key != key then x <= Level(p, s, key, now)
           else x + (if o.granted then 1.0 else 0.0) - Refill(p, now - c.at) <= Level(p, s, key, c.at)
  {
    hide Refill, Level, Allow, Bounded;
    AllowLevels(p, s, c.key, c.at, true, key, now);
    if c.key == key {
      LevelFlows(p, Allow(p, s, c.key, c.at, true).buckets, key, c.at, now);
    } else {
      LevelFlows(p, s, key, c.at, now);
    }
  }

  lemma RoomBefore(p: Params, calls: seq<Call>, key: string, m: nat, n: nat, now: real, x: real)
    requires Sane(p) && m < n - 1 < |calls|
    ensures HasRoom(p, calls, key, m, n, now, x) <==>
      HasRoom(p, calls, key, m, n - 1, Since(calls, key, n, now), Before(p, calls, key, n, now, x))
  {
    var c := calls[n - 1];
    RoomIs(p, calls, key, m, n, now, x);
    RoomIs(p, calls, key, m, n - 1, Since(calls, key, n, now), Before(p, calls, key, n, now, x));
    hide HasRoom, Refill, Granted;
    RefillAdds(p, c.at - calls[m].at, now - c.at);
    assert (c.at - calls[m].at) + (now - c.at) == now - calls[m].at;
  }

  lemma LastRoom(p: Params, calls: seq<Call>, key: string, n: nat, now: real, x: real)
    requires Sane(p) && 0 < n <= |calls| && calls[n - 1].at <= now && x <= p.limit
    ensures HasRoom(p, calls, key, n - 1, n, now, x) <==> Before(p, calls, key, n, now, x) <= p.limit
  {
    RoomIs(p, calls, key, n - 1, n, now, x);
    RefillGrows(p, now - calls[n - 1].at);
    assert Grants(p, calls, key, n - 1, n - 1) == 0;
    hide HasRoom, Refill;
  }

  ghost predicate RoomSinceAll(p: Params, calls: seq<Call>, key: string, n: nat, now: real, x: real)
    requires p.window > 0.0 && n <= |calls|
  {
    x <= p.limit && forall m: nat :: m < n ==> HasRoom(p, calls, key, m, n, now, x)
  }

  lemma AllRoomBefore(p: Params, calls: seq<Call>, key: string, n: nat, now: real, x: real)
    requires Sane(p) && 0 < n <= |calls| && calls[n - 1].at <= now
    ensures RoomSinceAll(p, calls, key, n, now, x) <==>
      x <= p.limit && RoomSinceAll(p, calls, key, n - 1, Since(calls, key, n, now), Before(p, calls, key, n, now, x))
  {
    var before, now', x' := n - 1, Since(calls, key, n, now), Before(p, calls, key, n, now, x);
    hide HasRoom, Before, Since, Refill;
    if x <= p.limit {
      LastRoom(p, calls, key, n, now, x);
      forall m: nat | m < n - 1 ensures HasRoom(p, calls, key, m, n, now, x) == HasRoom(p, calls, key, m, n - 1, now', x') {
        RoomBefore(p, calls, key, m, n, now, x);
      }
      if RoomSinceAll(p, calls, key, n, now, x) {
        assert HasRoom(p, calls, key, n - 1, n, now, x);
        forall m: nat | m < before ensures HasRoom(p, calls, key, m, before, now', x') {
          assert HasRoom(p, calls, key, m, n, now, x);
        }
      }
      if RoomSinceAll(p, calls, key, n - 1, now', x') {
        forall m: nat | m < n ensures HasRoom(p, calls, key, m, n, now, x) {
          if m < n - 1 { assert HasRoom(p, calls, key, m, n - 1, now', x'); }
        }
      }
    }
  }

  /** A key can draw x tokens exactly when that breaks the bound since no earlier call. */
  lemma {:induction false} LevelMeans(p: Params, calls: seq<Call>, key: string, n: nat, now: real, x: real)
    requires Sane(p) && Timed(calls) && n <= |calls| && (n > 0 ==> calls[n - 1].at <= now)
    ensures x <= Level(p, After(p, calls, n, true), key, now) <==> RoomSinceAll(p, calls, key, n, now, x)
  {
    if n > 0 {
      LevelBefore(p, calls, key, n, now, x);
      AllRoomBefore(p, calls, key, n, now, x);
      hide RoomSinceAll, Level, Before, After, Granted, Refill;
      LevelMeans(p, calls, key, n - 1, Since(calls, key, n, now), Before(p, calls, key, n, now, x));
    }
  }

  /**
    The rate bound is all that is asked: a call is granted if and only if,
    counted from every earlier call and with this one, the key stays within
    limit + limit * T / window.
   */
  lemma GrantedWhen(p: Params, calls: seq<Call>, i: nat)
    requires Sane(p) && Timed(calls) && i < |calls|
    ensures Granted(p, calls, i, true) <==>
      p.limit >= 1.0 && forall m: nat :: m < i ==> HasRoom(p, calls, calls[i].key, m, i, calls[i].at, 1.0)
  {
    var c := calls[i];
    LevelMeans(p, calls, c.key, i, c.at, 1.0);
    AfterBounded(p, calls, i, true, c.at);
    AllowLevels(p, After(p, calls, i, true), c.key, c.at, true, c.key, c.at);
  }

  // ----- a patient key is never refused -----

  /** Any two calls of key are at least window/limit apart. */
  ghost predicate Patient(p: Params, calls: seq<Call>, key: string) {
    forall i, j :: 0 <= i < j < |calls| && calls[i].key == key && calls[j].key == key ==>
      (calls[j].at - calls[i].at) * p.limit >= p.window
  }

  lemma RefillOne(p: Params, dt: real)
    requires p.window > 0.0 && dt * p.limit >= p.window
    ensures Refill(p, dt) >= 1.0
  {
    assert dt / p.window * p.limit == dt * p.limit / p.window;
    assert dt * p.limit / p.window >= p.window / p.window;
  }

  lemma PatientGap(p: Params, calls: seq<Call>, i: nat, j: nat)
    requires p.window > 0.0 && i < j < |calls| && calls[i].key == calls[j].key && Patient(p, calls, calls[j].key)
    ensures Refill(p, calls[j].at - calls[i].at) >= 1.0
  {
    RefillOne(p, calls[j].at - calls[i].at);
  }

  /** At its next call, a patient key has a token. */
  lemma {:induction false} PatientLevel(p: Params, calls: seq<Call>, n: nat, j: nat)
    requires Sane(p) && p.limit >= 1.0 && Timed(calls) && n <= j < |calls| && Patient(p, calls, calls[j].key)
    ensures Level(p, After(p, calls, n, true), calls[j].key, calls[j].at) >= 1.0
  {
    if n > 0 {
      var c, s, key, now := calls[n - 1], After(p, calls, n - 1, true), calls[j].key, calls[j].at;
      AfterBounded(p, calls, n - 1, true, c.at);
      AllowLevels(p, s, c.key, c.at, true, key, now);
      if c.key == key {
        var s' := After(p, calls, n, true);
        LevelFlows(p, s', key, c.at, now);
        PatientGap(p, calls, n - 1, j);
      } else {
        PatientLevel(p, calls, n - 1, j);
      }
    }
  }

  /** With limit at least 1, a key whose calls are at least window/limit apart is always granted. */
  lemma PatientIsGranted(p: Params, calls: seq<Call>, j: nat)
    requires Sane(p) && p.limit >= 1.0 && Timed(calls) && j < |calls| && Patient(p, calls, calls[j].key)
    ensures Granted(p, calls, j, true)
  {
    PatientLevel(p, calls, j, j);
    AfterBounded(p, calls, j, true, calls[j].at);
    AllowLevels(p, After(p, calls, j, true), calls[j].key, calls[j].at, true, calls[j].key, calls[j].at);
  }

  // ----- the code -----

  class Limiter {
    const p: Params
    var buckets: Buckets

    constructor (limit: int, window: real)
      requires window > 0.0
      ensures p == Params(limit as real, window) && buckets == map[]
    {
      p := Params(limit as real, window);
      buckets := map[];
    }

    /** The tokens of a known key after what flowed in; a new key starts with the limit. */
    function Tokens(key: string, now: real): (t: real)
      requires p.window > 0.0
      reads this
      ensures key !in buckets ==> t == p.limit
      ensures key in buckets ==> var b := buckets[key]; var sum := b.tokens + p.limit * (now - b.last) / p.window;
        t == if sum > p.limit then p.limit else sum
    {
      if key in buckets then BucketFills(p, buckets, key, now); Level(p, buckets, key, now) else p.limit
    }

    method TryAllow(key: string, now: real) returns (granted: bool)
      requires p.window > 0.0
      modifies this
      ensures Outcome(buckets, granted) == Allow(p, old(buckets), key, now, true)
      ensures granted == (old(Tokens(key, now)) >= 1.0)
      ensures key in buckets
      ensures buckets[key] == Bucket(old(Tokens(key, now)) - (if granted then 1.0 else 0.0), now)
      ensures forall k :: k in buckets && k != key ==> k in old(buckets) && buckets[k] == old(buckets)[k]
      ensures forall k :: k in old(buckets) && k !in buckets ==>
        key !in old(buckets) && |old(buckets)| >= PRUNE_AT && old(Tokens(k, now)) == p.limit
    {
      var b: Bucket;
      if key !in buckets {
        if |buckets| >= PRUNE_AT { DropFull(now); }
        b := Bucket(p.limit, now);
      } else {
        b := buckets[key];
        var tokens := b.tokens + Refill(p, now - b.last);
        if tokens > p.limit { tokens := p.limit; }
        b := Bucket(tokens, now);
      }
      buckets := buckets[key := b];
      if b.tokens < 1.0 { return false; }
      buckets := buckets[key := b.(tokens := b.tokens - 1.0)];
      granted := true;
    }

    /** prune: delete while ranging over the map. */
    method DropFull(now: real)
      requires p.window > 0.0
      modifies this
      ensures buckets == Prune(p, old(buckets), now)
    {
      var pending := buckets.Keys;
      while pending != {}
        invariant pending <= buckets.Keys <= old(buckets).Keys
        invariant forall k :: k in buckets ==> buckets[k] == old(buckets)[k]
        invariant forall k :: k in old(buckets) && k !in pending ==> (k in buckets <==> !Full(p, old(buckets)[k], now))
      {
        var k :| k in pending;
        pending := pending - {k};
        if Full(p, buckets[k], now) { buckets := buckets - {k}; }
      }
    }
  }
}
