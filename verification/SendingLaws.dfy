/** What the sending limits come to in plain numbers: the ramp, the scores, and the deliveries of a day. */
module SendingLaws {
  import opened Reputation

  // ----- the ramp -----

  lemma FloorOfQuotient(a: int, b: int)
    requires b > 0
    ensures (a as real / b as real).Floor == a / b
  {
    var q, r := a / b, a % b;
    assert a == q * b + r;
    assert a as real == q as real * b as real + r as real;
    assert a as real / b as real == q as real + r as real / b as real;
    Proper(r as real, b as real);
  }

  lemma Proper(r: real, b: real)
    requires 0.0 <= r < b
    ensures 0.0 <= r / b < 1.0
  {
    var x := r / b;
    assert x * b == r;
    InOrder(x, b);
  }

  lemma InOrder(x: real, b: real)
    requires b > 0.0
    ensures (x >= 1.0 ==> x * b >= b) && (x < 0.0 ==> x * b < 0.0)
  {
    assert x >= 1.0 ==> (x - 1.0) * b >= 0.0;
  }

  /** Both factors and the divisor brought together. */
  lemma OneQuotient(t: int, day: int, days: int, m: int)
    requires day > 0 && days > 0
    ensures t as real / day as real / days as real * m as real == (m * t) as real / (days * day) as real
  {
    var x, y, d, k := t as real, day as real, days as real, m as real;
    assert (m * t) as real == k * x && (days * day) as real == d * y;
    var z := x / y / d;
    assert z * (d * y) == x by { assert z * d == x / y; assert (x / y) * y == x; assert z * (d * y) == (z * d) * y; }
    assert (z * k) * (d * y) == k * x by { assert (z * k) * (d * y) == k * (z * (d * y)); }
    QuotientIs(z * k, d * y, k * x);
  }

  lemma QuotientIs(a: real, b: real, c: real)
    requires b != 0.0 && a * b == c
    ensures a == c / b
  {
  }

  lemma OnLine(lo: nat, hi: nat, t: int, days: nat)
    requires lo <= hi && t >= 0 && days >= 1
    ensures Ramp(lo, hi, Days(t) / days as real) == lo + (hi - lo) * t / (days * DAY)
  {
    OneQuotient(t, DAY, days, hi - lo);
    FloorOfQuotient((hi - lo) * t, days * DAY);
  }

  lemma DaysAre(age: int, d: int)
    ensures (Days(age) <= d as real <==> age <= d * DAY) && (Days(age) >= d as real <==> age >= d * DAY)
    ensures Days(age - d * DAY) == Days(age) - d as real
  {
    assert (d * DAY) as real / DAY as real == d as real;
  }

  /**
    The ramp: up to a day the first cap, at seven days the second, from thirty days on
    the full one, and in between the straight line, rounded down.
   */
  lemma LimitIs(w: WarmUp, age: int)
    requires w.enabled && Grows(w)
    ensures age <= DAY ==> DailyLimit(w, age) == w.day1
    ensures DAY <= age <= 7 * DAY ==> DailyLimit(w, age) == w.day1 + (w.day7 - w.day1) * (age - DAY) / (6 * DAY)
    ensures 7 * DAY <= age <= 30 * DAY ==> DailyLimit(w, age) == w.day7 + (w.full - w.day7) * (age - 7 * DAY) / (23 * DAY)
    ensures age >= 30 * DAY ==> DailyLimit(w, age) == w.full
  {
    DaysAre(age, 1);
    DaysAre(age, 7);
    DaysAre(age, 30);
    hide Days, Ramp;
    if DAY <= age <= 7 * DAY { OnFirstLine(w, age); }
    if 7 * DAY <= age <= 30 * DAY { OnSecondLine(w, age); }
  }

  lemma OnFirstLine(w: WarmUp, age: int)
    requires w.enabled && Grows(w) && DAY <= age <= 7 * DAY
    ensures DailyLimit(w, age) == w.day1 + (w.day7 - w.day1) * (age - DAY) / (6 * DAY)
  {
    OnLine(w.day1, w.day7, age - DAY, 6);
    LineEnds(w.day1, w.day7);
    DaysAre(age, 1);
    DaysAre(age, 7);
    DaysAre(age, 30);
    hide Days, Ramp;
  }

  lemma OnSecondLine(w: WarmUp, age: int)
    requires w.enabled && Grows(w) && 7 * DAY <= age <= 30 * DAY
    ensures DailyLimit(w, age) == w.day7 + (w.full - w.day7) * (age - 7 * DAY) / (23 * DAY)
  {
    OnLine(w.day7, w.full, age - 7 * DAY, 23);
    LineEnds(w.day1, w.day7);
    LineEnds(w.day7, w.full);
    DaysAre(age, 1);
    DaysAre(age, 7);
    DaysAre(age, 30);
    hide Days, Ramp;
  }

  lemma LineEnds(lo: nat, hi: nat)
    requires lo <= hi
    ensures Ramp(lo, hi, 0.0) == lo && Ramp(lo, hi, 1.0) == hi
  {
  }

  // ----- what a record holds -----

  /** A point a day towards 50, and never past it. */
  ghost predicate Drifts(was: real, becomes: real, d: real) {
    && (was <= 50.0 - d ==> becomes == was + d)
    && (was >= 50.0 + d ==> becomes == was - d)
    && (50.0 - d <= was <= 50.0 + d ==> becomes == 50.0)
  }

  /** What a key has before anything is noted: drifted after a day, a new count after another. */
  lemma GetMeans(s: Records, key: string, now: int)
    ensures key !in s ==> Get(s, key, now) == Record(50.0, now, now, 0, 0, 0, 0, now)
    ensures key in s ==> var r, g := s[key], Get(s, key, now);
      && g.first == r.first && g.sent == r.sent && g.bounced == r.bounced && g.reported == r.reported
      && (if now < r.updated + DAY then g.score == r.score && g.updated == r.updated
          else g.updated == now && Drifts(r.score, g.score, (now - r.updated) as real / DAY as real))
      && (if now < r.dayFrom + DAY then g.daySent == r.daySent && g.dayFrom == r.dayFrom
          else g.daySent == 0 && g.dayFrom == now)
  {
    if key in s { DaysAre(now - s[key].updated, 1); DaysAre(now - s[key].updated, 0); }
  }

  ghost predicate Moved(was: real, becomes: real, points: real) {
    && (0.0 <= was + points <= 100.0 ==> becomes == was + points)
    && (was + points < 0.0 ==> becomes == 0.0)
    && (was + points > 100.0 ==> becomes == 100.0)
  }

  /** What each event costs or earns, within 0..100, and which counts it raises. */
  lemma EventMeans(s: Records, key: string, e: Event, now: int)
    ensures var g, s' := Get(s, key, now), Noted(s, key, e, now);
      && key in s' && s'.Keys == s.Keys + {key} && (forall k :: k in s && k != key ==> s'[k] == s[k])
      && s'[key].updated == now && s'[key].first == g.first && s'[key].dayFrom == g.dayFrom
      && Moved(g.score, s'[key].score,
               if e.EventDelivered? then 0.5 else if e.AuthPass? then 0.2 else if e.Bounce? then -2.0
               else if e.SpamComplaint? then -15.0 else if e.Blacklisted? then -30.0 else -25.0)
      && s'[key].daySent - g.daySent == s'[key].sent - g.sent == (if e.EventDelivered? then 1 else 0)
      && s'[key].bounced - g.bounced == (if e.Bounce? then 1 else 0)
      && s'[key].reported - g.reported == (if e.SpamComplaint? then 1 else 0)
  {
  }

  // ----- what is granted -----

  /** Looking at a key once more at the same time changes nothing. */
  lemma GetAgain(s: Records, key: string, now: int)
    ensures Get(Touch(s, key, now), key, now) == Get(s, key, now)
  {
    GetMeans(s, key, now);
    GetMeans(Touch(s, key, now), key, now);
  }

  /** A message may go out if and only if both scores are above 10 and the day's count is below the cap. */
  lemma GrantedWhen(s: Records, w: WarmUp, user: string, domain: string, now: int)
    requires w.enabled ==> Grows(w)
    requires w.day1 <= w.day7 <= w.full
    ensures var u, d := Get(s, "user:" + user, now), Get(s, "domain:" + domain, now);
      MaySend(s, w, user, domain, now).granted <==>
        u.score > 10.0 && d.score > 10.0 && (w.enabled ==> d.daySent < DailyLimit(w, now - d.first))
  {
    KeysDiffer(user, domain);
    GetAgain(Touch(s, UserKey(user), now), DomainKey(domain), now);
    if w.enabled { LimitWithin(w, now - Get(s, DomainKey(domain), now).first); }
  }

  // ----- the deliveries of a day -----

  /** The i-th operation delivers a message of the domain. */
  ghost predicate Delivers(w: WarmUp, ops: seq<Op>, domain: string, i: nat)
    requires w.day1 <= w.day7 <= w.full && i < |ops|
  {
    && ops[i].Submit? && ops[i].domain == domain && ops[i].accepted
    && MaySend(After(w, ops, i), w, ops[i].user, domain, ops[i].asked).granted
  }

  /** How many of the first n operations deliver, at a given time or later. */
  ghost function Deliveries(w: WarmUp, ops: seq<Op>, domain: string, n: nat, since: int): nat
    requires w.day1 <= w.day7 <= w.full && n <= |ops|
  {
    if n == 0 then 0
    else
      Deliveries(w, ops, domain, n - 1, since)
      + if Delivers(w, ops, domain, n - 1) && ops[n - 1].sent >= since then 1 else 0
  }

  ghost predicate AllBefore(w: WarmUp, ops: seq<Op>, domain: string, n: nat, t: int)
    requires w.day1 <= w.day7 <= w.full && n <= |ops|
  {
    forall i: nat :: i < n && Delivers(w, ops, domain, i) ==> ops[i].sent < t
  }

  lemma {:induction false} NoneSince(w: WarmUp, ops: seq<Op>, domain: string, n: nat, t: int)
    requires w.day1 <= w.day7 <= w.full && n <= |ops| && AllBefore(w, ops, domain, n, t)
    ensures Deliveries(w, ops, domain, n, t) == 0
  {
    if n > 0 { NoneSince(w, ops, domain, n - 1, t); }
  }

  lemma {:induction false} FewerSince(w: WarmUp, ops: seq<Op>, domain: string, n: nat, t: int, u: int)
    requires w.day1 <= w.day7 <= w.full && n <= |ops| && t <= u
    ensures Deliveries(w, ops, domain, n, u) <= Deliveries(w, ops, domain, n, t)
  {
    if n > 0 { FewerSince(w, ops, domain, n - 1, t, u); }
  }

  /**
    The count of a record is that of the deliveries since its day began, none
    is a day or more after that, and none but the full cap's number more within
    a day before.
   */
  ghost predicate Counts(w: WarmUp, ops: seq<Op>, domain: string, n: nat, r: Record, now: int)
    requires w.day1 <= w.day7 <= w.full && n <= |ops|
  {
    && r.daySent == Deliveries(w, ops, domain, n, r.dayFrom) && r.dayFrom <= now
    && AllBefore(w, ops, domain, n, r.dayFrom + DAY)
    && forall t :: r.dayFrom - DAY < t ==> Deliveries(w, ops, domain, n, t) <= r.daySent + w.full
  }

  ghost predicate CountsIn(w: WarmUp, ops: seq<Op>, domain: string, n: nat, s: Records, now: int)
    requires w.day1 <= w.day7 <= w.full && n <= |ops|
  {
    if "domain:" + domain in s then Counts(w, ops, domain, n, s["domain:" + domain], now)
    else forall t: int :: AllBefore(w, ops, domain, n, t)
  }

  lemma GetCounts(w: WarmUp, ops: seq<Op>, domain: string, n: nat, s: Records, before: int, now: int)
    requires w.enabled && Grows(w) && n <= |ops| && CountsIn(w, ops, domain, n, s, before) && before <= now
    requires AllFine(w, s, now)
    ensures Counts(w, ops, domain, n, Get(s, "domain:" + domain, now), now)
    ensures now < Get(s, "domain:" + domain, now).dayFrom + DAY
  {
    var key := "domain:" + domain;
    var g := Get(s, key, now);
    GetMeans(s, key, now);
    hide Get, Deliveries, Delivers, DailyLimit;
    if key !in s {
      forall t: int ensures Deliveries(w, ops, domain, n, t) == 0 {
        assert AllBefore(w, ops, domain, n, t);
        NoneSince(w, ops, domain, n, t);
      }
      assert AllBefore(w, ops, domain, n, now + DAY);
    } else if now >= s[key].dayFrom + DAY {
      var r := s[key];
      NoneSince(w, ops, domain, n, now);
      KeysDiffer("", domain);
      LimitWithin(w, now - r.first);
      assert DomainKey(domain) == key;
      assert r.daySent <= w.full;
      forall t | now - DAY < t ensures Deliveries(w, ops, domain, n, t) <= w.full {
        FewerSince(w, ops, domain, n, r.dayFrom, t);
      }
    }
  }

  lemma DomainKeys(a: string, b: string)
    ensures DomainKey(a) == DomainKey(b) <==> a == b
  {
    assert DomainKey(a)[|"domain:"|..] == a && DomainKey(b)[|"domain:"|..] == b;
  }

  /** Looking at any key keeps the count. */
  lemma TouchCounts(w: WarmUp, ops: seq<Op>, domain: string, n: nat, s: Records, key: string, before: int, now: int)
    requires w.enabled && Grows(w) && n <= |ops| && CountsIn(w, ops, domain, n, s, before) && before <= now
    requires AllFine(w, s, now)
    ensures CountsIn(w, ops, domain, n, Touch(s, key, now), now) && AllFine(w, Touch(s, key, now), now)
  {
    hide Counts;
    GetFine(w, s, key, now);
    GetCounts(w, ops, domain, n, s, before, now);
    CountsLater(w, ops, domain, n, s, before, now);
  }

  lemma CountsLater(w: WarmUp, ops: seq<Op>, domain: string, n: nat, s: Records, before: int, now: int)
    requires w.day1 <= w.day7 <= w.full && n <= |ops| && CountsIn(w, ops, domain, n, s, before) && before <= now
    ensures CountsIn(w, ops, domain, n, s, now)
  {
  }

  /** Noting anything but a delivery of the domain keeps it too. */
  lemma NoteCounts(
    w: WarmUp, ops: seq<Op>, domain: string, n: nat, s: Records, key: string, e: Event, before: int, now: int)
    requires w.enabled && Grows(w) && n <= |ops| && CountsIn(w, ops, domain, n, s, before) && before <= now
    requires AllFine(w, s, now) && (key == "domain:" + domain ==> !e.EventDelivered?)
    ensures CountsIn(w, ops, domain, n, Noted(s, key, e, now), now)
  {
    GetCounts(w, ops, domain, n, s, before, now);
    CountsLater(w, ops, domain, n, s, before, now);
    EventMeans(s, key, e, now);
    hide Get, Noted, Deliveries, AllBefore;
  }

  lemma AskCounts(w: WarmUp, ops: seq<Op>, domain: string, n: nat, s: Records, user: string, d: string, before: int, now: int)
    requires w.enabled && Grows(w) && n <= |ops| && CountsIn(w, ops, domain, n, s, before) && before <= now
    requires AllFine(w, s, now)
    ensures CountsIn(w, ops, domain, n, MaySend(s, w, user, d, now).records, now)
  {
    hide CountsIn, AllFine, Touch;
    TouchCounts(w, ops, domain, n, s, UserKey(user), before, now);
    var s1 := Touch(s, UserKey(user), now);
    TouchCounts(w, ops, domain, n, s1, DomainKey(d), now, now);
    var s2 := Touch(s1, DomainKey(d), now);
    TouchCounts(w, ops, domain, n, s2, DomainKey(d), now, now);
  }

  /** The next operation counts when it delivers and not otherwise. */
  lemma SameCounts(w: WarmUp, ops: seq<Op>, domain: string, n: nat, s: Records, now: int)
    requires w.day1 <= w.day7 <= w.full && n < |ops| && CountsIn(w, ops, domain, n, s, now) && !Delivers(w, ops, domain, n)
    ensures CountsIn(w, ops, domain, n + 1, s, now)
  {
    if "domain:" + domain in s {
      CountsSame(w, ops, domain, n, s["domain:" + domain], now);
    } else {
      var next := n + 1;
      forall t: int ensures AllBefore(w, ops, domain, next, t) { assert AllBefore(w, ops, domain, n, t); }
    }
  }

  lemma CountsSame(w: WarmUp, ops: seq<Op>, domain: string, n: nat, r: Record, now: int)
    requires w.day1 <= w.day7 <= w.full && n < |ops| && Counts(w, ops, domain, n, r, now) && !Delivers(w, ops, domain, n)
    ensures Counts(w, ops, domain, n + 1, r, now)
  {
    var next := n + 1;
    forall t | r.dayFrom - DAY < t ensures Deliveries(w, ops, domain, next, t) <= r.daySent + w.full {
      assert Deliveries(w, ops, domain, next, t) == Deliveries(w, ops, domain, n, t);
    }
  }

  /** A delivery is one more. */
  lemma DeliveryCounts(w: WarmUp, ops: seq<Op>, domain: string, n: nat, s: Records, before: int)
    requires w.enabled && Grows(w) && n < |ops| && Delivers(w, ops, domain, n) && before <= ops[n].sent
    requires CountsIn(w, ops, domain, n, s, before) && AllFine(w, s, ops[n].sent)
    ensures CountsIn(w, ops, domain, n + 1, Noted(s, "domain:" + domain, EventDelivered, ops[n].sent), ops[n].sent)
  {
    var key, now := "domain:" + domain, ops[n].sent;
    GetCounts(w, ops, domain, n, s, before, now);
    EventMeans(s, key, EventDelivered, now);
    CountsOneMore(w, ops, domain, n, Get(s, key, now), Noted(s, key, EventDelivered, now)[key]);
  }

  lemma CountsOneMore(w: WarmUp, ops: seq<Op>, domain: string, n: nat, r: Record, becomes: Record)
    requires w.day1 <= w.day7 <= w.full && n < |ops| && Delivers(w, ops, domain, n)
    requires Counts(w, ops, domain, n, r, ops[n].sent) && r.dayFrom <= ops[n].sent < r.dayFrom + DAY
    requires becomes.daySent == r.daySent + 1 && becomes.dayFrom == r.dayFrom
    ensures Counts(w, ops, domain, n + 1, becomes, ops[n].sent)
  {
    var next := n + 1;
    forall t | r.dayFrom - DAY < t ensures Deliveries(w, ops, domain, next, t) <= becomes.daySent + w.full {
      assert Deliveries(w, ops, domain, next, t) <= Deliveries(w, ops, domain, n, t) + 1;
    }
  }

  lemma OpCounts(w: WarmUp, ops: seq<Op>, domain: string, n: nat, before: int)
    requires w.enabled && Grows(w) && Serial(ops) && n < |ops| && before <= Start(ops[n])
    requires CountsIn(w, ops, domain, n, After(w, ops, n), before) && AllFine(w, After(w, ops, n), Start(ops[n]))
    ensures CountsIn(w, ops, domain, n + 1, After(w, ops, n + 1), End(ops[n]))
  {
    var s, op := After(w, ops, n), ops[n];
    match op
    case Note(key, e, at) => NoteCounts(w, ops, domain, n, s, key, e, before, at);
      SameCounts(w, ops, domain, n, Noted(s, key, e, at), at);
    case Look(key, at) => TouchCounts(w, ops, domain, n, s, key, before, at);
      SameCounts(w, ops, domain, n, Touch(s, key, at), at);
    case Submit(_, _, _, _, _) => SubmitCounts(w, ops, domain, n, before);
  }

  lemma SubmitCounts(w: WarmUp, ops: seq<Op>, domain: string, n: nat, before: int)
    requires w.enabled && Grows(w) && Serial(ops) && n < |ops| && before <= Start(ops[n]) && ops[n].Submit?
    requires CountsIn(w, ops, domain, n, After(w, ops, n), before) && AllFine(w, After(w, ops, n), Start(ops[n]))
    ensures CountsIn(w, ops, domain, n + 1, After(w, ops, n + 1), End(ops[n]))
  {
    var s, op := After(w, ops, n), ops[n];
    var a := MaySend(s, w, op.user, op.domain, op.asked);
    KeysDiffer(op.user, domain);
    DomainKeys(op.domain, domain);
    assert Start(op) <= End(op);
    GrantedHasRoom(w, s, op.user, op.domain, op.asked);
    FineLater(w, a.records, op.asked, op.sent);
    AskCounts(w, ops, domain, n, s, op.user, op.domain, before, op.asked);
    CountsLater(w, ops, domain, n, a.records, op.asked, op.sent);
    hide CountsIn, AllFine, MaySend, Noted;
    if a.granted && op.accepted {
      NoteFine(w, a.records, UserKey(op.user), EventDelivered, op.sent);
      NoteCounts(w, ops, domain, n, a.records, UserKey(op.user), EventDelivered, op.asked, op.sent);
      var s2 := Noted(a.records, UserKey(op.user), EventDelivered, op.sent);
      if op.domain == domain {
        DeliveryCounts(w, ops, domain, n, s2, op.sent);
      } else {
        NoteCounts(w, ops, domain, n, s2, DomainKey(op.domain), EventDelivered, op.sent, op.sent);
        SameCounts(w, ops, domain, n, Noted(s2, DomainKey(op.domain), EventDelivered, op.sent), op.sent);
      }
    } else {
      SameCounts(w, ops, domain, n, a.records, op.sent);
    }
  }

  lemma {:induction false} RunCounts(w: WarmUp, ops: seq<Op>, domain: string, n: nat, now: int)
    requires w.enabled && Grows(w) && Serial(ops) && n <= |ops| && (n > 0 ==> End(ops[n - 1]) <= now)
    ensures CountsIn(w, ops, domain, n, After(w, ops, n), now)
  {
    if n > 0 {
      var start := Start(ops[n - 1]);
      assert n > 1 ==> End(ops[n - 2]) <= start;
      hide CountsIn, AllFine, After, Serial, Grows;
      RunFine(w, ops, n - 1, start);
      RunCounts(w, ops, domain, n - 1, start);
      OpCounts(w, ops, domain, n - 1, start);
      CountsLater(w, ops, domain, n, After(w, ops, n), End(ops[n - 1]), now);
    }
  }

  /** Told by the deliveries alone: since its day began, no domain had more of them than the cap for its age. */
  lemma DayHolds(w: WarmUp, ops: seq<Op>, n: nat, now: int, domain: string)
    requires w.enabled && Grows(w) && Serial(ops) && n <= |ops| && (n > 0 ==> End(ops[n - 1]) <= now)
    ensures var s := After(w, ops, n);
      if "domain:" + domain in s then
        var r := s["domain:" + domain];
        r.daySent == Deliveries(w, ops, domain, n, r.dayFrom) <= DailyLimit(w, now - r.first)
      else forall t: int :: Deliveries(w, ops, domain, n, t) == 0
  {
    RunCounts(w, ops, domain, n, now);
    CapHolds(w, ops, n, now, domain);
    hide After, DailyLimit, Delivers, Deliveries;
    forall t: int | "domain:" + domain !in After(w, ops, n) ensures Deliveries(w, ops, domain, n, t) == 0 {
      assert AllBefore(w, ops, domain, n, t);
      NoneSince(w, ops, domain, n, t);
    }
  }

  /** And in any 24 hours, wherever they begin, at most twice the full cap is delivered. */
  lemma AnyDayHolds(w: WarmUp, ops: seq<Op>, n: nat, domain: string, t: int)
    requires w.enabled && Grows(w) && Serial(ops) && 0 < n <= |ops| && End(ops[n - 1]) < t + DAY
    ensures Deliveries(w, ops, domain, n, t) <= 2 * w.full
  {
    var now := End(ops[n - 1]);
    RunCounts(w, ops, domain, n, now);
    CapHolds(w, ops, n, now, domain);
    hide After, DailyLimit, Delivers, Deliveries;
    if "domain:" + domain !in After(w, ops, n) {
      assert AllBefore(w, ops, domain, n, t);
      NoneSince(w, ops, domain, n, t);
    }
  }

  // ----- the age -----

  /** Every key keeps the time it was first seen; a new one was first seen now. */
  ghost predicate KeepsFirst(s: Records, s': Records, now: int) {
    && (forall key :: key in s ==> key in s' && s'[key].first == s[key].first)
    && forall key :: key in s' && key !in s ==> s'[key].first == now
  }

  lemma TouchKeepsFirst(s: Records, key: string, now: int)
    ensures KeepsFirst(s, Touch(s, key, now), now)
  {
    GetMeans(s, key, now);
  }

  lemma NoteKeepsFirst(s: Records, key: string, e: Event, now: int)
    ensures KeepsFirst(s, Noted(s, key, e, now), now)
  {
    GetMeans(s, key, now);
    EventMeans(s, key, e, now);
  }

  lemma AskKeepsFirst(s: Records, w: WarmUp, user: string, domain: string, now: int)
    requires w.day1 <= w.day7 <= w.full
    ensures var a := MaySend(s, w, user, domain, now);
      KeepsFirst(s, a.records, now) && (a.granted ==> UserKey(user) in a.records && DomainKey(domain) in a.records)
  {
    var s1 := Touch(s, UserKey(user), now);
    var s2 := Touch(s1, DomainKey(domain), now);
    TouchKeepsFirst(s, UserKey(user), now);
    TouchKeepsFirst(s1, DomainKey(domain), now);
    TouchKeepsFirst(s2, DomainKey(domain), now);
    assert UserKey(user) in s1 && DomainKey(domain) in s2;
    hide Get, Allows;
  }

  /** A domain's age counts from the operation that first names it. */
  lemma AgeCounts(w: WarmUp, ops: seq<Op>, n: nat)
    requires w.day1 <= w.day7 <= w.full && n < |ops|
    ensures KeepsFirst(After(w, ops, n), After(w, ops, n + 1), Start(ops[n]))
  {
    var s, op := After(w, ops, n), ops[n];
    match op
    case Note(key, e, at) => NoteKeepsFirst(s, key, e, at);
    case Look(key, at) => TouchKeepsFirst(s, key, at);
    case Submit(user, domain, asked, sent, _) =>
      hide MaySend, Noted, KeepsFirst;
      AskKeepsFirst(s, w, user, domain, asked);
      SentKeepsFirst(s, MaySend(s, w, user, domain, asked).records, user, domain, asked, sent);
  }

  lemma SentKeepsFirst(s: Records, asked: Records, user: string, domain: string, now: int, later: int)
    requires KeepsFirst(s, asked, now)
    ensures UserKey(user) in asked && DomainKey(domain) in asked ==>
      KeepsFirst(s, Noted(Noted(asked, UserKey(user), EventDelivered, later), DomainKey(domain), EventDelivered, later), now)
  {
    hide Noted, Get;
    var noted := Noted(asked, UserKey(user), EventDelivered, later);
    NoteKeepsFirst(asked, UserKey(user), EventDelivered, later);
    EventMeans(asked, UserKey(user), EventDelivered, later);
    NoteKeepsFirst(noted, DomainKey(domain), EventDelivered, later);
    EventMeans(noted, DomainKey(domain), EventDelivered, later);
  }
}
