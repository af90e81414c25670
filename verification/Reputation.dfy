/** Sending reputation and the warm-up cap. float64 is taken as real and the clock is passed in. */
module Reputation {

  const DAY := 24 * 3600 * 1_000_000_000

  /** A duration in days. */
  function Days(d: int): real { d as real / DAY as real }

  // ----- the ramp -----

  datatype WarmUp = WarmUp(enabled: bool, day1: nat, day7: nat, full: nat)

  /** The ramps the configuration accepts. */
  ghost predicate Grows(w: WarmUp) { 1 <= w.day1 <= w.day7 <= w.full }

  /** A point of the straight line from lo to hi, rounded down. */
  function Ramp(lo: nat, hi: nat, f: real): int
    requires lo <= hi
  {
    lo + (f * (hi - lo) as real).Floor
  }

  /** How many messages a day the ramp grants at an age; 0 leaves the domain unlimited. */
  function DailyLimit(w: WarmUp, age: int): int
    requires w.day1 <= w.day7 <= w.full
  {
    if !w.enabled then 0
    else
      var days := Days(age);
      if days <= 1.0 then w.day1
      else if days >= 30.0 then w.full
      else if days <= 7.0 then Ramp(w.day1, w.day7, (days - 1.0) / 6.0)
      else Ramp(w.day7, w.full, (days - 7.0) / 23.0)
  }

  lemma ScaleMonotone(f: real, g: real, d: real)
    requires f <= g && d >= 0.0
    ensures f * d <= g * d
  {
    assert (g - f) * d >= 0.0;
    assert (g - f) * d == g * d - f * d;
  }

  lemma RampMonotone(lo: nat, hi: nat, f: real, g: real)
    requires lo <= hi && 0.0 <= f <= g <= 1.0
    ensures lo <= Ramp(lo, hi, f) <= Ramp(lo, hi, g) <= hi
  {
    var d := (hi - lo) as real;
    ScaleMonotone(0.0, f, d);
    ScaleMonotone(f, g, d);
    ScaleMonotone(g, 1.0, d);
    assert d.Floor == hi - lo;
  }

  /** The cap stays between the first day's and the full one. */
  lemma LimitWithin(w: WarmUp, age: int)
    requires w.enabled && Grows(w)
    ensures w.day1 <= DailyLimit(w, age) <= w.full
  {
    var days := Days(age);
    if 1.0 < days <= 7.0 {
      var f := (days - 1.0) / 6.0;
      RampMonotone(w.day1, w.day7, f, f);
    } else if 7.0 < days < 30.0 {
      var f := (days - 7.0) / 23.0;
      RampMonotone(w.day7, w.full, f, f);
    }
  }

  /** The cap never shrinks as the domain ages, across all four pieces and their rounding. */
  lemma LimitMonotone(w: WarmUp, a: int, b: int)
    requires w.enabled && Grows(w) && a <= b
    ensures DailyLimit(w, a) <= DailyLimit(w, b)
  {
    var x, y := Days(a), Days(b);
    assert x <= y;
    LimitWithin(w, a);
    LimitWithin(w, b);
    if 1.0 < x && y < 30.0 {
      if y <= 7.0 {
        RampMonotone(w.day1, w.day7, (x - 1.0) / 6.0, (y - 1.0) / 6.0);
      } else if x > 7.0 {
        RampMonotone(w.day7, w.full, (x - 7.0) / 23.0, (y - 7.0) / 23.0);
      } else {
        RampMonotone(w.day1, w.day7, (x - 1.0) / 6.0, 1.0);
        RampMonotone(w.day7, w.full, (y - 7.0) / 23.0, (y - 7.0) / 23.0);
      }
    }
  }

  // ----- records -----

  const NORMAL := 50.0
  const SUSPECT_HALF := 10.0

  datatype Event = EventDelivered | AuthPass | Bounce | SpamComplaint | Blacklisted | Anomaly

  function Delta(e: Event): real {
    match e
    case EventDelivered => 0.5
    case AuthPass => 0.2
    case Bounce => -2.0
    case SpamComplaint => -15.0
    case Blacklisted => -30.0
    case Anomaly => -25.0
  }

  datatype Record = Record(
    score: real, updated: int, first: int, sent: nat, bounced: nat, reported: nat, daySent: nat, dayFrom: int)

  type Records = map<string, Record>

  function Min(a: real, b: real): real { if a < b then a else b }

  function Max(a: real, b: real): real { if a > b then a else b }

  function Clamp(v: real): real { Max(0.0, Min(100.0, v)) }

  /** The score drifts back to the baseline, and the counter of a new day starts at zero. */
  function Aged(r: Record, now: int): Record {
    var days := Days(now - r.updated);
    var r1 := if days < 1.0 then r
              else r.(updated := now,
                      score := if r.score < NORMAL then Min(NORMAL, r.score + days)
                               else if r.score > NORMAL then Max(NORMAL, r.score - days) else r.score);
    if now - r.dayFrom >= DAY then r1.(daySent := 0, dayFrom := now) else r1
  }

  /** Store.get. */
  function Get(s: Records, key: string, now: int): Record {
    if key in s then Aged(s[key], now) else Record(NORMAL, now, now, 0, 0, 0, 0, now)
  }

  function Touch(s: Records, key: string, now: int): Records { s[key := Get(s, key, now)] }

  /** Store.Record. */
  function Noted(s: Records, key: string, e: Event, now: int): Records {
    var r := Get(s, key, now);
    var r1 := r.(score := Clamp(r.score + Delta(e)), updated := now);
    s[key := match e
             case EventDelivered => r1.(sent := r.sent + 1, daySent := r.daySent + 1)
             case Bounce => r1.(bounced := r.bounced + 1)
             case SpamComplaint => r1.(reported := r.reported + 1)
             case _ => r1]
  }

  predicate IsBlocked(s: Records, key: string, now: int) { Get(s, key, now).score <= SUSPECT_HALF }

  /** Store.AllowSend, on a store already touched. */
  predicate Allows(s: Records, key: string, w: WarmUp, now: int)
    requires w.day1 <= w.day7 <= w.full
  {
    var r := Get(s, key, now);
    var limit := DailyLimit(w, now - r.first);
    limit == 0 || r.daySent < limit
  }

  // ----- runs -----

  function UserKey(user: string): string { "user:" + user }

  function DomainKey(domain: string): string { "domain:" + domain }

  /** A submission asks MaySend and, when accepted, reports Sent; every other event is noted on its own. */
  datatype Op =
    | Submit(user: string, domain: string, asked: int, sent: int, accepted: bool)
    | Note(key: string, e: Event, at: int)
    | Look(key: string, at: int)

  datatype Asked = Asked(records: Records, granted: bool)

  /** The MaySend hook: both scores, then the cap. */
  function MaySend(s: Records, w: WarmUp, user: string, domain: string, now: int): Asked
    requires w.day1 <= w.day7 <= w.full
  {
    var s1 := Touch(s, UserKey(user), now);
    if IsBlocked(s, UserKey(user), now) then Asked(s1, false)
    else
      var s2 := Touch(s1, DomainKey(domain), now);
      if IsBlocked(s1, DomainKey(domain), now) then Asked(s2, false)
      else if !w.enabled then Asked(s2, true)
      else Asked(Touch(s2, DomainKey(domain), now), Allows(s2, DomainKey(domain), w, now))
  }

  function Do(s: Records, w: WarmUp, op: Op): Records
    requires w.day1 <= w.day7 <= w.full
  {
    match op
    case Submit(user, domain, asked, sent, accepted) =>
      var a := MaySend(s, w, user, domain, asked);
      if a.granted && accepted then
        Noted(Noted(a.records, UserKey(user), EventDelivered, sent), DomainKey(domain), EventDelivered, sent)
      else a.records
    case Note(key, e, at) => Noted(s, key, e, at)
    case Look(key, at) => Touch(s, key, at)
  }

  function Start(op: Op): int { match op case Submit(_, _, asked, _, _) => asked case Note(_, _, at) => at case Look(_, at) => at }

  function End(op: Op): int { match op case Submit(_, _, _, sent, _) => sent case Note(_, _, at) => at case Look(_, at) => at }

  /** One operation after the other, on a clock that never goes back; only submissions deliver. */
  ghost predicate Serial(ops: seq<Op>) {
    && (forall i :: 0 <= i < |ops| ==> Start(ops[i]) <= End(ops[i]) && (ops[i].Note? ==> ops[i].e != EventDelivered))
    && forall i, j :: 0 <= i < j < |ops| ==> End(ops[i]) <= Start(ops[j])
  }

  function After(w: WarmUp, ops: seq<Op>, n: nat): Records
    requires w.day1 <= w.day7 <= w.full && n <= |ops|
  {
    if n == 0 then map[] else Do(After(w, ops, n - 1), w, ops[n - 1])
  }

  // ----- the cap holds -----

  ghost predicate IsDomain(key: string) { "domain:" <= key }

  ghost predicate Fine(w: WarmUp, key: string, r: Record, now: int)
    requires w.enabled && Grows(w)
  {
    && 0.0 <= r.score <= 100.0 && r.updated <= now && r.first <= now && r.dayFrom <= now
    && (IsDomain(key) ==> r.daySent <= DailyLimit(w, now - r.first))
  }

  ghost predicate AllFine(w: WarmUp, s: Records, now: int)
    requires w.enabled && Grows(w)
  {
    forall key :: key in s ==> Fine(w, key, s[key], now)
  }

  lemma FineLater(w: WarmUp, s: Records, now: int, later: int)
    requires w.enabled && Grows(w) && AllFine(w, s, now) && now <= later
    ensures AllFine(w, s, later)
  {
    forall key | key in s ensures Fine(w, key, s[key], later) { LimitMonotone(w, now - s[key].first, later - s[key].first); }
  }

  lemma DaysPositive(d: int)
    requires d >= 0
    ensures Days(d) >= 0.0
  {
  }

  lemma GetFine(w: WarmUp, s: Records, key: string, now: int)
    requires w.enabled && Grows(w) && AllFine(w, s, now)
    ensures Fine(w, key, Get(s, key, now), now)
    ensures Get(s, key, now).daySent == 0 || (key in s && Get(s, key, now).daySent == s[key].daySent)
    ensures key in s ==> Get(s, key, now).first == s[key].first
    ensures AllFine(w, Touch(s, key, now), now)
  {
    LimitWithin(w, now - Get(s, key, now).first);
    if key in s { DaysPositive(now - s[key].updated); }
  }

  /** Anything but a delivery leaves the day's count alone. */
  lemma NoteFine(w: WarmUp, s: Records, key: string, e: Event, now: int)
    requires w.enabled && Grows(w) && AllFine(w, s, now) && (IsDomain(key) ==> e != EventDelivered)
    ensures AllFine(w, Noted(s, key, e, now), now)
  {
    GetFine(w, s, key, now);
  }

  lemma KeysDiffer(user: string, domain: string)
    ensures UserKey(user) != DomainKey(domain) && !IsDomain(UserKey(user)) && IsDomain(DomainKey(domain))
  {
    assert UserKey(user)[0] == 'u' && DomainKey(domain)[0] == 'd' && "domain:"[0] == 'd';
  }

  ghost predicate HasRoom(w: WarmUp, s: Records, key: string, now: int)
    requires Grows(w)
  {
    key in s && s[key].daySent < DailyLimit(w, now - s[key].first)
  }

  /** A granted MaySend leaves room for one more under the cap of that moment. */
  lemma GrantedHasRoom(w: WarmUp, s: Records, user: string, domain: string, now: int)
    requires w.enabled && Grows(w) && AllFine(w, s, now)
    ensures var a := MaySend(s, w, user, domain, now);
      && AllFine(w, a.records, now)
      && (a.granted ==> HasRoom(w, a.records, DomainKey(domain), now))
  {
    hide Fine, Aged;
    var d := DomainKey(domain);
    GetFine(w, s, UserKey(user), now);
    var s1 := Touch(s, UserKey(user), now);
    GetFine(w, s1, d, now);
    var s2 := Touch(s1, d, now);
    GetFine(w, s2, d, now);
    LimitWithin(w, now - Get(s2, d, now).first);
  }

  /** Counting a delivery for a domain that had room keeps it under the cap, now or after midnight. */
  lemma DeliveryFine(w: WarmUp, s: Records, key: string, asked: int, now: int)
    requires w.enabled && Grows(w) && AllFine(w, s, now) && asked <= now && HasRoom(w, s, key, asked)
    ensures AllFine(w, Noted(s, key, EventDelivered, now), now)
  {
    GetFine(w, s, key, now);
    LimitMonotone(w, asked - s[key].first, now - s[key].first);
    LimitWithin(w, now - s[key].first);
  }

  lemma OpFine(w: WarmUp, s: Records, op: Op)
    requires w.enabled && Grows(w) && AllFine(w, s, Start(op)) && Start(op) <= End(op)
    requires op.Note? ==> op.e != EventDelivered
    ensures AllFine(w, Do(s, w, op), End(op))
  {
    match op
    case Note(key, e, at) => NoteFine(w, s, key, e, at);
    case Look(key, at) => GetFine(w, s, key, at);
    case Submit(user, domain, asked, sent, accepted) =>
      var a := MaySend(s, w, user, domain, asked);
      KeysDiffer(user, domain);
      GrantedHasRoom(w, s, user, domain, asked);
      FineLater(w, a.records, asked, sent);
      if a.granted && accepted {
        NoteFine(w, a.records, UserKey(user), EventDelivered, sent);
        DeliveryFine(w, Noted(a.records, UserKey(user), EventDelivered, sent), DomainKey(domain), asked, sent);
      }
  }

  lemma {:induction false} RunFine(w: WarmUp, ops: seq<Op>, n: nat, now: int)
    requires w.enabled && Grows(w) && Serial(ops) && n <= |ops| && (n > 0 ==> End(ops[n - 1]) <= now)
    ensures AllFine(w, After(w, ops, n), now)
  {
    if n > 0 {
      RunFine(w, ops, n - 1, Start(ops[n - 1]));
      OpFine(w, After(w, ops, n - 1), ops[n - 1]);
      FineLater(w, After(w, ops, n), End(ops[n - 1]), now);
    }
  }

  /**
    In every serial run where each delivery follows a granted MaySend, no domain
    has sent more today than the cap for its current age, through every change
    of day, and the score of every record, user or domain, stays within 0..100.
   */
  lemma CapHolds(w: WarmUp, ops: seq<Op>, n: nat, now: int, domain: string)
    requires w.enabled && Grows(w) && Serial(ops) && n <= |ops| && (n > 0 ==> End(ops[n - 1]) <= now)
    ensures DomainKey(domain) in After(w, ops, n) ==>
      var r := After(w, ops, n)[DomainKey(domain)]; r.daySent <= DailyLimit(w, now - r.first) <= w.full
    ensures forall key :: key in After(w, ops, n) ==> 0.0 <= After(w, ops, n)[key].score <= 100.0
  {
    hide After, DailyLimit;
    RunFine(w, ops, n, now);
    FineMeans(w, After(w, ops, n), now, domain);
  }

  lemma FineMeans(w: WarmUp, s: Records, now: int, domain: string)
    requires w.enabled && Grows(w) && AllFine(w, s, now)
    ensures DomainKey(domain) in s ==>
      var r := s[DomainKey(domain)]; r.daySent <= DailyLimit(w, now - r.first) <= w.full
    ensures forall key :: key in s ==> 0.0 <= s[key].score <= 100.0
  {
    KeysDiffer("", domain);
    if DomainKey(domain) in s { LimitWithin(w, now - s[DomainKey(domain)].first); }
  }

  // ----- the code -----

  class Store {
    var records: Records

    constructor ()
      ensures records == map[]
    {
      records := map[];
    }

    /** get: create at the baseline, or decay in place and roll the day. */
    method Fetch(key: string, now: int) returns (r: Record)
      modifies this
      ensures records == Touch(old(records), key, now) && r == records[key]
    {
      if key !in records {
        r := Record(NORMAL, now, now, 0, 0, 0, 0, now);
        records := records[key := r];
        return;
      }
      r := records[key];
      var days := Days(now - r.updated);
      if days >= 1.0 {
        if r.score < NORMAL {
          r := r.(score := Min(NORMAL, r.score + days));
        } else if r.score > NORMAL {
          r := r.(score := Max(NORMAL, r.score - days));
        }
        r := r.(updated := now);
      }
      if now - r.dayFrom >= DAY { r := r.(daySent := 0, dayFrom := now); }
      records := records[key := r];
    }

    method NoteEvent(key: string, e: Event, now: int) returns (score: real)
      modifies this
      ensures records == Noted(old(records), key, e, now) && score == records[key].score
      ensures 0.0 <= score <= 100.0
    {
      var r := Fetch(key, now);
      r := r.(score := Clamp(r.score + Delta(e)), updated := now);
      match e {
        case EventDelivered => r := r.(sent := r.sent + 1, daySent := r.daySent + 1);
        case Bounce => r := r.(bounced := r.bounced + 1);
        case SpamComplaint => r := r.(reported := r.reported + 1);
        case _ =>
      }
      records := records[key := r];
      score := r.score;
    }

    method AllowSend(key: string, w: WarmUp, now: int) returns (ok: bool, cap: int)
      requires w.day1 <= w.day7 <= w.full
      modifies this
      ensures !w.enabled ==> ok && cap == 0 && records == old(records)
      ensures w.enabled ==> key in records && cap == DailyLimit(w, now - records[key].first)
      ensures w.enabled ==> ok == (cap == 0 || records[key].daySent < cap)
      ensures w.enabled ==> records == Touch(old(records), key, now) && ok == Allows(old(records), key, w, now)
    {
      if !w.enabled { return true, 0; }
      var r := Fetch(key, now);
      cap := DailyLimit(w, now - r.first);
      if cap == 0 { return true, 0; }
      ok := r.daySent < cap;
    }

    /** The MaySend hook. */
    method Ask(w: WarmUp, user: string, domain: string, now: int) returns (granted: bool)
      requires w.day1 <= w.day7 <= w.full
      modifies this
      ensures Asked(records, granted) == MaySend(old(records), w, user, domain, now)
    {
      var r := Fetch("user:" + user, now);
      if r.score <= SUSPECT_HALF { return false; }
      r := Fetch("domain:" + domain, now);
      if r.score <= SUSPECT_HALF { return false; }
      var cap;
      granted, cap := AllowSend("domain:" + domain, w, now);
    }

    /** The Sent hook. */
    method Sent(user: string, domain: string, now: int)
      modifies this
      ensures records ==
        Noted(Noted(old(records), UserKey(user), EventDelivered, now), DomainKey(domain), EventDelivered, now)
    {
      var _ := NoteEvent("user:" + user, EventDelivered, now);
      var _ := NoteEvent("domain:" + domain, EventDelivered, now);
    }
  }
}
