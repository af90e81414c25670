/** When retries come, call by call, and that every envelope leaves the queue in the end. */
module Retries {
  import opened Text
  import opened Sorting
  import opened QueueDue
  import opened Scheduler

  // ----- two envelopes, on a concrete run -----

  function Mail(id: string): Envelope { Envelope(id, "s", "r", "d", 0, 0, 0, "", "") }

  function Again(id: string): Envelope { Retried(Mail(id), 0, "busy") }

  /** When the next pass begins if its tick was due lag after the first pass began. */
  function NextPass(lag: nat): int { if lag < MINUTE then MINUTE else lag }

  /** The two envelopes as files, A alone having been removed or B rewritten. */
  function Both(): Files { map[JsonPath("A") := Whole(Mail("A")), JsonPath("B") := Whole(Mail("B"))] }

  function OnlyB(e: Envelope): Files { map[JsonPath("B") := Whole(e)] }

  /** A and B are enqueued and due. A's Deliver takes lag; B's fails; B is called again in the next pass. */
  function SlowRun(lag: nat): seq<State> {
    var c1, c2, c3 := Call("A", 0, 0), Call("B", lag, 0), Call("B", NextPass(lag), NextPass(lag));
    var ids, b, b' := {"A", "B"}, Mail("B"), Again("B");
    [ Empty(0),
      State(map[JsonPath("A") := Whole(Mail("A"))], {"A"}, {"A"}, [], [], [], 0, None),
      State(Both(), ids, ids, [], [], [], 0, None),
      State(Both(), ids, ids, [], [], [], 0, Some(Pass(0, [Mail("A"), b]))),
      State(OnlyB(b), ids, ids, ["A"], [], [c1], 0, Some(Pass(0, [b]))),
      State(OnlyB(b'), ids, ids, ["A"], [], [c1, c2], lag, Some(Pass(0, []))),
      State(OnlyB(b'), ids, ids, ["A"], [], [c1, c2], lag, None),
      State(OnlyB(b'), ids, ids, ["A"], [], [c1, c2], NextPass(lag), Some(Pass(NextPass(lag), [b']))),
      State(map[], ids, ids, ["A", "B"], [], [c1, c2, c3], NextPass(lag), Some(Pass(NextPass(lag), []))) ]
  }

  function SlowActions(lag: nat): seq<Action> {
    [ Enqueue(Mail("A"), Done), Enqueue(Mail("B"), Done), Begin(0, [Mail("A"), Mail("B")]),
      Try(0, Delivered, WORKS), Try(lag, Transient("busy"), WORKS), Finish,
      Begin(NextPass(lag), [Again("B")]), Try(NextPass(lag), Delivered, WORKS) ]
  }

  lemma AloneIsDue(e: Envelope, now: int)
    requires e.nextAttempt <= now
    ensures FilterDue(OldestFirst([e]), now) == [e]
  {
    assert [e][..0] == [];
    assert OldestFirst([e]) == Insert(OldestFirst([]), e) == [e];
    assert FilterDue([e], now) == FilterDue([], now) + [e];
  }

  lemma BothAreDue(e: Envelope, f: Envelope, now: int)
    requires e.nextAttempt <= now && f.nextAttempt <= now && e.created <= f.created
    ensures FilterDue(OldestFirst([e, f]), now) == [e, f]
  {
    AloneIsDue(e, now);
    AloneIsSorted(e);
    assert [e, f][..1] == [e] && [e, f][1] == f;
    assert OldestFirst([e, f]) == Insert([e], f) == [e, f];
    assert FilterDue([e, f], now) == FilterDue([e], now) + [f];
  }

  lemma AloneIsSorted(e: Envelope)
    ensures OldestFirst([e]) == [e]
  {
    assert [e][..0] == [];
    assert OldestFirst([e]) == Insert(OldestFirst([]), e) == [e];
  }

  lemma SlowEnqueues(lag: nat)
    ensures var qs, as_ := SlowRun(lag), SlowActions(lag);
      Step(3, qs[0], as_[0], qs[1]) && Step(3, qs[1], as_[1], qs[2])
  {
    PathFacts("A", "B");
    PathFacts("A", "A");
    PathFacts("B", "B");
  }

  lemma BothListed()
    ensures Listing(Both(), [Mail("A"), Mail("B")])
  {
    var dir := [Mail("A"), Mail("B")];
    PathFacts("A", "B");
    assert dir[0] == Mail("A") && dir[1] == Mail("B");
  }

  lemma OnlyListed(e: Envelope)
    requires e.id == "B"
    ensures Listing(OnlyB(e), [e])
  {
    assert [e][0] == e;
  }

  lemma SlowBegins(lag: nat)
    ensures var qs, as_ := SlowRun(lag), SlowActions(lag); Step(3, qs[2], as_[2], qs[3])
  {
    hide Listing, FilterDue, OldestFirst, Both;
    BothListed();
    BothAreDue(Mail("A"), Mail("B"), 0);
    BeginStep(3, SlowRun(lag)[2], 0, [Mail("A"), Mail("B")]);
  }

  lemma SlowTries(lag: nat)
    ensures var qs, as_ := SlowRun(lag), SlowActions(lag);
      forall k :: 3 <= k < 6 ==> Step(3, qs[k], as_[k], qs[k + 1])
  {
    var qs, as_ := SlowRun(lag), SlowActions(lag);
    PathFacts("A", "B");
    PathFacts("B", "B");
    assert [Mail("A"), Mail("B")][1..] == [Mail("B")] && [Mail("B")][1..] == [];
    assert Both() - {JsonPath("A")} == OnlyB(Mail("B"));
    assert Step(3, qs[3], as_[3], qs[4]);
    assert Write(OnlyB(Mail("B")), Again("B"), Done) == OnlyB(Again("B"));
    assert Step(3, qs[4], as_[4], qs[5]);
    assert Step(3, qs[5], as_[5], qs[6]);
  }

  lemma SlowBeginsAgain(lag: nat)
    ensures var qs, as_ := SlowRun(lag), SlowActions(lag); Step(3, qs[6], as_[6], qs[7])
  {
    var e := Again("B");
    assert e.nextAttempt == MINUTE by { BackoffIsCappedPower(1); }
    hide Listing, FilterDue, OldestFirst, OnlyB, Backoff, Again;
    AloneIsDue(e, NextPass(lag));
    OnlyListed(e);
    BeginStep(3, SlowRun(lag)[6], NextPass(lag), [e]);
  }

  lemma SlowEnds(lag: nat)
    ensures var qs, as_ := SlowRun(lag), SlowActions(lag); Step(3, qs[7], as_[7], qs[8])
  {
    var e := Again("B");
    assert [e][0] == e && [e][1..] == [];
    assert OnlyB(e) - {JsonPath("B")} == map[];
  }

  /**
    Two envelopes due in one pass. If the first one's Deliver takes any time at
    all, the second one is called again less than a minute after its first call,
    and at once if it takes a minute or more.
   */
  lemma SlowNeighbour(lag: nat)
    ensures Run(3, SlowRun(lag), SlowActions(lag)) && WorksUntil(SlowActions(lag), 8)
    ensures var cs := CallsOn(SlowRun(lag)[8].calls, "B");
      |cs| == 2 && (cs[1].at - cs[0].at < MINUTE <==> lag > 0) && (lag >= MINUTE ==> cs[1].at == cs[0].at)
  {
    var qs, as_ := SlowRun(lag), SlowActions(lag);
    SlowSteps(lag);
    forall i | 0 <= i < 8 ensures StoreWorks(as_[i]) {}
    SlowCalls(lag);
  }

  lemma SlowCalls(lag: nat)
    ensures CallsOn(SlowRun(lag)[8].calls, "B") == [Call("B", lag, 0), Call("B", NextPass(lag), NextPass(lag))]
  {
    var c1, c2, c3 := Call("A", 0, 0), Call("B", lag, 0), Call("B", NextPass(lag), NextPass(lag));
    CallsAppend([c1, c2], c3, "B");
    CallsAppend([c1], c2, "B");
    CallsAppend([], c1, "B");
    assert [c1, c2] + [c3] == [c1, c2, c3] && [c1] + [c2] == [c1, c2] && [] + [c1] == [c1];
  }

  lemma SlowSteps(lag: nat)
    ensures Run(3, SlowRun(lag), SlowActions(lag))
  {
    var qs, as_ := SlowRun(lag), SlowActions(lag);
    SlowEnqueues(lag);
    SlowBegins(lag);
    SlowTries(lag);
    SlowBeginsAgain(lag);
    SlowEnds(lag);
    hide Step;
    forall k | 0 <= k < 8 ensures StepAt(3, qs, as_, k) {
      assert k == 0 || k == 1 || k == 2 || 3 <= k < 6 || k == 6 || k == 7;
    }
  }

  // ----- from call to call -----

  /** How long after its pass began a call was made. */
  function Lag(c: Call): int { c.at - c.began }

  /** A run with a working store whose first call on this envelope lagged so long. */
  ghost predicate Lagged(max: int, qs: seq<State>, as_: seq<Action>, k: nat, id: string, lag: int) {
    && Run(max, qs, as_) && k < |qs| && WorksUntil(as_, k) && id in qs[k].enqueued
    && CallsOn(qs[k].calls, id) != [] && Lag(CallsOn(qs[k].calls, id)[0]) == lag
  }

  /** The n-th call comes at least the sum of the backoffs after the first. */
  ghost predicate OnSchedule(cs: seq<Call>) {
    forall n :: 0 <= n < |cs| ==> cs[n].at - cs[0].at >= MINUTE * Closed(n + 1)
  }

  ghost predicate KeepsSchedule(qs: seq<State>, k: nat, id: string)
    requires k < |qs|
  {
    OnSchedule(CallsOn(qs[k].calls, id))
  }

  lemma NoLagOnSchedule(max: int, qs: seq<State>, as_: seq<Action>, k: nat, id: string)
    requires Lagged(max, qs, as_, k, id, 0)
    ensures KeepsSchedule(qs, k, id)
  {
    var cs := CallsOn(qs[k].calls, id);
    RunSpaced(max, qs, as_, k, id);
    forall n | 0 <= n < |cs| ensures cs[n].at - cs[0].at >= MINUTE * Closed(n + 1) {
      assert cs[n].began - cs[0].began >= MINUTE * Closed(n + 1) && cs[n].began <= cs[n].at;
    }
  }

  lemma SlowOffSchedule(lag: nat)
    requires lag > 0
    ensures Lagged(3, SlowRun(lag), SlowActions(lag), 8, "B", lag) && !KeepsSchedule(SlowRun(lag), 8, "B")
  {
    SlowNeighbour(lag);
    SlowCalls(lag);
    var cs := CallsOn(SlowRun(lag)[8].calls, "B");
    assert Closed(2) == 1;
    assert cs[1].at - cs[0].at < MINUTE * Closed(1 + 1);
  }

  /**
    All runs whose first call on an envelope lagged so long behind its pass keep
    the schedule from call to call if and only if it did not lag at all.
   */
  lemma ScheduleHoldsWhen(lag: nat)
    ensures (forall max, qs, as_, k, id :: Lagged(max, qs, as_, k, id, lag) ==> KeepsSchedule(qs, k, id)) <==> lag == 0
  {
    if lag == 0 {
      forall max, qs, as_, k, id | Lagged(max, qs, as_, k, id, lag) ensures KeepsSchedule(qs, k, id) {
        NoLagOnSchedule(max, qs, as_, k, id);
      }
    } else {
      SlowOffSchedule(lag);
    }
  }

  // ----- every envelope leaves the queue -----

  const FOUR_HOURS := 240 * MINUTE

  /** Every retry is due within four hours of this time. */
  ghost predicate DueBy(files: Files, time: int) {
    forall name :: name in files && IsJson(name) && files[name].Whole? ==> files[name].e.nextAttempt <= time + FOUR_HOURS
  }

  lemma BackoffBounded(attempts: nat)
    requires attempts >= 1
    ensures 0 <= Backoff(attempts) <= FOUR_HOURS
  {
    BackoffIsCappedPower(attempts);
  }

  lemma WriteDueBy(files: Files, e: Envelope, fate: WriteFate, time: int, later: int)
    requires DueBy(files, time) && time <= later && e.nextAttempt <= later + FOUR_HOURS
    ensures DueBy(Write(files, e, fate), later)
  {
    WriteFacts(files, e, fate);
    forall name | name in Write(files, e, fate) && IsJson(name) && Write(files, e, fate)[name].Whole?
      ensures Write(files, e, fate)[name].e.nextAttempt <= later + FOUR_HOURS
    {
      if name != JsonPath(e.id) { assert name in files; }
    }
  }

  lemma AttemptDueBy(max: int, q: State, e: Envelope, now: int, at: int, r: Result, fate: Fate, time: int)
    requires DueBy(q.files, time) && time <= now
    ensures DueBy(Attempt(max, q, e, now, at, r, fate).files, now)
  {
    BackoffBounded(e.attempts + 1);
    if r.Transient? && e.attempts + 1 < max { WriteDueBy(q.files, Retried(e, now, r.error), fate.update, time, now); }
  }

  /** Over every run, every retry is due within four hours. */
  lemma {:induction false} RunDueBy(max: int, qs: seq<State>, as_: seq<Action>, k: nat)
    requires Run(max, qs, as_) && k < |qs|
    ensures DueBy(qs[k].files, qs[k].clock)
  {
    hide Step, DueBy, Sound, PassOk;
    if k == 0 {
      EmptyDueBy(qs[0].clock);
    } else {
      RunDueBy(max, qs, as_, k - 1);
      RunSound(max, qs, as_, k - 1);
      assert StepAt(max, qs, as_, k - 1);
      StepDueBy(max, qs[k - 1], as_[k - 1], qs[k]);
    }
  }

  lemma EmptyDueBy(clock: int)
    ensures DueBy(Empty(clock).files, clock)
  {
  }

  lemma StepDueBy(max: int, q: State, a: Action, q': State)
    requires PassOk(q) && DueBy(q.files, q.clock) && Step(max, q, a, q')
    ensures DueBy(q'.files, q'.clock)
  {
    match a
    case Enqueue(e, fate) => WriteDueBy(q.files, e, fate, q.clock, e.created);
    case Try(at, r, fate) =>
      var now := q.pass.value.now;
      assert now <= q.clock <= at;
      TryDueBy(max, q, q.pass.value.due[0], now, at, r, fate);
    case _ =>
  }

  lemma TryDueBy(max: int, q: State, e: Envelope, now: int, at: int, r: Result, fate: Fate)
    requires DueBy(q.files, q.clock) && now <= q.clock <= at
    ensures DueBy(Attempt(max, q, e, now, at, r, fate).files, at)
  {
    BackoffBounded(e.attempts + 1);
    if r.Transient? && e.attempts + 1 < max { WriteDueBy(q.files, Retried(e, now, r.error), fate.update, q.clock, at); }
  }

  /** One pass that nothing interrupts, over a working store. */
  datatype Round = Round(now: int, dir: seq<Envelope>, t: Transport, d: Disk, at: Times)

  ghost predicate Goes(max: int, q: State, r: Round, q': State) {
    && q.pass.None? && q.clock <= r.now && Listing(q.files, r.dir) && InOrder(r.at, |q.calls|, r.now)
    && (forall n :: r.d(n) == WORKS)
    && q' == Processed(max, q, r.dir, r.now, r.t, r.d, r.at)
  }

  lemma GoesAccounted(max: int, q: State, r: Round, q': State)
    requires Accounted(max, q) && Goes(max, q, r, q')
    ensures Accounted(max, q') && q'.pass.None?
  {
    var qs, as_ := ProcessIsPath(max, q, r.dir, r.now, r.t, r.d, r.at);
    hide Path, WorksUntil, Accounted, Processed, Listing, InOrder;
    PathAccounted(max, qs, as_, |as_|);
    ProcessedEnds(max, q, r);
  }

  lemma ProcessedEnds(max: int, q: State, r: Round)
    requires q.pass.None? && q.clock <= r.now && InOrder(r.at, |q.calls|, r.now)
    ensures Processed(max, q, r.dir, r.now, r.t, r.d, r.at).pass.None?
  {
    AttemptAllFacts(max, q.(clock := r.now), FilterDue(OldestFirst(r.dir), r.now), r.now, r.t, r.d, r.at);
  }

  lemma {:induction false} AllDueBy(
    max: int, q: State, due: seq<Envelope>, now: int, t: Transport, d: Disk, at: Times, time: int)
    requires DueBy(q.files, time) && time <= now
    ensures DueBy(AttemptAll(max, q, due, now, t, d, at).files, now)
  {
    if due != [] {
      var n := |due| - 1;
      AllDueBy(max, q, due[..n], now, t, d, at, time);
      var b := AttemptAll(max, q, due[..n], now, t, d, at);
      AttemptDueBy(max, b, due[n], now, at(|b.calls|), t(|b.calls|), d(|b.calls|), now);
    }
  }

  ghost predicate InList(due: seq<Envelope>, id: string) { exists i :: 0 <= i < |due| && due[i].id == id }

  /** Each envelope of the list is called once more. */
  lemma {:induction false} AllAreCalled(
    max: int, q: State, due: seq<Envelope>, now: int, t: Transport, d: Disk, at: Times, id: string)
    ensures var q' := AttemptAll(max, q, due, now, t, d, at);
      |CallsOn(q'.calls, id)| >= |CallsOn(q.calls, id)| + if InList(due, id) then 1 else 0
  {
    if due != [] {
      var n := |due| - 1;
      AllAreCalled(max, q, due[..n], now, t, d, at, id);
      var b := AttemptAll(max, q, due[..n], now, t, d, at);
      var m := |b.calls|;
      AttemptLocal(max, b, due[n], now, at(m), t(m), d(m));
      CallsAppend(b.calls, Call(due[n].id, at(m), now), id);
      LastInList(due, id);
    }
  }

  lemma LastInList(due: seq<Envelope>, id: string)
    requires due != []
    ensures InList(due, id) <==> InList(due[..|due| - 1], id) || due[|due| - 1].id == id
  {
    var n := |due| - 1;
    var front := due[..n];
    if i :| 0 <= i < n && front[i].id == id { assert due[i].id == id; }
    if i :| 0 <= i < |due| && due[i].id == id {
      if i < n { assert front[i].id == id; }
    }
  }

  /** What is not on the list stays as it is on disk. */
  lemma {:induction false} RestUntouched(
    max: int, q: State, due: seq<Envelope>, now: int, t: Transport, d: Disk, at: Times, id: string)
    requires !InList(due, id)
    ensures Queued(AttemptAll(max, q, due, now, t, d, at), id) <==> Queued(q, id)
  {
    if due != [] {
      var n := |due| - 1;
      LastInList(due, id);
      RestUntouched(max, q, due[..n], now, t, d, at, id);
      var b := AttemptAll(max, q, due[..n], now, t, d, at);
      var m := |b.calls|;
      AttemptLocal(max, b, due[n], now, at(m), t(m), d(m));
      PathFacts(id, due[n].id);
    }
  }

  /** What is queued and due is on the list of the pass, and what is not queued is not. */
  lemma DueInList(max: int, q: State, r: Round, q': State, id: string)
    requires Sound(q) && Goes(max, q, r, q')
    ensures !Queued(q, id) ==> !InList(FilterDue(OldestFirst(r.dir), r.now), id)
    ensures Queued(q, id) ==> q.files[JsonPath(id)].Whole?
    ensures Queued(q, id) && q.files[JsonPath(id)].e.nextAttempt <= r.now ==> InList(FilterDue(OldestFirst(r.dir), r.now), id)
  {
    var due := FilterDue(OldestFirst(r.dir), r.now);
    DueListIsRight(r.dir, r.now, 0);
    PathFacts(id, id);
    if InList(due, id) {
      var i :| 0 <= i < |due| && due[i].id == id;
      assert due[i] in due && due[i] in r.dir;
      var j :| 0 <= j < |r.dir| && r.dir[j] == due[i];
      assert OnDisk(q.files, r.dir[j]);
    }
    if Queued(q, id) && q.files[JsonPath(id)].e.nextAttempt <= r.now {
      var e := q.files[JsonPath(id)].e;
      PathFacts(id, e.id);
      assert e in r.dir && e in due;
      var i :| 0 <= i < |due| && due[i] == e;
    }
  }

  /** After a round begun late enough, what is still queued has one call more. */
  lemma RoundCalls(max: int, q: State, r: Round, q': State, time: int, id: string)
    requires Accounted(max, q) && Goes(max, q, r, q') && DueBy(q.files, time) && time + FOUR_HOURS <= r.now
    ensures DueBy(q'.files, r.now)
    ensures Queued(q', id) ==> Queued(q, id) && |CallsOn(q'.calls, id)| >= |CallsOn(q.calls, id)| + 1
  {
    var due, begun := FilterDue(OldestFirst(r.dir), r.now), q.(clock := r.now);
    AllDueBy(max, begun, due, r.now, r.t, r.d, r.at, time);
    AccountedIsSound(max, q);
    DueInList(max, q, r, q', id);
    PathFacts(id, id);
    hide Accounted, Sound, AttemptAll, FilterDue, OldestFirst, Listing, InOrder;
    AllAreCalled(max, begun, due, r.now, r.t, r.d, r.at, id);
    if !InList(due, id) { RestUntouched(max, begun, due, r.now, r.t, r.d, r.at, id); }
  }

  /** Rounds one after the other, the first four hours after time, each four hours after the one before began. */
  ghost predicate Rounds(max: int, ps: seq<State>, rs: seq<Round>, time: int) {
    && |ps| == |rs| + 1
    && forall k :: 0 <= k < |rs| ==> RoundAt(max, ps, rs, time, k)
  }

  ghost predicate RoundAt(max: int, ps: seq<State>, rs: seq<Round>, time: int, k: nat)
    requires k < |rs| && |ps| == |rs| + 1
  {
    Goes(max, ps[k], rs[k], ps[k + 1]) && Since(rs, time, k) + FOUR_HOURS <= rs[k].now
  }

  /** When the round before the k-th began. */
  function Since(rs: seq<Round>, time: int, k: nat): int
    requires k <= |rs|
  {
    if k == 0 then time else rs[k - 1].now
  }

  lemma {:induction false} RoundsCall(max: int, ps: seq<State>, rs: seq<Round>, time: int, k: nat, id: string)
    requires Rounds(max, ps, rs, time) && Accounted(max, ps[0]) && DueBy(ps[0].files, time) && k <= |rs|
    ensures Accounted(max, ps[k]) && DueBy(ps[k].files, Since(rs, time, k))
    ensures Queued(ps[k], id) ==> Queued(ps[0], id) && |CallsOn(ps[k].calls, id)| >= k
  {
    hide Accounted, DueBy, Goes, CallsOn, Queued;
    if k > 0 {
      RoundsCall(max, ps, rs, time, k - 1, id);
      assert RoundAt(max, ps, rs, time, k - 1);
      GoesAccounted(max, ps[k - 1], rs[k - 1], ps[k]);
      RoundCalls(max, ps[k - 1], rs[k - 1], ps[k], Since(rs, time, k - 1), id);
    }
  }

  /**
    From any state of a run with a working store, maxAttempts passes, each begun
    four hours after the one before, leave no envelope of the start queued: every
    one has been delivered or bounced.
   */
  lemma QueueDrains(max: int, qs: seq<State>, as_: seq<Action>, k: nat, ps: seq<State>, rs: seq<Round>, id: string)
    requires Run(max, qs, as_) && k < |qs| && WorksUntil(as_, k) && id in qs[k].enqueued
    requires Rounds(max, ps, rs, qs[k].clock) && ps[0] == qs[k] && |rs| >= Limit(max)
    ensures !Queued(ps[|rs|], id) && (id in ps[|rs|].delivered || id in ps[|rs|].bounced)
  {
    hide Goes, Path, DueBy;
    RunAccounted(max, qs, as_, k);
    RunDueBy(max, qs, as_, k);
    RoundsCall(max, ps, rs, qs[k].clock, |rs|, id);
    RoundsKeep(max, ps, rs, qs[k].clock, |rs|);
    assert Standing(max, ps[|rs|], id);
  }

  lemma {:induction false} RoundsKeep(max: int, ps: seq<State>, rs: seq<Round>, time: int, k: nat)
    requires Rounds(max, ps, rs, time) && k <= |rs|
    ensures ps[k].enqueued == ps[0].enqueued
  {
    if k > 0 {
      RoundsKeep(max, ps, rs, time, k - 1);
      assert RoundAt(max, ps, rs, time, k - 1);
      var r, q := rs[k - 1], ps[k - 1];
      AllKeepEnqueued(max, q.(clock := r.now), FilterDue(OldestFirst(r.dir), r.now), r.now, r.t, r.d, r.at);
    }
  }

  lemma {:induction false} AllKeepEnqueued(max: int, q: State, due: seq<Envelope>, now: int, t: Transport, d: Disk, at: Times)
    ensures AttemptAll(max, q, due, now, t, d, at).enqueued == q.enqueued
  {
    if due != [] { AllKeepEnqueued(max, q, due[..|due| - 1], now, t, d, at); }
  }
}
