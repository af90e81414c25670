/** The outbound queue over every transport, every store fault and every crash. */
module Scheduler {
  import opened Text
  import opened Sorting
  import opened QueueDue

  // ----- the store -----

  /** A file of the queue directory: a parsable envelope, or anything else. */
  datatype Content = Whole(e: Envelope) | Broken

  type Files = map<string, Content>

  function JsonPath(id: string): string { id + ".json" }

  function TmpPath(id: string): string { id + ".json" + ".tmp" }

  predicate IsJson(name: string) { |name| >= 5 && name[|name| - 5..] == ".json" }

  /** How the tmp+rename write may end. */
  datatype WriteFate = Done | TmpFails(left: Content) | RenameFails | Crash(left: Content)

  function Write(files: Files, e: Envelope, fate: WriteFate): Files {
    match fate
    case Done => files[JsonPath(e.id) := Whole(e)] - {TmpPath(e.id)}
    case TmpFails(left) => files[TmpPath(e.id) := left]
    case RenameFails => files - {TmpPath(e.id)}
    case Crash(left) => files[TmpPath(e.id) := left]
  }

  predicate OnDisk(files: Files, e: Envelope) { JsonPath(e.id) in files && files[JsonPath(e.id)] == Whole(e) }

  lemma PathFacts(a: string, b: string)
    ensures JsonPath(a) == JsonPath(b) <==> a == b
    ensures IsJson(JsonPath(a)) && !IsJson(TmpPath(a)) && JsonPath(a) != TmpPath(b)
  {
    assert JsonPath(a)[..|a|] == a && JsonPath(b)[..|b|] == b;
    assert TmpPath(a)[|TmpPath(a)| - 1] == 'p' && TmpPath(b)[|TmpPath(b)| - 1] == 'p';
    assert JsonPath(a)[|JsonPath(a)| - 1] == 'n';
    assert TmpPath(a)[|TmpPath(a)| - 5..][4] == 'p' && ".json"[4] == 'n';
    assert JsonPath(a)[|JsonPath(a)| - 5..] == ".json";
  }

  // ----- backoff -----

  const MINUTE := 60_000_000_000

  /** Doubling from one minute up to four hours; the shift is capped before the result is. */
  function Backoff(attempts: nat): nat
    requires attempts >= 1
  {
    var n := if attempts > 9 then 9 else attempts;
    var d := MINUTE * Pow2(n - 1);
    if d > 4 * 60 * MINUTE then 4 * 60 * MINUTE else d
  }

  /** Minutes from the first to the k-th call, at least. */
  function Closed(k: nat): nat
    requires k >= 1
  {
    if k <= 9 then Pow2(k - 1) - 1 else 255 + 240 * (k - 9)
  }

  lemma {:induction false} Pow2Grows(a: nat, b: nat)
    requires a <= b
    ensures Pow2(a) <= Pow2(b)
  {
    if a < b { Pow2Grows(a, b - 1); }
  }

  lemma Pow2Eight()
    ensures Pow2(7) == 128 && Pow2(8) == 256
  {
    assert Pow2(3) == 8;
    assert Pow2(5) == 4 * Pow2(3);
    assert Pow2(7) == 4 * Pow2(5);
    assert Pow2(8) == 2 * Pow2(7);
  }

  /** The capped shift is the exponential min(2^(a-1), 240) for every number of attempts. */
  lemma BackoffIsCappedPower(attempts: nat)
    requires attempts >= 1
    ensures Backoff(attempts) == MINUTE * (if Pow2(attempts - 1) < 240 then Pow2(attempts - 1) else 240)
  {
    Pow2Eight();
    if attempts >= 9 { Pow2Grows(8, attempts - 1); } else { Pow2Grows(attempts - 1, 7); }
  }

  lemma ClosedStep(k: nat)
    requires k >= 1
    ensures MINUTE * Closed(k + 1) == MINUTE * Closed(k) + Backoff(k)
  {
    Pow2Eight();
    BackoffIsCappedPower(k);
    if k >= 9 { Pow2Grows(8, k - 1); } else { Pow2Grows(k - 1, 7); }
  }

  // ----- one attempt -----

  datatype Result = Delivered | Permanent | Transient(error: string)

  datatype Fate = Fate(removed: bool, update: WriteFate)

  /** One Deliver call: when it was made, and what the clock said when its pass began. */
  datatype Call = Call(id: string, at: int, began: int)

  /** A pass under way: its clock reading and the envelopes it has yet to try. */
  datatype Pass = Pass(now: int, due: seq<Envelope>)

  /** The directory, the logs of what was enqueued, delivered, bounced and tried, the clock, and the pass under way. */
  datatype State = State(
    files: Files, minted: set<string>, enqueued: set<string>, delivered: seq<string>, bounced: seq<string>, calls: seq<Call>,
    clock: int, pass: Option<Pass>)

  function Removed(files: Files, id: string, ok: bool): Files { if ok then files - {JsonPath(id)} else files }

  /** The retry counts from the beginning of the pass, not from the call. */
  function Retried(e: Envelope, now: int, error: string): Envelope {
    e.(attempts := e.attempts + 1, lastError := error, nextAttempt := now + Backoff(e.attempts + 1))
  }

  /** Scheduler.attempt at time at, in a pass that began at now. */
  function Attempt(max: int, q: State, e: Envelope, now: int, at: int, r: Result, fate: Fate): State {
    var tried := q.(calls := q.calls + [Call(e.id, at, now)], clock := at);
    match r
    case Delivered => tried.(delivered := q.delivered + [e.id], files := Removed(q.files, e.id, fate.removed))
    case Permanent => tried.(bounced := q.bounced + [e.id], files := Removed(q.files, e.id, fate.removed))
    case Transient(error) =>
      if e.attempts + 1 >= max then tried.(bounced := q.bounced + [e.id], files := Removed(q.files, e.id, fate.removed))
      else tried.(files := Write(q.files, Retried(e, now, error), fate.update))
  }

  // ----- runs -----

  /** dir is what load finds: every parsable .json file once. */
  ghost predicate Listing(files: Files, dir: seq<Envelope>) {
    && (forall i :: 0 <= i < |dir| ==> OnDisk(files, dir[i]))
    && (forall i, j :: 0 <= i < j < |dir| ==> dir[i].id != dir[j].id)
    && (forall name :: name in files && IsJson(name) && files[name].Whole? ==> files[name].e in dir)
  }

  datatype Action =
    | Enqueue(e: Envelope, write: WriteFate)        // at any time, also during a pass
    | Begin(now: int, dir: seq<Envelope>)           // Process reads the clock and the directory
    | Try(at: int, r: Result, fate: Fate)           // one attempt, called at its own time
    | Finish
    | Stop(during: Option<int>)                     // the process dies between attempts, or in one called then

  ghost predicate Step(max: int, q: State, a: Action, q': State) {
    match a
    case Enqueue(e, fate) =>
      && e.id !in q.minted && e.attempts == 0 && q.clock <= e.created && e.nextAttempt == e.created
      && q' == q.(files := Write(q.files, e, fate), minted := q.minted + {e.id}, clock := e.created,
                  enqueued := if fate.Done? then q.enqueued + {e.id} else q.enqueued)
    case Begin(now, dir) =>
      && q.pass.None? && q.clock <= now && Listing(q.files, dir)
      && q' == q.(clock := now, pass := Some(Pass(now, FilterDue(OldestFirst(dir), now))))
    case Try(at, r, fate) =>
      && q.pass.Some? && q.pass.value.due != [] && q.clock <= at
      && q' == Attempt(max, q, q.pass.value.due[0], q.pass.value.now, at, r, fate)
               .(pass := Some(Pass(q.pass.value.now, q.pass.value.due[1..])))
    case Finish => q.pass.Some? && q.pass.value.due == [] && q' == q.(pass := None)
    case Stop(None) => q' == q.(pass := None)
    case Stop(Some(at)) =>
      && q.pass.Some? && q.pass.value.due != [] && q.clock <= at
      && q' == q.(calls := q.calls + [Call(q.pass.value.due[0].id, at, q.pass.value.now)], clock := at, pass := None)
  }

  function Empty(clock: int): State { State(map[], {}, {}, [], [], [], clock, None) }

  ghost predicate Run(max: int, qs: seq<State>, as_: seq<Action>) {
    && |qs| == |as_| + 1 && qs[0] == Empty(qs[0].clock) && Path(max, qs, as_)
  }

  /** Steps one after the other, from any state. */
  ghost predicate Path(max: int, qs: seq<State>, as_: seq<Action>) {
    |qs| == |as_| + 1 && forall k :: 0 <= k < |as_| ==> StepAt(max, qs, as_, k)
  }

  ghost predicate StepAt(max: int, qs: seq<State>, as_: seq<Action>, k: nat)
    requires k < |as_| && |qs| == |as_| + 1
  {
    Step(max, qs[k], as_[k], qs[k + 1])
  }

  // ----- nothing is lost, whatever fails -----

  ghost predicate Kept(q: State, id: string) {
    || (JsonPath(id) in q.files && q.files[JsonPath(id)].Whole?)
    || id in q.delivered || id in q.bounced
  }

  ghost predicate Sound(q: State) {
    && (forall name :: name in q.files && IsJson(name) ==>
         q.files[name].Whole? && name == JsonPath(q.files[name].e.id) && q.files[name].e.id in q.minted)
    && q.enqueued <= q.minted
    && (forall id :: id in q.enqueued ==> Kept(q, id))
  }

  lemma WriteFacts(files: Files, e: Envelope, fate: WriteFate)
    ensures var files' := Write(files, e, fate);
      && (forall name :: IsJson(name) && name != JsonPath(e.id) ==>
           (name in files' <==> name in files) && (name in files ==> files'[name] == files[name]))
      && (fate.Done? ==> OnDisk(files', e))
      && (!fate.Done? ==> (JsonPath(e.id) in files' <==> JsonPath(e.id) in files))
      && (!fate.Done? && JsonPath(e.id) in files ==> files'[JsonPath(e.id)] == files[JsonPath(e.id)])
  {
    PathFacts(e.id, e.id);
  }

  /** An attempt touches only the file of its own envelope. */
  lemma AttemptLocal(max: int, q: State, e: Envelope, now: int, at: int, r: Result, fate: Fate)
    ensures var q' := Attempt(max, q, e, now, at, r, fate);
      && (forall name :: IsJson(name) && name != JsonPath(e.id) ==>
           (name in q'.files <==> name in q.files) && (name in q.files ==> q'.files[name] == q.files[name]))
      && q'.minted == q.minted && q'.enqueued == q.enqueued && q'.calls == q.calls + [Call(e.id, at, now)]
  {
    if r.Transient? { WriteFacts(q.files, Retried(e, now, r.error), fate.update); }
  }

  lemma AttemptSound(max: int, q: State, e: Envelope, now: int, at: int, r: Result, fate: Fate)
    requires Sound(q) && OnDisk(q.files, e)
    ensures Sound(Attempt(max, q, e, now, at, r, fate))
  {
    var q' := Attempt(max, q, e, now, at, r, fate);
    AttemptLocal(max, q, e, now, at, r, fate);
    PathFacts(e.id, e.id);
    if r.Transient? { WriteFacts(q.files, Retried(e, now, r.error), fate.update); }
    forall id | id in q'.enqueued ensures Kept(q', id) {
      assert Kept(q, id);
      PathFacts(id, e.id);
    }
  }

  ghost predicate DistinctIds(due: seq<Envelope>) {
    forall i, j :: 0 <= i < j < |due| ==> due[i].id != due[j].id
  }

  ghost predicate AllOnDisk(files: Files, due: seq<Envelope>) {
    forall i :: 0 <= i < |due| ==> OnDisk(files, due[i])
  }

  ghost predicate Apart(e: Envelope, rest: seq<Envelope>) { forall i :: 0 <= i < |rest| ==> rest[i].id != e.id }

  lemma AttemptKeepsRest(max: int, q: State, e: Envelope, now: int, at: int, r: Result, fate: Fate, rest: seq<Envelope>)
    requires AllOnDisk(q.files, rest) && Apart(e, rest)
    ensures AllOnDisk(Attempt(max, q, e, now, at, r, fate).files, rest)
  {
    AttemptLocal(max, q, e, now, at, r, fate);
    forall i | 0 <= i < |rest| ensures OnDisk(Attempt(max, q, e, now, at, r, fate).files, rest[i]) {
      PathFacts(rest[i].id, e.id);
    }
  }

  /** The envelopes a pass has yet to try are on disk as it loaded them, and are due. */
  ghost predicate Ready(files: Files, clock: int, p: Pass) {
    && AllOnDisk(files, p.due) && DistinctIds(p.due) && p.now <= clock
    && forall i :: 0 <= i < |p.due| ==> p.due[i].nextAttempt <= p.now
  }

  ghost predicate PassOk(q: State) { q.pass.Some? ==> Ready(q.files, q.clock, q.pass.value) }

  // ----- the list Process works through -----

  lemma {:induction false} FilterDistinct(s: seq<Envelope>, now: int)
    requires DistinctIds(s)
    ensures DistinctIds(FilterDue(s, now))
  {
    if s != [] {
      var front := s[..|s| - 1];
      FilterDistinct(front, now);
      FilterMembers(front, now);
      var r := FilterDue(front, now);
      forall i | 0 <= i < |r| ensures r[i].id != s[|s| - 1].id { assert r[i] in r && r[i] in front; }
    }
  }

  lemma SortDistinct(dir: seq<Envelope>)
    requires DistinctIds(dir)
    ensures DistinctIds(OldestFirst(dir))
  {
    var s := OldestFirst(dir);
    OldestFirstPermutes(dir);
    SameMembers(dir, s);
    assert Distinct(dir);
    DistinctPermutation(dir, s);
    forall i, j | 0 <= i < j < |s| ensures s[i].id != s[j].id {
      assert s[i] in s && s[j] in s && s[i] in dir && s[j] in dir && s[i] != s[j];
    }
  }

  lemma DueFacts(files: Files, dir: seq<Envelope>, now: int)
    requires Listing(files, dir)
    ensures var due := FilterDue(OldestFirst(dir), now);
      && DistinctIds(due) && AllOnDisk(files, due)
      && forall i :: 0 <= i < |due| ==> due[i].nextAttempt <= now
  {
    var due := FilterDue(OldestFirst(dir), now);
    SortDistinct(dir);
    FilterDistinct(OldestFirst(dir), now);
    DueListIsRight(dir, now, 0);
    forall i | 0 <= i < |due| ensures OnDisk(files, due[i]) && due[i].nextAttempt <= now { assert due[i] in due; }
  }

  lemma EnqueueSound(max: int, q: State, e: Envelope, fate: WriteFate, q': State)
    requires Sound(q) && PassOk(q) && Step(max, q, Enqueue(e, fate), q')
    ensures Sound(q') && PassOk(q')
  {
    WriteFacts(q.files, e, fate);
    PathFacts(e.id, e.id);
    forall id | id in q'.enqueued ensures Kept(q', id) {
      PathFacts(id, e.id);
      assert id != e.id ==> Kept(q, id);
    }
    if q.pass.Some? { EnqueueKeepsList(q.files, q.minted, e, fate, q.pass.value.due); }
  }

  /** A new envelope cannot be one the pass is about to try. */
  lemma EnqueueKeepsList(files: Files, minted: set<string>, e: Envelope, fate: WriteFate, due: seq<Envelope>)
    requires AllOnDisk(files, due) && e.id !in minted
    requires forall name :: name in files && IsJson(name) ==> files[name].Whole? && files[name].e.id in minted
    ensures AllOnDisk(Write(files, e, fate), due)
  {
    WriteFacts(files, e, fate);
    forall i | 0 <= i < |due| ensures OnDisk(Write(files, e, fate), due[i]) {
      PathFacts(due[i].id, e.id);
      assert OnDisk(files, due[i]);
    }
  }

  lemma TrySound(max: int, q: State, a: Action, q': State)
    requires Sound(q) && PassOk(q) && a.Try? && Step(max, q, a, q')
    ensures Sound(q') && PassOk(q')
  {
    var p := q.pass.value;
    var e, rest := p.due[0], p.due[1..];
    assert OnDisk(q.files, e) && AllOnDisk(q.files, rest) && Apart(e, rest) && DistinctIds(rest);
    AttemptSound(max, q, e, p.now, a.at, a.r, a.fate);
    AttemptKeepsRest(max, q, e, p.now, a.at, a.r, a.fate, rest);
    SoundBut(Attempt(max, q, e, p.now, a.at, a.r, a.fate), q');
  }

  lemma SoundBut(q: State, q': State)
    requires Sound(q) && q' == q.(pass := q'.pass)
    ensures Sound(q')
  {
    forall id | id in q'.enqueued ensures Kept(q', id) { assert Kept(q, id); }
  }

  lemma StepSound(max: int, q: State, a: Action, q': State)
    requires Sound(q) && PassOk(q) && Step(max, q, a, q')
    ensures Sound(q') && PassOk(q')
  {
    match a
    case Enqueue(e, fate) => EnqueueSound(max, q, e, fate, q');
    case Begin(now, dir) => DueFacts(q.files, dir, now); StillKept(q, q');
    case Try(_, _, _) => TrySound(max, q, a, q');
    case Finish => StillKept(q, q');
    case Stop(_) => StillKept(q, q');
  }

  lemma StillKept(q: State, q': State)
    requires Sound(q) && q'.files == q.files && q'.minted == q.minted && q'.enqueued == q.enqueued
    requires q'.delivered == q.delivered && q'.bounced == q.bounced
    ensures Sound(q')
  {
    forall id | id in q'.enqueued ensures Kept(q', id) { assert Kept(q, id); }
  }

  lemma {:induction false} RunSound(max: int, qs: seq<State>, as_: seq<Action>, k: nat)
    requires Run(max, qs, as_) && k < |qs|
    ensures Sound(qs[k]) && PassOk(qs[k])
  {
    hide Step;
    if k > 0 {
      RunSound(max, qs, as_, k - 1);
      assert StepAt(max, qs, as_, k - 1);
      StepSound(max, qs[k - 1], as_[k - 1], qs[k]);
    }
  }

  /**
    For every transport, every store failure and every crash, in a write, in an
    attempt or between two, an envelope whose Enqueue succeeded is on disk,
    whole, or was delivered or handed to bounce.
   */
  lemma NothingIsLost(max: int, qs: seq<State>, as_: seq<Action>, k: nat, id: string)
    requires Run(max, qs, as_) && k < |qs| && id in qs[k].enqueued
    ensures (JsonPath(id) in qs[k].files && qs[k].files[JsonPath(id)].Whole? && qs[k].files[JsonPath(id)].e.id == id)
            || id in qs[k].delivered || id in qs[k].bounced
  {
    RunSound(max, qs, as_, k);
    assert Kept(qs[k], id);
    PathFacts(id, id);
    if JsonPath(id) in qs[k].files && qs[k].files[JsonPath(id)].Whole? {
      PathFacts(id, qs[k].files[JsonPath(id)].e.id);
    }
  }

  // ----- the books balance when the store works -----

  const WORKS := Fate(true, Done)

  /** Every store step succeeds, and the process dies at most between two attempts. */
  ghost predicate StoreWorks(a: Action) {
    match a
    case Enqueue(_, fate) => fate.Done?
    case Try(_, _, fate) => fate == WORKS
    case Stop(during) => during.None?
    case _ => true
  }

  /** The Deliver calls on one envelope, in order. */
  function CallsOn(calls: seq<Call>, id: string): seq<Call> {
    if calls == [] then []
    else CallsOn(calls[..|calls| - 1], id) + (if calls[|calls| - 1].id == id then [calls[|calls| - 1]] else [])
  }

  /** A non-positive setting still allows one try. */
  function Limit(max: int): nat { if max < 1 then 1 else max }

  function QueuedNames(files: Files): set<string> { set name | name in files && IsJson(name) }

  ghost predicate Queued(q: State, id: string) { JsonPath(id) in q.files }

  /** The pass of the k-th call begins at least this much after the pass of the first; no call precedes its pass. */
  ghost predicate Spaced(cs: seq<Call>) {
    forall k :: 0 <= k < |cs| ==> cs[k].began - cs[0].began >= MINUTE * Closed(k + 1) && cs[k].began <= cs[k].at
  }

  /** An envelope on disk knows how often it was tried, and waits out its backoff. */
  ghost predicate Waiting(max: int, e: Envelope, cs: seq<Call>) {
    && |cs| == e.attempts < Limit(max)
    && (|cs| > 0 ==> e.nextAttempt == cs[|cs| - 1].began + Backoff(|cs|))
  }

  /** Where one envelope stands: queued, delivered or bounced, and exactly one of them. */
  ghost predicate Standing(max: int, q: State, id: string) {
    && (Queued(q, id) ==> q.files[JsonPath(id)].Whole? && Waiting(max, q.files[JsonPath(id)].e, CallsOn(q.calls, id)))
    && |CallsOn(q.calls, id)| <= Limit(max) && Spaced(CallsOn(q.calls, id))
    && (if Queued(q, id) then id !in q.delivered && id !in q.bounced
        else (id in q.delivered) != (id in q.bounced))
  }

  ghost predicate Accounted(max: int, q: State) {
    && Sound(q) && q.minted == q.enqueued
    && (forall id :: id in q.enqueued ==> Standing(max, q, id))
    && (forall c :: c in q.calls ==> c.id in q.enqueued)
    && (forall id :: id in q.delivered || id in q.bounced ==> id in q.enqueued)
    && Distinct(q.delivered) && Distinct(q.bounced)
    && |q.enqueued| == |q.delivered| + |q.bounced| + |QueuedNames(q.files)|
  }

  lemma CallsAppend(calls: seq<Call>, c: Call, id: string)
    ensures CallsOn(calls + [c], id) == CallsOn(calls, id) + if c.id == id then [c] else []
  {
    assert (calls + [c])[..|calls|] == calls;
  }

  /** Waiting out the backoff keeps the schedule. */
  lemma NextCallSpaced(max: int, e: Envelope, cs: seq<Call>, c: Call)
    requires Waiting(max, e, cs) && Spaced(cs) && e.nextAttempt <= c.began <= c.at
    ensures Spaced(cs + [c]) && |cs + [c]| <= Limit(max)
  {
    var n := |cs|;
    if n == 0 {
      assert Closed(1) == 0;
    } else {
      ClosedStep(n);
      assert cs[n - 1].began - cs[0].began >= MINUTE * Closed(n);
    }
  }

  /** An attempt on e does not change where another envelope stands. */
  lemma OthersStand(max: int, q: State, e: Envelope, now: int, at: int, r: Result, id: string)
    requires Standing(max, q, id) && id != e.id
    ensures Standing(max, Attempt(max, q, e, now, at, r, WORKS), id)
  {
    AttemptLocal(max, q, e, now, at, r, WORKS);
    PathFacts(id, e.id);
    CallsAppend(q.calls, Call(e.id, at, now), id);
  }

  lemma OwnStands(max: int, q: State, e: Envelope, now: int, at: int, r: Result)
    requires Standing(max, q, e.id) && OnDisk(q.files, e) && e.nextAttempt <= now <= at
    ensures Standing(max, Attempt(max, q, e, now, at, r, WORKS), e.id)
  {
    var cs, c := CallsOn(q.calls, e.id), Call(e.id, at, now);
    CallsAppend(q.calls, c, e.id);
    NextCallSpaced(max, e, cs, c);
    PathFacts(e.id, e.id);
    if r.Transient? && e.attempts + 1 < max {
      WriteFacts(q.files, Retried(e, now, r.error), Done);
      assert (cs + [c])[|cs|] == c;
    }
  }

  lemma QueuedNamesFacts(files: Files, e: Envelope, e': Envelope)
    requires OnDisk(files, e) && e'.id == e.id
    ensures |QueuedNames(files - {JsonPath(e.id)})| == |QueuedNames(files)| - 1
    ensures QueuedNames(Write(files, e', Done)) == QueuedNames(files)
  {
    PathFacts(e.id, e.id);
    WriteFacts(files, e', Done);
    assert QueuedNames(files - {JsonPath(e.id)}) == QueuedNames(files) - {JsonPath(e.id)};
    assert JsonPath(e.id) in QueuedNames(files);
  }

  lemma AttemptAccounted(max: int, q: State, e: Envelope, now: int, at: int, r: Result)
    requires Accounted(max, q) && OnDisk(q.files, e) && e.nextAttempt <= now <= at
    ensures Accounted(max, Attempt(max, q, e, now, at, r, WORKS))
  {
    var q' := Attempt(max, q, e, now, at, r, WORKS);
    AttemptSound(max, q, e, now, at, r, WORKS);
    AttemptLocal(max, q, e, now, at, r, WORKS);
    PathFacts(e.id, e.id);
    assert e.id in q.enqueued;
    OwnStands(max, q, e, now, at, r);
    forall id | id in q'.enqueued ensures Standing(max, q', id) {
      if id != e.id { OthersStand(max, q, e, now, at, r, id); }
    }
    QueuedNamesFacts(q.files, e, Retried(e, now, if r.Transient? then r.error else ""));
  }

  /** Neither the clock nor the pass under way is part of the books. */
  lemma AccountedBut(max: int, q: State, q': State)
    requires Accounted(max, q) && q' == q.(clock := q'.clock, pass := q'.pass)
    ensures Accounted(max, q')
  {
    StillKept(q, q');
    forall id | id in q'.enqueued ensures Standing(max, q', id) { assert Standing(max, q, id); }
  }

  lemma EnqueueAccounted(max: int, q: State, e: Envelope, q': State)
    requires Accounted(max, q) && PassOk(q) && Step(max, q, Enqueue(e, Done), q')
    ensures Accounted(max, q')
  {
    EnqueueSound(max, q, e, Done, q');
    PathFacts(e.id, e.id);
    assert JsonPath(e.id) !in q.files;
    NewStands(max, q, e, q');
    forall id | id in q.enqueued ensures Standing(max, q', id) { OldStand(max, q, e, q', id); }
    NewName(q.files, e);
  }

  lemma NewStands(max: int, q: State, e: Envelope, q': State)
    requires Accounted(max, q) && Step(max, q, Enqueue(e, Done), q')
    ensures Standing(max, q', e.id)
  {
    WriteFacts(q.files, e, Done);
    NeverCalled(q.calls, e.id);
  }

  lemma OldStand(max: int, q: State, e: Envelope, q': State, id: string)
    requires Standing(max, q, id) && Step(max, q, Enqueue(e, Done), q') && id != e.id
    ensures Standing(max, q', id)
  {
    WriteFacts(q.files, e, Done);
    PathFacts(id, e.id);
  }

  lemma NewName(files: Files, e: Envelope)
    requires JsonPath(e.id) !in files
    ensures |QueuedNames(Write(files, e, Done))| == |QueuedNames(files)| + 1
  {
    WriteFacts(files, e, Done);
    PathFacts(e.id, e.id);
    assert QueuedNames(Write(files, e, Done)) == QueuedNames(files) + {JsonPath(e.id)};
  }

  lemma {:induction false} NeverCalled(calls: seq<Call>, id: string)
    requires forall c :: c in calls ==> c.id != id
    ensures CallsOn(calls, id) == []
  {
    if calls != [] {
      forall c | c in calls[..|calls| - 1] ensures c.id != id { assert c in calls; }
      NeverCalled(calls[..|calls| - 1], id);
    }
  }

  lemma TryAccounted(max: int, q: State, a: Action, q': State)
    requires Accounted(max, q) && PassOk(q) && a.Try? && a.fate == WORKS && Step(max, q, a, q')
    ensures Accounted(max, q')
  {
    var p := q.pass.value;
    assert OnDisk(q.files, p.due[0]) && p.due[0].nextAttempt <= p.now;
    AttemptAccounted(max, q, p.due[0], p.now, a.at, a.r);
    AccountedBut(max, Attempt(max, q, p.due[0], p.now, a.at, a.r, WORKS), q');
  }

  lemma StepAccounted(max: int, q: State, a: Action, q': State)
    requires Accounted(max, q) && PassOk(q) && StoreWorks(a) && Step(max, q, a, q')
    ensures Accounted(max, q')
  {
    match a
    case Enqueue(e, fate) => EnqueueAccounted(max, q, e, q');
    case Try(_, _, _) => TryAccounted(max, q, a, q');
    case Begin(_, _) => AccountedBut(max, q, q');
    case Finish => AccountedBut(max, q, q');
    case Stop(_) => AccountedBut(max, q, q');
  }

  ghost predicate WorksUntil(as_: seq<Action>, k: nat) { forall i :: 0 <= i < k && i < |as_| ==> StoreWorks(as_[i]) }

  lemma {:induction false} PathAccounted(max: int, qs: seq<State>, as_: seq<Action>, k: nat)
    requires Path(max, qs, as_) && Accounted(max, qs[0]) && PassOk(qs[0]) && k < |qs| && WorksUntil(as_, k)
    ensures Accounted(max, qs[k]) && PassOk(qs[k])
  {
    hide Step, Accounted, PassOk, StoreWorks, Sound;
    if k > 0 {
      PathAccounted(max, qs, as_, k - 1);
      assert StepAt(max, qs, as_, k - 1) && StoreWorks(as_[k - 1]);
      AccountedIsSound(max, qs[k - 1]);
      StepSound(max, qs[k - 1], as_[k - 1], qs[k]);
      StepAccounted(max, qs[k - 1], as_[k - 1], qs[k]);
    }
  }

  lemma AccountedIsSound(max: int, q: State)
    requires Accounted(max, q)
    ensures Sound(q)
  {
  }

  lemma EmptyAccounted(max: int, clock: int)
    ensures Accounted(max, Empty(clock)) && PassOk(Empty(clock))
  {
    assert QueuedNames(map[]) == {};
  }

  lemma RunAccounted(max: int, qs: seq<State>, as_: seq<Action>, k: nat)
    requires Run(max, qs, as_) && k < |qs| && WorksUntil(as_, k)
    ensures Accounted(max, qs[k]) && PassOk(qs[k])
  {
    EmptyAccounted(max, qs[0].clock);
    hide Accounted, PassOk, Path, WorksUntil;
    PathAccounted(max, qs, as_, k);
  }

  /**
    When the store works: enqueued = delivered + bounced + still queued, every
    envelope is in exactly one of the three, delivered or bounced at most once,
    and handed to the transport at most maxAttempts times, less often while it
    is still queued, whatever is enqueued during a pass and wherever between
    attempts a pass is cut short.
   */
  lemma QueueBalances(max: int, qs: seq<State>, as_: seq<Action>, k: nat)
    requires Run(max, qs, as_) && k < |qs| && WorksUntil(as_, k)
    ensures |qs[k].enqueued| == |qs[k].delivered| + |qs[k].bounced| + |QueuedNames(qs[k].files)|
    ensures Distinct(qs[k].delivered) && Distinct(qs[k].bounced)
    ensures forall id :: id in qs[k].enqueued ==>
      && |CallsOn(qs[k].calls, id)| <= Limit(max)
      && (Queued(qs[k], id) ==> |CallsOn(qs[k].calls, id)| < Limit(max))
      && (if Queued(qs[k], id) then id !in qs[k].delivered && id !in qs[k].bounced
          else (id in qs[k].delivered) != (id in qs[k].bounced))
  {
    RunAccounted(max, qs, as_, k);
    forall id | id in qs[k].enqueued ensures Standing(max, qs[k], id) {}
  }

  // ----- when retries come -----

  lemma RunSpaced(max: int, qs: seq<State>, as_: seq<Action>, k: nat, id: string)
    requires Run(max, qs, as_) && k < |qs| && WorksUntil(as_, k) && id in qs[k].enqueued
    ensures Spaced(CallsOn(qs[k].calls, id))
  {
    RunAccounted(max, qs, as_, k);
    assert Standing(max, qs[k], id);
  }

  /**
    The n-th Deliver call on an envelope comes no earlier than 2^(n-1) - 1
    minutes (n <= 9), then 240 more each, after the beginning of the pass of the
    first call; and so does the beginning of its own pass.
   */
  lemma RetriesAreSpaced(max: int, qs: seq<State>, as_: seq<Action>, k: nat, id: string, n: nat)
    requires Run(max, qs, as_) && k < |qs| && WorksUntil(as_, k) && id in qs[k].enqueued
    requires 1 <= n <= |CallsOn(qs[k].calls, id)|
    ensures var cs := CallsOn(qs[k].calls, id);
      cs[0].began + MINUTE * Closed(n) <= cs[n - 1].began <= cs[n - 1].at
  {
    RunSpaced(max, qs, as_, k, id);
  }

  // ----- a pass that nothing interrupts -----

  /** What transport and disk do at the n-th Deliver call, and when it is made. */
  type Transport = nat -> Result
  type Disk = nat -> Fate
  type Times = nat -> int

  ghost predicate InOrder(at: Times, from: nat, now: int) {
    now <= at(from) && forall m, n :: from <= m <= n ==> at(m) <= at(n)
  }

  /** The loop of Process over the due envelopes. */
  function AttemptAll(max: int, q: State, due: seq<Envelope>, now: int, t: Transport, d: Disk, at: Times): State {
    if due == [] then q
    else
      var before := AttemptAll(max, q, due[..|due| - 1], now, t, d, at);
      var n := |before.calls|;
      Attempt(max, before, due[|due| - 1], now, at(n), t(n), d(n))
  }

  /** Process as a whole. */
  function Processed(max: int, q: State, dir: seq<Envelope>, now: int, t: Transport, d: Disk, at: Times): State {
    AttemptAll(max, q.(clock := now), FilterDue(OldestFirst(dir), now), now, t, d, at)
  }

  lemma {:induction false} AttemptAllFacts(max: int, q: State, due: seq<Envelope>, now: int, t: Transport, d: Disk, at: Times)
    requires InOrder(at, |q.calls|, q.clock)
    ensures var q' := AttemptAll(max, q, due, now, t, d, at);
      |q'.calls| == |q.calls| + |due| && q'.clock <= at(|q'.calls|) && q'.pass == q.pass
  {
    if due != [] { AttemptAllFacts(max, q, due[..|due| - 1], now, t, d, at); }
  }

  lemma Extend(max: int, qs: seq<State>, as_: seq<Action>, a: Action, q': State)
    requires Path(max, qs, as_) && Step(max, qs[|as_|], a, q')
    ensures Path(max, qs + [q'], as_ + [a])
    ensures WorksUntil(as_, |as_|) && StoreWorks(a) ==> WorksUntil(as_ + [a], |as_| + 1)
  {
    forall k | 0 <= k < |as_| + 1 ensures StepAt(max, qs + [q'], as_ + [a], k) {
      if k < |as_| { assert StepAt(max, qs, as_, k); }
    }
  }

  lemma {:induction false} TriesArePath(
    max: int, q: State, due: seq<Envelope>, n: nat, now: int, t: Transport, d: Disk, at: Times)
    returns (qs: seq<State>, as_: seq<Action>)
    requires n <= |due| && InOrder(at, |q.calls|, q.clock)
    ensures Path(max, qs, as_) && qs[0] == q.(pass := Some(Pass(now, due)))
    ensures (forall m :: d(m) == WORKS) ==> WorksUntil(as_, |as_|)
    ensures qs[|as_|] == AttemptAll(max, q, due[..n], now, t, d, at).(pass := Some(Pass(now, due[n..])))
  {
    if n == 0 {
      qs, as_ := [q.(pass := Some(Pass(now, due)))], [];
      assert due[0..] == due && due[..0] == [];
    } else {
      qs, as_ := TriesArePath(max, q, due, n - 1, now, t, d, at);
      var before, last := AttemptAll(max, q, due[..n - 1], now, t, d, at), qs[|as_|];
      AttemptAllFacts(max, q, due[..n - 1], now, t, d, at);
      assert due[..n][..n - 1] == due[..n - 1] && due[n - 1..][0] == due[n - 1] && due[n - 1..][1..] == due[n..];
      var m := |before.calls|;
      var a := Try(at(m), t(m), d(m));
      var q' := AttemptAll(max, q, due[..n], now, t, d, at).(pass := Some(Pass(now, due[n..])));
      TryStep(max, before, due[n - 1..], now, at(m), t(m), d(m));
      assert due[..n] != [] && due[..n][|due[..n]| - 1] == due[n - 1];
      hide Step, Path, WorksUntil;
      Extend(max, qs, as_, a, q');
      qs, as_ := qs + [q'], as_ + [a];
    }
  }

  lemma TryStep(max: int, q: State, due: seq<Envelope>, now: int, at: int, r: Result, fate: Fate)
    requires due != [] && q.clock <= at
    ensures Step(max, q.(pass := Some(Pass(now, due))), Try(at, r, fate),
                 Attempt(max, q, due[0], now, at, r, fate).(pass := Some(Pass(now, due[1..]))))
  {
  }

  /** Process is a sequence of steps: the beginning, one attempt for each due envelope, the end. */
  lemma ProcessIsPath(max: int, q: State, dir: seq<Envelope>, now: int, t: Transport, d: Disk, at: Times)
    returns (qs: seq<State>, as_: seq<Action>)
    requires q.pass.None? && q.clock <= now && Listing(q.files, dir) && InOrder(at, |q.calls|, now)
    ensures Path(max, qs, as_) && qs[0] == q && qs[|as_|] == Processed(max, q, dir, now, t, d, at)
    ensures (forall m :: d(m) == WORKS) ==> WorksUntil(as_, |as_|)
  {
    hide Step, FilterDue, OldestFirst, AttemptAll, Listing, InOrder, Path;
    var due := FilterDue(OldestFirst(dir), now);
    var begun, done := q.(clock := now), Processed(max, q, dir, now, t, d, at);
    var tries, steps := TriesArePath(max, begun, due, |due|, now, t, d, at);
    AttemptAllFacts(max, begun, due, now, t, d, at);
    assert due[..|due|] == due && due[|due|..] == [];
    BeginStep(max, q, now, dir);
    var qs1, as1 := Prepend(max, q, Begin(now, dir), tries, steps);
    FinishStep(max, done, now);
    Extend(max, qs1, as1, Finish, done);
    qs, as_ := qs1 + [done], as1 + [Finish];
  }

  lemma BeginStep(max: int, q: State, now: int, dir: seq<Envelope>)
    requires q.pass.None? && q.clock <= now && Listing(q.files, dir)
    ensures Step(max, q, Begin(now, dir), q.(clock := now, pass := Some(Pass(now, FilterDue(OldestFirst(dir), now)))))
  {
  }

  lemma FinishStep(max: int, q: State, now: int)
    requires q.pass.None?
    ensures Step(max, q.(pass := Some(Pass(now, []))), Finish, q)
  {
  }

  lemma Prepend(max: int, q: State, a: Action, qs: seq<State>, as_: seq<Action>) returns (qs': seq<State>, as': seq<Action>)
    requires Path(max, qs, as_) && Step(max, q, a, qs[0])
    ensures Path(max, qs', as') && qs'[0] == q && qs'[|as'|] == qs[|as_|]
    ensures WorksUntil(as_, |as_|) && StoreWorks(a) ==> WorksUntil(as', |as'|)
  {
    qs', as' := [q] + qs, [a] + as_;
    forall k | 0 <= k < |as'| ensures StepAt(max, qs', as', k) {
      if k > 0 { assert StepAt(max, qs, as_, k - 1); }
    }
  }

  // ----- the code -----

  /** names is a directory listing: every file once. */
  ghost predicate ListsFiles(files: Files, names: seq<string>) {
    Distinct(names) && forall name :: name in names <==> name in files
  }

  /** The envelopes of the parsable .json files, in the order of names. */
  function Loaded(files: Files, names: seq<string>): seq<Envelope>
    requires forall name :: name in names ==> name in files
  {
    if names == [] then []
    else
      var last := names[|names| - 1];
      Loaded(files, names[..|names| - 1]) + if IsJson(last) && files[last].Whole? then [files[last].e] else []
  }

  lemma {:induction false} LoadedMembers(q: State, names: seq<string>)
    requires Sound(q) && Distinct(names) && forall name :: name in names ==> name in q.files
    ensures forall e :: e in Loaded(q.files, names) ==> OnDisk(q.files, e) && JsonPath(e.id) in names
    ensures DistinctIds(Loaded(q.files, names))
    ensures forall name :: name in names && IsJson(name) && q.files[name].Whole? ==> q.files[name].e in Loaded(q.files, names)
  {
    if names != [] {
      var front, last := names[..|names| - 1], names[|names| - 1];
      assert names == front + [last] && last in names;
      LoadedMembers(q, front);
      var dir := Loaded(q.files, front);
      forall i | 0 <= i < |dir| && IsJson(last) && q.files[last].Whole? ensures dir[i].id != q.files[last].e.id {
        assert dir[i] in dir && JsonPath(dir[i].id) in front && last !in front;
      }
    }
  }

  /** From a reachable queue, what load reads is every parsable envelope once. */
  lemma LoadedIsListing(q: State, names: seq<string>)
    requires Sound(q) && ListsFiles(q.files, names)
    ensures Listing(q.files, Loaded(q.files, names))
  {
    LoadedMembers(q, names);
    var dir := Loaded(q.files, names);
    forall i | 0 <= i < |dir| ensures OnDisk(q.files, dir[i]) { assert dir[i] in dir; }
  }

  class Spool {
    const max: int
    var files: Files
    var minted: set<string>
    var enqueued: set<string>
    var delivered: seq<string>
    var bounced: seq<string>
    var calls: seq<Call>
    var clock: int

    constructor (max: int, now: int)
      ensures this.max == max && Now() == Empty(now)
    {
      this.max := max;
      files, minted, enqueued, delivered, bounced, calls, clock := map[], {}, {}, [], [], [], now;
    }

    /** The state between two calls: no pass is under way. */
    function Now(): State
      reads this
    {
      State(files, minted, enqueued, delivered, bounced, calls, clock, None)
    }

    /** Queue.Enqueue: an envelope that is due at once; refused when the recipient has no domain. */
    method Put(id: string, from: string, rcpt: string, data: string, now: int, fate: WriteFate) returns (ok: bool)
      requires id !in minted && clock <= now
      modifies this
      ensures DomainOf(Trim(rcpt)).None? ==> !ok && Now() == old(Now())
      ensures DomainOf(Trim(rcpt)).Some? ==>
        Step(max, old(Now()), Enqueue(
          Envelope(id, Lower(from), Lower(rcpt), DomainOf(Trim(rcpt)).value, now, now, 0, "", data), fate), Now())
      ensures ok == (DomainOf(Trim(rcpt)).Some? && fate.Done?)
    {
      var domain := DomainOf(Trim(rcpt));
      if domain.None? { return false; }
      var e := Envelope(id, Lower(from), Lower(rcpt), domain.value, now, now, 0, "", data);
      minted := minted + {id};
      clock := now;
      ok := Save(e, fate);
      if ok { enqueued := enqueued + {id}; }
    }

    /** Queue.write: tmp, then rename. */
    method Save(e: Envelope, fate: WriteFate) returns (ok: bool)
      modifies this`files
      ensures files == Write(old(files), e, fate) && ok == fate.Done?
    {
      var tmp := e.id + ".json" + ".tmp";
      match fate {
        case TmpFails(left) => files := files[tmp := left]; return false;
        case Crash(left) => files := files[tmp := left]; return false;
        case RenameFails => files := files[tmp := Whole(e)]; files := files - {tmp}; return false;
        case Done =>
          PathFacts(e.id, e.id);
          files := files[tmp := Whole(e)];
          files := files[e.id + ".json" := Whole(e)] - {tmp};
          return true;
      }
    }

    method TryOne(e: Envelope, now: int, at: int, r: Result, fate: Fate)
      modifies this
      ensures Now() == Attempt(max, old(Now()), e, now, at, r, fate)
    {
      calls := calls + [Call(e.id, at, now)];
      clock := at;
      match r {
        case Delivered =>
          delivered := delivered + [e.id];
          files := Removed(files, e.id, fate.removed);
        case Permanent =>
          bounced := bounced + [e.id];
          files := Removed(files, e.id, fate.removed);
        case Transient(error) =>
          var n := e.(attempts := e.attempts + 1, lastError := error);
          if n.attempts >= max {
            bounced := bounced + [e.id];
            files := Removed(files, e.id, fate.removed);
          } else {
            n := n.(nextAttempt := now + Backoff(n.attempts));
            var _ := Save(n, fate.update);
          }
      }
    }

    /** Queue.load without the sort: the parsable .json files in directory order. */
    method Load(names: seq<string>) returns (dir: seq<Envelope>)
      requires forall name :: name in names ==> name in files
      ensures dir == Loaded(files, names)
    {
      dir := [];
      for i := 0 to |names|
        invariant dir == Loaded(files, names[..i])
      {
        var name := names[i];
        assert names[..i + 1][..i] == names[..i] && name in names;
        if !IsJson(name) || files[name].Broken? { continue; }
        dir := dir + [files[name].e];
      }
      assert names[..|names|] == names;
    }

    /** The slice load returns, sorted and filtered in place by Due. */
    method Sorted(dir: seq<Envelope>, now: int) returns (due: seq<Envelope>)
      ensures due == FilterDue(OldestFirst(dir), now)
    {
      var all := new Envelope[|dir|](i requires 0 <= i < |dir| => dir[i]);
      assert all[..] == dir;
      due := DueList(all, now);
    }

    method TryAll(due: seq<Envelope>, now: int, t: Transport, d: Disk, at: Times)
      modifies this
      ensures Now() == AttemptAll(max, old(Now()), due, now, t, d, at)
    {
      for i := 0 to |due|
        invariant Now() == AttemptAll(max, old(Now()), due[..i], now, t, d, at)
      {
        assert due[..i + 1][..i] == due[..i];
        TryOne(due[i], now, at(|calls|), t(|calls|), d(|calls|));
      }
      assert due[..|due|] == due;
    }

    /** Scheduler.Process: every due envelope once; ProcessIsPath tells which steps of a run that is. */
    method Process(now: int, names: seq<string>, t: Transport, d: Disk, at: Times) returns (dir: seq<Envelope>)
      requires Sound(Now()) && ListsFiles(files, names) && clock <= now
      modifies this
      ensures dir == Loaded(old(files), names) && Listing(old(files), dir)
      ensures Now() == Processed(max, old(Now()), dir, now, t, d, at)
    {
      dir := Load(names);
      LoadedIsListing(Now(), names);
      var due := Sorted(dir, now);
      clock := now;
      TryAll(due, now, t, d, at);
    }
  }
}
