/** What becomes of an envelope, told by what the transport answered: over every run, from its actions alone. */
module Outcomes {
  import opened Text
  import opened QueueDue
  import opened Scheduler

  // ----- attempts -----

  /** The i-th action is an attempt on this envelope, the first in line of the pass under way. */
  ghost predicate Tried(qs: seq<State>, as_: seq<Action>, i: nat, id: string)
    requires i < |as_| && |qs| == |as_| + 1
  {
    as_[i].Try? && qs[i].pass.Some? && qs[i].pass.value.due != [] && qs[i].pass.value.due[0].id == id
  }

  /** How often it was tried in the first k actions. */
  ghost function Tries(qs: seq<State>, as_: seq<Action>, k: nat, id: string): nat
    requires k <= |as_| && |qs| == |as_| + 1
  {
    if k == 0 then 0 else Tries(qs, as_, k - 1, id) + if Tried(qs, as_, k - 1, id) then 1 else 0
  }

  /** The i-th action is an attempt that the transport answered with success. */
  ghost predicate Succeeds(qs: seq<State>, as_: seq<Action>, i: nat, id: string)
    requires i < |as_| && |qs| == |as_| + 1
  {
    Tried(qs, as_, i, id) && as_[i].r.Delivered?
  }

  /** It failed for good, or for the last time that is allowed, n being the attempts that count as made before. */
  predicate Hopeless(max: int, r: Result, n: nat) { r.Permanent? || (r.Transient? && n + 1 >= max) }

  ghost predicate GivenUp(max: int, qs: seq<State>, as_: seq<Action>, i: nat, id: string)
    requires i < |as_| && |qs| == |as_| + 1
  {
    Tried(qs, as_, i, id) && Hopeless(max, as_[i].r, Tries(qs, as_, i, id))
  }

  /** The same with the count that the envelope itself carries. */
  ghost predicate GivenUpByFile(max: int, qs: seq<State>, as_: seq<Action>, i: nat, id: string)
    requires i < |as_| && |qs| == |as_| + 1
  {
    Tried(qs, as_, i, id) && Hopeless(max, as_[i].r, qs[i].pass.value.due[0].attempts)
  }

  // ----- what is logged -----

  /** Every store fault and every crash allowed: delivered are the envelopes with an attempt that succeeded. */
  lemma {:induction false} DeliveredMeans(max: int, qs: seq<State>, as_: seq<Action>, k: nat, id: string)
    requires Run(max, qs, as_) && k < |qs|
    ensures id in qs[k].delivered <==> exists i: nat :: i < k && Succeeds(qs, as_, i, id)
  {
    if k > 0 {
      DeliveredMeans(max, qs, as_, k - 1, id);
      assert StepAt(max, qs, as_, k - 1);
      assert id in qs[k].delivered <==> id in qs[k - 1].delivered || Succeeds(qs, as_, k - 1, id);
    }
  }

  /** And bounced are those with an attempt that was hopeless by the count the envelope carries. */
  lemma {:induction false} BouncedByFile(max: int, qs: seq<State>, as_: seq<Action>, k: nat, id: string)
    requires Run(max, qs, as_) && k < |qs|
    ensures id in qs[k].bounced <==> exists i: nat :: i < k && GivenUpByFile(max, qs, as_, i, id)
  {
    if k > 0 {
      BouncedByFile(max, qs, as_, k - 1, id);
      assert StepAt(max, qs, as_, k - 1);
      assert id in qs[k].bounced <==> id in qs[k - 1].bounced || GivenUpByFile(max, qs, as_, k - 1, id);
    }
  }

  // ----- the count on disk -----

  ghost predicate OnDiskAs(files: Files, id: string, e: Envelope) {
    JsonPath(id) in files && files[JsonPath(id)] == Whole(e)
  }

  /** What the sender asked for: everything but the count, the last error and the next time. */
  predicate SameMail(e: Envelope, f: Envelope) {
    e.id == f.id && e.from == f.from && e.rcpt == f.rcpt && e.domain == f.domain && e.created == f.created && e.data == f.data
  }

  ghost predicate Asked(as_: seq<Action>, k: nat, e: Envelope) {
    exists i: nat :: i < k && i < |as_| && as_[i].Enqueue? && SameMail(as_[i].e, e)
  }

  /** One step changes a file by writing a fresh envelope or one that counts one more attempt. */
  lemma StepWrites(max: int, q: State, a: Action, q': State, id: string, e: Envelope)
    requires Step(max, q, a, q') && PassOk(q) && OnDiskAs(q'.files, id, e)
    ensures OnDiskAs(q.files, id, e)
         || (a.Enqueue? && a.e == e && e.attempts == 0)
         || (a.Try? && q.pass.value.due[0].id == id && a.r.Transient? && OnDiskAs(q.files, id, q.pass.value.due[0])
             && e == Retried(q.pass.value.due[0], q.pass.value.now, a.r.error))
  {
    match a
    case Enqueue(f, fate) => WriteFacts(q.files, f, fate); PathFacts(id, f.id);
    case Try(at, r, fate) =>
      var f := q.pass.value.due[0];
      PathFacts(id, f.id);
      AttemptLocal(max, q, f, q.pass.value.now, at, r, fate);
      assert OnDisk(q.files, f);
      if r.Transient? { WriteFacts(q.files, Retried(f, q.pass.value.now, r.error), fate.update); }
    case _ =>
  }

  /** Whatever fails, an envelope on disk is one that was enqueued, and counts no attempt that was not made. */
  lemma {:induction false} FilesTell(max: int, qs: seq<State>, as_: seq<Action>, k: nat, id: string, e: Envelope)
    requires Run(max, qs, as_) && k < |qs| && OnDiskAs(qs[k].files, id, e)
    ensures e.attempts <= Tries(qs, as_, k, id) && Asked(as_, k, e)
  {
    if k > 0 {
      RunSound(max, qs, as_, k - 1);
      assert StepAt(max, qs, as_, k - 1);
      StepWrites(max, qs[k - 1], as_[k - 1], qs[k], id, e);
      if OnDiskAs(qs[k - 1].files, id, e) {
        FilesTell(max, qs, as_, k - 1, id, e);
      } else if as_[k - 1].Try? {
        FilesTell(max, qs, as_, k - 1, id, qs[k - 1].pass.value.due[0]);
        assert Tried(qs, as_, k - 1, id);
      }
    }
  }

  /** What the transport is handed is a message as it was enqueued, and the count it carries is not too high. */
  lemma TriedIsAsked(max: int, qs: seq<State>, as_: seq<Action>, i: nat, id: string)
    requires Run(max, qs, as_) && i < |as_| && Tried(qs, as_, i, id)
    ensures Asked(as_, i, qs[i].pass.value.due[0]) && qs[i].pass.value.due[0].attempts <= Tries(qs, as_, i, id)
  {
    RunSound(max, qs, as_, i);
    FilesTell(max, qs, as_, i, id, qs[i].pass.value.due[0]);
  }

  /** Whatever fails, no envelope is bounced before a permanent answer or the last attempt it is allowed. */
  lemma BouncedOnlyWhen(max: int, qs: seq<State>, as_: seq<Action>, k: nat, id: string)
    requires Run(max, qs, as_) && k < |qs| && id in qs[k].bounced
    ensures exists i: nat :: i < k && GivenUp(max, qs, as_, i, id)
  {
    BouncedByFile(max, qs, as_, k, id);
    var i: nat :| i < k && GivenUpByFile(max, qs, as_, i, id);
    TriedIsAsked(max, qs, as_, i, id);
    assert GivenUp(max, qs, as_, i, id);
  }

  // ----- a store that works -----

  /** Every attempt is one Deliver call. */
  lemma {:induction false} TriesAreCalls(max: int, qs: seq<State>, as_: seq<Action>, k: nat, id: string)
    requires Run(max, qs, as_) && k < |qs| && WorksUntil(as_, k)
    ensures |CallsOn(qs[k].calls, id)| == Tries(qs, as_, k, id)
  {
    if k > 0 {
      TriesAreCalls(max, qs, as_, k - 1, id);
      assert StepAt(max, qs, as_, k - 1) && StoreWorks(as_[k - 1]);
      var q, a := qs[k - 1], as_[k - 1];
      if a.Try? {
        var p := q.pass.value;
        AttemptLocal(max, q, p.due[0], p.now, a.at, a.r, a.fate);
        CallsAppend(q.calls, Call(p.due[0].id, a.at, p.now), id);
      }
    }
  }

  /** The envelope at the head of the pass is on disk, whole, and has counted every attempt. */
  lemma HeadIsCounted(max: int, qs: seq<State>, as_: seq<Action>, i: nat, id: string)
    requires Run(max, qs, as_) && i < |as_| && WorksUntil(as_, i) && Tried(qs, as_, i, id)
    ensures OnDiskAs(qs[i].files, id, qs[i].pass.value.due[0]) && id in qs[i].enqueued
    ensures qs[i].pass.value.due[0].attempts == Tries(qs, as_, i, id)
  {
    RunAccounted(max, qs, as_, i);
    TriesAreCalls(max, qs, as_, i, id);
    var e := qs[i].pass.value.due[0];
    assert OnDisk(qs[i].files, e);
    PathFacts(id, e.id);
    assert Standing(max, qs[i], id);
  }

  /** Bounced are exactly the envelopes with a permanent failure or a transient one at the last attempt allowed. */
  lemma BouncedMeans(max: int, qs: seq<State>, as_: seq<Action>, k: nat, id: string)
    requires Run(max, qs, as_) && k < |qs| && WorksUntil(as_, k)
    ensures id in qs[k].bounced <==> exists i: nat :: i < k && GivenUp(max, qs, as_, i, id)
  {
    BouncedByFile(max, qs, as_, k, id);
    forall i: nat | i < k ensures GivenUpByFile(max, qs, as_, i, id) == GivenUp(max, qs, as_, i, id) {
      if Tried(qs, as_, i, id) { HeadIsCounted(max, qs, as_, i, id); }
    }
  }

  /** And still queued are exactly the others; they have counted every attempt. */
  lemma QueuedMeans(max: int, qs: seq<State>, as_: seq<Action>, k: nat, id: string)
    requires Run(max, qs, as_) && k < |qs| && WorksUntil(as_, k) && id in qs[k].enqueued
    ensures Queued(qs[k], id) <==>
      forall i: nat :: i < k ==> !Succeeds(qs, as_, i, id) && !GivenUp(max, qs, as_, i, id)
    ensures Queued(qs[k], id) ==>
      qs[k].files[JsonPath(id)].Whole? && qs[k].files[JsonPath(id)].e.attempts == Tries(qs, as_, k, id)
  {
    DeliveredMeans(max, qs, as_, k, id);
    BouncedMeans(max, qs, as_, k, id);
    TriesAreCalls(max, qs, as_, k, id);
    RunAccounted(max, qs, as_, k);
    assert Standing(max, qs[k], id);
  }

  /** The wait after the n-th attempt: one minute, doubling, at most four hours. */
  function Wait(n: nat): nat
    requires n >= 1
  {
    MINUTE * (if Pow2(n - 1) < 240 then Pow2(n - 1) else 240)
  }

  /**
    A transient failure below the limit leaves the envelope queued with one
    more attempt, the transport's words and the next time, counted from the
    beginning of the pass; the rest of it stays.
   */
  lemma DeferredMeans(max: int, qs: seq<State>, as_: seq<Action>, i: nat, id: string)
    requires Run(max, qs, as_) && i < |as_| && WorksUntil(as_, i + 1)
    requires Tried(qs, as_, i, id) && as_[i].r.Transient? && Tries(qs, as_, i, id) + 1 < max
    ensures var n, p := Tries(qs, as_, i, id) + 1, qs[i].pass.value;
      OnDiskAs(qs[i + 1].files, id, p.due[0].(attempts := n, lastError := as_[i].r.error, nextAttempt := p.now + Wait(n)))
    ensures id !in qs[i + 1].delivered && id !in qs[i + 1].bounced
  {
    HeadIsCounted(max, qs, as_, i, id);
    assert StepAt(max, qs, as_, i) && StoreWorks(as_[i]) && qs[i + 1].enqueued == qs[i].enqueued;
    hide Step, Run, WorksUntil, Tries;
    StepDefers(max, qs[i], as_[i], qs[i + 1]);
    RunBalances(max, qs, as_, i + 1, id);
  }

  lemma StepDefers(max: int, q: State, a: Action, q': State)
    requires Step(max, q, a, q') && a.Try? && a.fate == WORKS && a.r.Transient?
    requires q.pass.value.due[0].attempts + 1 < max
    ensures var e, p := q.pass.value.due[0], q.pass.value;
      OnDiskAs(q'.files, e.id,
        e.(attempts := e.attempts + 1, lastError := a.r.error, nextAttempt := p.now + Wait(e.attempts + 1)))
  {
    var e, p := q.pass.value.due[0], q.pass.value;
    BackoffIsCappedPower(e.attempts + 1);
    WriteFacts(q.files, Retried(e, p.now, a.r.error), Done);
  }

  lemma RunBalances(max: int, qs: seq<State>, as_: seq<Action>, k: nat, id: string)
    requires Run(max, qs, as_) && k < |qs| && WorksUntil(as_, k) && id in qs[k].enqueued && Queued(qs[k], id)
    ensures id !in qs[k].delivered && id !in qs[k].bounced
  {
    QueueBalances(max, qs, as_, k);
  }

  /** Nothing but an attempt on it, or its own Enqueue, changes the file of an envelope. */
  lemma {:induction false} UntouchedUntilTried(max: int, qs: seq<State>, as_: seq<Action>, i: nat, k: nat, id: string)
    requires Run(max, qs, as_) && i <= k < |qs| && id in qs[i].minted
    requires forall j: nat :: i <= j < k ==> !Tried(qs, as_, j, id)
    ensures Queued(qs[k], id) == Queued(qs[i], id) && id in qs[k].minted
    ensures Queued(qs[i], id) ==> qs[k].files[JsonPath(id)] == qs[i].files[JsonPath(id)]
  {
    if i < k {
      UntouchedUntilTried(max, qs, as_, i, k - 1, id);
      assert StepAt(max, qs, as_, k - 1) && !Tried(qs, as_, k - 1, id);
      var q, a := qs[k - 1], as_[k - 1];
      PathFacts(id, id);
      match a
      case Enqueue(f, fate) => WriteFacts(q.files, f, fate); PathFacts(id, f.id);
      case Try(at, r, fate) =>
        var f := q.pass.value.due[0];
        PathFacts(id, f.id);
        AttemptLocal(max, q, f, q.pass.value.now, at, r, fate);
      case _ =>
    }
  }

  // ----- the log of calls -----

  /** The call an action makes, if any: an attempt, or one the process dies in. */
  function CallOf(q: State, a: Action): seq<Call> {
    if q.pass.None? || q.pass.value.due == [] then []
    else
      var id, began := q.pass.value.due[0].id, q.pass.value.now;
      match a
      case Try(at, _, _) => [Call(id, at, began)]
      case Stop(Some(at)) => [Call(id, at, began)]
      case _ => []
  }

  ghost function CallsMade(qs: seq<State>, as_: seq<Action>, k: nat): seq<Call>
    requires k <= |as_| && |qs| == |as_| + 1
  {
    if k == 0 then [] else CallsMade(qs, as_, k - 1) + CallOf(qs[k - 1], as_[k - 1])
  }

  lemma {:induction false} CallsAreLogged(max: int, qs: seq<State>, as_: seq<Action>, k: nat)
    requires Run(max, qs, as_) && k < |qs|
    ensures qs[k].calls == CallsMade(qs, as_, k)
  {
    if k > 0 {
      CallsAreLogged(max, qs, as_, k - 1);
      assert StepAt(max, qs, as_, k - 1);
    }
  }
}
