/**
  What holds over whole runs of the completion service: for any number of threads, any
  interleaving of their steps, and both settings of the one-thread hint.
 */
module ProactorRuns {
  import opened Ledger
  import opened Proactor
  import opened ProactorLedger
  import opened ProactorWake
  import opened ProactorIo

  ghost predicate Inv(s: State) {
    LedgerInv(s) && WakeInv(s) && IoInv(s)
  }

  lemma {:induction false} IdleThreadsSumToZero(ths: seq<Thread>)
    requires forall t :: 0 <= t < |ths| ==> ths[t] == IDLE_THREAD
    ensures Sum(ths, Balance) == 0 && Sum(ths, Holder) == 0 && Union(ths, Waits) == multiset{}
  {
    if ths != [] {
      assert ths[0] == IDLE_THREAD;
      IdleThreadsSumToZero(ths[1..]);
    }
  }

  lemma InitLedger(s: State)
    requires Init(s)
    ensures LedgerInv(s)
  {
    hide Balance, Waits, Holder;
    IdleThreadsSumToZero(s.threads);
  }

  lemma InitWake(s: State)
    requires Init(s)
    ensures WakeInv(s)
  {
    hide Balance, Waits, Holder;
    IdleThreadsSumToZero(s.threads);
  }

  lemma InitInv(s: State)
    requires Init(s)
    ensures Inv(s)
  {
    InitLedger(s);
    InitWake(s);
  }

  lemma StepKeepsInv(s: State, step: Step)
    requires Inv(s) && Enabled(s, step)
    ensures Inv(Apply(s, step))
  {
    StepKeepsLedger(s, step);
    StepKeepsWake(s, step);
    StepKeepsIo(s, step);
  }

  /** Every state of every run satisfies the invariant. */
  lemma {:induction false} RunKeepsInv(states: seq<State>, steps: seq<Step>, i: nat)
    requires IsRun(states, steps) && i < |states|
    ensures Inv(states[i])
  {
    if i == 0 {
      InitInv(states[0]);
    } else {
      RunKeepsInv(states, steps, i - 1);
      StepKeepsInv(states[i - 1], steps[i - 1]);
    }
  }

  lemma RunKeepsLedger(states: seq<State>, steps: seq<Step>, i: nat)
    requires IsRun(states, steps) && i < |states|
    ensures LedgerInv(states[i])
  {
    hide Init, Enabled, Apply, LedgerInv, WakeInv, IoInv;
    RunKeepsInv(states, steps, i);
  }

  // ---------- work accounting ----------

  lemma {:induction false} BalanceSplits(ths: seq<Thread>)
    ensures Sum(ths, Balance) == Sum(ths, Waiters) + Sum(ths, OwnUnit) - Sum(ths, Uncounted) - Sum(ths, PrivateWork)
  {
    if ths != [] {
      BalanceSplits(ths[1..]);
    }
  }

  lemma WaitersCount(th: Thread)
    ensures Waiters(th) == |Waits(th)|
  {
  }

  /** The pending operations that have been counted. */
  ghost function CountedPending(s: State): int {
    |Pending(s)| - Sum(s.threads, Uncounted)
  }

  /**
    Shared and private counters together are the counted operations whose handlers have not
    begun, plus one for each thread that runs a handler or has yet to settle its own unit.
   */
  lemma WorkAccounting(states: seq<State>, steps: seq<Step>, i: nat)
    requires IsRun(states, steps) && i < |states|
    ensures var s := states[i];
            s.work.outstanding + Sum(s.threads, PrivateWork) == CountedPending(s) + Sum(s.threads, OwnUnit)
  {
    RunKeepsInv(states, steps, i);
    var s := states[i];
    BalanceSplits(s.threads);
    forall t | 0 <= t < |s.threads| ensures Waiters(s.threads[t]) == |Waits(s.threads[t])| {
      WaitersCount(s.threads[t]);
    }
    UnionSize(s.threads, Waits, Waiters);
    UnionSize(s.sets, QueuedOps, QueuedCount);
  }

  // ---------- exactly once ----------

  /** Times an operation is in a queue, in a descriptor or in a thread's hands, or its handler has begun. */
  ghost function Sightings(s: State, op: OpId): nat {
    Pending(s)[op] + multiset(s.work.invoked)[op]
  }

  /** In every reachable state each operation handed over is in exactly one place, or its handler began, once. */
  lemma ExactlyOnce(states: seq<State>, steps: seq<Step>, i: nat, op: OpId)
    requires IsRun(states, steps) && i < |states|
    ensures Sightings(states[i], op) == if op in states[i].work.given then 1 else 0
    ensures multiset(states[i].work.invoked)[op] <= 1
  {
    RunKeepsInv(states, steps, i);
    var s := states[i];
    assert (Pending(s) + multiset(s.work.invoked))[op] == multiset(s.work.given)[op];
  }

  /** Nothing given is ever forgotten, and begun handlers stay begun. */
  lemma {:induction false} LogsOnlyGrow(states: seq<State>, steps: seq<Step>, i: nat, k: nat)
    requires IsRun(states, steps) && i <= k < |states|
    ensures states[i].work.given <= states[k].work.given
    ensures states[i].work.invoked <= states[k].work.invoked
  {
    hide Apply, Enabled, Init;
    if i < k {
      LogsOnlyGrow(states, steps, i, k - 1);
      GivenGrows(states[k - 1], steps[k - 1]);
      InvokedGrows(states[k - 1], steps[k - 1]);
    }
  }

  lemma InvokedGrows(s: State, step: Step)
    requires Enabled(s, step)
    ensures s.work.invoked <= Apply(s, step).work.invoked
    ensures |Apply(s, step).work.invoked| - |s.work.invoked|
         == if step.FinishStep? && step.finish.BeginHandler? then 1 else 0
  {
  }

  /** Every operation but those a caller has not finished handing over. */
  ghost predicate HandedOver(s: State, op: OpId) {
    && op in s.work.given
    && forall t :: 0 <= t < |s.threads| ==> s.threads[t].call != Accepting(op)
  }

  lemma {:induction false} PrivateWorkHidesInQueues(ths: seq<Thread>)
    requires forall t :: 0 <= t < |ths| ==> ThreadOk(ths[t])
    ensures Sum(ths, Waiters) >= Sum(ths, PrivateWork) + Sum(ths, Uncounted)
    ensures Sum(ths, OwnUnit) >= 0
    ensures Sum(ths, OwnUnit) == 0 ==>
              && Sum(ths, PrivateWork) == 0
              && forall t :: 0 <= t < |ths| ==> OwnUnit(ths[t]) == 0
    ensures Sum(ths, OwnUnit) == 0 && Sum(ths, Waiters) == Sum(ths, Uncounted) ==>
              forall t :: 0 <= t < |ths| ==> Waiters(ths[t]) == Uncounted(ths[t])
  {
    if ths != [] {
      var th, rest := ths[0], ths[1..];
      assert ThreadOk(th);
      PrivateWorkHidesInQueues(rest);
      assert Waiters(th) >= PrivateWork(th) + Uncounted(th);
      assert OwnUnit(th) == 0 ==> PrivateWork(th) == 0;
      forall t | 0 <= t < |ths|
        ensures Sum(ths, OwnUnit) == 0 ==> OwnUnit(ths[t]) == 0
        ensures Sum(ths, OwnUnit) == 0 && Sum(ths, Waiters) == Sum(ths, Uncounted) ==> Waiters(ths[t]) == Uncounted(ths[t])
      {
        if t > 0 { assert ths[t] == rest[t - 1]; }
      }
    }
  }

  lemma {:induction false} QueuedNonNegative(sets: seq<OpSet>)
    ensures Sum(sets, QueuedCount) >= 0
  {
    if sets != [] {
      QueuedNonNegative(sets[1..]);
    }
  }

  /**
    At the step whose work_finished brings the counter to zero, no handler is running and
    every operation that was handed over, cancelled ones included, had its handler run once.
   */
  lemma DrainedAtZero(states: seq<State>, steps: seq<Step>, i: nat, op: OpId)
    requires IsRun(states, steps) && i < |steps|
    requires steps[i].FinishStep? && steps[i].finish.WorkFinish? && states[i + 1].work.outstanding == 0
    requires HandedOver(states[i + 1], op)
    ensures multiset(states[i + 1].work.invoked)[op] == 1
    ensures var s := states[i + 1]; forall t :: 0 <= t < |s.threads| ==> !s.threads[t].pc.InHandler?
  {
    RunKeepsInv(states, steps, i + 1);
    var s := states[i + 1];
    BalanceSplits(s.threads);
    PrivateWorkHidesInQueues(s.threads);
    QueuedNonNegative(s.sets);
    forall t | 0 <= t < |s.threads| ensures !s.threads[t].pc.InHandler? {
      assert OwnUnit(s.threads[t]) == 0;
    }
    ExactlyOnce(states, steps, i + 1, op);
    if op in Pending(s) {
      NothingPendingAtZero(s, op);
    }
  }

  lemma NothingPendingAtZero(s: State, op: OpId)
    requires LedgerInv(s) && s.work.outstanding == 0 && op in Pending(s)
    ensures exists t :: 0 <= t < |s.threads| && s.threads[t].call == Accepting(op)
  {
    hide Balance, ThreadOk, QueuedOps;
    BalanceSplits(s.threads);
    PrivateWorkHidesInQueues(s.threads);
    QueuedNonNegative(s.sets);
    UnionSize(s.sets, QueuedOps, QueuedCount);
    assert |s.work.opQue.ops| == 0 && |Union(s.sets, QueuedOps)| == 0;
    assert op in Union(s.threads, Waits);
    var t := UnionWitness(s.threads, Waits, op);
    WaitersCount(s.threads[t]);
    assert Waiters(s.threads[t]) == Uncounted(s.threads[t]);
    assert s.threads[t].call == Accepting(op);
  }

  // ---------- the token, the idle stack, the wake-ups ----------

  /** The reactor token is queued once or held by one thread, never both; at most one thread is in the reactor. */
  lemma OneReactorToken(states: seq<State>, steps: seq<Step>, i: nat)
    requires IsRun(states, steps) && i < |states|
    ensures var s := states[i];
            && s.work.opQue.tokens + Sum(s.threads, Holder) == (if s.wake.hasPoller then 1 else 0)
            && forall t, x :: 0 <= t < x < |s.threads| ==> !(s.threads[t].pc.InReactor? && s.threads[x].pc.InReactor?)
  {
    RunKeepsInv(states, steps, i);
    HoldersCount(states[i].threads);
  }

  lemma StepKeepsReactor(s: State, step: Step)
    requires Enabled(s, step) && s.wake.hasPoller
    ensures Apply(s, step).wake.hasPoller
  {
    hide IoDone, AfterIo, Emptied, StartOutcome, AfterStart, QueuedOps, Queue.Empty;
  }

  /** Once there is a reactor there is one for ever after. */
  lemma {:induction false} ReactorStays(states: seq<State>, steps: seq<Step>, i: nat, k: nat)
    requires IsRun(states, steps) && i <= k < |states| && states[i].wake.hasPoller
    ensures states[k].wake.hasPoller
  {
    hide Apply, Enabled, Init;
    if i < k {
      ReactorStays(states, steps, i, k - 1);
      StepKeepsReactor(states[k - 1], steps[k - 1]);
    }
  }

  /** The idle stack never repeats a thread and holds exactly those waiting with their event down. */
  lemma IdleStackExact(states: seq<State>, steps: seq<Step>, i: nat)
    requires IsRun(states, steps) && i < |states|
    ensures var s := states[i];
            && NoRepeats(s.wake.idle)
            && forall t: Tid :: t in s.wake.idle <==>
                                t < |s.threads| && s.threads[t].pc.Waiting? && t !in s.wake.signalled
  {
    RunKeepsInv(states, steps, i);
  }

  /** While the service is not stopped, queued work and a thread inside run imply a thread that is up. */
  lemma NoLostWakeup(states: seq<State>, steps: seq<Step>, i: nat)
    requires IsRun(states, steps) && i < |states|
    requires !states[i].wake.stopped && !states[i].work.opQue.Empty() && SomeoneInside(states[i].threads)
    ensures exists t :: Up(states[i].wake, states[i].threads, t)
  {
    RunKeepsInv(states, steps, i);
  }

  /** While the service is stopped nobody is left asleep: every thread inside run is up and can leave. */
  lemma StopWakesAll(states: seq<State>, steps: seq<Step>, i: nat)
    requires IsRun(states, steps) && i < |states| && states[i].wake.stopped
    ensures states[i].wake.idle == []
    ensures forall t :: Inside(states[i].threads, t) ==> Up(states[i].wake, states[i].threads, t)
  {
    RunKeepsInv(states, steps, i);
    NobodyLeftAsleep(states[i].wake, states[i].work.opQue.tokens, states[i].threads);
  }

  /** A thread that took something from the queue and has yet to begin a handler. */
  function AboutToBegin(th: Thread): int {
    if th.pc.InSet? || th.pc.Dispatching? then 1 else 0
  }

  /** Handlers begun and handlers that can still begin without taking anything from the queue. */
  ghost function Commitment(s: State): int {
    |s.work.invoked| + Sum(s.threads, AboutToBegin)
  }

  predicate Resets(step: Step) {
    step.ControlStep? && step.control.Reset?
  }

  lemma StoppedStepCommits(s: State, step: Step)
    requires Enabled(s, step) && s.wake.stopped && !Resets(step)
    ensures Apply(s, step).wake.stopped && Commitment(Apply(s, step)) <= Commitment(s)
  {
    var s' := Apply(s, step);
    SumUpdate(s.threads, step.t, s'.threads[step.t], AboutToBegin);
    assert s'.threads == s.threads[step.t := s'.threads[step.t]];
    InvokedGrows(s, step);
    assert AboutToBegin(s'.threads[step.t]) <= AboutToBegin(s.threads[step.t])
                                               - if step.FinishStep? && step.finish.BeginHandler? then 1 else 0;
  }

  /**
    From a stopped state until a reset, no thread starts another operation: the handlers that
    begin are at most those of operations already taken from the queue, one for each thread.
   */
  lemma {:induction false} StopIsFinal(states: seq<State>, steps: seq<Step>, i: nat, k: nat)
    requires IsRun(states, steps) && i <= k < |states| && states[i].wake.stopped
    requires forall j :: i <= j < k ==> !Resets(steps[j])
    ensures states[k].wake.stopped
    ensures |states[k].work.invoked| + Sum(states[k].threads, AboutToBegin)
         <= |states[i].work.invoked| + Sum(states[i].threads, AboutToBegin)
  {
    if i < k {
      StopIsFinal(states, steps, i, k - 1);
      StoppedStepCommits(states[k - 1], steps[k - 1]);
    }
  }

  lemma StoppedStepKeepsQueue(s: State, step: Step, op: OpId)
    requires Enabled(s, step) && s.wake.stopped && !Resets(step) && op in s.work.opQue.ops
    ensures Apply(s, step).wake.stopped && op in Apply(s, step).work.opQue.ops
  {
    hide IoDone, AfterIo, Emptied, StartOutcome, AfterStart, QueuedOps;
  }

  /** An operation in the shared queue of a stopped service stays there until a reset; its handler does not begin. */
  lemma {:induction false} QueuedAtStopStays(states: seq<State>, steps: seq<Step>, i: nat, k: nat, op: OpId)
    requires IsRun(states, steps) && i <= k < |states| && states[i].wake.stopped && op in states[i].work.opQue.ops
    requires forall j :: i <= j < k ==> !Resets(steps[j])
    ensures states[k].wake.stopped && op in states[k].work.opQue.ops && op !in states[k].work.invoked
  {
    hide Apply, Enabled, Init;
    if i < k {
      QueuedAtStopStays(states, steps, i, k - 1, op);
      StoppedStepKeepsQueue(states[k - 1], steps[k - 1], op);
    }
    QueuedHasNotBegun(states, steps, k, op);
  }

  lemma QueuedHasNotBegun(states: seq<State>, steps: seq<Step>, i: nat, op: OpId)
    requires IsRun(states, steps) && i < |states| && op in states[i].work.opQue.ops
    ensures op !in states[i].work.invoked
  {
    hide Apply, Enabled, Init, IsRun;
    ExactlyOnce(states, steps, i, op);
    assert Pending(states[i])[op] >= 1;
  }

  // ---------- descriptors ----------

  /**
    For every descriptor and operation type, the operations that did their I/O followed by
    those still queued are those started, in start order, without the cancelled ones.
   */
  lemma IoInStartOrder(states: seq<State>, steps: seq<Step>, i: nat, d: SetId, ty: nat)
    requires IsRun(states, steps) && i < |states| && d < |states[i].sets| && ty < OP_MAX
    ensures var ds := states[i].sets[d];
            WellFormedSet(ds) && ds.worked[ty] + ds.queues[ty] == Kept(ds.started[ty], ds.dropped[ty])
  {
    RunKeepsInv(states, steps, i);
  }

  /** Step i of the run hands an operation to a descriptor. */
  ghost predicate StartsAt(states: seq<State>, steps: seq<Step>, i: nat, op: OpId) {
    IsRun(states, steps) && i < |steps| && steps[i].IoStep? && steps[i].io.StartOp? && steps[i].io.op == op
  }

  /**
    An operation is done as it is started exactly if its own queue was empty, a read's urgent
    queue too, it was to be tried, and the try succeeded.
   */
  lemma DoneAtOnceFoundNothingAhead(states: seq<State>, steps: seq<Step>, i: nat, op: OpId)
    requires StartsAt(states, steps, i, op)
    ensures var d, start := steps[i].d, steps[i].io;
            var before, after := states[i].sets[d], states[i + 1].sets[d];
            op in after.worked[start.ty] <==>
                  && !before.shutdown && start.speculative && start.did && before.queues[start.ty] == []
                  && (start.ty == READ ==> before.queues[EXCEPT] == [])
  {
    RunKeepsInv(states, steps, i);
    var d, start := steps[i].d, steps[i].io;
    StartDecides(states[i].sets[d], start.ty, op, start.speculative, start.did, start.ctl);
    hide Inv, LedgerInv, WakeInv, IoSet, IoWork, Init;
    NeverWorkedBefore(states[i], d, start.ty, op);
  }

  lemma NeverWorkedBefore(s: State, d: SetId, ty: nat, op: OpId)
    requires Inv(s) && d < |s.sets| && ty < OP_MAX && op !in s.work.given
    ensures WellFormedSet(s.sets[d]) && op !in s.sets[d].worked[ty]
  {
    hide LedgerInv, WakeInv;
    var ds := s.sets[d];
    assert OrderOk(ds, s.work.given);
    KeptWithin(ds.started[ty], ds.dropped[ty]);
    assert forall x :: x in ds.worked[ty] ==> x in Kept(ds.started[ty], ds.dropped[ty]);
  }

  /** Writes are queued only on descriptors registered for writability. */
  lemma QueuedWritesAreWaitedFor(states: seq<State>, steps: seq<Step>, i: nat, d: SetId)
    requires IsRun(states, steps) && i < |states| && d < |states[i].sets|
    ensures WellFormedSet(states[i].sets[d]) && (states[i].sets[d].queues[WRITE] != [] ==> states[i].sets[d].armedOut)
  {
    RunKeepsInv(states, steps, i);
  }

  /** What a descriptor once held it holds for ever, be it done or cancelled. */
  lemma {:induction false} HeldStays(states: seq<State>, steps: seq<Step>, i: nat, k: nat, d: SetId, ty: nat, op: OpId)
    requires IsRun(states, steps) && i <= k < |states| && d < |states[i].sets| && ty < OP_MAX
    requires WellFormedSet(states[i].sets[d]) && Holds(states[i].sets[d], ty, op)
    ensures d < |states[k].sets| && WellFormedSet(states[k].sets[d]) && Holds(states[k].sets[d], ty, op)
  {
    hide Apply, Enabled, Init, Holds;
    if i < k {
      HeldStays(states, steps, i, k - 1, d, ty, op);
      StepKeepsHeld(states[k - 1], steps[k - 1], d, ty, op);
    }
  }

  lemma StepKeepsSets(s: State, step: Step)
    requires Enabled(s, step)
    ensures |s.sets| <= |Apply(s, step).sets|
  {
    hide LoopWork, FinishWork, PostWork, ControlWork, IoWork, IoSet, LoopWake, FinishWake, PostWake, ControlWake;
  }

  lemma {:induction false} SetsStay(states: seq<State>, steps: seq<Step>, i: nat, k: nat)
    requires IsRun(states, steps) && i <= k < |states|
    ensures |states[i].sets| <= |states[k].sets|
  {
    hide Apply, Enabled, Init;
    if i < k {
      SetsStay(states, steps, i, k - 1);
      StepKeepsSets(states[k - 1], steps[k - 1]);
    }
  }

  lemma SetsAreWellFormed(states: seq<State>, steps: seq<Step>, k: nat)
    requires IsRun(states, steps) && k < |states|
    ensures forall d :: 0 <= d < |states[k].sets| ==> WellFormedSet(states[k].sets[d])
  {
    hide Apply, Enabled, Init, WellFormedSet, ThreadOk, Balanced, Conserved;
    RunKeepsLedger(states, steps, k);
  }

  lemma BegunIsNotQueued(states: seq<State>, steps: seq<Step>, k: nat, d: SetId, ty: nat, op: OpId)
    requires IsRun(states, steps) && k < |states| && d < |states[k].sets| && ty < OP_MAX && op in states[k].work.invoked
    ensures WellFormedSet(states[k].sets[d]) && op !in states[k].sets[d].queues[ty]
  {
    RunKeepsInv(states, steps, k);
    ExactlyOnce(states, steps, k, op);
    var s := states[k];
    hide Inv, Init, Enabled, Apply, IsRun, WakeInv, IoInv;
    UnionHolds(s.sets, d);
    hide QueuedOps;
    NothingPending(s, op);
    if op in s.sets[d].queues[ty] {
      QueuedIsHeld(s.sets[d], ty, op);
    }
  }

  lemma UnionHolds(sets: seq<OpSet>, d: nat)
    requires d < |sets|
    ensures QueuedOps(sets[d]) <= Union(sets, QueuedOps)
  {
    UnionUpdate(sets, d, sets[d], QueuedOps);
  }

  lemma NothingPending(s: State, op: OpId)
    requires Pending(s)[op] + multiset(s.work.invoked)[op] <= 1 && op in s.work.invoked
    ensures Union(s.sets, QueuedOps)[op] == 0
  {
    hide Waits, QueuedOps;
    assert multiset(s.work.invoked)[op] >= 1;
  }

  lemma QueuedIsHeld(ds: OpSet, ty: nat, op: OpId)
    requires WellFormedSet(ds) && ty < OP_MAX && op in ds.queues[ty]
    ensures QueuedOps(ds)[op] >= 1
  {
    assert op in multiset(ds.queues[ty]);
  }

  /**
    A handler is reached without its operation's I/O done, and without a cancellation, only
    for an operation started on a shut down descriptor, or for a write that was alone, tried
    in vain and could not be registered for.
   */
  lemma HandlerNeedsIo(states: seq<State>, steps: seq<Step>, i: nat, k: nat, op: OpId)
    requires StartsAt(states, steps, i, op) && i < k < |states| && op in states[k].work.invoked
    ensures steps[i].d < |states[k].sets| && WellFormedSet(states[i].sets[steps[i].d])
    ensures WellFormedSet(states[k].sets[steps[i].d])
    ensures var d, start := steps[i].d, steps[i].io;
            var before, now := states[i].sets[d], states[k].sets[d];
            || op in now.worked[start.ty]
            || op in now.dropped[start.ty]
            || before.shutdown
            || (start.ty == WRITE && before.queues[WRITE] == [] && start.speculative && !start.did && !before.armedOut && !start.ctl)
  {
    var d, start := steps[i].d, steps[i].io;
    SetsStay(states, steps, i, k);
    SetsAreWellFormed(states, steps, i);
    SetsAreWellFormed(states, steps, k);
    StartDecides(states[i].sets[d], start.ty, op, start.speculative, start.did, start.ctl);
    hide IoSet, IoWork, Init;
    if Holds(states[i + 1].sets[d], start.ty, op) {
      HeldStays(states, steps, i + 1, k, d, start.ty, op);
      BegunIsNotQueued(states, steps, k, d, start.ty, op);
    }
  }

  /** A descriptor state that goes back to the pool has nothing queued. */
  lemma FreedSetsAreEmpty(states: seq<State>, steps: seq<Step>, i: nat)
    requires IsRun(states, steps) && i < |steps|
    requires steps[i].IoStep? && steps[i].io.FreeSet?
    ensures states[i].sets[steps[i].d].live && !states[i + 1].sets[steps[i].d].live
    ensures QueuesEmpty(states[i + 1].sets[steps[i].d])
  {
    hide LedgerInv, WakeInv, OrderOk, Init, IoWork;
    RunKeepsInv(states, steps, i);
  }
}
