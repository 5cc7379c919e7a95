/** Stopping, restarting and private queues over whole runs: what follows from a count of zero, a reset and the one-thread hint. */
module ProactorControl {
  import opened Proactor
  import opened ProactorLedger
  import opened ProactorRuns

  /** A thread's record changes only by its own steps. */
  lemma {:induction false} RecordStays(states: seq<State>, steps: seq<Step>, i: nat, j: nat, t: Tid)
    requires IsRun(states, steps) && i <= j < |states| && t < |states[i].threads|
    requires forall m :: i <= m < j ==> steps[m].t != t
    ensures t < |states[j].threads| && states[j].threads[t] == states[i].threads[t]
  {
    hide Apply, Enabled, Init;
    if i < j {
      RecordStays(states, steps, i, j - 1, t);
      OthersStay(states[j - 1], steps[j - 1], t);
    }
  }

  lemma OthersStay(s: State, step: Step, t: Tid)
    requires Enabled(s, step) && t < |s.threads| && step.t != t
    ensures |Apply(s, step).threads| == |s.threads| && Apply(s, step).threads[t] == s.threads[t]
  {
    hide LoopWork, FinishWork, PostWork, ControlWork, IoWork, IoSet, LoopWake, FinishWake, PostWake, ControlWake;
  }

  /** Step j is the first of thread t from state i on. */
  ghost predicate NextOf(states: seq<State>, steps: seq<Step>, i: nat, j: nat, t: Tid) {
    && IsRun(states, steps) && i <= j < |steps| && t < |states[i].threads| && steps[j].t == t
    && forall m :: i <= m < j ==> steps[m].t != t
  }

  /** A thread about to stop the service can do nothing else first. */
  lemma OnlyStopEnabled(s: State, step: Step)
    requires LedgerInv(s) && Enabled(s, step) && s.threads[step.t].call.Stopping?
    ensures step == ControlStep(step.t, DoStop)
  {
    hide Balanced, Conserved, WellFormedSet, Queue.Empty, IoCounts;
    assert ThreadOk(s.threads[step.t]);
  }

  lemma StopStops(s: State, t: Tid)
    requires Enabled(s, ControlStep(t, DoStop))
    ensures var u := Apply(s, ControlStep(t, DoStop)).wake; u.stopped && u.idle == []
  {
  }

  lemma StoppingThreadStops(states: seq<State>, steps: seq<Step>, i: nat, j: nat, t: Tid)
    requires NextOf(states, steps, i, j, t) && states[i].threads[t].call.Stopping?
    ensures steps[j] == ControlStep(t, DoStop) && states[j + 1].wake.stopped && states[j + 1].wake.idle == []
  {
    RecordStays(states, steps, i, j, t);
    RunKeepsLedger(states, steps, j);
    OnlyStopEnabled(states[j], steps[j]);
    StopStops(states[j], t);
  }

  /** The work found to be none: run entered with the counter at zero, or the last unit settled. */
  predicate CountsToZero(s: State, step: Step) {
    || (step.LoopStep? && step.loop.EnterRun? && s.work.outstanding == 0)
    || (step.FinishStep? && step.finish.WorkFinish? && s.work.outstanding == 1)
  }

  /** Entering run and settling a unit leave the thread about to stop the service exactly when no work is left. */
  lemma ZeroMeansStopping(s: State, step: Step)
    requires Enabled(s, step)
    requires (step.LoopStep? && step.loop.EnterRun?) || (step.FinishStep? && step.finish.WorkFinish?)
    ensures Apply(s, step).threads[step.t].call.Stopping? <==> CountsToZero(s, step)
  {
  }

  /** No work left leads to a stop: it is what the thread that found it does next. */
  lemma ZeroLeadsToStop(states: seq<State>, steps: seq<Step>, i: nat, j: nat)
    requires IsRun(states, steps) && i < |steps| && CountsToZero(states[i], steps[i])
    requires NextOf(states, steps, i + 1, j, steps[i].t)
    ensures steps[j] == ControlStep(steps[i].t, DoStop)
    ensures states[j + 1].wake.stopped && states[j + 1].wake.idle == []
  {
    ZeroMeansStopping(states[i], steps[i]);
    StoppingThreadStops(states, steps, i + 1, j, steps[i].t);
  }

  /** A reset lets the loop take work again: whatever is queued can be taken by whoever is at the loop. */
  lemma ResetLetsWorkBeTaken(states: seq<State>, steps: seq<Step>, i: nat, t: Tid, op: OpId)
    requires IsRun(states, steps) && i < |steps| && Resets(steps[i])
    ensures !states[i + 1].wake.stopped
    ensures states[i + 1].work == states[i].work && states[i + 1].threads == states[i].threads
    ensures states[i + 1].wake == states[i].wake.(stopped := false)
    ensures t < |states[i].threads| && states[i].threads[t].pc.AtLoop? && op in states[i].work.opQue.ops ==>
              Enabled(states[i + 1], LoopStep(t, TakeOp(op)))
  {
  }

  /** A descriptor taken from the queue has its I/O done next by the thread that took it. */
  lemma TakenSetIsWorked(states: seq<State>, steps: seq<Step>, i: nat, j: nat)
    requires IsRun(states, steps) && i < |steps| && steps[i].LoopStep? && steps[i].loop.TakeSet?
    requires NextOf(states, steps, i + 1, j, steps[i].t)
    ensures steps[j].IoStep? && steps[j].d == steps[i].loop.d && steps[j].io.PerformIo?
  {
    var t := steps[i].t;
    TakingSetGoesToSet(states[i], steps[i]);
    RecordStays(states, steps, i + 1, j, t);
    RunKeepsLedger(states, steps, j);
    InSetOnlyPerforms(states[j], steps[j]);
  }

  lemma TakingSetGoesToSet(s: State, step: Step)
    requires Enabled(s, step) && step.LoopStep? && step.loop.TakeSet?
    ensures Apply(s, step).threads[step.t].pc == InSet(step.loop.d)
  {
  }

  lemma InSetOnlyPerforms(s: State, step: Step)
    requires LedgerInv(s) && Enabled(s, step) && s.threads[step.t].pc.InSet?
    ensures step.IoStep? && step.d == s.threads[step.t].pc.d && step.io.PerformIo?
  {
    hide Balanced, Conserved, WellFormedSet, Queue.Empty, IoCounts;
    assert ThreadOk(s.threads[step.t]);
  }

  /**
    One perform_io hands on what it finished: the thread goes to the handler of the first
    operation finished of the last type that finished any, and with none finished to its
    cleanup with a unit of its own counted.
   */
  lemma PerformIoHandsOn(s: State, t: Tid, d: SetId, counts: seq<nat>, ty: nat)
    requires Enabled(s, IoStep(t, d, PerformIo(counts))) && ty < OP_MAX
    ensures var s' := Apply(s, IoStep(t, d, PerformIo(counts)));
            && (counts[ty] > 0 && (forall j :: ty < j < OP_MAX ==> counts[j] == 0) ==>
                  s'.threads[t].pc == Dispatching(s.sets[d].queues[ty][0]) && s'.work == s.work)
            && ((forall j :: 0 <= j < OP_MAX ==> counts[j] == 0) ==>
                  s'.threads[t].pc == Cleaning && s'.work == s.work.(outstanding := s.work.outstanding + 1))
  {
    hide AfterIo;
    FirstFinished(s.sets[d], counts, ty);
  }

  lemma FirstFinished(ds: OpSet, counts: seq<nat>, ty: nat)
    requires IoCounts(ds, counts) && ty < OP_MAX
    ensures counts[ty] > 0 && (forall j :: ty < j < OP_MAX ==> counts[j] == 0) ==>
              IoDone(ds, counts) != [] && IoDone(ds, counts)[0] == ds.queues[ty][0]
    ensures (forall j :: 0 <= j < OP_MAX ==> counts[j] == 0) ==> IoDone(ds, counts) == []
  {
    assert counts[3] > 0 || counts[3] == 0;
    assert ty == 0 || ty == 1 || ty == 2 || ty == 3;
  }

  /** A descriptor state taken from the pool again looks like a new one: open, nothing queued, not registered for writes. */
  lemma RecycledLooksNew(states: seq<State>, steps: seq<Step>, i: nat)
    requires IsRun(states, steps) && i < |steps| && steps[i].IoStep? && steps[i].io.Recycle?
    ensures var ds := states[i + 1].sets[steps[i].d];
            ds.live && !ds.shutdown && !ds.armedOut && ds.queues == NO_QUEUES
  {
    RunKeepsInv(states, steps, i);
    hide IoWork, Init, LedgerInv;
    PooledIsEmpty(states[i], steps[i].d);
  }

  lemma PooledIsEmpty(s: State, d: SetId)
    requires Inv(s) && d < |s.sets| && !s.sets[d].live
    ensures WellFormedSet(s.sets[d]) && s.sets[d].queues == NO_QUEUES
  {
    hide LedgerInv;
    var ds := s.sets[d];
    assert forall j :: 0 <= j < OP_MAX ==> ds.queues[j] in ds.queues;
  }

  // ---------- private queues ----------

  ghost predicate NothingPrivate(s: State) {
    !s.work.oneThread ==> forall t :: 0 <= t < |s.threads| ==> s.threads[t].privQ.ops == multiset{} && s.threads[t].privWork == 0
  }

  lemma StepKeepsNothingPrivate(s: State, step: Step)
    requires NothingPrivate(s) && Enabled(s, step)
    ensures NothingPrivate(Apply(s, step)) && Apply(s, step).work.oneThread == s.work.oneThread
  {
    hide LoopWake, FinishWake, PostWake, ControlWake, IoSet, IoDone, StartOutcome, QueuedOps, Queue.Empty;
  }

  /** Without the promise of one thread nothing is ever put aside privately: every operation is at once there for all. */
  lemma {:induction false} PrivateOnlyIfPromised(states: seq<State>, steps: seq<Step>, i: nat)
    requires IsRun(states, steps) && i < |states|
    ensures NothingPrivate(states[i])
  {
    if i > 0 {
      hide Apply, Enabled, Init, NothingPrivate;
      PrivateOnlyIfPromised(states, steps, i - 1);
      StepKeepsNothingPrivate(states[i - 1], steps[i - 1]);
    }
  }

  /** An operation handed over becomes private exactly inside a run of the one promised thread, without touching the shared work. */
  lemma AcceptedPrivatelyIff(s: State, t: Tid)
    requires Enabled(s, PostStep(t, Accept))
    ensures var s' := Apply(s, PostStep(t, Accept));
            var op := s.threads[t].call.op;
            if s.work.oneThread && !s.threads[t].pc.Outside?
            then s'.work == s.work && s'.threads[t].privQ.ops == s.threads[t].privQ.ops + multiset{op}
            else s'.work.outstanding == s.work.outstanding + 1 && s'.threads[t].privQ == s.threads[t].privQ
  {
  }
}
