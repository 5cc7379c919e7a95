/** Per-descriptor I/O order, and descriptor states that go back to the pool empty. */
module ProactorIo {
  import opened Proactor

  /** A log without the operations that were dropped. */
  function Kept(log: seq<OpId>, dropped: set<OpId>): seq<OpId> {
    if log == [] then []
    else
      var rest := Kept(log[..|log| - 1], dropped);
      if log[|log| - 1] in dropped then rest else rest + [log[|log| - 1]]
  }

  predicate Distinct(log: seq<OpId>) {
    forall i, j :: 0 <= i < j < |log| ==> log[i] != log[j]
  }

  /** For one operation type: what was started and not dropped is what was worked, then what is queued, in order. */
  ghost predicate InOrder(started: seq<OpId>, dropped: set<OpId>, worked: seq<OpId>, queue: seq<OpId>, given: set<OpId>) {
    && Kept(started, dropped) == worked + queue
    && Distinct(worked + queue)
    && (forall op :: op in started ==> op in given)
    && dropped <= given
  }

  ghost predicate OrderOk(ds: OpSet, given: set<OpId>) {
    && WellFormedSet(ds)
    && forall j :: 0 <= j < OP_MAX ==> InOrder(ds.started[j], ds.dropped[j], ds.worked[j], ds.queues[j], given)
  }

  predicate QueuesEmpty(ds: OpSet) {
    forall q :: q in ds.queues ==> q == []
  }

  /** Shut down descriptor states have nothing queued; pooled ones are shut down. */
  ghost predicate ShutOk(ds: OpSet) {
    (ds.shutdown ==> QueuesEmpty(ds)) && (!ds.live ==> ds.shutdown)
  }

  /** A state on its way to the pool is shut down, still live, and in one thread's hands only. */
  ghost predicate FreeingOk(s: State) {
    && (forall t :: 0 <= t < |s.threads| && s.threads[t].call.Freeing? ==>
                      var d := s.threads[t].call.slot; d < |s.sets| && s.sets[d].shutdown && s.sets[d].live)
    && (forall t, x :: 0 <= t < x < |s.threads| && s.threads[t].call.Freeing? && s.threads[x].call.Freeing? ==>
                         s.threads[t].call.slot != s.threads[x].call.slot)
  }

  /** Writes wait only where writability is reported. */
  predicate ArmedOk(ds: OpSet) {
    WellFormedSet(ds) && (ds.queues[WRITE] != [] ==> ds.armedOut)
  }

  ghost predicate IoInv(s: State) {
    && (forall d :: 0 <= d < |s.sets| ==> OrderOk(s.sets[d], s.work.given) && ShutOk(s.sets[d]) && ArmedOk(s.sets[d]))
    && FreeingOk(s)
  }

  // ---------- filtering ----------

  lemma {:induction false} KeptWithin(log: seq<OpId>, dropped: set<OpId>)
    ensures forall op :: op in Kept(log, dropped) ==> op in log && op !in dropped
  {
    if log != [] {
      KeptWithin(log[..|log| - 1], dropped);
    }
  }

  /** Filtering by more is filtering the filtered log by more. */
  lemma {:induction false} KeptTwice(log: seq<OpId>, dropped: set<OpId>, more: set<OpId>)
    ensures Kept(log, dropped + more) == Kept(Kept(log, dropped), more)
  {
    if log != [] {
      KeptTwice(log[..|log| - 1], dropped, more);
      var rest, last := Kept(log[..|log| - 1], dropped), log[|log| - 1];
      assert (rest + [last])[..|rest|] == rest;
    }
  }

  lemma {:induction false} KeptSplits(front: seq<OpId>, back: seq<OpId>, dropped: set<OpId>)
    requires forall op :: op in front ==> op !in dropped
    requires forall op :: op in back ==> op in dropped
    ensures Kept(front + back, dropped) == front
  {
    var log := front + back;
    if back != [] {
      assert log[..|log| - 1] == front + back[..|back| - 1];
      KeptSplits(front, back[..|back| - 1], dropped);
    } else if front != [] {
      assert log[..|log| - 1] == front[..|front| - 1] + back;
      KeptSplits(front[..|front| - 1], back, dropped);
      assert front == front[..|front| - 1] + [front[|front| - 1]];
    }
  }

  lemma KeptAppend(log: seq<OpId>, dropped: set<OpId>, op: OpId)
    requires op !in dropped
    ensures Kept(log + [op], dropped) == Kept(log, dropped) + [op]
  {
    assert (log + [op])[..|log|] == log;
  }

  // ---------- one queue ----------

  lemma StartKeepsOrder(started: seq<OpId>, dropped: set<OpId>, worked: seq<OpId>, queue: seq<OpId>, given: set<OpId>, op: OpId)
    requires InOrder(started, dropped, worked, queue, given) && op !in given
    ensures InOrder(started + [op], dropped, worked, queue + [op], given + {op})
    ensures queue == [] ==> InOrder(started + [op], dropped, worked + [op], [], given + {op})
  {
    KeptAppend(started, dropped, op);
    KeptWithin(started, dropped);
    assert worked + (queue + [op]) == worked + queue + [op];
    assert forall x :: x in worked + queue ==> x in given;
    if queue == [] {
      assert worked + [op] + [] == worked + queue + [op];
    }
  }

  lemma WorkKeepsOrder(started: seq<OpId>, dropped: set<OpId>, worked: seq<OpId>, queue: seq<OpId>, given: set<OpId>, n: nat)
    requires InOrder(started, dropped, worked, queue, given) && n <= |queue|
    ensures InOrder(started, dropped, worked + queue[..n], queue[n..], given)
  {
    assert worked + queue[..n] + queue[n..] == worked + queue;
  }

  lemma CancelKeepsOrder(started: seq<OpId>, dropped: set<OpId>, worked: seq<OpId>, queue: seq<OpId>, given: set<OpId>)
    requires InOrder(started, dropped, worked, queue, given)
    ensures InOrder(started, dropped + (set op | op in queue), worked, [], given)
  {
    var more := set op | op in queue;
    KeptTwice(started, dropped, more);
    KeptWithin(started, dropped);
    forall i, j | 0 <= i < |worked| && 0 <= j < |queue| ensures worked[i] != queue[j] {
      assert (worked + queue)[i] == worked[i] && (worked + queue)[|worked| + j] == queue[j];
    }
    KeptSplits(worked, queue, more);
    assert forall op :: op in queue ==> op in worked + queue;
    assert Distinct(worked) by {
      assert forall i :: 0 <= i < |worked| ==> (worked + queue)[i] == worked[i];
    }
    assert worked + [] == worked;
  }

  lemma MoreGiven(ds: OpSet, given: set<OpId>, given': set<OpId>)
    requires OrderOk(ds, given) && given <= given'
    ensures OrderOk(ds, given')
  {
  }

  // ---------- one descriptor ----------

  lemma StartOrders(ds: OpSet, given: set<OpId>, ty: nat, op: OpId, outcome: Outcome)
    requires OrderOk(ds, given) && op !in given && ty < OP_MAX
    requires outcome.Worked? ==> ds.queues[ty] == []
    ensures OrderOk(AfterStart(ds, ty, op, outcome), given + {op})
  {
    MoreGiven(ds, given, given + {op});
    StartKeepsOrder(ds.started[ty], ds.dropped[ty], ds.worked[ty], ds.queues[ty], given, op);
  }

  lemma IoOrders(ds: OpSet, given: set<OpId>, counts: seq<nat>)
    requires OrderOk(ds, given) && IoCounts(ds, counts)
    ensures OrderOk(AfterIo(ds, counts), given)
    ensures QueuesEmpty(ds) ==> QueuesEmpty(AfterIo(ds, counts))
  {
    if QueuesEmpty(ds) {
      forall j | 0 <= j < OP_MAX ensures AfterIo(ds, counts).queues[j] == [] {
        assert ds.queues[j] in ds.queues;
      }
    }
    forall j | 0 <= j < OP_MAX
      ensures var ds' := AfterIo(ds, counts);
              InOrder(ds'.started[j], ds'.dropped[j], ds'.worked[j], ds'.queues[j], given)
    {
      WorkKeepsOrder(ds.started[j], ds.dropped[j], ds.worked[j], ds.queues[j], given, counts[j]);
    }
  }

  lemma CancelOrders(ds: OpSet, given: set<OpId>)
    requires OrderOk(ds, given)
    ensures OrderOk(Emptied(ds), given) && QueuesEmpty(Emptied(ds))
  {
    forall j | 0 <= j < OP_MAX
      ensures var ds' := Emptied(ds);
              InOrder(ds'.started[j], ds'.dropped[j], ds'.worked[j], ds'.queues[j], given)
    {
      CancelKeepsOrder(ds.started[j], ds.dropped[j], ds.worked[j], ds.queues[j], given);
    }
  }

  lemma IoMoveOrders(l: Local, d: SetId, ds: OpSet, move: IoMove)
    requires OrderOk(ds, l.w.given) && ShutOk(ds) && IoEnabled(l.w, l.th, d, ds, move)
    requires move.FreeSet? ==> ds.shutdown
    ensures OrderOk(IoSet(ds, move), IoWork(l, d, ds, move).w.given) && ShutOk(IoSet(ds, move))
  {
    hide ArmedOk;
    match move {
      case PerformIo(counts) => IoOrders(ds, l.w.given, counts);
      case StartOp(ty, op, speculative, did, ctl) =>
        StartOrders(ds, l.w.given, ty, op, StartOutcome(ds, ty, speculative, did, ctl));
      case Cancel => CancelOrders(ds, l.w.given);
      case Deregister => CancelOrders(ds, l.w.given);
      case FreeSet =>
      case Recycle =>
    }
  }

  lemma IoMoveKeepsArmed(l: Local, d: SetId, ds: OpSet, move: IoMove)
    requires ArmedOk(ds) && ShutOk(ds) && IoEnabled(l.w, l.th, d, ds, move)
    ensures ArmedOk(IoSet(ds, move))
  {
    if ds.shutdown {
      assert ds.queues[WRITE] in ds.queues;
    }
    match move {
      case StartOp(ty, op, speculative, did, ctl) => StartDecides(ds, ty, op, speculative, did, ctl);
      case PerformIo(_) =>
      case Cancel =>
      case Deregister =>
      case FreeSet =>
      case Recycle =>
    }
  }

  // ---------- what start_op decides ----------

  /** Whether an operation's I/O is tried at once: nothing of its type is ahead of it, nor anything urgent ahead of a read. */
  predicate TriedAtOnce(ds: OpSet, ty: nat, speculative: bool)
    requires WellFormedSet(ds) && ty < OP_MAX
  {
    !ds.shutdown && ds.queues[ty] == [] && speculative && (ty == READ ==> ds.queues[EXCEPT] == [])
  }

  /** Whether a write was tried in vain and then could not be registered for. */
  predicate CannotWait(ds: OpSet, ty: nat, speculative: bool, did: bool, ctl: bool)
    requires WellFormedSet(ds) && ty < OP_MAX
  {
    TriedAtOnce(ds, ty, speculative) && !did && ty == WRITE && !ds.armedOut && !ctl
  }

  /**
    Every operation started is done at once, queued last of its type, or turned away, the
    last only on a shut down state or for a write that cannot wait; a queued write is waited for.
   */
  lemma StartDecides(ds: OpSet, ty: nat, op: OpId, speculative: bool, did: bool, ctl: bool)
    requires WellFormedSet(ds) && ty < OP_MAX
    ensures var ds' := IoSet(ds, StartOp(ty, op, speculative, did, ctl));
            var now := TriedAtOnce(ds, ty, speculative) && did;
            var away := ds.shutdown || CannotWait(ds, ty, speculative, did, ctl);
            && WellFormedSet(ds')
            && ds'.worked == (if now then ds.worked[ty := ds.worked[ty] + [op]] else ds.worked)
            && ds'.queues == (if now || away then ds.queues else ds.queues[ty := ds.queues[ty] + [op]])
            && ds'.shutdown == ds.shutdown && ds'.dropped == ds.dropped
            && (ds.armedOut ==> ds'.armedOut)
            && (ty == WRITE && !now && !away && ds.queues[WRITE] == [] ==> ds'.armedOut)
  {
  }

  /** A descriptor holds an operation: queued, its I/O done, or cancelled. */
  predicate Holds(ds: OpSet, ty: nat, op: OpId)
    requires WellFormedSet(ds) && ty < OP_MAX
  {
    op in ds.queues[ty] || op in ds.worked[ty] || op in ds.dropped[ty]
  }

  lemma IoMoveKeepsHeld(ds: OpSet, move: IoMove, ty: nat, op: OpId)
    requires WellFormedSet(ds) && (move.PerformIo? ==> IoCounts(ds, move.counts)) && (move.StartOp? ==> move.ty < OP_MAX)
    requires ty < OP_MAX && Holds(ds, ty, op)
    ensures WellFormedSet(IoSet(ds, move)) && Holds(IoSet(ds, move), ty, op)
  {
    match move {
      case PerformIo(counts) => assert ds.queues[ty] == ds.queues[ty][..counts[ty]] + ds.queues[ty][counts[ty]..];
      case StartOp(ty', op', speculative, did, ctl) => StartDecides(ds, ty', op', speculative, did, ctl);
      case Cancel =>
      case Deregister =>
      case FreeSet =>
      case Recycle =>
    }
  }

  // ---------- one step ----------

  lemma StepKeepsHeld(s: State, step: Step, d: SetId, ty: nat, op: OpId)
    requires Enabled(s, step) && d < |s.sets| && WellFormedSet(s.sets[d]) && ty < OP_MAX && Holds(s.sets[d], ty, op)
    ensures d < |Apply(s, step).sets| && WellFormedSet(Apply(s, step).sets[d]) && Holds(Apply(s, step).sets[d], ty, op)
  {
    hide Holds, IoSet, IoWork, LoopWake, FinishWake, PostWake, ControlWake;
    if step.IoStep? {
      if step.d == d {
        IoMoveKeepsHeld(s.sets[d], step.io, ty, op);
      }
    } else {
      OtherStepKeepsCall(s, step);
    }
  }

  lemma GivenGrows(s: State, step: Step)
    requires Enabled(s, step)
    ensures s.work.given <= Apply(s, step).work.given
  {
  }

  /** Between a deregistration and the return to the pool, no step touches the shut down state. */
  lemma StepKeepsFreeing(s: State, step: Step)
    requires FreeingOk(s) && Enabled(s, step) && (forall d :: 0 <= d < |s.sets| ==> ShutOk(s.sets[d]))
    ensures FreeingOk(Apply(s, step))
  {
    if step.IoStep? {
      IoStepKeepsFreeing(s, step.t, step.d, step.io);
    } else {
      OtherStepKeepsCall(s, step);
      hide Apply, Enabled, ShutOk;
    }
  }

  /** A move on no descriptor gives no thread a state to free and leaves the descriptors as they were, or adds one. */
  lemma OtherStepKeepsCall(s: State, step: Step)
    requires Enabled(s, step) && !step.IoStep?
    ensures var s' := Apply(s, step);
            && step.t < |s.threads| == |s'.threads|
            && s'.threads == s.threads[step.t := s'.threads[step.t]]
            && (s'.threads[step.t].call.Freeing? ==> s'.threads[step.t].call == s.threads[step.t].call)
            && s.sets <= s'.sets
  {
    hide LoopWake, FinishWake, PostWake, ControlWake, IoDone, QueuedOps, Queue.Empty;
  }

  /** What each move does to the flags of a descriptor state. */
  lemma IoSetFlags(ds: OpSet, move: IoMove)
    requires WellFormedSet(ds) && (move.PerformIo? ==> IoCounts(ds, move.counts)) && (move.StartOp? ==> move.ty < OP_MAX)
    ensures var ds' := IoSet(ds, move);
            && ds'.shutdown == (match move case Deregister => true case Recycle => false case _ => ds.shutdown)
            && ds'.live == (match move case FreeSet => false case Recycle => true case _ => ds.live)
  {
    hide StartOutcome;
  }

  lemma IoStepKeepsFreeing(s: State, t: Tid, d: SetId, move: IoMove)
    requires FreeingOk(s) && Enabled(s, IoStep(t, d, move)) && (forall d :: 0 <= d < |s.sets| ==> ShutOk(s.sets[d]))
    ensures FreeingOk(Apply(s, IoStep(t, d, move)))
  {
    hide IoDone, QueuedOps, StartOutcome, IoSet;
    IoSetFlags(s.sets[d], move);
    var s' := Apply(s, IoStep(t, d, move));
    assert s'.threads == s.threads[t := s'.threads[t]];
    assert s'.sets == s.sets[d := s'.sets[d]];
  }

  lemma StepKeepsIo(s: State, step: Step)
    requires IoInv(s) && Enabled(s, step)
    ensures IoInv(Apply(s, step))
  {
    var s' := Apply(s, step);
    GivenGrows(s, step);
    StepKeepsFreeing(s, step);
    forall d | 0 <= d < |s'.sets|
      ensures OrderOk(s'.sets[d], s'.work.given) && ShutOk(s'.sets[d]) && ArmedOk(s'.sets[d])
    {
      if step.IoStep? && d == step.d {
        IoMoveOrders(Local(s.work, s.threads[step.t]), d, s.sets[d], step.io);
        IoMoveKeepsArmed(Local(s.work, s.threads[step.t]), d, s.sets[d], step.io);
      } else if d < |s.sets| {
        MoreGiven(s.sets[d], s.work.given, s'.work.given);
      }
    }
  }
}
