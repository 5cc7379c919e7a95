/**
  The mutex and condition variable protocol of the thread pool: any number of workers, jobs
  submitted at any time, a shutdown flag set without the lock.
 */
module ThreadPool {
  import opened Ledger

  type Job = nat

  /**
    Where a worker is.  AtTop is before taking the lock; Testing, Sleepy and Past hold it:
    about to test the wait condition, about to wait, and through the test.
   */
  datatype Pc = AtTop | Testing | Sleepy | Waiting | Woken | Past | Working(job: Job) | Exited

  /**
    size is the pool's own count of its queue; pending counts signals not yet issued for jobs
    already queued; submitted and dispatched record all jobs ever queued and taken.
   */
  datatype State = State(workers: seq<Pc>, queue: seq<Job>, size: int, pending: nat, shutdown: bool,
                         submitted: seq<Job>, dispatched: seq<Job>)

  datatype Step =
    | Lock(w: nat)        // a worker at the top, or one woken, takes the lock
    | Test(w: nat)        // the wait condition
    | Wait(w: nat)        // the lock given up and the wait begun, in one
    | Proceed(w: nat)     // past the wait: leave, retry or take a job, and unlock
    | Done(w: nat)        // the job returned
    | Spurious(w: nat)    // a wake-up nobody asked for
    | Submit(job: Job)    // one locked region of thpool_add_worker
    | Signal(woken: nat)  // the signal after it; with nobody waiting it wakes nobody
    | SetShutdown
    | Broadcast

  predicate HoldsLock(pc: Pc) {
    pc.Testing? || pc.Sleepy? || pc.Past?
  }

  ghost predicate LockFree(s: State) {
    forall w :: 0 <= w < |s.workers| ==> !HoldsLock(s.workers[w])
  }

  predicate Is(s: State, w: nat, pc: Pc) {
    w < |s.workers| && s.workers[w] == pc
  }

  ghost predicate SomeWaiting(s: State) {
    exists w :: 0 <= w < |s.workers| && s.workers[w].Waiting?
  }

  ghost predicate Enabled(s: State, step: Step) {
    match step
    case Lock(w) => (Is(s, w, AtTop) || Is(s, w, Woken)) && LockFree(s)
    case Test(w) => Is(s, w, Testing)
    case Wait(w) => Is(s, w, Sleepy)
    case Proceed(w) => Is(s, w, Past)
    case Done(w) => w < |s.workers| && s.workers[w].Working?
    case Spurious(w) => Is(s, w, Waiting)
    case Submit(_) => LockFree(s)
    case Signal(woken) => s.pending > 0 && (SomeWaiting(s) ==> Is(s, woken, Waiting))
    case SetShutdown => !s.shutdown
    case Broadcast => s.shutdown
  }

  function WakeAll(ws: seq<Pc>): (woken: seq<Pc>)
    ensures |woken| == |ws|
    ensures forall w :: 0 <= w < |ws| ==> woken[w] == if ws[w].Waiting? then Woken else ws[w]
  {
    seq(|ws|, w requires 0 <= w < |ws| => if ws[w].Waiting? then Woken else ws[w])
  }

  function Moved(s: State, w: nat, pc: Pc): State
    requires w < |s.workers|
  {
    s.(workers := s.workers[w := pc])
  }

  function AfterProceed(s: State, w: nat): State
    requires w < |s.workers|
  {
    if s.shutdown then Moved(s, w, Exited)
    else if s.size == 0 then Moved(s, w, AtTop)
    else if s.queue == [] then s
    else Moved(s, w, Working(s.queue[0])).(queue := s.queue[1..], size := s.size - 1, dispatched := s.dispatched + [s.queue[0]])
  }

  ghost function Apply(s: State, step: Step): State
    requires Enabled(s, step)
  {
    match step
    case Lock(w) => Moved(s, w, Testing)
    case Test(w) => Moved(s, w, if s.size == 0 && !s.shutdown then Sleepy else Past)
    case Wait(w) => Moved(s, w, Waiting)
    case Proceed(w) => AfterProceed(s, w)
    case Done(w) => Moved(s, w, AtTop)
    case Spurious(w) => Moved(s, w, Woken)
    case Submit(job) =>
      s.(queue := s.queue + [job], size := s.size + 1, pending := s.pending + 1, submitted := s.submitted + [job])
    case Signal(woken) =>
      var s' := s.(pending := s.pending - 1);
      if SomeWaiting(s) then Moved(s', woken, Woken) else s'
    case SetShutdown => s.(shutdown := true)
    case Broadcast => s.(workers := WakeAll(s.workers))
  }

  ghost predicate Init(s: State) {
    s == State(s.workers, [], 0, 0, false, [], []) && forall w :: 0 <= w < |s.workers| ==> s.workers[w].AtTop?
  }

  ghost predicate IsRun(states: seq<State>, steps: seq<Step>) {
    && |states| == |steps| + 1
    && Init(states[0])
    && forall i :: 0 <= i < |steps| ==> Enabled(states[i], steps[i]) && states[i + 1] == Apply(states[i], steps[i])
  }

  // ---------- the invariant ----------

  /** A worker free to take a job, or on its way to look for one. */
  function Free(pc: Pc): int {
    if pc.AtTop? || pc.Woken? || pc.Testing? || pc.Past? then 1 else 0
  }

  predicate Idle(pc: Pc) {
    pc.Waiting? || pc.Sleepy?
  }

  /** The account of the jobs. */
  ghost predicate Queued(s: State) {
    s.size == |s.queue| && s.submitted == s.dispatched + s.queue
  }

  /** One lock holder at a time, and what it knows while it holds the lock. */
  ghost predicate Locked(s: State) {
    && (forall w, x :: 0 <= w < x < |s.workers| ==> !(HoldsLock(s.workers[w]) && HoldsLock(s.workers[x])))
    && (forall w :: 0 <= w < |s.workers| && s.workers[w].Sleepy? ==> s.queue == [])
    && (forall w :: 0 <= w < |s.workers| && s.workers[w].Past? ==> s.queue != [] || s.shutdown)
    && (forall w :: 0 <= w < |s.workers| && s.workers[w].Exited? ==> s.shutdown)
  }

  /** With a worker idle, every queued job has a free worker or a signal to come. */
  ghost predicate Covered(s: State) {
    !s.shutdown && (exists w :: 0 <= w < |s.workers| && Idle(s.workers[w])) ==>
      |s.queue| <= s.pending + Sum(s.workers, Free)
  }

  ghost predicate Inv(s: State) {
    Queued(s) && Locked(s) && Covered(s)
  }

  lemma StepKeepsQueued(s: State, step: Step)
    requires Inv(s) && Enabled(s, step)
    ensures Queued(Apply(s, step))
  {
    if step.Submit? {
      assert s.dispatched + s.queue + [step.job] == s.dispatched + (s.queue + [step.job]);
    } else if step.Proceed? && !s.shutdown {
      assert s.workers[step.w].Past?;
      assert s.dispatched + s.queue == s.dispatched + [s.queue[0]] + s.queue[1..];
    }
  }

  /** One worker moved, holding the lock only if it did or nobody did, and knowing what it must. */
  lemma MovedIsLocked(s: State, s': State, w: nat, pc: Pc)
    requires Locked(s) && w < |s.workers| && s'.workers == s.workers[w := pc] && s'.shutdown == s.shutdown
    requires HoldsLock(pc) ==> HoldsLock(s.workers[w]) || LockFree(s)
    requires s'.queue != s.queue ==> HoldsLock(s.workers[w]) && !HoldsLock(pc)
    requires (pc.Sleepy? ==> s'.queue == []) && (pc.Past? ==> s'.queue != [] || s'.shutdown) && (pc.Exited? ==> s'.shutdown)
    ensures Locked(s')
  {
  }

  lemma StepKeepsLocked(s: State, step: Step)
    requires Inv(s) && Enabled(s, step)
    ensures Locked(Apply(s, step))
  {
    var s' := Apply(s, step);
    if step.Submit? || step.SetShutdown? || step.Broadcast? {
      assert |s'.workers| == |s.workers|;
    } else if step.Signal? {
      if SomeWaiting(s) {
        MovedIsLocked(s, s', step.woken, Woken);
      }
    } else {
      WorkerStepIsLocked(s, step, step.w);
    }
  }

  lemma WorkerStepIsLocked(s: State, step: Step, w: nat)
    requires Inv(s) && Enabled(s, step) && !step.Submit? && !step.Signal? && !step.SetShutdown? && !step.Broadcast? && step.w == w
    ensures Locked(Apply(s, step))
  {
    var s' := Apply(s, step);
    MovedIsLocked(s, s', w, s'.workers[w]);
  }

  /** One worker moved: it is enough that it was not made idle, and what it freed covers what was queued. */
  lemma MovedIsCovered(s: State, s': State, w: nat, pc: Pc)
    requires Covered(s) && w < |s.workers| && s'.workers == s.workers[w := pc] && s'.shutdown == s.shutdown
    requires Idle(pc) ==> Idle(s.workers[w])
    requires |s'.queue| - s'.pending - Free(pc) <= |s.queue| - s.pending - Free(s.workers[w])
    ensures Covered(s')
  {
    SumUpdate(s.workers, w, pc, Free);
    if x :| 0 <= x < |s'.workers| && Idle(s'.workers[x]) {
      assert Idle(s.workers[x]);
    }
  }

  lemma {:induction false} FreeCount(ws: seq<Pc>)
    ensures Sum(ws, Free) >= 0
  {
    if ws != [] {
      FreeCount(ws[1..]);
    }
  }

  lemma StepKeepsCovered(s: State, step: Step)
    requires Inv(s) && Enabled(s, step)
    ensures Covered(Apply(s, step))
  {
    var s' := Apply(s, step);
    match step {
      case Lock(w) => MovedIsCovered(s, s', w, Testing);
      case Test(w) =>
        if s.size == 0 && !s.shutdown { FreeCount(s'.workers); } else { MovedIsCovered(s, s', w, Past); }
      case Wait(w) => MovedIsCovered(s, s', w, Waiting);
      case Proceed(w) =>
        if !s.shutdown {
          MovedIsCovered(s, s', w, Working(s.queue[0]));
        }
      case Done(w) => MovedIsCovered(s, s', w, AtTop);
      case Spurious(w) => MovedIsCovered(s, s', w, Woken);
      case Submit(_) =>
      case Signal(woken) =>
        if SomeWaiting(s) {
          MovedIsCovered(s, s', woken, Woken);
        } else {
          FreeCount(s.workers);
        }
      case SetShutdown =>
      case Broadcast =>
    }
  }

  // ---------- whole runs ----------

  lemma InitInv(s: State)
    requires Init(s)
    ensures Inv(s)
  {
  }

  lemma {:induction false} RunKeepsInv(states: seq<State>, steps: seq<Step>, i: nat)
    requires IsRun(states, steps) && i < |states|
    ensures Inv(states[i])
  {
    hide Init, Enabled, Apply, Queued, Locked, Covered;
    if i == 0 {
      InitInv(states[0]);
    } else {
      var s, step := states[i - 1], steps[i - 1];
      RunKeepsInv(states, steps, i - 1);
      StepKeepsQueued(s, step);
      StepKeepsLocked(s, step);
      StepKeepsCovered(s, step);
    }
  }

  /** Jobs are dispatched in the order they were submitted, none lost, and the pool's count is right. */
  lemma DispatchedInOrder(states: seq<State>, steps: seq<Step>, i: nat)
    requires IsRun(states, steps) && i < |states|
    ensures states[i].submitted == states[i].dispatched + states[i].queue
    ensures states[i].size == |states[i].queue|
  {
    RunKeepsInv(states, steps, i);
  }

  /** The pool's own asserts hold: a worker that goes on past the wait finds a job, unless shutting down. */
  lemma AssertsHold(states: seq<State>, steps: seq<Step>, i: nat)
    requires IsRun(states, steps) && i < |steps| && steps[i].Proceed? && !states[i].shutdown
    ensures states[i].size != 0 && states[i].queue != []
    ensures states[i + 1].workers[steps[i].w] == Working(states[i].queue[0])
  {
    RunKeepsInv(states, steps, i);
    assert states[i].workers[steps[i].w].Past?;
  }

  /** Outside shutdown no worker idles while a job has neither a free worker nor a signal of its own to come. */
  lemma NoJobOverlooked(states: seq<State>, steps: seq<Step>, i: nat)
    requires IsRun(states, steps) && i < |states| && !states[i].shutdown
    ensures (exists w :: 0 <= w < |states[i].workers| && Idle(states[i].workers[w])) ==>
              |states[i].queue| <= states[i].pending + Sum(states[i].workers, Free)
    ensures states[i].queue != [] && states[i].workers != [] ==>
              states[i].pending > 0 || exists w :: 0 <= w < |states[i].workers| && !states[i].workers[w].Waiting?
                                                   && !states[i].workers[w].Exited?
  {
    var s := states[i];
    RunKeepsInv(states, steps, i);
    if s.queue != [] && s.workers != [] && s.pending == 0 && s.workers[0].Waiting? {
      assert Idle(s.workers[0]);
      var w := SumFree(s.workers);
    }
  }

  lemma {:induction false} SumFree(ws: seq<Pc>) returns (w: nat)
    requires Sum(ws, Free) > 0
    ensures w < |ws| && Free(ws[w]) == 1
  {
    if Free(ws[0]) == 1 {
      w := 0;
    } else {
      w := SumFree(ws[1..]);
      w := w + 1;
    }
  }

  // ---------- shutting down ----------

  lemma {:induction false} ShutdownStays(states: seq<State>, steps: seq<Step>, i: nat, k: nat)
    requires IsRun(states, steps) && i <= k < |states| && states[i].shutdown
    ensures states[k].shutdown
  {
    if i < k {
      ShutdownStays(states, steps, i, k - 1);
    }
  }

  lemma ShutdownStep(s: State, step: Step)
    requires Inv(s) && Enabled(s, step) && s.shutdown
    ensures var s' := Apply(s, step);
            && s'.shutdown && s'.dispatched == s.dispatched
            && (step.Proceed? ==> Is(s', step.w, Exited))
            && (forall w :: 0 <= w < |s.workers| && s.workers[w].Exited? ==> Is(s', w, Exited))
  {
  }

  /**
    With the flag set no further job is taken, a worker that goes on past the wait exits, and
    one that has exited does nothing more.
   */
  lemma {:induction false} NothingTakenAfterShutdown(states: seq<State>, steps: seq<Step>, i: nat, k: nat)
    requires IsRun(states, steps) && i <= k < |states| && states[i].shutdown
    ensures states[k].shutdown && states[k].dispatched == states[i].dispatched
    ensures k < |steps| && steps[k].Proceed? ==> Is(states[k + 1], steps[k].w, Exited)
    ensures forall w :: 0 <= w < |states[i].workers| && states[i].workers[w].Exited? ==> Is(states[k], w, Exited)
  {
    hide Apply, Init, Enabled, Queued, Locked, Covered;
    RunKeepsInv(states, steps, k);
    if i < k {
      NothingTakenAfterShutdown(states, steps, i, k - 1);
      RunKeepsInv(states, steps, k - 1);
      ShutdownStep(states[k - 1], steps[k - 1]);
    }
    if k < |steps| {
      ShutdownStep(states[k], steps[k]);
    }
  }

  /** Once the flag is set nobody goes idle, and a broadcast leaves only those not yet waiting. */
  lemma IdleWasIdle(s: State, step: Step, w: nat)
    requires Enabled(s, step) && s.shutdown && w < |Apply(s, step).workers| && Idle(Apply(s, step).workers[w])
    ensures w < |s.workers| && Idle(s.workers[w]) && (step.Broadcast? ==> s.workers[w].Sleepy?)
  {
  }

  /** After the broadcast of a shutdown only a worker it caught between its test and its wait can be found waiting. */
  lemma {:induction false} OnlySleepyMissBroadcast(states: seq<State>, steps: seq<Step>, i: nat, k: nat, w: nat)
    requires IsRun(states, steps) && i < |steps| && steps[i].Broadcast? && i < k < |states|
    requires w < |states[k].workers| && Idle(states[k].workers[w])
    ensures w < |states[i].workers| && states[i].workers[w].Sleepy?
  {
    hide Apply, Init, Idle;
    if k == i + 1 {
      IdleWasIdle(states[i], steps[i], w);
    } else {
      ShutdownStays(states, steps, i, k - 1);
      IdleWasIdle(states[k - 1], steps[k - 1], w);
      OnlySleepyMissBroadcast(states, steps, i, k - 1, w);
    }
  }

  /** Such a worker can always go on to wait, and then only a stray wake-up or a signal frees it. */
  lemma SleepyCanMissBroadcast(s: State, w: nat)
    requires Is(s, w, Sleepy) && s.shutdown
    ensures Enabled(s, Broadcast) && Enabled(Apply(s, Broadcast), Wait(w))
    ensures Is(Apply(Apply(s, Broadcast), Wait(w)), w, Waiting)
  {
  }

  /** A pool of one worker shut down that way: flag set, broadcast issued, nothing pending, the worker waiting. */
  lemma LostBroadcast() returns (states: seq<State>, steps: seq<Step>)
    ensures IsRun(states, steps) && steps == [Lock(0), Test(0), SetShutdown, Broadcast, Wait(0)]
    ensures states[5] == State([Waiting], [], 0, 0, true, [], [])
  {
    var testing := State([Testing], [], 0, 0, false, [], []);
    var sleepy := State([Sleepy], [], 0, 0, false, [], []);
    var missed := sleepy.(shutdown := true);
    states := [testing.(workers := [AtTop]), testing, sleepy, missed, missed, missed.(workers := [Waiting])];
    steps := [Lock(0), Test(0), SetShutdown, Broadcast, Wait(0)];
    assert Apply(states[3], Broadcast).workers == [Sleepy];
  }
}

/** The pool's queue of jobs in place: a list with a head pointer only, and a separate count. */
module ThreadPoolQueue {

  class Worker {
    const job: nat
    var next: Worker?

    constructor (job: nat)
      ensures this.job == job && next == null
    {
      this.job := job;
      next := null;
    }
  }

  class Pool {
    var queueHead: Worker?
    var currQueueSize: nat
    ghost var items: seq<Worker>

    ghost predicate Valid()
      reads `queueHead, `currQueueSize, `items, items`next
    {
      && currQueueSize == |items|
      && queueHead == Link(items, 0)
      && (forall i, j :: 0 <= i < j < |items| ==> items[i] != items[j])
      && (forall i {:trigger items[i].next} :: 0 <= i < |items| ==> items[i].next == Link(items, i + 1))
    }

    ghost function Jobs(): (jobs: seq<nat>)
      reads `items
    {
      JobsOf(items)
    }

    constructor ()
      ensures Valid() && Jobs() == []
    {
      queueHead, currQueueSize, items := null, 0, [];
    }

    /** The locked region of a submission: walk to the last entry and link the new one behind it. */
    method AddWorker(job: nat)
      requires Valid()
      modifies `queueHead, `currQueueSize, `items, items`next
      ensures Valid() && Jobs() == old(Jobs()) + [job] && currQueueSize == old(currQueueSize) + 1
    {
      var newWorker := new Worker(job);
      var worker := queueHead;
      if worker != null {
        ghost var k := 0;
        while worker.next != null
          invariant 0 <= k < |items| && worker == items[k]
          decreases |items| - k
          modifies {}
        {
          worker := worker.next;
          k := k + 1;
        }
        worker.next := newWorker;
      } else {
        queueHead := newWorker;
      }
      assert queueHead != null;
      items := items + [newWorker];
      currQueueSize := currQueueSize + 1;
    }

    /** The locked region of a worker that goes on past the wait: the first job, if the count says there is one. */
    method TakeWorker() returns (worker: Worker?)
      requires Valid()
      modifies `queueHead, `currQueueSize, `items
      ensures Valid()
      ensures old(currQueueSize) == 0 ==> worker == null && items == old(items)
      ensures old(currQueueSize) != 0 ==>
                worker != null && [worker.job] + Jobs() == old(Jobs()) && currQueueSize == old(currQueueSize) - 1
    {
      if currQueueSize == 0 {
        return null;
      }
      assert queueHead != null;
      currQueueSize := currQueueSize - 1;
      worker := queueHead;
      queueHead := worker.next;
      items := items[1..];
    }

    /** The jobs nobody took, freed one by one when the pool goes. */
    method FreeQueue() returns (ghost freed: seq<Worker>)
      requires Valid()
      modifies `queueHead
      ensures queueHead == null && freed == items
    {
      freed := [];
      while queueHead != null
        invariant |freed| <= |items| && freed == items[..|freed|] && queueHead == Link(items, |freed|)
        decreases |items| - |freed|
      {
        var head := queueHead;
        queueHead := queueHead.next;
        freed := freed + [head];
      }
    }
  }

  ghost function JobsOf(items: seq<Worker>): seq<nat> {
    seq(|items|, i requires 0 <= i < |items| => items[i].job)
  }

  ghost function Link(items: seq<Worker>, k: int): Worker? {
    if 0 <= k < |items| then items[k] else null
  }
}
