/** Ready descriptors: what the reactor reports is queued, waits in a private queue or was taken, never lost. */
module ProactorReady {
  import opened Ledger
  import opened Proactor
  import opened ProactorLedger
  import opened ProactorRuns

  /** What a step reports ready: only a return from the reactor does. */
  function Reports(step: Step): multiset<SetId> {
    if step.FinishStep? && step.finish.ReactorReturn? then step.finish.ready else multiset{}
  }

  /** What a step takes to do its I/O. */
  function Takes(step: Step): multiset<SetId> {
    if step.LoopStep? && step.loop.TakeSet? then multiset{step.loop.d} else multiset{}
  }

  function PrivateSets(th: Thread): multiset<SetId> {
    th.privQ.sets
  }

  /** The ready descriptors in the shared work and in the moving thread's private queue. */
  function LocalSets(l: Local): multiset<SetId> {
    l.w.opQue.sets + PrivateSets(l.th)
  }

  lemma TakeSetCarries(l: Local, u: Wakeups, t: Tid, d: SetId)
    requires LoopEnabled(l.w, u, t, l.th, TakeSet(d))
    ensures LocalSets(LoopWork(l, TakeSet(d))) + multiset{d} == LocalSets(l)
  {
    TakenAndBack(l.w.opQue.sets, PrivateSets(l.th), d);
  }

  lemma TakenAndBack(a: multiset<SetId>, b: multiset<SetId>, d: SetId)
    requires d in a
    ensures a - multiset{d} + b + multiset{d} == a + b
  {
  }

  lemma EnterRunCarries(l: Local, u: Wakeups, t: Tid)
    requires ThreadOk(l.th) && LoopEnabled(l.w, u, t, l.th, EnterRun)
    ensures LocalSets(LoopWork(l, EnterRun)) == LocalSets(l)
  {
    hide CallOps, PcOps;
    assert |l.th.privQ.sets| == 0;
  }

  lemma LoopMoveCarries(l: Local, u: Wakeups, t: Tid, move: LoopMove)
    requires ThreadOk(l.th) && LoopEnabled(l.w, u, t, l.th, move)
    ensures LocalSets(LoopWork(l, move)) + Takes(LoopStep(t, move)) == LocalSets(l)
  {
    hide ThreadOk;
    match move {
      case TakeSet(d) => TakeSetCarries(l, u, t, d);
      case EnterRun => EnterRunCarries(l, u, t);
      case LeaveRun =>
      case Sleep =>
      case Wake =>
      case TakeToken =>
      case TakeOp(_) =>
    }
  }

  lemma FinishMoveCarries(l: Local, t: Tid, move: FinishMove)
    requires FinishEnabled(l.th, move)
    ensures LocalSets(FinishWork(l, move)) == LocalSets(l) + Reports(FinishStep(t, move))
  {
  }

  lemma PostMoveCarries(l: Local, move: PostMove)
    requires PostEnabled(l.w, l.th, move)
    ensures LocalSets(PostWork(l, move)) == LocalSets(l)
  {
  }

  lemma ControlMoveCarries(l: Local, move: ControlMove)
    ensures LocalSets(ControlWork(l, move)) == LocalSets(l)
  {
  }

  lemma IoMoveCarries(l: Local, d: SetId, ds: OpSet, move: IoMove)
    requires IoEnabled(l.w, l.th, d, ds, move)
    ensures LocalSets(IoWork(l, d, ds, move)) == LocalSets(l)
  {
    hide StartOutcome, IoDone, QueuedOps;
  }

  /** Ready descriptors in the shared queue and in all private ones. */
  ghost function Ready(s: State): multiset<SetId> {
    s.work.opQue.sets + Union(s.threads, PrivateSets)
  }

  lemma ThreadStepCarries(s: State, s': State, t: Tid, out: multiset<SetId>, into: multiset<SetId>)
    requires t < |s.threads| && |s'.threads| == |s.threads| && s'.threads == s.threads[t := s'.threads[t]]
    requires LocalSets(Local(s'.work, s'.threads[t])) + out == LocalSets(Local(s.work, s.threads[t])) + into
    ensures Ready(s') + out == Ready(s) + into
  {
    UnionUpdate(s.threads, t, s'.threads[t], PrivateSets);
    var all, all', q, q' := Union(s.threads, PrivateSets), Union(s'.threads, PrivateSets), s.work.opQue.sets, s'.work.opQue.sets;
    forall d: SetId ensures (q' + all' + out)[d] == (q + all + into)[d] {
      assert (q' + PrivateSets(s'.threads[t]) + out)[d] == (q + PrivateSets(s.threads[t]) + into)[d];
    }
  }

  lemma StepCarries(s: State, step: Step)
    requires LedgerInv(s) && Enabled(s, step)
    ensures Ready(Apply(s, step)) + Takes(step) == Ready(s) + Reports(step)
  {
    hide LocalSets, Ready, LoopWork, FinishWork, PostWork, ControlWork, IoWork, IoSet, LoopWake, FinishWake, PostWake,
      ControlWake, ThreadOk, Balanced, Conserved;
    var s' := Apply(s, step);
    var l := Local(s.work, s.threads[step.t]);
    match step {
      case LoopStep(t, move) =>
        LoopMoveCarries(l, s.wake, t, move);
        ThreadStepCarries(s, s', t, Takes(step), multiset{});
      case FinishStep(t, move) =>
        FinishMoveCarries(l, t, move);
        ThreadStepCarries(s, s', t, multiset{}, Reports(step));
      case PostStep(t, move) =>
        PostMoveCarries(l, move);
        ThreadStepCarries(s, s', t, multiset{}, multiset{});
      case ControlStep(t, move) =>
        ControlMoveCarries(l, move);
        ThreadStepCarries(s, s', t, multiset{}, multiset{});
      case IoStep(t, d, move) =>
        IoMoveCarries(l, d, s.sets[d], move);
        ThreadStepCarries(s, s', t, multiset{}, multiset{});
      case NewSet(_) => SameReady(s, s');
    }
  }

  lemma SameReady(s: State, s': State)
    requires s'.work == s.work && s'.threads == s.threads
    ensures Ready(s') == Ready(s)
  {
  }

  lemma {:induction false} NothingPrivateYet(ths: seq<Thread>)
    requires forall t :: 0 <= t < |ths| ==> ths[t] == IDLE_THREAD
    ensures Union(ths, PrivateSets) == multiset{}
  {
    if ths != [] {
      assert ths[0] == IDLE_THREAD;
      NothingPrivateYet(ths[1..]);
    }
  }

  lemma Regrouped(reports: multiset<SetId>, takes: multiset<SetId>, before: multiset<SetId>, after: multiset<SetId>,
                  more: multiset<SetId>, taken: multiset<SetId>)
    requires reports == before + takes && after + taken == before + more
    ensures reports + more == after + (takes + taken)
  {
    assert reports + more == (before + more) + takes;
    assert after + (takes + taken) == (after + taken) + takes;
  }

  lemma NoneReady(s: State)
    requires Init(s)
    ensures Ready(s) == multiset{}
  {
    NothingPrivateYet(s.threads);
  }

  lemma {:induction false} ReportsAreCarried(states: seq<State>, steps: seq<Step>, i: nat)
    requires IsRun(states, steps) && i < |states|
    ensures Union(steps[..i], Reports) == Ready(states[i]) + Union(steps[..i], Takes)
  {
    hide Ready, Enabled, Apply, Init, LedgerInv, Reports, Takes;
    if i == 0 {
      NoneReady(states[0]);
    } else {
      var s, step := states[i - 1], steps[i - 1];
      ReportsAreCarried(states, steps, i - 1);
      RunKeepsLedger(states, steps, i - 1);
      StepCarries(s, step);
      assert steps[..i] == steps[..i - 1] + [step];
      UnionAppend(steps[..i - 1], step, Reports);
      UnionAppend(steps[..i - 1], step, Takes);
      Regrouped(Union(steps[..i - 1], Reports), Union(steps[..i - 1], Takes), Ready(s), Ready(states[i]),
                Reports(step), Takes(step));
    }
  }

  /**
    In every reachable state the descriptors the reactor has reported, each as often as it
    was reported, are those queued, those in a private queue and those taken for their I/O.
   */
  lemma ReadyAccounting(states: seq<State>, steps: seq<Step>, i: nat)
    requires IsRun(states, steps) && i < |states|
    ensures Union(steps[..i], Reports)
         == states[i].work.opQue.sets + Union(states[i].threads, PrivateSets) + Union(steps[..i], Takes)
  {
    hide Init, Enabled, Apply;
    ReportsAreCarried(states, steps, i);
  }
}
