/**
  More than one thread: while work is queued and a thread sleeps, another one is coming to
  the queue, so that a long handler never keeps the rest of the queue waiting.
 */
module ProactorAttend {
  import opened Ledger
  import opened Proactor
  import opened ProactorLedger
  import opened ProactorWake
  import opened ProactorRuns

  /** At the loop, or waiting with its event up: its next step is to look at the queue. */
  predicate Coming(u: Wakeups, ths: seq<Thread>, t: int) {
    0 <= t < |ths| && (ths[t].pc.AtLoop? || (ths[t].pc.Waiting? && t in u.signalled))
  }

  ghost predicate SomeoneComing(u: Wakeups, ths: seq<Thread>) {
    exists t :: Coming(u, ths, t)
  }

  predicate Sleeps(u: Wakeups, ths: seq<Thread>, t: int) {
    0 <= t < |ths| && Asleep(u, t, ths[t].pc)
  }

  ghost predicate SomeoneSleeps(u: Wakeups, ths: seq<Thread>) {
    exists t :: Sleeps(u, ths, t)
  }

  ghost predicate Attended(w: Work, u: Wakeups, ths: seq<Thread>) {
    !u.stopped && !w.oneThread && !w.opQue.Empty() && SomeoneSleeps(u, ths) ==> SomeoneComing(u, ths)
  }

  /** Waking an idle thread, if there is one, brings someone to the queue; if there is none nobody sleeps once interrupted. */
  lemma WakingIdleAttends(u: Wakeups, tokens: nat, ths: seq<Thread>)
    requires Base(u, tokens, ths) && (u.idle != [] || u.taskInterrupted)
    ensures SomeoneSleeps(WakeOneIdle(u), ths) ==> SomeoneComing(WakeOneIdle(u), ths)
  {
    if u.idle != [] {
      assert u.idle[0] in u.idle;
      assert Coming(WakeOneIdle(u), ths, u.idle[0]);
    } else {
      InterruptedNobodySleeps(u, tokens, ths);
    }
  }

  lemma InterruptedNobodySleeps(u: Wakeups, tokens: nat, ths: seq<Thread>)
    requires Base(u, tokens, ths) && u.idle == [] && u.taskInterrupted
    ensures !SomeoneSleeps(u, ths)
  {
  }

  lemma WakingOneAttends(u: Wakeups, tokens: nat, ths: seq<Thread>)
    requires Base(u, tokens, ths)
    ensures SomeoneSleeps(WakeOneThread(u), ths) ==> SomeoneComing(WakeOneThread(u), ths)
  {
    if u.idle != [] || u.taskInterrupted {
      WakingIdleAttends(u, tokens, ths);
    } else {
      HoldersCount(ths);
      assert u.hasPoller;
      assert forall t :: !Sleeps(Interrupt(u), ths, t);
    }
  }

  lemma MoverComes(w: Work, u: Wakeups, ths: seq<Thread>, t: Tid)
    requires Coming(u, ths, t)
    ensures Attended(w, u, ths)
  {
  }

  /** A thread moved that was not coming, or still is, and did not fall asleep; the queue was not filled. */
  lemma QuietStepAttends(w: Work, w': Work, u: Wakeups, ths: seq<Thread>, t: Tid, th: Thread)
    requires Attended(w, u, ths) && t < |ths| && w'.oneThread == w.oneThread && (w.opQue.Empty() ==> w'.opQue.Empty())
    requires Coming(u, ths, t) ==> Coming(u, ths[t := th], t)
    requires Sleeps(u, ths[t := th], t) ==> Sleeps(u, ths, t)
    ensures Attended(w', u, ths[t := th])
  {
    var ths' := ths[t := th];
    assert forall x :: Sleeps(u, ths', x) ==> Sleeps(u, ths, x);
    assert forall x :: Coming(u, ths, x) ==> Coming(u, ths', x);
  }

  lemma TakingTokenAttends(s: State, t: Tid)
    requires Base(s.wake, s.work.opQue.tokens, s.threads) && Enabled(s, LoopStep(t, TakeToken))
    ensures var s' := Apply(s, LoopStep(t, TakeToken)); Attended(s'.work, s'.wake, s'.threads)
  {
    hide Base, WakeOneIdle, Queue.Empty;
    var l' := LoopWork(Local(s.work, s.threads[t]), TakeToken);
    var u := s.wake.(taskInterrupted := !l'.th.pc.block, pollerWoken := false);
    TakeTokenKeepsBase(s.wake, s.work.opQue.tokens, s.threads, t, l'.th);
    if !l'.w.opQue.Empty() {
      WakingIdleAttends(u, l'.w.opQue.tokens, s.threads[t := l'.th]);
    }
  }

  lemma TakingWorkAttends(s: State, t: Tid, move: LoopMove)
    requires Base(s.wake, s.work.opQue.tokens, s.threads) && Enabled(s, LoopStep(t, move)) && (move.TakeOp? || move.TakeSet?)
    ensures var s' := Apply(s, LoopStep(t, move)); Attended(s'.work, s'.wake, s'.threads)
  {
    hide Base, WakeOneThread, Queue.Empty;
    var l' := LoopWork(Local(s.work, s.threads[t]), move);
    SamePlaceKeepsBase(s.wake, l'.w.opQue.tokens, s.threads, t, l'.th);
    WakingOneAttends(s.wake, l'.w.opQue.tokens, s.threads[t := l'.th]);
  }

  lemma LoopStepAttends(s: State, t: Tid, move: LoopMove)
    requires Base(s.wake, s.work.opQue.tokens, s.threads) && Attended(s.work, s.wake, s.threads)
    requires Enabled(s, LoopStep(t, move))
    ensures var s' := Apply(s, LoopStep(t, move)); Attended(s'.work, s'.wake, s'.threads)
  {
    hide Base, Queue.Empty, WakeOneIdle, WakeOneThread;
    var s' := Apply(s, LoopStep(t, move));
    match move {
      case TakeToken => TakingTokenAttends(s, t);
      case TakeOp(_) => TakingWorkAttends(s, t, move);
      case TakeSet(_) => TakingWorkAttends(s, t, move);
      case EnterRun =>
        if s.work.outstanding == 0 {
          QuietStepAttends(s.work, s'.work, s.wake, s.threads, t, s'.threads[t]);
        } else {
          MoverComes(s'.work, s'.wake, s'.threads, t);
        }
      case Wake => MoverComes(s'.work, s'.wake, s'.threads, t);
      case LeaveRun =>
      case Sleep =>
    }
  }

  lemma FinishStepAttends(s: State, t: Tid, move: FinishMove)
    requires Attended(s.work, s.wake, s.threads) && Enabled(s, FinishStep(t, move))
    ensures var s' := Apply(s, FinishStep(t, move)); Attended(s'.work, s'.wake, s'.threads)
  {
    hide Queue.Empty;
    var s' := Apply(s, FinishStep(t, move));
    if move.TaskCleanup? || move.WorkMerge? {
      MoverComes(s'.work, s'.wake, s'.threads, t);
    } else {
      QuietStepAttends(s.work, s'.work, s.wake, s.threads, t, s'.threads[t]);
    }
  }

  lemma PostStepAttends(s: State, t: Tid, move: PostMove)
    requires Base(s.wake, s.work.opQue.tokens, s.threads) && Attended(s.work, s.wake, s.threads)
    requires Enabled(s, PostStep(t, move))
    ensures var s' := Apply(s, PostStep(t, move)); Attended(s'.work, s'.wake, s'.threads)
  {
    hide Base, Queue.Empty, WakeOneThread;
    var s' := Apply(s, PostStep(t, move));
    if move.Enqueue? || move.PostDeferred? {
      SamePlaceKeepsBase(s.wake, s.work.opQue.tokens, s.threads, t, s'.threads[t]);
      WakingOneAttends(s.wake, s.work.opQue.tokens, s'.threads);
    } else {
      QuietStepAttends(s.work, s'.work, s.wake, s.threads, t, s'.threads[t]);
    }
  }

  lemma InitTaskAttends(s: State, t: Tid)
    requires Base(s.wake, s.work.opQue.tokens, s.threads) && Enabled(s, ControlStep(t, ControlMove.InitTask))
    ensures var s' := Apply(s, ControlStep(t, ControlMove.InitTask)); Attended(s'.work, s'.wake, s'.threads)
  {
    hide WakeOneThread, Queue.Empty;
    HoldersCount(s.threads);
    var s' := Apply(s, ControlStep(t, ControlMove.InitTask));
    assert s'.threads == s.threads;
    WakingOneAttends(s.wake.(hasPoller := true), s'.work.opQue.tokens, s.threads);
  }

  lemma ControlStepAttends(s: State, t: Tid, move: ControlMove)
    requires Base(s.wake, s.work.opQue.tokens, s.threads) && Attended(s.work, s.wake, s.threads)
    requires Enabled(s, ControlStep(t, move))
    ensures var s' := Apply(s, ControlStep(t, move)); Attended(s'.work, s'.wake, s'.threads)
  {
    var s' := Apply(s, ControlStep(t, move));
    match move {
      case InitTask => InitTaskAttends(s, t);
      case BeginStop => QuietStepAttends(s.work, s'.work, s.wake, s.threads, t, s'.threads[t]);
      case DoStop =>
      case Reset =>
        assert s'.threads == s.threads;
        if s.wake.stopped {
          InterruptedNobodySleeps(s.wake, s.work.opQue.tokens, s.threads);
          assert forall x :: Sleeps(s'.wake, s'.threads, x) ==> Sleeps(s.wake, s.threads, x);
        } else {
          assert s'.wake == s.wake;
        }
    }
  }

  lemma StepKeepsAttended(s: State, step: Step)
    requires Base(s.wake, s.work.opQue.tokens, s.threads) && Attended(s.work, s.wake, s.threads) && Enabled(s, step)
    ensures var s' := Apply(s, step); Attended(s'.work, s'.wake, s'.threads)
  {
    var s' := Apply(s, step);
    hide Base, Attended, LoopWork, FinishWork, PostWork, ControlWork, IoSet, LoopWake, FinishWake, PostWake, ControlWake;
    match step {
      case LoopStep(t, move) => LoopStepAttends(s, t, move);
      case FinishStep(t, move) => FinishStepAttends(s, t, move);
      case PostStep(t, move) => PostStepAttends(s, t, move);
      case ControlStep(t, move) => ControlStepAttends(s, t, move);
      case IoStep(t, d, move) => QuietStepAttends(s.work, s'.work, s.wake, s.threads, t, s'.threads[t]);
      case NewSet(_) =>
    }
  }

  lemma NobodySleepsYet(s: State)
    requires Init(s)
    ensures Attended(s.work, s.wake, s.threads)
  {
  }

  /**
    In every reachable state, without a stop and with more than one thread promised, queued
    work and a sleeping thread, idle or in the blocking reactor call, imply a thread at the
    loop or waiting with its event up; one that is busy, or holds the token, does not count.
   */
  lemma SleeperMeansSomeoneComing(states: seq<State>, steps: seq<Step>, i: nat)
    requires IsRun(states, steps) && i < |states|
    requires !states[i].wake.stopped && !states[i].work.oneThread && !states[i].work.opQue.Empty()
    requires exists t :: Sleeps(states[i].wake, states[i].threads, t)
    ensures exists t :: Coming(states[i].wake, states[i].threads, t)
  {
    AttendedInRuns(states, steps, i);
  }

  lemma {:induction false} AttendedInRuns(states: seq<State>, steps: seq<Step>, i: nat)
    requires IsRun(states, steps) && i < |states|
    ensures Attended(states[i].work, states[i].wake, states[i].threads)
  {
    hide Attended, Apply, Enabled, Init;
    if i == 0 {
      NobodySleepsYet(states[0]);
    } else {
      AttendedInRuns(states, steps, i - 1);
      RunKeepsBase(states, steps, i - 1);
      StepKeepsAttended(states[i - 1], steps[i - 1]);
    }
  }

  lemma RunKeepsBase(states: seq<State>, steps: seq<Step>, i: nat)
    requires IsRun(states, steps) && i < |states|
    ensures Base(states[i].wake, states[i].work.opQue.tokens, states[i].threads)
  {
    hide Init, Enabled, Apply, Base, LedgerInv;
    RunKeepsInv(states, steps, i);
  }
}
