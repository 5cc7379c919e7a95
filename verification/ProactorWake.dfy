/** The reactor token, the idle stack and the wake-ups: who may sleep while work is queued. */
module ProactorWake {
  import opened Ledger
  import opened Proactor
  import opened ProactorLedger

  // ---------- the token, the flags and the idle stack ----------

  /** One for a thread that holds the reactor token. */
  function Holder(th: Thread): int {
    if th.pc.InReactor? || th.pc.ReactorExit? then 1 else 0
  }

  /** The token is queued or held, in all exactly once as soon as there is a reactor. */
  ghost predicate TokenOk(u: Wakeups, tokens: nat, ths: seq<Thread>) {
    tokens + Sum(ths, Holder) == if u.hasPoller then 1 else 0
  }

  /** The interrupted flag is down only while a thread holds the token, and tells whether that thread can block. */
  ghost predicate FlagOk(u: Wakeups, ths: seq<Thread>) {
    && (forall t :: 0 <= t < |ths| && ths[t].pc.InReactor? ==>
                      (u.taskInterrupted <==> !ths[t].pc.block || u.pollerWoken))
    && (!u.taskInterrupted ==> Sum(ths, Holder) > 0)
  }

  ghost predicate NoRepeats(q: seq<Tid>) {
    forall i, j :: 0 <= i < j < |q| ==> q[i] != q[j]
  }

  /** The idle stack holds exactly the waiting threads whose event is not signalled, each once. */
  ghost predicate IdleOk(u: Wakeups, ths: seq<Thread>) {
    && NoRepeats(u.idle)
    && (forall t :: t in u.idle ==> t < |ths|)
    && (forall t :: 0 <= t < |ths| ==> (t in u.idle <==> ths[t].pc.Waiting? && t !in u.signalled))
  }

  /** While stopped, nobody idles and nobody can block in the reactor. */
  ghost predicate StopOk(u: Wakeups) {
    u.stopped ==> u.idle == [] && u.taskInterrupted
  }

  ghost predicate Base(u: Wakeups, tokens: nat, ths: seq<Thread>) {
    TokenOk(u, tokens, ths) && FlagOk(u, ths) && IdleOk(u, ths) && StopOk(u)
  }

  lemma HoldersCount(ths: seq<Thread>)
    ensures Sum(ths, Holder) >= 0
    ensures forall i :: 0 <= i < |ths| ==> Holder(ths[i]) <= Sum(ths, Holder)
    ensures forall i, j :: 0 <= i < j < |ths| ==> Holder(ths[i]) + Holder(ths[j]) <= Sum(ths, Holder)
  {
    SumBounds(ths, Holder);
  }

  lemma WakeOneIdleKeepsBase(u: Wakeups, tokens: nat, ths: seq<Thread>)
    requires Base(u, tokens, ths)
    ensures Base(WakeOneIdle(u), tokens, ths)
  {
    if u.idle != [] {
      var u' := WakeOneIdle(u);
      forall i, j | 0 <= i < j < |u'.idle| ensures u'.idle[i] != u'.idle[j] {
        assert u.idle[i + 1] != u.idle[j + 1];
      }
      assert forall i :: 0 <= i < |u'.idle| ==> u'.idle[i] == u.idle[i + 1] != u.idle[0];
      assert forall t :: t in u.idle <==> t == u.idle[0] || t in u'.idle;
    }
  }

  lemma InterruptKeepsBase(u: Wakeups, tokens: nat, ths: seq<Thread>)
    requires Base(u, tokens, ths)
    ensures Base(Interrupt(u), tokens, ths)
  {
  }

  lemma WakeOneThreadKeepsBase(u: Wakeups, tokens: nat, ths: seq<Thread>)
    requires Base(u, tokens, ths)
    ensures Base(WakeOneThread(u), tokens, ths)
  {
    WakeOneIdleKeepsBase(u, tokens, ths);
    InterruptKeepsBase(u, tokens, ths);
  }

  lemma StopAllThreadsKeepsBase(u: Wakeups, tokens: nat, ths: seq<Thread>)
    requires Base(u, tokens, ths)
    ensures Base(StopAllThreads(u), tokens, ths)
  {
    HoldersCount(ths);
  }

  // ---------- awake and asleep ----------

  /** In the idle wait with its event down, or in a blocking reactor call nobody interrupted. */
  predicate Asleep(u: Wakeups, t: Tid, pc: Pc) {
    || (pc.Waiting? && t !in u.signalled)
    || (pc.InReactor? && pc.block && !u.pollerWoken)
  }

  /** Inside run and not asleep. */
  predicate Up(u: Wakeups, ths: seq<Thread>, t: int) {
    0 <= t < |ths| && !ths[t].pc.Outside? && !Asleep(u, t, ths[t].pc)
  }

  ghost predicate SomeoneUp(u: Wakeups, ths: seq<Thread>) {
    exists t :: Up(u, ths, t)
  }

  predicate Inside(ths: seq<Thread>, t: int) {
    0 <= t < |ths| && !ths[t].pc.Outside?
  }

  ghost predicate SomeoneInside(ths: seq<Thread>) {
    exists t :: Inside(ths, t)
  }

  /** No lost wake-up: queued work is never left to sleeping threads alone. */
  ghost predicate Served(u: Wakeups, q: Queue, ths: seq<Thread>) {
    !u.stopped && !q.Empty() && SomeoneInside(ths) ==> SomeoneUp(u, ths)
  }

  lemma NobodyLeftAsleep(u: Wakeups, tokens: nat, ths: seq<Thread>)
    requires Base(u, tokens, ths) && u.idle == [] && u.taskInterrupted
    ensures forall t :: Inside(ths, t) ==> Up(u, ths, t)
  {
  }

  /** After wake_one_thread some thread inside run is up, whatever was asleep before. */
  lemma WakingWorks(u: Wakeups, tokens: nat, ths: seq<Thread>)
    requires Base(u, tokens, ths) && SomeoneInside(ths)
    ensures SomeoneUp(WakeOneThread(u), ths)
  {
    var u' := WakeOneThread(u);
    if u.idle != [] {
      assert u.idle[0] in u.idle;
      assert Up(u', ths, u.idle[0]);
    } else if u.taskInterrupted {
      NobodyLeftAsleep(u, tokens, ths);
    } else {
      var t := SumWitness(ths, Holder);
      HoldersCount(ths);
      assert Up(u', ths, t);
    }
  }

  // ---------- one step ----------

  ghost predicate WakeInv(s: State) {
    Base(s.wake, s.work.opQue.tokens, s.threads) && Served(s.wake, s.work.opQue, s.threads)
  }

  /** Replacing a thread's record by one that holds neither more nor less, waiting or not as before, keeps the base. */
  lemma SamePlaceKeepsBase(u: Wakeups, tokens: nat, ths: seq<Thread>, t: Tid, th: Thread)
    requires Base(u, tokens, ths) && t < |ths|
    requires Holder(th) == Holder(ths[t])
    requires th.pc.Waiting? ==> ths[t].pc.Waiting?
    requires ths[t].pc.Waiting? ==> th.pc.Waiting? || t in u.signalled
    requires th.pc.InReactor? ==> th.pc == ths[t].pc
    ensures Base(u, tokens, ths[t := th])
  {
    SumUpdate(ths, t, th, Holder);
  }

  lemma SleepKeepsBase(u: Wakeups, tokens: nat, ths: seq<Thread>, t: Tid, th: Thread)
    requires Base(u, tokens, ths) && t < |ths| && ths[t].pc.AtLoop? && th.pc.Waiting? && !u.stopped
    ensures Base(u.(idle := [t] + u.idle, signalled := u.signalled - {t}), tokens, ths[t := th])
  {
    SumUpdate(ths, t, th, Holder);
    var u', ths' := u.(idle := [t] + u.idle, signalled := u.signalled - {t}), ths[t := th];
    forall x | 0 <= x < |ths'| ensures x in u'.idle <==> ths'[x].pc.Waiting? && x !in u'.signalled {
      assert x in u'.idle <==> x == t || x in u.idle;
    }
  }

  lemma TakeTokenKeepsBase(u: Wakeups, tokens: nat, ths: seq<Thread>, t: Tid, th: Thread)
    requires Base(u, tokens, ths) && t < |ths| && ths[t].pc.AtLoop? && tokens > 0 && th.pc.InReactor? && !u.stopped
    ensures Base(u.(taskInterrupted := !th.pc.block, pollerWoken := false), tokens - 1, ths[t := th])
  {
    HoldersCount(ths);
    SumUpdate(ths, t, th, Holder);
  }

  lemma TaskCleanupKeepsBase(u: Wakeups, tokens: nat, ths: seq<Thread>, t: Tid, th: Thread)
    requires Base(u, tokens, ths) && t < |ths| && ths[t].pc.ReactorExit? && th.pc.AtLoop?
    ensures Base(u.(taskInterrupted := true), tokens + 1, ths[t := th])
  {
    HoldersCount(ths);
    HoldersCount(ths[t := th]);
    SumUpdate(ths, t, th, Holder);
  }

  lemma LoopStepKeepsBase(s: State, t: Tid, move: LoopMove)
    requires Base(s.wake, s.work.opQue.tokens, s.threads) && Enabled(s, LoopStep(t, move))
    ensures var s' := Apply(s, LoopStep(t, move)); Base(s'.wake, s'.work.opQue.tokens, s'.threads)
  {
    hide Base, WakeOneIdle, WakeOneThread, Queue.Empty;
    var l' := LoopWork(Local(s.work, s.threads[t]), move);
    var ths' := s.threads[t := l'.th];
    var tokens' := l'.w.opQue.tokens;
    if move.Sleep? {
      SleepKeepsBase(s.wake, tokens', s.threads, t, l'.th);
    } else if move.TakeToken? {
      TakeTokenKeepsBase(s.wake, s.work.opQue.tokens, s.threads, t, l'.th);
      WakeOneIdleKeepsBase(s.wake.(taskInterrupted := !l'.th.pc.block, pollerWoken := false), tokens', ths');
    } else {
      SamePlaceKeepsBase(s.wake, tokens', s.threads, t, l'.th);
      WakeOneThreadKeepsBase(s.wake, tokens', ths');
    }
  }

  lemma FinishStepKeepsBase(s: State, t: Tid, move: FinishMove)
    requires Base(s.wake, s.work.opQue.tokens, s.threads) && Enabled(s, FinishStep(t, move)) && ThreadOk(s.threads[t])
    ensures var s' := Apply(s, FinishStep(t, move)); Base(s'.wake, s'.work.opQue.tokens, s'.threads)
  {
    var l' := FinishWork(Local(s.work, s.threads[t]), move);
    if move.TaskCleanup? {
      TaskCleanupKeepsBase(s.wake, s.work.opQue.tokens, s.threads, t, l'.th);
    } else {
      SamePlaceKeepsBase(s.wake, l'.w.opQue.tokens, s.threads, t, l'.th);
    }
  }

  lemma PostStepKeepsBase(s: State, t: Tid, move: PostMove)
    requires Base(s.wake, s.work.opQue.tokens, s.threads) && Enabled(s, PostStep(t, move))
    ensures var s' := Apply(s, PostStep(t, move)); Base(s'.wake, s'.work.opQue.tokens, s'.threads)
  {
    var l' := PostWork(Local(s.work, s.threads[t]), move);
    SamePlaceKeepsBase(s.wake, l'.w.opQue.tokens, s.threads, t, l'.th);
    WakeOneThreadKeepsBase(s.wake, l'.w.opQue.tokens, s.threads[t := l'.th]);
  }

  lemma ControlStepKeepsBase(s: State, t: Tid, move: ControlMove)
    requires Base(s.wake, s.work.opQue.tokens, s.threads) && Enabled(s, ControlStep(t, move))
    ensures var s' := Apply(s, ControlStep(t, move)); Base(s'.wake, s'.work.opQue.tokens, s'.threads)
  {
    var l' := ControlWork(Local(s.work, s.threads[t]), move);
    var tokens, tokens', ths' := s.work.opQue.tokens, l'.w.opQue.tokens, s.threads[t := l'.th];
    SamePlaceKeepsBase(s.wake, tokens, s.threads, t, l'.th);
    match move {
      case InitTask =>
        HoldersCount(ths');
        WakeOneThreadKeepsBase(s.wake.(hasPoller := true), tokens', ths');
      case BeginStop =>
      case DoStop => StopAllThreadsKeepsBase(s.wake, tokens, ths');
      case Reset =>
    }
  }

  lemma IoStepKeepsBase(s: State, t: Tid, d: SetId, move: IoMove)
    requires Base(s.wake, s.work.opQue.tokens, s.threads) && Enabled(s, IoStep(t, d, move))
    ensures var s' := Apply(s, IoStep(t, d, move)); Base(s'.wake, s'.work.opQue.tokens, s'.threads)
  {
    var l' := IoWork(Local(s.work, s.threads[t]), d, s.sets[d], move);
    SamePlaceKeepsBase(s.wake, s.work.opQue.tokens, s.threads, t, l'.th);
  }

  lemma StepKeepsBase(s: State, step: Step)
    requires Base(s.wake, s.work.opQue.tokens, s.threads) && Enabled(s, step) && ThreadOk(s.threads[step.t])
    ensures var s' := Apply(s, step); Base(s'.wake, s'.work.opQue.tokens, s'.threads)
  {
    match step {
      case LoopStep(t, move) => LoopStepKeepsBase(s, t, move);
      case FinishStep(t, move) => FinishStepKeepsBase(s, t, move);
      case PostStep(t, move) => PostStepKeepsBase(s, t, move);
      case ControlStep(t, move) => ControlStepKeepsBase(s, t, move);
      case IoStep(t, d, move) => IoStepKeepsBase(s, t, d, move);
      case NewSet(_) =>
    }
  }

  /** Nothing that matters to waking changed: no thread moved in or out, the queue is empty only if it was. */
  lemma QuietStepServes(u: Wakeups, q: Queue, q': Queue, ths: seq<Thread>, t: Tid, th: Thread)
    requires Served(u, q, ths) && t < |ths| && th.pc == ths[t].pc && (q.Empty() ==> q'.Empty())
    ensures Served(u, q', ths[t := th])
  {
    var ths' := ths[t := th];
    assert forall x :: Inside(ths', x) <==> Inside(ths, x);
    assert forall x :: Up(u, ths', x) <==> Up(u, ths, x);
  }

  lemma MoverIsUp(u: Wakeups, q: Queue, ths: seq<Thread>, t: Tid)
    requires Up(u, ths, t)
    ensures Served(u, q, ths)
  {
  }

  lemma LoopStepServes(s: State, t: Tid, move: LoopMove)
    requires WakeInv(s) && Enabled(s, LoopStep(t, move))
    ensures var s' := Apply(s, LoopStep(t, move)); Served(s'.wake, s'.work.opQue, s'.threads)
  {
    var s' := Apply(s, LoopStep(t, move));
    if move.EnterRun? && s.work.outstanding == 0 {
      QuietStepServes(s.wake, s.work.opQue, s'.work.opQue, s.threads, t, s'.threads[t]);
    } else if !move.LeaveRun? && !move.Sleep? && !(move.TakeToken? && s'.work.opQue.Empty()) {
      MoverIsUp(s'.wake, s'.work.opQue, s'.threads, t);
    }
  }

  lemma FinishStepServes(s: State, t: Tid, move: FinishMove)
    requires Enabled(s, FinishStep(t, move))
    ensures var s' := Apply(s, FinishStep(t, move)); Served(s'.wake, s'.work.opQue, s'.threads)
  {
    var s' := Apply(s, FinishStep(t, move));
    MoverIsUp(s'.wake, s'.work.opQue, s'.threads, t);
  }

  lemma PostStepServes(s: State, t: Tid, move: PostMove)
    requires WakeInv(s) && Enabled(s, PostStep(t, move)) && ThreadOk(s.threads[t])
    ensures var s' := Apply(s, PostStep(t, move)); Served(s'.wake, s'.work.opQue, s'.threads)
  {
    var s' := Apply(s, PostStep(t, move));
    var l' := PostWork(Local(s.work, s.threads[t]), move);
    if move.Post? || move.Accept? {
      QuietStepServes(s.wake, s.work.opQue, s'.work.opQue, s.threads, t, l'.th);
    } else if move.PostDeferred? && Privately(s.work, s.threads[t]) {
      MoverIsUp(s'.wake, s'.work.opQue, s'.threads, t);
    } else if SomeoneInside(s'.threads) {
      SamePlaceKeepsBase(s.wake, s.work.opQue.tokens, s.threads, t, l'.th);
      WakingWorks(s.wake, s.work.opQue.tokens, s'.threads);
    }
  }

  lemma ControlStepServes(s: State, t: Tid, move: ControlMove)
    requires WakeInv(s) && Enabled(s, ControlStep(t, move))
    ensures var s' := Apply(s, ControlStep(t, move)); Served(s'.wake, s'.work.opQue, s'.threads)
  {
    var s' := Apply(s, ControlStep(t, move));
    match move {
      case InitTask =>
        assert s'.threads == s.threads;
        if SomeoneInside(s'.threads) {
          HoldersCount(s.threads);
          WakingWorks(s.wake.(hasPoller := true), s'.work.opQue.tokens, s'.threads);
        }
      case BeginStop =>
        QuietStepServes(s.wake, s.work.opQue, s'.work.opQue, s.threads, t, s'.threads[t]);
      case DoStop =>
      case Reset =>
        assert s'.threads == s.threads;
        if s.wake.stopped {
          NobodyLeftAsleep(s.wake, s.work.opQue.tokens, s.threads);
          assert forall x :: Inside(s.threads, x) ==> Up(s'.wake, s'.threads, x);
        }
    }
  }

  lemma IoStepServes(s: State, t: Tid, d: SetId, move: IoMove)
    requires WakeInv(s) && Enabled(s, IoStep(t, d, move))
    ensures var s' := Apply(s, IoStep(t, d, move)); Served(s'.wake, s'.work.opQue, s'.threads)
  {
    var s' := Apply(s, IoStep(t, d, move));
    if move.PerformIo? {
      MoverIsUp(s'.wake, s'.work.opQue, s'.threads, t);
    } else {
      QuietStepServes(s.wake, s.work.opQue, s'.work.opQue, s.threads, t, s'.threads[t]);
    }
  }

  /** Every step of every thread keeps the token unique, the idle stack exact and the queue attended. */
  lemma StepKeepsWake(s: State, step: Step)
    requires WakeInv(s) && LedgerInv(s) && Enabled(s, step)
    ensures WakeInv(Apply(s, step))
  {
    assert ThreadOk(s.threads[step.t]);
    StepKeepsBase(s, step);
    match step {
      case LoopStep(t, move) => LoopStepServes(s, t, move);
      case FinishStep(t, move) => FinishStepServes(s, t, move);
      case PostStep(t, move) => PostStepServes(s, t, move);
      case ControlStep(t, move) => ControlStepServes(s, t, move);
      case IoStep(t, d, move) => IoStepServes(s, t, d, move);
      case NewSet(_) =>
    }
  }

  /** When every thread inside run sleeps, nothing is queued and one of them is polling for readiness. */
  lemma AllAsleepMeansPolling(s: State) returns (t: Tid)
    requires WakeInv(s) && !s.wake.stopped && s.wake.hasPoller
    requires SomeoneInside(s.threads) && !SomeoneUp(s.wake, s.threads)
    ensures s.work.opQue.Empty()
    ensures t < |s.threads| && s.threads[t].pc == InReactor(true)
  {
    t := SumWitness(s.threads, Holder);
    assert !Up(s.wake, s.threads, t);
  }
}
