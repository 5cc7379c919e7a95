/**
  The completion service as a state machine: any number of threads, any number of
  descriptor states, one circulating reactor token.  A step is one region under a lock,
  one access to the unlocked work counter, or one thread-local move; between any two
  steps of a thread every other thread may run.
 */
module Proactor {
  import opened Ledger

  type OpId = nat
  type Tid = nat
  type SetId = nat

  const READ: nat := 0
  const WRITE: nat := 1
  const EXCEPT: nat := 3
  const OP_MAX: nat := 4

  /** An operation queue.  Merging promises no order, so only the contents are kept. */
  datatype Queue = Queue(tokens: nat, sets: multiset<SetId>, ops: multiset<OpId>) {
    predicate Empty() {
      tokens == 0 && |sets| == 0 && |ops| == 0
    }

    function Merge(q: Queue): Queue {
      Queue(tokens + q.tokens, sets + q.sets, ops + q.ops)
    }

    function PushOp(op: OpId): Queue {
      this.(ops := ops + multiset{op})
    }

    function PushOps(more: multiset<OpId>): Queue {
      this.(ops := ops + more)
    }

    function PushSets(more: multiset<SetId>): Queue {
      this.(sets := sets + more)
    }

    function PushToken(): Queue {
      this.(tokens := tokens + 1)
    }

    function PopToken(): Queue {
      this.(tokens := if tokens == 0 then 0 else tokens - 1)
    }

    function PopOp(op: OpId): Queue {
      this.(ops := ops - multiset{op})
    }

    function PopSet(d: SetId): Queue {
      this.(sets := sets - multiset{d})
    }
  }

  const EMPTY: Queue := Queue(0, multiset{}, multiset{})

  /** Where a thread is in the scheduler's loop. */
  datatype Pc =
    | Outside                 // not inside run
    | AtLoop                  // about to take the lock and test the stop flag
    | Waiting                 // pushed on the idle stack, in its event's wait
    | InReactor(block: bool)  // holds the token, inside the reactor's run
    | ReactorExit             // holds the token, in the task cleanup
    | InSet(d: SetId)         // popped a descriptor state, before its I/O
    | Dispatching(op: OpId)   // holds a completed operation, before its handler
    | InHandler(op: OpId)     // the handler of op is running
    | Cleaning                // in the work cleanup, before its own unit is settled
    | Merging                 // in the work cleanup, before the private queue is merged

  /** The service call a thread is inside. */
  datatype Call =
    | NoCall
    | Accepting(op: OpId)                        // handed over, not yet counted
    | Posting(op: OpId)                          // counted, not yet in the shared queue
    | Freeing(slot: SetId, freed: multiset<OpId>) // deregistered, state not yet back in the pool
    | Deferring(ops: multiset<OpId>)             // unlinked from a descriptor, to be queued
    | Stopping                                   // about to stop all threads

  datatype Thread = Thread(pc: Pc, call: Call, privQ: Queue, privWork: nat)

  /**
    A descriptor state.  The last three fields record history by operation type: operations
    whose I/O was asked for and operations whose I/O was done, each in order, and operations
    cancelled.
   */
  datatype OpSet = OpSet(queues: seq<seq<OpId>>, shutdown: bool, armedOut: bool, live: bool,
                         started: seq<seq<OpId>>, worked: seq<seq<OpId>>, dropped: seq<set<OpId>>)

  /** The shared work: the counter and the queue. */
  datatype Work = Work(
    oneThread: bool, outstanding: int, opQue: Queue,
    // history: operations handed over, handlers begun
    given: set<OpId>, invoked: seq<OpId>)

  /** What decides who sleeps: the idle stack, the event flags, the reactor's interruption and the stop flag. */
  datatype Wakeups = Wakeups(
    hasPoller: bool, taskInterrupted: bool, pollerWoken: bool, stopped: bool,
    idle: seq<Tid>, signalled: set<Tid>)

  datatype State = State(work: Work, wake: Wakeups, threads: seq<Thread>, sets: seq<OpSet>)

  /** The shared work together with the thread that moves. */
  datatype Local = Local(w: Work, th: Thread)

  /** Moves of the scheduler's loop, each under the service's lock. */
  datatype LoopMove =
    | EnterRun
    | LeaveRun
    | Sleep
    | Wake
    | TakeToken
    | TakeOp(op: OpId)
    | TakeSet(d: SetId)

  /** Moves from the reactor call or from a completed operation back to the loop. */
  datatype FinishMove =
    | ReactorReturn(ready: multiset<SetId>)
    | TaskTransfer
    | TaskCleanup
    | BeginHandler
    | EndHandler
    | WorkTransfer
    | WorkKeep
    | WorkFinish
    | WorkMerge

  /** Moves that hand operations to the service. */
  datatype PostMove =
    | Post(op: OpId)
    | Accept
    | Enqueue
    | PostDeferred

  /** Moves that start, stop and restart the service. */
  datatype ControlMove =
    | InitTask
    | BeginStop
    | DoStop
    | Reset

  /** Moves that read or write one descriptor state. */
  datatype IoMove =
    | PerformIo(counts: seq<nat>)
    | StartOp(ty: nat, op: OpId, speculative: bool, did: bool, ctl: bool)
    | Cancel
    | Deregister
    | FreeSet
    | Recycle

  datatype Step =
    | LoopStep(t: Tid, loop: LoopMove)
    | FinishStep(t: Tid, finish: FinishMove)
    | PostStep(t: Tid, post: PostMove)
    | ControlStep(t: Tid, control: ControlMove)
    | IoStep(t: Tid, d: SetId, io: IoMove)
    | NewSet(t: Tid)

  // ---------- descriptor states ----------

  const NO_QUEUES: seq<seq<OpId>> := [[], [], [], []]

  predicate WellFormedSet(ds: OpSet) {
    |ds.queues| == OP_MAX && |ds.started| == OP_MAX && |ds.worked| == OP_MAX && |ds.dropped| == OP_MAX
  }

  function QueuedOps(ds: OpSet): multiset<OpId> {
    if WellFormedSet(ds)
    then multiset(ds.queues[0]) + multiset(ds.queues[1]) + multiset(ds.queues[2]) + multiset(ds.queues[3])
    else multiset{}
  }

  function QueuedCount(ds: OpSet): int {
    |QueuedOps(ds)|
  }

  /** What start_op decides for an operation, under the descriptor's lock. */
  datatype Outcome = Refused | Worked | Queued(armedOut: bool)

  function StartOutcome(ds: OpSet, ty: nat, speculative: bool, did: bool, ctl: bool): Outcome
    requires WellFormedSet(ds) && ty < OP_MAX
  {
    if ds.shutdown then Refused
    else if ds.queues[ty] != [] then Queued(ds.armedOut)
    else if speculative && (ty != READ || ds.queues[EXCEPT] == []) then
      if did then Worked
      else if ty == WRITE && !ds.armedOut then (if ctl then Queued(true) else Refused)
      else Queued(ds.armedOut)
    else Queued(ds.armedOut || ty == WRITE)
  }

  function AfterStart(ds: OpSet, ty: nat, op: OpId, outcome: Outcome): OpSet
    requires WellFormedSet(ds) && ty < OP_MAX
  {
    match outcome
    case Refused => ds
    case Worked => DoneAtOnce(ds, ty, op)
    case Queued(armedOut) => Pushed(ds, ty, op, armedOut)
  }

  function Pushed(ds: OpSet, ty: nat, op: OpId, armedOut: bool): OpSet
    requires WellFormedSet(ds) && ty < OP_MAX
  {
    ds.(queues := ds.queues[ty := ds.queues[ty] + [op]], armedOut := armedOut,
    started := ds.started[ty := ds.started[ty] + [op]])
  }

  function DoneAtOnce(ds: OpSet, ty: nat, op: OpId): OpSet
    requires WellFormedSet(ds) && ty < OP_MAX
  {
    ds.(started := ds.started[ty := ds.started[ty] + [op]],
    worked := ds.worked[ty := ds.worked[ty] + [op]])
  }

  predicate IoCounts(ds: OpSet, counts: seq<nat>) {
    WellFormedSet(ds) && |counts| == OP_MAX && forall j :: 0 <= j < OP_MAX ==> counts[j] <= |ds.queues[j]|
  }

  /** The operations finished by one perform_io: from each queue, the front ones that did their work. */
  function IoDone(ds: OpSet, counts: seq<nat>): seq<OpId>
    requires IoCounts(ds, counts)
  {
    ds.queues[3][..counts[3]] + ds.queues[2][..counts[2]] + ds.queues[1][..counts[1]] + ds.queues[0][..counts[0]]
  }

  function AfterIo(ds: OpSet, counts: seq<nat>): OpSet
    requires IoCounts(ds, counts)
  {
    ds.(queues := seq(OP_MAX, j requires 0 <= j < OP_MAX => ds.queues[j][counts[j]..]),
      worked := seq(OP_MAX, j requires 0 <= j < OP_MAX => ds.worked[j] + ds.queues[j][..counts[j]]))
  }

  /** Every queued operation unlinked with the cancelled error. */
  function Emptied(ds: OpSet): OpSet
    requires WellFormedSet(ds)
  {
    ds.(queues := NO_QUEUES,
    dropped := seq(OP_MAX, j requires 0 <= j < OP_MAX => ds.dropped[j] + set op | op in ds.queues[j]))
  }

  // ---------- waking and stopping ----------

  function WakeOneIdle(u: Wakeups): Wakeups {
    if u.idle == [] then u
    else u.(idle := u.idle[1..], signalled := u.signalled + {u.idle[0]})
  }

  function Interrupt(u: Wakeups): Wakeups {
    if !u.taskInterrupted && u.hasPoller then u.(taskInterrupted := true, pollerWoken := true) else u
  }

  function WakeOneThread(u: Wakeups): Wakeups {
    if u.idle != [] then WakeOneIdle(u) else Interrupt(u)
  }

  function StopAllThreads(u: Wakeups): Wakeups {
    Interrupt(u.(stopped := true, idle := [], signalled := u.signalled + set t | t in u.idle))
  }

  // ---------- the scheduler's loop ----------

  predicate LoopEnabled(w: Work, u: Wakeups, t: Tid, th: Thread, move: LoopMove) {
    match move
    case EnterRun => th.pc.Outside? && th.call.NoCall?
    case LeaveRun => th.pc.AtLoop? && u.stopped
    case Sleep => th.pc.AtLoop? && !u.stopped && w.opQue.Empty()
    case Wake => th.pc.Waiting? && t in u.signalled
    case TakeToken => th.pc.AtLoop? && !u.stopped && w.opQue.tokens > 0
    case TakeOp(op) => th.pc.AtLoop? && !u.stopped && op in w.opQue.ops
    case TakeSet(d) => th.pc.AtLoop? && !u.stopped && d in w.opQue.sets
  }

  /** What a loop move does to the work and to the moving thread. */
  function LoopWork(l: Local, move: LoopMove): Local {
    var w, th := l.w, l.th;
    match move
    case EnterRun =>
      Local(w, if w.outstanding == 0 then th.(call := Stopping) else Thread(AtLoop, NoCall, EMPTY, 0))
    case LeaveRun =>
      Local(w, th.(pc := Outside))
    case Sleep =>
      Local(w, th.(pc := Waiting))
    case Wake =>
      Local(w, th.(pc := AtLoop))
    case TakeToken =>
      var rest := w.opQue.PopToken();
      Local(w.(opQue := rest), th.(pc := InReactor(rest.Empty())))
    case TakeOp(op) =>
      Local(w.(opQue := w.opQue.PopOp(op)), th.(pc := Dispatching(op)))
    case TakeSet(d) =>
      Local(w.(opQue := w.opQue.PopSet(d)), th.(pc := InSet(d)))
  }

  /** Whom a loop move wakes; w is the work after the move. */
  function LoopWake(u: Wakeups, t: Tid, w: Work, move: LoopMove): Wakeups {
    var more := !w.opQue.Empty();
    match move
    case Sleep =>
      u.(idle := [t] + u.idle, signalled := u.signalled - {t})
    case TakeToken =>
      var taken := u.(taskInterrupted := more, pollerWoken := false);
      if more && !w.oneThread then WakeOneIdle(taken) else taken
    case TakeOp(_) =>
      if more && !w.oneThread then WakeOneThread(u) else u
    case TakeSet(_) =>
      if more && !w.oneThread then WakeOneThread(u) else u
    case _ => u
  }

  // ---------- back to the loop ----------

  predicate FinishEnabled(th: Thread, move: FinishMove) {
    match move
    case ReactorReturn(ready) => th.pc.InReactor?
    case TaskTransfer => th.pc.ReactorExit? && th.privWork > 0
    case TaskCleanup => th.pc.ReactorExit? && th.privWork == 0
    case BeginHandler => th.pc.Dispatching? && th.call.NoCall?
    case EndHandler => th.pc.InHandler? && th.call.NoCall?
    case WorkTransfer => th.pc.Cleaning? && th.privWork > 1
    case WorkKeep => th.pc.Cleaning? && th.privWork == 1
    case WorkFinish => th.pc.Cleaning? && th.privWork == 0
    case WorkMerge => th.pc.Merging? && th.call.NoCall?
  }

  /** What a finishing move does to the work and to the moving thread. */
  function FinishWork(l: Local, move: FinishMove): Local
    requires FinishEnabled(l.th, move)
  {
    var w, th := l.w, l.th;
    match move
    case ReactorReturn(ready) =>
      Local(w, th.(pc := ReactorExit, privQ := th.privQ.PushSets(ready)))
    case TaskTransfer =>
      Local(w.(outstanding := w.outstanding + 1), th.(privWork := th.privWork - 1))
    case TaskCleanup =>
      Local(w.(opQue := w.opQue.Merge(th.privQ).PushToken()), th.(pc := AtLoop, privQ := EMPTY))
    case BeginHandler =>
      Local(w.(invoked := w.invoked + [th.pc.op]), th.(pc := InHandler(th.pc.op)))
    case EndHandler =>
      Local(w, th.(pc := Cleaning))
    case WorkTransfer =>
      Local(w.(outstanding := w.outstanding + 1), th.(privWork := th.privWork - 1))
    case WorkKeep =>
      Local(w, th.(pc := Merging, privWork := 0))
    case WorkFinish =>
      Local(w.(outstanding := w.outstanding - 1),
            th.(pc := Merging, call := if w.outstanding == 1 then Stopping else NoCall))
    case WorkMerge =>
      Local(w.(opQue := w.opQue.Merge(th.privQ)), th.(pc := AtLoop, privQ := EMPTY))
  }

  /** Finishing wakes nobody: the moving thread is itself on its way to the loop. */
  function FinishWake(u: Wakeups, move: FinishMove): Wakeups {
    if move.TaskCleanup? then u.(taskInterrupted := true) else u
  }

  // ---------- handing operations over ----------

  /** A thread may call the service from outside run or from a handler. */
  predicate CanCall(th: Thread) {
    th.call == NoCall && (th.pc.Outside? || th.pc.InHandler?)
  }

  /** Posting goes to the private queue when one thread was promised and the caller is inside run. */
  predicate Privately(w: Work, th: Thread) {
    w.oneThread && !th.pc.Outside?
  }

  function Unlinked(ops: multiset<OpId>): Call {
    if |ops| == 0 then NoCall else Deferring(ops)
  }

  predicate PostEnabled(w: Work, th: Thread, move: PostMove) {
    match move
    case Post(op) => CanCall(th) && op !in w.given
    case Accept => th.call.Accepting?
    case Enqueue => th.call.Posting?
    case PostDeferred => th.call.Deferring?
  }

  /** What a posting move does to the work and to the calling thread. */
  function PostWork(l: Local, move: PostMove): Local
    requires PostEnabled(l.w, l.th, move)
  {
    var w, th := l.w, l.th;
    match move
    case Post(op) =>
      Local(w.(given := w.given + {op}), th.(call := Accepting(op)))
    case Accept =>
      if Privately(w, th)
      then Local(w, th.(call := NoCall, privQ := th.privQ.PushOp(th.call.op), privWork := th.privWork + 1))
      else Local(w.(outstanding := w.outstanding + 1), th.(call := Posting(th.call.op)))
    case Enqueue =>
      Local(w.(opQue := w.opQue.PushOp(th.call.op)), th.(call := NoCall))
    case PostDeferred =>
      if Privately(w, th)
      then Local(w, th.(call := NoCall, privQ := th.privQ.PushOps(th.call.ops)))
      else Local(w.(opQue := w.opQue.PushOps(th.call.ops)), th.(call := NoCall))
  }

  /** Whom a posting move wakes; th is the calling thread before the move. */
  function PostWake(u: Wakeups, w: Work, th: Thread, move: PostMove): Wakeups {
    if move.Enqueue? || (move.PostDeferred? && !Privately(w, th)) then WakeOneThread(u) else u
  }

  // ---------- starting and stopping ----------

  predicate ControlEnabled(u: Wakeups, th: Thread, move: ControlMove) {
    match move
    case InitTask => CanCall(th) && !u.hasPoller
    case BeginStop => CanCall(th)
    case DoStop => th.call.Stopping?
    case Reset => CanCall(th)
  }

  function ControlWork(l: Local, move: ControlMove): Local {
    match move
    case InitTask => l.(w := l.w.(opQue := l.w.opQue.PushToken()))
    case BeginStop => l.(th := l.th.(call := Stopping))
    case DoStop => l.(th := l.th.(call := NoCall))
    case Reset => l
  }

  function ControlWake(u: Wakeups, move: ControlMove): Wakeups {
    match move
    case InitTask => WakeOneThread(u.(hasPoller := true))
    case BeginStop => u
    case DoStop => StopAllThreads(u)
    case Reset => u.(stopped := false)
  }

  // ---------- moves on a descriptor state ----------

  predicate IoEnabled(w: Work, th: Thread, d: SetId, ds: OpSet, move: IoMove) {
    WellFormedSet(ds) &&
    match move
    case PerformIo(counts) => th.pc == InSet(d) && IoCounts(ds, counts)
    case StartOp(ty, op, speculative, did, ctl) => CanCall(th) && op !in w.given && ty < OP_MAX
    case Cancel => CanCall(th)
    case Deregister => CanCall(th)
    case FreeSet => th.call.Freeing? && th.call.slot == d
    case Recycle => CanCall(th) && !ds.live
  }

  /** What a move on a descriptor state does to that state. */
  function IoSet(ds: OpSet, move: IoMove): OpSet
    requires WellFormedSet(ds) && (move.PerformIo? ==> IoCounts(ds, move.counts)) && (move.StartOp? ==> move.ty < OP_MAX)
  {
    match move
    case PerformIo(counts) => AfterIo(ds, counts)
    case StartOp(ty, op, speculative, did, ctl) =>
      AfterStart(ds, ty, op, StartOutcome(ds, ty, speculative, did, ctl))
    case Cancel => Emptied(ds)
    case Deregister => if ds.shutdown then ds else Emptied(ds).(shutdown := true)
    case FreeSet => ds.(live := false)
    case Recycle => ds.(shutdown := false, armedOut := false, live := true)
  }

  /** What a move on a descriptor state does to the work and to the moving thread. */
  function IoWork(l: Local, d: SetId, ds: OpSet, move: IoMove): Local
    requires IoEnabled(l.w, l.th, d, ds, move)
  {
    var w, th := l.w, l.th;
    match move
    case PerformIo(counts) =>
      var done := IoDone(ds, counts);
      if done == [] then Local(w.(outstanding := w.outstanding + 1), th.(pc := Cleaning))
      else Local(w, th.(pc := Dispatching(done[0]), call := Unlinked(multiset(done[1..]))))
    case StartOp(ty, op, speculative, did, ctl) =>
      var w' := w.(given := w.given + {op});
      if StartOutcome(ds, ty, speculative, did, ctl).Queued?
      then Local(w'.(outstanding := w.outstanding + 1), th)
      else Local(w', th.(call := Accepting(op)))
    case Cancel =>
      Local(w, th.(call := Unlinked(QueuedOps(ds))))
    case Deregister =>
      if ds.shutdown then l else Local(w, th.(call := Freeing(d, QueuedOps(ds))))
    case FreeSet =>
      Local(w, th.(call := Unlinked(th.call.freed)))
    case Recycle => l
  }

  const NEW_SET: OpSet := OpSet(NO_QUEUES, false, false, true, NO_QUEUES, NO_QUEUES, [{}, {}, {}, {}])

  // ---------- steps and runs ----------

  predicate Enabled(s: State, step: Step) {
    step.t < |s.threads| &&
    var th := s.threads[step.t];
    match step
    case LoopStep(t, move) => LoopEnabled(s.work, s.wake, t, th, move)
    case FinishStep(_, move) => FinishEnabled(th, move)
    case PostStep(_, move) => PostEnabled(s.work, th, move)
    case ControlStep(_, move) => ControlEnabled(s.wake, th, move)
    case IoStep(_, d, io) => d < |s.sets| && IoEnabled(s.work, th, d, s.sets[d], io)
    case NewSet(_) => CanCall(th)
  }

  function Apply(s: State, step: Step): State
    requires Enabled(s, step)
  {
    var l := Local(s.work, s.threads[step.t]);
    match step
    case LoopStep(t, move) =>
      var l' := LoopWork(l, move);
      State(l'.w, LoopWake(s.wake, t, l'.w, move), s.threads[t := l'.th], s.sets)
    case FinishStep(t, move) =>
      var l' := FinishWork(l, move);
      State(l'.w, FinishWake(s.wake, move), s.threads[t := l'.th], s.sets)
    case PostStep(t, move) =>
      var l' := PostWork(l, move);
      State(l'.w, PostWake(s.wake, s.work, l.th, move), s.threads[t := l'.th], s.sets)
    case ControlStep(t, move) =>
      var l' := ControlWork(l, move);
      State(l'.w, ControlWake(s.wake, move), s.threads[t := l'.th], s.sets)
    case IoStep(t, d, io) =>
      var l' := IoWork(l, d, s.sets[d], io);
      State(l'.w, s.wake, s.threads[t := l'.th], s.sets[d := IoSet(s.sets[d], io)])
    case NewSet(_) =>
      s.(sets := s.sets + [NEW_SET])
  }

  const IDLE_THREAD: Thread := Thread(Outside, NoCall, EMPTY, 0)

  ghost predicate Init(s: State) {
    && s.work == Work(s.work.oneThread, 0, EMPTY, {}, [])
    && s.wake == Wakeups(false, true, false, false, [], {})
    && (forall t :: 0 <= t < |s.threads| ==> s.threads[t] == IDLE_THREAD)
    && s.sets == []
  }

  /** A whole run: every state follows from the one before by an enabled step. */
  ghost predicate IsRun(states: seq<State>, steps: seq<Step>) {
    && |states| == |steps| + 1
    && Init(states[0])
    && forall i :: 0 <= i < |steps| ==> Enabled(states[i], steps[i]) && states[i + 1] == Apply(states[i], steps[i])
  }
}
