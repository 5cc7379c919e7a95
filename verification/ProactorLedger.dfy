/** Work accounting and exactly-once completion: what every step of the proactor keeps. */
module ProactorLedger {
  import opened Ledger
  import opened Proactor

  // ---------- where the operations are ----------

  function CallOps(call: Call): multiset<OpId> {
    match call
    case Accepting(op) => multiset{op}
    case Posting(op) => multiset{op}
    case Freeing(_, freed) => freed
    case Deferring(ops) => ops
    case NoCall => multiset{}
    case Stopping => multiset{}
  }

  function PcOps(pc: Pc): multiset<OpId> {
    if pc.Dispatching? then multiset{pc.op} else multiset{}
  }

  /** Operations in a thread's hands whose handlers have not begun. */
  function Waits(th: Thread): multiset<OpId> {
    th.privQ.ops + CallOps(th.call) + PcOps(th.pc)
  }

  /** The number of operations in Waits. */
  function Waiters(th: Thread): int {
    |th.privQ.ops| + |CallOps(th.call)| + |PcOps(th.pc)|
  }

  /** One unit of work that a thread itself stands for until its work cleanup settles it. */
  function OwnUnit(th: Thread): int {
    if th.pc.InHandler? || th.pc.Cleaning? then 1 else 0
  }

  /** Handed over by this thread but not counted yet. */
  function Uncounted(th: Thread): int {
    if th.call.Accepting? then 1 else 0
  }

  function PrivateWork(th: Thread): int {
    th.privWork
  }

  /** What a thread adds to the shared work counter. */
  function Balance(th: Thread): int {
    Waiters(th) + OwnUnit(th) - Uncounted(th) - th.privWork
  }

  /** All operations handed over whose handlers have not begun, wherever they are. */
  ghost function Pending(s: State): multiset<OpId> {
    s.work.opQue.ops + Union(s.threads, Waits) + Union(s.sets, QueuedOps)
  }

  // ---------- the invariant ----------

  ghost predicate ThreadOk(th: Thread) {
    && th.privQ.tokens == 0
    && th.privWork <= |th.privQ.ops|
    && (th.privWork > 0 ==> th.pc.InHandler? || th.pc.Cleaning?)
    && (|th.privQ.ops| > 0 ==> th.pc.Dispatching? || th.pc.InHandler? || th.pc.Cleaning? || th.pc.Merging?)
    && (|th.privQ.sets| > 0 ==> th.pc.ReactorExit?)
    && (th.call.Accepting? || th.call.Posting? || th.call.Freeing? ==> th.pc.Outside? || th.pc.InHandler?)
    && (th.call.Deferring? ==> th.pc.Outside? || th.pc.InHandler? || th.pc.Dispatching?)
    && (th.call.Stopping? ==> th.pc.Outside? || th.pc.InHandler? || th.pc.Merging?)
  }

  ghost predicate Balanced(s: State) {
    s.work.outstanding == |s.work.opQue.ops| + Sum(s.threads, Balance) + Sum(s.sets, QueuedCount)
  }

  ghost predicate Conserved(s: State) {
    multiset(s.work.given) == Pending(s) + multiset(s.work.invoked)
  }

  ghost predicate LedgerInv(s: State) {
    && (forall t :: 0 <= t < |s.threads| ==> ThreadOk(s.threads[t]))
    && (forall d :: 0 <= d < |s.sets| ==> WellFormedSet(s.sets[d]))
    && Balanced(s)
    && Conserved(s)
  }

  // ---------- what a move does to the totals ----------

  /** Copies of an operation in the shared work and in the moving thread's hands, begun handlers included. */
  ghost function Copies(l: Local, op: OpId): nat {
    l.w.opQue.ops[op] + l.th.privQ.ops[op] + CallOps(l.th.call)[op] + PcOps(l.th.pc)[op] + multiset(l.w.invoked)[op]
  }

  /** The copies not explained by the operation having been handed over. */
  ghost function Tally(l: Local, op: OpId): int {
    Copies(l, op) - if op in l.w.given then 1 else 0
  }

  /** The counter against the operations and units it stands for. */
  ghost function Slack(l: Local): int {
    l.w.outstanding - |l.w.opQue.ops| - Balance(l.th)
  }

  /** A move that touches no descriptor keeps every tally and the slack. */
  ghost predicate Accounts(l: Local, l': Local, op: OpId) {
    ThreadOk(l'.th) && Tally(l', op) == Tally(l, op) && Slack(l') == Slack(l)
  }

  lemma TakeOpTallies(l: Local, u: Wakeups, t: Tid, taken: OpId, op: OpId)
    requires ThreadOk(l.th) && LoopEnabled(l.w, u, t, l.th, TakeOp(taken))
    ensures Tally(LoopWork(l, TakeOp(taken)), op) == Tally(l, op)
  {
  }

  lemma LoopMoveTallies(l: Local, u: Wakeups, t: Tid, move: LoopMove, op: OpId)
    requires ThreadOk(l.th) && LoopEnabled(l.w, u, t, l.th, move)
    ensures Tally(LoopWork(l, move), op) == Tally(l, op)
  {
    match move {
      case TakeOp(taken) => TakeOpTallies(l, u, t, taken, op);
      case EnterRun =>
      case LeaveRun =>
      case Sleep =>
      case Wake =>
      case TakeToken =>
      case TakeSet(_) =>
    }
  }

  lemma TakeOpBalances(l: Local, u: Wakeups, t: Tid, taken: OpId)
    requires ThreadOk(l.th) && LoopEnabled(l.w, u, t, l.th, TakeOp(taken))
    ensures ThreadOk(LoopWork(l, TakeOp(taken)).th) && Slack(LoopWork(l, TakeOp(taken))) == Slack(l)
  {
    hide CallOps;
  }

  lemma EnterRunBalances(l: Local, u: Wakeups, t: Tid)
    requires ThreadOk(l.th) && LoopEnabled(l.w, u, t, l.th, EnterRun)
    ensures ThreadOk(LoopWork(l, EnterRun).th) && Slack(LoopWork(l, EnterRun)) == Slack(l)
  {
  }

  lemma OtherLoopMoveBalances(l: Local, u: Wakeups, t: Tid, move: LoopMove)
    requires ThreadOk(l.th) && LoopEnabled(l.w, u, t, l.th, move) && !move.TakeOp? && !move.EnterRun?
    ensures ThreadOk(LoopWork(l, move).th) && Slack(LoopWork(l, move)) == Slack(l)
  {
    hide CallOps;
  }

  lemma LoopMoveBalances(l: Local, u: Wakeups, t: Tid, move: LoopMove)
    requires ThreadOk(l.th) && LoopEnabled(l.w, u, t, l.th, move)
    ensures ThreadOk(LoopWork(l, move).th) && Slack(LoopWork(l, move)) == Slack(l)
  {
    hide ThreadOk, Slack, LoopEnabled, LoopWork;
    match move {
      case TakeOp(taken) => TakeOpBalances(l, u, t, taken);
      case EnterRun => EnterRunBalances(l, u, t);
      case LeaveRun => OtherLoopMoveBalances(l, u, t, move);
      case Sleep => OtherLoopMoveBalances(l, u, t, move);
      case Wake => OtherLoopMoveBalances(l, u, t, move);
      case TakeToken => OtherLoopMoveBalances(l, u, t, move);
      case TakeSet(_) => OtherLoopMoveBalances(l, u, t, move);
    }
  }

  lemma LoopMoveAccounts(l: Local, u: Wakeups, t: Tid, move: LoopMove, op: OpId)
    requires ThreadOk(l.th) && LoopEnabled(l.w, u, t, l.th, move)
    ensures Accounts(l, LoopWork(l, move), op)
  {
    LoopMoveTallies(l, u, t, move, op);
    LoopMoveBalances(l, u, t, move);
  }

  lemma QuietCalls()
    ensures CallOps(NoCall) == multiset{} && CallOps(Stopping) == multiset{}
  {
  }

  lemma ControlMoveAccounts(l: Local, u: Wakeups, move: ControlMove, op: OpId)
    requires ThreadOk(l.th) && ControlEnabled(u, l.th, move)
    ensures Accounts(l, ControlWork(l, move), op)
  {
    hide PcOps, CallOps;
    QuietCalls();
  }

  lemma TaskCleanupAccounts(l: Local, op: OpId)
    requires ThreadOk(l.th) && FinishEnabled(l.th, TaskCleanup)
    ensures Accounts(l, FinishWork(l, TaskCleanup), op)
  {
  }

  lemma BeginHandlerAccounts(l: Local, op: OpId)
    requires ThreadOk(l.th) && FinishEnabled(l.th, BeginHandler)
    ensures Accounts(l, FinishWork(l, BeginHandler), op)
  {
  }

  lemma EndHandlerAccounts(l: Local, op: OpId)
    requires ThreadOk(l.th) && FinishEnabled(l.th, EndHandler)
    ensures Accounts(l, FinishWork(l, EndHandler), op)
  {
  }

  lemma WorkTransferAccounts(l: Local, op: OpId)
    requires ThreadOk(l.th) && FinishEnabled(l.th, WorkTransfer)
    ensures Accounts(l, FinishWork(l, WorkTransfer), op)
  {
  }

  lemma WorkKeepAccounts(l: Local, op: OpId)
    requires ThreadOk(l.th) && FinishEnabled(l.th, WorkKeep)
    ensures Accounts(l, FinishWork(l, WorkKeep), op)
  {
  }

  lemma WorkFinishAccounts(l: Local, op: OpId)
    requires ThreadOk(l.th) && FinishEnabled(l.th, WorkFinish)
    ensures Accounts(l, FinishWork(l, WorkFinish), op)
  {
  }

  lemma WorkMergeAccounts(l: Local, op: OpId)
    requires ThreadOk(l.th) && FinishEnabled(l.th, WorkMerge)
    ensures Accounts(l, FinishWork(l, WorkMerge), op)
  {
  }

  lemma FinishMoveAccounts(l: Local, move: FinishMove, op: OpId)
    requires ThreadOk(l.th) && FinishEnabled(l.th, move)
    ensures Accounts(l, FinishWork(l, move), op)
  {
    match move {
      case ReactorReturn(_) =>
      case TaskTransfer => assert false;
      case TaskCleanup => TaskCleanupAccounts(l, op);
      case BeginHandler => BeginHandlerAccounts(l, op);
      case EndHandler => EndHandlerAccounts(l, op);
      case WorkTransfer => WorkTransferAccounts(l, op);
      case WorkKeep => WorkKeepAccounts(l, op);
      case WorkFinish => WorkFinishAccounts(l, op);
      case WorkMerge => WorkMergeAccounts(l, op);
    }
  }

  lemma AcceptTallies(l: Local, op: OpId)
    requires ThreadOk(l.th) && PostEnabled(l.w, l.th, Accept)
    ensures Tally(PostWork(l, Accept), op) == Tally(l, op)
  {
    hide PcOps;
  }

  lemma AcceptBalances(l: Local)
    requires ThreadOk(l.th) && PostEnabled(l.w, l.th, Accept)
    ensures ThreadOk(PostWork(l, Accept).th) && Slack(PostWork(l, Accept)) == Slack(l)
  {
    hide PcOps;
  }

  lemma AcceptAccounts(l: Local, op: OpId)
    requires ThreadOk(l.th) && PostEnabled(l.w, l.th, Accept)
    ensures Accounts(l, PostWork(l, Accept), op)
  {
    AcceptTallies(l, op);
    AcceptBalances(l);
  }

  lemma EnqueueAccounts(l: Local, op: OpId)
    requires ThreadOk(l.th) && PostEnabled(l.w, l.th, Enqueue)
    ensures Accounts(l, PostWork(l, Enqueue), op)
  {
    hide PcOps;
  }

  lemma PostDeferredTallies(l: Local, op: OpId)
    requires ThreadOk(l.th) && PostEnabled(l.w, l.th, PostDeferred)
    ensures Tally(PostWork(l, PostDeferred), op) == Tally(l, op)
  {
    hide PcOps;
  }

  lemma PostDeferredBalances(l: Local)
    requires ThreadOk(l.th) && PostEnabled(l.w, l.th, PostDeferred)
    ensures ThreadOk(PostWork(l, PostDeferred).th) && Slack(PostWork(l, PostDeferred)) == Slack(l)
  {
    hide PcOps;
  }

  lemma PostDeferredAccounts(l: Local, op: OpId)
    requires ThreadOk(l.th) && PostEnabled(l.w, l.th, PostDeferred)
    ensures Accounts(l, PostWork(l, PostDeferred), op)
  {
    PostDeferredTallies(l, op);
    PostDeferredBalances(l);
  }

  lemma PostAccounts(l: Local, given: OpId, op: OpId)
    requires ThreadOk(l.th) && PostEnabled(l.w, l.th, Post(given))
    ensures Accounts(l, PostWork(l, Post(given)), op)
  {
    hide PcOps;
  }

  lemma PostMoveAccounts(l: Local, move: PostMove, op: OpId)
    requires ThreadOk(l.th) && PostEnabled(l.w, l.th, move)
    ensures Accounts(l, PostWork(l, move), op)
  {
    match move {
      case Post(given) => PostAccounts(l, given, op);
      case Accept => AcceptAccounts(l, op);
      case Enqueue => EnqueueAccounts(l, op);
      case PostDeferred => PostDeferredAccounts(l, op);
    }
  }

  lemma SplitFront(q: seq<OpId>, n: nat)
    requires n <= |q|
    ensures multiset(q) == multiset(q[..n]) + multiset(q[n..])
  {
    assert q == q[..n] + q[n..];
  }

  /** The operations a perform_io finishes are exactly those that leave the descriptor's queues. */
  lemma IoConserves(ds: OpSet, counts: seq<nat>)
    requires IoCounts(ds, counts)
    ensures QueuedOps(ds) == QueuedOps(AfterIo(ds, counts)) + multiset(IoDone(ds, counts))
  {
    SplitFront(ds.queues[0], counts[0]);
    SplitFront(ds.queues[1], counts[1]);
    SplitFront(ds.queues[2], counts[2]);
    SplitFront(ds.queues[3], counts[3]);
  }


  /** A move on a descriptor state keeps them once the descriptor's queued operations are counted in. */
  ghost predicate AccountsWith(l: Local, ds: OpSet, l': Local, ds': OpSet, op: OpId) {
    && ThreadOk(l'.th)
    && WellFormedSet(ds')
    && Tally(l', op) + QueuedOps(ds')[op] == Tally(l, op) + QueuedOps(ds)[op]
    && Slack(l') - QueuedCount(ds') == Slack(l) - QueuedCount(ds)
  }

  lemma FirstAndRest(done: seq<OpId>)
    requires done != []
    ensures multiset(done) == multiset{done[0]} + multiset(done[1..])
  {
    assert done == [done[0]] + done[1..];
  }

  lemma PerformIoTallies(l: Local, d: SetId, ds: OpSet, counts: seq<nat>, op: OpId)
    requires ThreadOk(l.th) && IoEnabled(l.w, l.th, d, ds, PerformIo(counts))
    ensures Tally(IoWork(l, d, ds, PerformIo(counts)), op) == Tally(l, op) + multiset(IoDone(ds, counts))[op]
  {
    hide IoDone, QueuedOps;
    if IoDone(ds, counts) != [] {
      FirstAndRest(IoDone(ds, counts));
    }
  }

  lemma PerformIoBalances(l: Local, d: SetId, ds: OpSet, counts: seq<nat>)
    requires ThreadOk(l.th) && IoEnabled(l.w, l.th, d, ds, PerformIo(counts))
    ensures var l' := IoWork(l, d, ds, PerformIo(counts)); ThreadOk(l'.th) && Slack(l') == Slack(l) - |IoDone(ds, counts)|
  {
    if IoDone(ds, counts) != [] {
      FirstAndRest(IoDone(ds, counts));
    }
  }

  lemma PerformIoAccounts(l: Local, d: SetId, ds: OpSet, counts: seq<nat>, op: OpId)
    requires ThreadOk(l.th) && IoEnabled(l.w, l.th, d, ds, PerformIo(counts))
    ensures AccountsWith(l, ds, IoWork(l, d, ds, PerformIo(counts)), AfterIo(ds, counts), op)
  {
    hide Tally, Slack, ThreadOk, IoWork, IoDone, QueuedOps;
    IoConserves(ds, counts);
    PerformIoTallies(l, d, ds, counts, op);
    PerformIoBalances(l, d, ds, counts);
  }

  lemma PushConserves(ds: OpSet, ty: nat, op: OpId, armedOut: bool)
    requires WellFormedSet(ds) && ty < OP_MAX
    ensures QueuedOps(Pushed(ds, ty, op, armedOut)) == QueuedOps(ds) + multiset{op}
  {
    var q, q' := ds.queues, Pushed(ds, ty, op, armedOut).queues;
    assert multiset(q'[ty]) == multiset(q[ty]) + multiset{op};
    if ty == 0 {
    } else if ty == 1 {
    } else if ty == 2 {
    } else {
    }
  }

  lemma StartConserves(ds: OpSet, ty: nat, op: OpId, outcome: Outcome)
    requires WellFormedSet(ds) && ty < OP_MAX
    ensures var ds' := AfterStart(ds, ty, op, outcome);
            && WellFormedSet(ds')
            && QueuedOps(ds') == QueuedOps(ds) + if outcome.Queued? then multiset{op} else multiset{}
  {
    if outcome.Queued? {
      PushConserves(ds, ty, op, outcome.armedOut);
    }
  }

  lemma StartOpTallies(l: Local, d: SetId, ds: OpSet, move: IoMove, op: OpId)
    requires ThreadOk(l.th) && IoEnabled(l.w, l.th, d, ds, move) && move.StartOp?
    ensures var queued := StartOutcome(ds, move.ty, move.speculative, move.did, move.ctl).Queued?;
            Tally(IoWork(l, d, ds, move), op) == Tally(l, op) - if queued && op == move.op then 1 else 0
  {
    hide PcOps;
  }

  lemma StartOpBalances(l: Local, d: SetId, ds: OpSet, move: IoMove)
    requires ThreadOk(l.th) && IoEnabled(l.w, l.th, d, ds, move) && move.StartOp?
    ensures var queued := StartOutcome(ds, move.ty, move.speculative, move.did, move.ctl).Queued?;
            var l' := IoWork(l, d, ds, move);
            ThreadOk(l'.th) && Slack(l') == Slack(l) + if queued then 1 else 0
  {
    hide PcOps;
  }

  lemma StartOpAccounts(l: Local, d: SetId, ds: OpSet, move: IoMove, op: OpId)
    requires ThreadOk(l.th) && IoEnabled(l.w, l.th, d, ds, move) && move.StartOp?
    ensures AccountsWith(l, ds, IoWork(l, d, ds, move), IoSet(ds, move), op)
  {
    hide Tally, Slack, ThreadOk, StartOutcome, IoWork, AfterStart, QueuedOps;
    StartConserves(ds, move.ty, move.op, StartOutcome(ds, move.ty, move.speculative, move.did, move.ctl));
    StartOpTallies(l, d, ds, move, op);
    StartOpBalances(l, d, ds, move);
  }

  lemma CancelLeaves(ds: OpSet)
    requires WellFormedSet(ds)
    ensures WellFormedSet(IoSet(ds, Cancel)) && QueuedOps(IoSet(ds, Cancel)) == multiset{}
  {
  }

  lemma CancelAccounts(l: Local, d: SetId, ds: OpSet, op: OpId)
    requires ThreadOk(l.th) && IoEnabled(l.w, l.th, d, ds, Cancel)
    ensures AccountsWith(l, ds, IoWork(l, d, ds, Cancel), IoSet(ds, Cancel), op)
  {
    hide PcOps, IoSet, Emptied, QueuedOps;
    CancelLeaves(ds);
  }

  lemma DeregisterLeaves(ds: OpSet)
    requires WellFormedSet(ds)
    ensures var ds' := IoSet(ds, Deregister);
            WellFormedSet(ds') && QueuedOps(ds') == if ds.shutdown then QueuedOps(ds) else multiset{}
  {
  }

  lemma DeregisterAccounts(l: Local, d: SetId, ds: OpSet, op: OpId)
    requires ThreadOk(l.th) && IoEnabled(l.w, l.th, d, ds, Deregister)
    ensures AccountsWith(l, ds, IoWork(l, d, ds, Deregister), IoSet(ds, Deregister), op)
  {
    hide PcOps, IoSet, Emptied, QueuedOps;
    DeregisterLeaves(ds);
  }

  lemma UnlinkedHolds(ops: multiset<OpId>)
    ensures CallOps(Unlinked(ops)) == ops && (Unlinked(ops).NoCall? || Unlinked(ops).Deferring?)
  {
  }

  lemma FreeSetAccounts(l: Local, d: SetId, ds: OpSet, op: OpId)
    requires ThreadOk(l.th) && IoEnabled(l.w, l.th, d, ds, FreeSet)
    ensures AccountsWith(l, ds, IoWork(l, d, ds, FreeSet), IoSet(ds, FreeSet), op)
  {
    UnlinkedHolds(l.th.call.freed);
    FreeingHolds(l.th.call);
    hide PcOps, CallOps, Unlinked;
    FreeSetLeaves(ds);
    hide IoSet, QueuedOps;
  }

  lemma FreeingHolds(call: Call)
    requires call.Freeing?
    ensures CallOps(call) == call.freed
  {
  }

  lemma FreeSetLeaves(ds: OpSet)
    requires WellFormedSet(ds)
    ensures WellFormedSet(IoSet(ds, FreeSet)) && QueuedOps(IoSet(ds, FreeSet)) == QueuedOps(ds)
  {
  }

  lemma RecycleAccounts(l: Local, d: SetId, ds: OpSet, op: OpId)
    requires ThreadOk(l.th) && IoEnabled(l.w, l.th, d, ds, Recycle)
    ensures AccountsWith(l, ds, IoWork(l, d, ds, Recycle), IoSet(ds, Recycle), op)
  {
    hide PcOps;
  }

  lemma IoMoveAccounts(l: Local, d: SetId, ds: OpSet, move: IoMove, op: OpId)
    requires ThreadOk(l.th) && IoEnabled(l.w, l.th, d, ds, move)
    ensures AccountsWith(l, ds, IoWork(l, d, ds, move), IoSet(ds, move), op)
  {
    match move {
      case PerformIo(counts) => PerformIoAccounts(l, d, ds, counts, op);
      case StartOp(_, _, _, _, _) => StartOpAccounts(l, d, ds, move, op);
      case Cancel => CancelAccounts(l, d, ds, op);
      case Deregister => DeregisterAccounts(l, d, ds, op);
      case FreeSet => FreeSetAccounts(l, d, ds, op);
      case Recycle => RecycleAccounts(l, d, ds, op);
    }
  }

  // ---------- one step ----------

  /** The totals of a state, for one operation. */
  ghost function StateTally(s: State, op: OpId): int {
    var copies: int := Pending(s)[op] + multiset(s.work.invoked)[op];
    copies - if op in s.work.given then 1 else 0
  }

  ghost function StateSlack(s: State): int {
    s.work.outstanding - |s.work.opQue.ops| - Sum(s.threads, Balance) - Sum(s.sets, QueuedCount)
  }

  lemma StateTallyIs(s: State, op: OpId)
    ensures StateTally(s, op) + (if op in s.work.given then 1 else 0)
         == s.work.opQue.ops[op] + Union(s.threads, Waits)[op] + Union(s.sets, QueuedOps)[op] + multiset(s.work.invoked)[op]
  {
  }

  lemma TallyIs(l: Local, op: OpId)
    ensures Tally(l, op) + (if op in l.w.given then 1 else 0)
         == l.w.opQue.ops[op] + Waits(l.th)[op] + multiset(l.w.invoked)[op]
  {
  }

  /** A step that rewrites one thread, accounting for what it moved, keeps the state's totals. */
  lemma ThreadStepTotals(s: State, s': State, t: Tid, op: OpId)
    requires t < |s.threads| && |s'.threads| == |s.threads| && s'.threads == s.threads[t := s'.threads[t]]
    ensures Sum(s'.threads, Balance) == Sum(s.threads, Balance) - Balance(s.threads[t]) + Balance(s'.threads[t])
    ensures Union(s'.threads, Waits)[op] + Waits(s.threads[t])[op] == Union(s.threads, Waits)[op] + Waits(s'.threads[t])[op]
  {
    SumUpdate(s.threads, t, s'.threads[t], Balance);
    UnionUpdate(s.threads, t, s'.threads[t], Waits);
  }

  lemma SetStepTotals(s: State, s': State, d: SetId, op: OpId)
    requires d < |s.sets| && |s'.sets| == |s.sets| && s'.sets == s.sets[d := s'.sets[d]]
    ensures Sum(s'.sets, QueuedCount) == Sum(s.sets, QueuedCount) - QueuedCount(s.sets[d]) + QueuedCount(s'.sets[d])
    ensures Union(s'.sets, QueuedOps)[op] + QueuedOps(s.sets[d])[op]
         == Union(s.sets, QueuedOps)[op] + QueuedOps(s'.sets[d])[op]
  {
    SumUpdate(s.sets, d, s'.sets[d], QueuedCount);
    UnionUpdate(s.sets, d, s'.sets[d], QueuedOps);
  }

  lemma PlainStepTotals(s: State, s': State, t: Tid, op: OpId)
    requires t < |s.threads| && |s'.threads| == |s.threads| && s'.threads == s.threads[t := s'.threads[t]]
    requires s'.sets == s.sets
    requires Accounts(Local(s.work, s.threads[t]), Local(s'.work, s'.threads[t]), op)
    ensures StateTally(s', op) == StateTally(s, op) && StateSlack(s') == StateSlack(s)
  {
    hide StateTally, Tally, Waits, Balance, ThreadOk;
    StateTallyIs(s, op);
    StateTallyIs(s', op);
    TallyIs(Local(s.work, s.threads[t]), op);
    TallyIs(Local(s'.work, s'.threads[t]), op);
    ThreadStepTotals(s, s', t, op);
  }

  lemma IoStepTally(s: State, s': State, t: Tid, d: SetId, op: OpId)
    requires t < |s.threads| && |s'.threads| == |s.threads| && s'.threads == s.threads[t := s'.threads[t]]
    requires d < |s.sets| && |s'.sets| == |s.sets| && s'.sets == s.sets[d := s'.sets[d]]
    requires AccountsWith(Local(s.work, s.threads[t]), s.sets[d], Local(s'.work, s'.threads[t]), s'.sets[d], op)
    ensures StateTally(s', op) == StateTally(s, op)
  {
    hide StateTally, Tally, Waits, Balance, ThreadOk, QueuedOps;
    StateTallyIs(s, op);
    StateTallyIs(s', op);
    TallyIs(Local(s.work, s.threads[t]), op);
    TallyIs(Local(s'.work, s'.threads[t]), op);
    ThreadStepTotals(s, s', t, op);
    SetStepTotals(s, s', d, op);
  }

  lemma IoStepSlack(s: State, s': State, t: Tid, d: SetId, op: OpId)
    requires t < |s.threads| && |s'.threads| == |s.threads| && s'.threads == s.threads[t := s'.threads[t]]
    requires d < |s.sets| && |s'.sets| == |s.sets| && s'.sets == s.sets[d := s'.sets[d]]
    requires AccountsWith(Local(s.work, s.threads[t]), s.sets[d], Local(s'.work, s'.threads[t]), s'.sets[d], op)
    ensures StateSlack(s') == StateSlack(s)
  {
    ThreadStepTotals(s, s', t, op);
    SetStepTotals(s, s', d, op);
  }

  lemma NewSetTotals(s: State, s': State, op: OpId)
    requires s' == s.(sets := s.sets + [NEW_SET])
    ensures StateTally(s', op) == StateTally(s, op) && StateSlack(s') == StateSlack(s)
  {
    SumAppend(s.sets, NEW_SET, QueuedCount);
    UnionAppend(s.sets, NEW_SET, QueuedOps);
  }

  lemma StepKeepsTotals(s: State, step: Step, op: OpId)
    requires LedgerInv(s) && Enabled(s, step)
    ensures var s' := Apply(s, step);
            && StateTally(s', op) == StateTally(s, op) && StateSlack(s') == StateSlack(s)
            && (step.NewSet? || (step.t < |s'.threads| && ThreadOk(s'.threads[step.t])))
            && (step.IoStep? ==> step.d < |s'.sets| && WellFormedSet(s'.sets[step.d]))
  {
    hide StateTally, StateSlack, Tally, Slack, Balanced, Conserved, QueuedOps, QueuedCount, LoopWork, FinishWork,
      PostWork, ControlWork, IoWork, IoSet, LoopWake, FinishWake, PostWake, ControlWake;
    var l := Local(s.work, s.threads[step.t]);
    assert ThreadOk(l.th);
    var s' := Apply(s, step);
    match step {
      case LoopStep(t, move) =>
        LoopMoveAccounts(l, s.wake, t, move, op);
        PlainStepTotals(s, s', t, op);
      case FinishStep(t, move) =>
        FinishMoveAccounts(l, move, op);
        PlainStepTotals(s, s', t, op);
      case PostStep(t, move) =>
        PostMoveAccounts(l, move, op);
        PlainStepTotals(s, s', t, op);
      case ControlStep(t, move) =>
        ControlMoveAccounts(l, s.wake, move, op);
        PlainStepTotals(s, s', t, op);
      case IoStep(t, d, move) =>
        IoMoveAccounts(l, d, s.sets[d], move, op);
        IoStepTally(s, s', t, d, op);
        IoStepSlack(s, s', t, d, op);
      case NewSet(_) =>
        NewSetTotals(s, s', op);
    }
  }

  lemma TotalsGiveLedger(s: State, s': State)
    requires LedgerInv(s)
    requires forall op: OpId :: StateTally(s', op) == StateTally(s, op)
    requires StateSlack(s') == StateSlack(s)
    ensures Balanced(s') && Conserved(s')
  {
    forall op: OpId ensures multiset(s'.work.given)[op] == (Pending(s') + multiset(s'.work.invoked))[op] {
      assert StateTally(s', op) == StateTally(s, op);
      assert multiset(s.work.given)[op] == (Pending(s) + multiset(s.work.invoked))[op];
    }
  }

  lemma StepKeepsShape(s: State, step: Step)
    requires LedgerInv(s) && Enabled(s, step)
    requires step.NewSet? || ThreadOk(Apply(s, step).threads[step.t])
    requires step.IoStep? ==> WellFormedSet(Apply(s, step).sets[step.d])
    ensures var s' := Apply(s, step);
            && (forall t :: 0 <= t < |s'.threads| ==> ThreadOk(s'.threads[t]))
            && (forall d :: 0 <= d < |s'.sets| ==> WellFormedSet(s'.sets[d]))
  {
    hide ThreadOk, Balanced, Conserved, IoSet, IoWork, LoopWork, FinishWork, PostWork, ControlWork, LoopWake,
      FinishWake, PostWake, ControlWake;
  }

  /** Every step of every thread keeps the account of the work and of the operations. */
  lemma StepKeepsLedger(s: State, step: Step)
    requires LedgerInv(s) && Enabled(s, step)
    ensures LedgerInv(Apply(s, step))
  {
    var s' := Apply(s, step);
    forall op: OpId ensures StateTally(s', op) == StateTally(s, op) {
      StepKeepsTotals(s, step, op);
    }
    StepKeepsTotals(s, step, 0);
    TotalsGiveLedger(s, s');
    StepKeepsShape(s, step);
  }
}
