/**
  The scheduler in place: the intrusive idle list, the event flags, the shared and private
  queues.  Each method is one or more regions of the source run without interference, and
  is proved to make exactly the moves of the proactor's state machine.
 */
module TaskIoService {
  import opened Proactor

  /** What a shared or private queue holds. */
  datatype Item = Token | ReadySet(d: SetId) | UserOp(op: OpId)

  function One(item: Item): Queue {
    match item
    case Token => Queue(1, multiset{}, multiset{})
    case ReadySet(d) => Queue(0, multiset{d}, multiset{})
    case UserOp(op) => Queue(0, multiset{}, multiset{op})
  }

  /** The contents of a queue, its order forgotten. */
  function Contents(q: seq<Item>): Queue {
    if q == [] then EMPTY else One(q[0]).Merge(Contents(q[1..]))
  }

  lemma {:induction false} ContentsOfConcat(a: seq<Item>, b: seq<Item>)
    ensures Contents(a + b) == Contents(a).Merge(Contents(b))
  {
    if a == [] {
      assert a + b == b;
    } else {
      assert (a + b)[1..] == a[1..] + b;
      ContentsOfConcat(a[1..], b);
    }
  }

  lemma PushBack(q: seq<Item>, item: Item)
    ensures Contents(q + [item]) == Contents(q).Merge(One(item))
  {
    ContentsOfConcat(q, [item]);
    assert Contents([item]) == One(item);
  }

  lemma PushTokenBack(q: seq<Item>)
    ensures Contents(q + [Token]) == Contents(q).PushToken()
  {
    PushBack(q, Token);
  }

  lemma PushOpBack(q: seq<Item>, op: OpId)
    ensures Contents(q + [UserOp(op)]) == Contents(q).PushOp(op)
  {
    PushBack(q, UserOp(op));
  }

  function AsItems(ops: seq<OpId>): seq<Item> {
    if ops == [] then [] else [UserOp(ops[0])] + AsItems(ops[1..])
  }

  lemma {:induction false} OpsContents(ops: seq<OpId>)
    ensures Contents(AsItems(ops)) == Queue(0, multiset{}, multiset(ops))
  {
    if ops != [] {
      OpsContents(ops[1..]);
      assert ops == [ops[0]] + ops[1..];
    }
  }

  lemma MergedOps(q: seq<Item>, ops: seq<OpId>)
    ensures Contents(q).Merge(Contents(AsItems(ops))) == Contents(q).PushOps(multiset(ops))
  {
    OpsContents(ops);
  }

  /** An operation posted by a thread that is not interfered with. */
  function AfterPost(l: Local, op: OpId): Local {
    var w, th := l.w.(given := l.w.given + {op}), l.th;
    if Privately(w, th)
    then Local(w, th.(privQ := th.privQ.PushOp(op), privWork := th.privWork + 1))
    else Local(w.(outstanding := w.outstanding + 1, opQue := w.opQue.PushOp(op)), th)
  }

  lemma AfterPostIsMoves(l: Local, op: OpId)
    requires PostEnabled(l.w, l.th, Post(op))
    ensures var accepted := PostWork(PostWork(l, Post(op)), Accept);
            if Privately(l.w, l.th) then AfterPost(l, op) == accepted
            else PostEnabled(accepted.w, accepted.th, Enqueue) && AfterPost(l, op) == PostWork(accepted, Enqueue)
  {
  }

  lemma NoContents()
    ensures Contents([]) == EMPTY
  {
  }

  lemma MergeNothing(q: Queue)
    ensures q.Merge(EMPTY) == q
  {
  }

  function MoveOf(item: Item): LoopMove {
    match item
    case Token => TakeToken
    case ReadySet(d) => TakeSet(d)
    case UserOp(op) => TakeOp(op)
  }

  /** Another thread woken when more is queued, unless one thread was promised. */
  function WakeForMoreIn(u: Wakeups, w: Work): Wakeups {
    if !w.opQue.Empty() && !w.oneThread then WakeOneThread(u) else u
  }

  lemma WakeForMoreIsMove(u: Wakeups, t: Tid, w: Work, move: LoopMove)
    requires move.TakeOp? || move.TakeSet?
    ensures LoopWake(u, t, w, move) == WakeForMoreIn(u, w)
  {
  }

  /** Taking something with more queued signals the first idle thread, and only then is anyone taken off the idle list. */
  lemma WakesFirstIdle(u: Wakeups, t: Tid, w: Work, item: Item)
    ensures var u' := LoopWake(u, t, w, MoveOf(item));
            && (!w.oneThread && !w.opQue.Empty() && u.idle != [] ==> u'.idle == u.idle[1..] && u.idle[0] in u'.signalled)
            && (w.oneThread || w.opQue.Empty() || u.idle == [] ==> u'.idle == u.idle)
  {
  }

  lemma OneMore(x: nat, rest: multiset<nat>)
    ensures multiset{x} + rest - multiset{x} == rest
    ensures multiset{} + rest == rest
  {
  }

  lemma PopOneToken(rest: Queue)
    ensures One(Token).Merge(rest).PopToken() == rest
  {
    OneMore(0, rest.sets);
    OneMore(0, rest.ops);
  }

  lemma PopOneSet(d: SetId, rest: Queue)
    ensures One(ReadySet(d)).Merge(rest).PopSet(d) == rest
  {
    OneMore(d, rest.sets);
    OneMore(0, rest.ops);
  }

  lemma PopOneOp(op: OpId, rest: Queue)
    ensures One(UserOp(op)).Merge(rest).PopOp(op) == rest
  {
    OneMore(0, rest.sets);
    OneMore(op, rest.ops);
  }

  /** Taking the front of a queue takes it out of the contents. */
  lemma PopFront(q: seq<Item>)
    requires q != []
    ensures q[0] == Token ==> Contents(q).tokens > 0 && Contents(q[1..]) == Contents(q).PopToken()
    ensures q[0].ReadySet? ==> q[0].d in Contents(q).sets && Contents(q[1..]) == Contents(q).PopSet(q[0].d)
    ensures q[0].UserOp? ==> q[0].op in Contents(q).ops && Contents(q[1..]) == Contents(q).PopOp(q[0].op)
  {
    hide Queue.PopToken, Queue.PopOp, Queue.PopSet;
    match q[0] {
      case Token => PopOneToken(Contents(q[1..]));
      case ReadySet(d) => PopOneSet(d, Contents(q[1..]));
      case UserOp(op) => PopOneOp(op, Contents(q[1..]));
    }
  }

  /** A whole task cleanup by a thread that is not interfered with. */
  function AfterTaskCleanup(l: Local): Local {
    Local(l.w.(outstanding := l.w.outstanding + l.th.privWork, opQue := l.w.opQue.Merge(l.th.privQ).PushToken()),
          l.th.(pc := AtLoop, privQ := EMPTY, privWork := 0))
  }

  lemma {:induction false} AfterTaskCleanupIsMoves(l: Local)
    requires l.th.pc.ReactorExit?
    ensures AfterTaskCleanup(l) == if l.th.privWork > 0 then AfterTaskCleanup(FinishWork(l, TaskTransfer))
                                   else FinishWork(l, FinishMove.TaskCleanup)
  {
  }

  /** A whole work cleanup by a thread that is not interfered with. */
  function AfterWorkCleanup(l: Local): Local {
    Local(l.w.(outstanding := l.w.outstanding + l.th.privWork - 1, opQue := l.w.opQue.Merge(l.th.privQ)),
          l.th.(pc := AtLoop, privQ := EMPTY, privWork := 0))
  }

  lemma AfterWorkCleanupIsMoves(l: Local)
    requires l.th.pc.Cleaning? && l.th.call.NoCall?
    ensures l.th.privWork > 1 ==> AfterWorkCleanup(l) == AfterWorkCleanup(FinishWork(l, WorkTransfer))
    ensures l.th.privWork == 1 ==> AfterWorkCleanup(l) == FinishWork(FinishWork(l, WorkKeep), WorkMerge)
    ensures l.th.privWork == 0 ==>
              var finished := FinishWork(l, WorkFinish);
              AfterWorkCleanup(l) == FinishWork(finished.(th := finished.th.(call := NoCall)), WorkMerge)
  {
  }

  lemma EmptyContents(q: seq<Item>)
    ensures Contents(q).Empty() <==> q == []
  {
    if q != [] {
      var c := Contents(q);
      match q[0] {
        case Token => assert c.tokens > 0;
        case ReadySet(d) => assert d in c.sets;
        case UserOp(op) => assert op in c.ops;
      }
    }
  }

  lemma MergeMoves(a: Queue, b: Queue, one: Queue)
    ensures a.Merge(b).Merge(one) == a.Merge(b.Merge(one))
    ensures a.Merge(b).Merge(one) == a.Merge(one).Merge(b)
  {
  }

  /** c holds what the first i of a and the first j of b hold. */
  ghost predicate Interleaves(c: seq<Item>, a: seq<Item>, i: int, b: seq<Item>, j: int) {
    0 <= i <= |a| && 0 <= j <= |b| && Contents(c) == Contents(a[..i]).Merge(Contents(b[..j]))
  }

  lemma TakeSecond(c: seq<Item>, a: seq<Item>, i: int, b: seq<Item>, j: int)
    requires Interleaves(c, a, i, b, j) && j < |b|
    ensures Interleaves(c + [b[j]], a, i, b, j + 1)
  {
    hide Contents, Queue.Merge, One;
    PushBack(c, b[j]);
    PushBack(b[..j], b[j]);
    MergeMoves(Contents(a[..i]), Contents(b[..j]), One(b[j]));
    assert b[..j + 1] == b[..j] + [b[j]];
  }

  lemma TakeFirst(c: seq<Item>, a: seq<Item>, i: int, b: seq<Item>, j: int)
    requires Interleaves(c, a, i, b, j) && i < |a|
    ensures Interleaves(c + [a[i]], a, i + 1, b, j)
  {
    hide Contents, Queue.Merge, One;
    PushBack(c, a[i]);
    PushBack(a[..i], a[i]);
    MergeMoves(Contents(a[..i]), Contents(b[..j]), One(a[i]));
    assert a[..i + 1] == a[..i] + [a[i]];
  }

  lemma NoneTaken(a: seq<Item>, b: seq<Item>)
    ensures Interleaves([], a, 0, b, 0)
  {
    hide Contents, Queue.Merge;
    assert a[..0] == [] && b[..0] == [];
    NoContents();
    MergeNothing(EMPTY);
  }

  lemma TakenAll(c: seq<Item>, a: seq<Item>, b: seq<Item>)
    requires Interleaves(c, a, |a|, b, |b|)
    ensures Contents(c) == Contents(a).Merge(Contents(b))
  {
    assert a[..|a|] == a && b[..|b|] == b;
  }

  /** Merging two lists by an order neither is sorted by: some interleaving of the two. */
  method MergeLists(a: seq<Item>, b: seq<Item>) returns (c: seq<Item>)
    ensures Contents(c) == Contents(a).Merge(Contents(b))
  {
    hide *;
    c := [];
    var i, j := 0, 0;
    NoneTaken(a, b);
    while i < |a| || j < |b|
      invariant 0 <= i <= |a| && 0 <= j <= |b|
      invariant Interleaves(c, a, i, b, j)
      decreases |a| + |b| - i - j
    {
      var fromSecond: bool := *;
      if j < |b| && (fromSecond || i == |a|) {
        TakeSecond(c, a, i, b, j);
        c, j := c + [b[j]], j + 1;
      } else {
        TakeFirst(c, a, i, b, j);
        c, i := c + [a[i]], i + 1;
      }
    }
    TakenAll(c, a, b);
  }

  /** Idle threads woken one by one until none is left. */
  ghost function AllIdleWoken(u: Wakeups): Wakeups
    decreases |u.idle|
  {
    if u.idle == [] then u else AllIdleWoken(WakeOneIdle(u))
  }

  lemma {:induction false} AllIdleWokenAtOnce(u: Wakeups)
    ensures AllIdleWoken(u) == u.(idle := [], signalled := u.signalled + set t | t in u.idle)
    decreases |u.idle|
  {
    if u.idle != [] {
      AllIdleWokenAtOnce(WakeOneIdle(u));
      assert u.idle == [u.idle[0]] + u.idle[1..];
    }
  }

  /** What the service knows of a thread inside run, its wake-up event included. */
  class ThreadInfo {
    const id: Tid
    var signalled: bool
    var privateQue: seq<Item>
    var privateWork: nat
    var next: ThreadInfo?
    var inRun: bool
    ghost var pc: Pc
    ghost var call: Call

    constructor (id: Tid)
      ensures this.id == id && Valid() && View() == IDLE_THREAD && next == null && !signalled
    {
      this.id := id;
      signalled, privateQue, privateWork, next, inRun := false, [], 0, null, false;
      pc, call := Outside, NoCall;
    }

    /** The thread's call stack tells whether it is inside run. */
    ghost predicate Valid()
      reads `inRun, `pc
    {
      inRun == !pc.Outside?
    }

    ghost function View(): Thread
      reads `pc, `call, `privateQue, `privateWork
    {
      Thread(pc, call, Contents(privateQue), privateWork)
    }
  }

  class Service {
    const oneThread: bool
    var hasPoller: bool
    var taskInterrupted: bool
    var outstandingWork: int
    var opQue: seq<Item>
    var stopped: bool
    var firstIdleThread: ThreadInfo?

    ghost const threads: seq<ThreadInfo>
    ghost var idle: seq<Tid>
    ghost var pollerWoken: bool
    ghost var given: set<OpId>
    ghost var invoked: seq<OpId>

    /** The idle list is linked through the threads on it, each once. */
    ghost predicate Valid()
      reads `firstIdleThread, `idle, threads`next
    {
      && (forall i :: 0 <= i < |threads| ==> threads[i].id == i)
      && (forall k :: 0 <= k < |idle| ==> idle[k] < |threads|)
      && (forall j, k :: 0 <= j < k < |idle| ==> idle[j] != idle[k])
      && firstIdleThread == (if idle == [] then null else threads[idle[0]])
      && (forall k :: 0 <= k < |idle| - 1 ==> threads[idle[k]].next == threads[idle[k + 1]])
      && (idle != [] ==> threads[idle[|idle| - 1]].next == null)
    }

    ghost function WorkView(): Work
      reads `outstandingWork, `opQue, `given, `invoked
    {
      Work(oneThread, outstandingWork, Contents(opQue), given, invoked)
    }

    ghost function SignalledIds(): set<Tid>
      reads threads`signalled
    {
      set i | 0 <= i < |threads| && threads[i].signalled
    }

    ghost function WakeView(): Wakeups
      reads `hasPoller, `taskInterrupted, `pollerWoken, `stopped, `idle, threads`signalled
    {
      Wakeups(hasPoller, taskInterrupted, pollerWoken, stopped, idle, SignalledIds())
    }

    constructor (oneThread: bool, ghost threads: seq<ThreadInfo>)
      requires forall i :: 0 <= i < |threads| ==> threads[i].id == i
      ensures Valid() && this.threads == threads && this.oneThread == oneThread
      ensures WorkView() == Work(oneThread, 0, EMPTY, {}, [])
      ensures WakeView() == Wakeups(false, true, false, false, [], SignalledIds())
    {
      this.oneThread := oneThread;
      this.threads := threads;
      hasPoller, taskInterrupted, outstandingWork, opQue, stopped := false, true, 0, [], false;
      firstIdleThread := null;
      idle, pollerWoken, given, invoked := [], false, {}, [];
    }

    /** The shared work and one thread, as the state machine sees them. */
    ghost function Me(t: ThreadInfo): Local
      reads `outstandingWork, `opQue, `given, `invoked, t`pc, t`call, t`privateQue, t`privateWork
    {
      Local(WorkView(), t.View())
    }

    /** A thread of this service. */
    ghost predicate Knows(t: ThreadInfo)
      reads t`inRun, t`pc
    {
      t in threads && t.Valid()
    }

    // ---------- waking and stopping, under the lock ----------

    /** Pop the idle list's first thread and raise its event. */
    method SignalFirstIdle()
      requires Valid() && firstIdleThread != null
      modifies this`firstIdleThread, this`idle, threads`next, threads`signalled
      ensures Valid() && WakeView() == WakeOneIdle(old(WakeView()))
    {
      var idleThread := firstIdleThread;
      firstIdleThread := idleThread.next;
      idleThread.next := null;
      idleThread.signalled := true;
      idle := idle[1..];
    }

    method WakeOneIdleThreadAndUnlock() returns (woke: bool)
      requires Valid()
      modifies this`firstIdleThread, this`idle, threads`next, threads`signalled
      ensures Valid() && WakeView() == WakeOneIdle(old(WakeView()))
      ensures woke == (old(idle) != [])
    {
      woke := firstIdleThread != null;
      if woke {
        SignalFirstIdle();
      }
    }

    method InterruptPoller()
      requires Valid()
      modifies this`taskInterrupted, this`pollerWoken
      ensures Valid() && WakeView() == Interrupt(old(WakeView()))
    {
      if !taskInterrupted && hasPoller {
        taskInterrupted := true;
        pollerWoken := true;
      }
    }

    method WakeOneThreadAndUnlock()
      requires Valid()
      modifies this`firstIdleThread, this`idle, this`taskInterrupted, this`pollerWoken, threads`next, threads`signalled
      ensures Valid() && WakeView() == WakeOneThread(old(WakeView()))
    {
      var woke := WakeOneIdleThreadAndUnlock();
      if !woke {
        InterruptPoller();
      }
    }

    /** Empty the idle list, raising every event on the way, and get the reactor back. */
    method StopAllThreads()
      requires Valid()
      modifies this`stopped, this`firstIdleThread, this`idle, this`taskInterrupted, this`pollerWoken,
               threads`next, threads`signalled
      ensures Valid() && WakeView() == Proactor.StopAllThreads(old(WakeView()))
      ensures stopped && idle == [] && forall x :: x in old(idle) ==> x in SignalledIds()
    {
      stopped := true;
      ghost var u := WakeView();
      while firstIdleThread != null
        invariant Valid() && AllIdleWoken(WakeView()) == AllIdleWoken(u)
        decreases |idle|
      {
        SignalFirstIdle();
      }
      AllIdleWokenAtOnce(u);
      ViewsAre();
      InterruptPoller();
      ViewsAre();
    }

    /** The first call makes the reactor and queues the token; any later one finds the reactor there. */
    method InitTask(t: ThreadInfo)
      requires Valid() && Knows(t) && CanCall(t.View())
      modifies `hasPoller, `opQue, `firstIdleThread, `idle, `taskInterrupted, `pollerWoken, threads`next, threads`signalled
      ensures Valid() && Knows(t)
      ensures !old(hasPoller) ==>
                && ControlEnabled(old(WakeView()), old(t.View()), ControlMove.InitTask)
                && Me(t) == ControlWork(old(Me(t)), ControlMove.InitTask)
                && WakeView() == ControlWake(old(WakeView()), ControlMove.InitTask)
      ensures old(hasPoller) ==> unchanged(this) && unchanged(threads) && Me(t) == old(Me(t)) && WakeView() == old(WakeView())
    {
      hide Valid, Contents, SignalledIds, WakeOneThread, Queue.PushToken;
      if !hasPoller {
        hasPoller := true;
        PushTokenBack(opQue);
        opQue := opQue + [Token];
        WakeOneThreadAndUnlock();
      }
    }

    /** stop: under the lock, stop every thread. */
    method Stop(t: ThreadInfo)
      requires Valid() && Knows(t) && CanCall(t.View())
      modifies `stopped, `firstIdleThread, `idle, `taskInterrupted, `pollerWoken, threads`next, threads`signalled
      ensures Valid() && Knows(t)
      ensures Me(t) == ControlWork(ControlWork(old(Me(t)), BeginStop), DoStop)
      ensures WakeView() == ControlWake(ControlWake(old(WakeView()), BeginStop), DoStop)
      ensures stopped && idle == []
    {
      hide Contents, SignalledIds, Interrupt;
      StopAllThreads();
    }

    method Reset(t: ThreadInfo)
      requires Valid() && Knows(t) && CanCall(t.View())
      modifies `stopped
      ensures Valid() && Knows(t)
      ensures Me(t) == ControlWork(old(Me(t)), ControlMove.Reset)
      ensures WakeView() == ControlWake(old(WakeView()), ControlMove.Reset)
      ensures !stopped
    {
      stopped := false;
    }

    // ---------- handing operations over ----------

    method QueueOne(op: OpId)
      requires Valid()
      modifies `opQue, `firstIdleThread, `idle, `taskInterrupted, `pollerWoken, threads`next, threads`signalled
      ensures Valid()
      ensures opQue == old(opQue) + [UserOp(op)]
      ensures Contents(opQue) == old(Contents(opQue)).PushOp(op)
      ensures WakeView() == WakeOneThread(old(WakeView()))
    {
      hide Contents, SignalledIds, WakeOneThread, Queue.PushOp;
      PushOpBack(opQue, op);
      opQue := opQue + [UserOp(op)];
      WakeOneThreadAndUnlock();
    }

    /** Counted and queued in one go, or put aside privately by a thread inside run. */
    method PostImmediateCompletion(t: ThreadInfo, op: OpId)
      requires Valid() && Knows(t) && CanCall(t.View()) && op !in given
      modifies `outstandingWork, `opQue, `given, `firstIdleThread, `idle, `taskInterrupted, `pollerWoken,
               threads`next, threads`signalled, t`privateQue, t`privateWork
      ensures Valid() && Knows(t)
      ensures Me(t) == AfterPost(old(Me(t)), op)
      ensures if oneThread && t.inRun
              then t.privateQue == old(t.privateQue) + [UserOp(op)] && t.privateWork == old(t.privateWork) + 1
                   && opQue == old(opQue) && outstandingWork == old(outstandingWork)
              else opQue == old(opQue) + [UserOp(op)] && outstandingWork == old(outstandingWork) + 1
                   && t.privateQue == old(t.privateQue) && t.privateWork == old(t.privateWork)
      ensures WakeView() == if old(Privately(WorkView(), t.View())) then old(WakeView()) else WakeOneThread(old(WakeView()))
    {
      hide Valid, Contents, SignalledIds, WakeOneThread, Queue.PushOp, Queue.PushOps, Queue.Merge, One, AsItems;
      given := given + {op};
      if oneThread && t.inRun {
        t.privateWork := t.privateWork + 1;
        PushOpBack(t.privateQue, op);
        t.privateQue := t.privateQue + [UserOp(op)];
      } else {
        outstandingWork := outstandingWork + 1;
        QueueOne(op);
      }
    }

    method QueueAll(ops: seq<OpId>)
      requires Valid()
      modifies `opQue, `firstIdleThread, `idle, `taskInterrupted, `pollerWoken, threads`next, threads`signalled
      ensures Valid()
      ensures Contents(opQue) == old(Contents(opQue)).PushOps(multiset(ops))
      ensures WakeView() == WakeOneThread(old(WakeView()))
    {
      hide Contents, SignalledIds, WakeOneThread, Queue.PushOps, Queue.Merge, AsItems;
      MergedOps(opQue, ops);
      opQue := MergeLists(opQue, AsItems(ops));
      WakeOneThreadAndUnlock();
    }

    /** Completed or cancelled operations, taken off a descriptor, queued to have their handlers run. */
    method PostDeferredCompletions(t: ThreadInfo, ops: seq<OpId>)
      requires Valid() && Knows(t) && t.call == (if ops == [] then NoCall else Deferring(multiset(ops)))
      modifies `opQue, `firstIdleThread, `idle, `taskInterrupted, `pollerWoken,
               threads`next, threads`signalled, t`privateQue, t`call
      ensures Valid() && Knows(t)
      ensures ops == [] ==> Me(t) == old(Me(t))
      ensures ops != [] ==>
                && PostEnabled(old(WorkView()), old(t.View()), PostDeferred)
                && Me(t) == PostWork(old(Me(t)), PostDeferred)
      ensures WakeView() == if ops == [] || old(Privately(WorkView(), t.View())) then old(WakeView())
                            else WakeOneThread(old(WakeView()))
    {
      hide Valid, Contents, SignalledIds, WakeOneThread, Queue.PushOps, Queue.Merge, AsItems;
      if ops != [] {
        t.call := NoCall;
        if oneThread && t.inRun {
          MergedOps(t.privateQue, ops);
          t.privateQue := MergeLists(t.privateQue, AsItems(ops));
        } else {
          QueueAll(ops);
        }
      }
    }

    // ---------- the loop ----------

    /** The prologue of run: with no work outstanding everything is stopped, otherwise the loop begins. */
    method EnterRun(t: ThreadInfo) returns (entered: bool)
      requires Valid() && Knows(t) && t.pc.Outside? && t.call.NoCall?
      modifies `stopped, `firstIdleThread, `idle, `taskInterrupted, `pollerWoken, threads`next, threads`signalled,
               t`privateQue, t`privateWork, t`inRun, t`pc
      ensures Valid() && Knows(t) && entered == (old(outstandingWork) != 0)
      ensures var begun := LoopWork(old(Me(t)), LoopMove.EnterRun);
              && Me(t) == (if entered then begun else ControlWork(begun, DoStop))
              && (entered ==> t.pc == AtLoop && t.privateQue == [] && t.privateWork == 0)
              && (!entered ==> t.pc == Outside && stopped && idle == [])
              && WakeView() == if entered then old(WakeView()) else ControlWake(old(WakeView()), DoStop)
    {
      hide SignalledIds, Interrupt, Proactor.StopAllThreads;
      if outstandingWork == 0 {
        StopAllThreads();
        entered := false;
      } else {
        t.privateQue, t.privateWork, t.inRun, t.pc := [], 0, true, AtLoop;
        entered := true;
      }
    }

    /** Push a thread on the idle list with its event down. */
    method PushIdle(t: ThreadInfo)
      requires Valid() && t in threads && t.id !in idle
      modifies `firstIdleThread, `idle, t`next, t`signalled
      ensures Valid()
      ensures idle == [t.id] + old(idle) && !t.signalled
      ensures WakeView() == old(WakeView()).(idle := [t.id] + old(idle), signalled := old(SignalledIds()) - {t.id})
    {
      t.next := firstIdleThread;
      firstIdleThread := t;
      t.signalled := false;
      idle := [t.id] + idle;
    }

    /** One pass of do_run_one's loop, under the lock, when there is nothing to take: leave if stopped, else go idle. */
    method LeaveOrSleep(t: ThreadInfo) returns (left: bool)
      requires Valid() && Knows(t) && t.pc.AtLoop? && t.id !in idle && (stopped || opQue == [])
      modifies `firstIdleThread, `idle, t`next, t`signalled, t`inRun, t`pc
      ensures Valid() && Knows(t) && left == old(stopped)
      ensures t.pc == (if left then Outside else Waiting)
      ensures !left ==> idle == [t.id] + old(idle) && !t.signalled
      ensures left ==> LoopEnabled(old(WorkView()), old(WakeView()), t.id, old(t.View()), LeaveRun)
                       && Me(t) == LoopWork(old(Me(t)), LeaveRun) && WakeView() == old(WakeView())
      ensures !left ==> LoopEnabled(old(WorkView()), old(WakeView()), t.id, old(t.View()), Sleep)
                        && Me(t) == LoopWork(old(Me(t)), Sleep)
                        && WakeView() == LoopWake(old(WakeView()), t.id, WorkView(), Sleep)
    {
      hide Contents, SignalledIds;
      EmptyContents(opQue);
      left := stopped;
      if stopped {
        t.inRun, t.pc := false, Outside;
      } else {
        PushIdle(t);
        t.pc := Waiting;
      }
    }

    /** The reactor token was taken: the thread goes to the reactor, to block there only if nothing else is queued. */
    method GoToReactor(t: ThreadInfo)
      requires Valid() && Knows(t) && t.pc.AtLoop?
      modifies `firstIdleThread, `idle, `taskInterrupted, `pollerWoken, threads`next, threads`signalled, t`pc
      ensures Valid() && Knows(t) && t.View() == old(t.View()).(pc := InReactor(opQue == []))
      ensures WakeView() == LoopWake(old(WakeView()), t.id, WorkView(), TakeToken)
    {
      hide Valid, Contents, SignalledIds, WakeOneIdle, WakeOneThread, Queue.Empty;
      EmptyContents(opQue);
      var moreHandlers := opQue != [];
      taskInterrupted := moreHandlers;
      pollerWoken := false;
      if moreHandlers && !oneThread {
        var _ := WakeOneIdleThreadAndUnlock();
      }
      t.pc := InReactor(!moreHandlers);
    }

    /** Another thread is woken when more is queued. */
    method WakeForMore()
      requires Valid()
      modifies `firstIdleThread, `idle, `taskInterrupted, `pollerWoken, threads`next, threads`signalled
      ensures Valid()
      ensures WakeView() == WakeForMoreIn(old(WakeView()), WorkView())
    {
      hide Contents, SignalledIds, WakeOneThread;
      EmptyContents(opQue);
      if opQue != [] && !oneThread {
        WakeOneThreadAndUnlock();
      }
    }

    lemma TakingIsEnabled(t: ThreadInfo)
      requires t.pc.AtLoop? && !stopped && opQue != []
      ensures LoopEnabled(WorkView(), WakeView(), t.id, t.View(), MoveOf(opQue[0]))
    {
      hide Contents, SignalledIds, Queue.PopToken, Queue.PopOp, Queue.PopSet;
      PopFront(opQue);
    }

    /** One pass of do_run_one's loop, under the lock, when something is queued: take the front, wake another thread. */
    method TakeFront(t: ThreadInfo) returns (front: Item)
      requires Valid() && Knows(t) && t.pc.AtLoop? && !stopped && opQue != []
      modifies `opQue, `firstIdleThread, `idle, `taskInterrupted, `pollerWoken, threads`next, threads`signalled, t`pc
      ensures Valid() && Knows(t) && front == old(opQue[0])
      ensures LoopEnabled(old(WorkView()), old(WakeView()), t.id, old(t.View()), MoveOf(front))
      ensures Me(t) == LoopWork(old(Me(t)), MoveOf(front))
      ensures WakeView() == LoopWake(old(WakeView()), t.id, WorkView(), MoveOf(front))
      ensures opQue == old(opQue[1..])
      ensures t.pc == (match front case Token => InReactor(opQue == []) case ReadySet(d) => InSet(d) case UserOp(op) => Dispatching(op))
      ensures !oneThread && opQue != [] && old(idle) != [] ==> idle == old(idle[1..]) && old(idle[0]) in SignalledIds()
      ensures oneThread || opQue == [] || old(idle) == [] ==> idle == old(idle)
    {
      hide *;
      ghost var u := WakeView();
      ViewsAre();
      front := PopAndGo(t);
      ViewsAre();
      WakesFirstIdle(u, t.id, WorkView(), front);
    }

    method PopAndGo(t: ThreadInfo) returns (front: Item)
      requires Valid() && Knows(t) && t.pc.AtLoop? && !stopped && opQue != []
      modifies `opQue, `firstIdleThread, `idle, `taskInterrupted, `pollerWoken, threads`next, threads`signalled, t`pc
      ensures Valid() && Knows(t) && front == old(opQue[0])
      ensures LoopEnabled(old(WorkView()), old(WakeView()), t.id, old(t.View()), MoveOf(front))
      ensures Me(t) == LoopWork(old(Me(t)), MoveOf(front))
      ensures WakeView() == LoopWake(old(WakeView()), t.id, WorkView(), MoveOf(front))
      ensures opQue == old(opQue[1..])
      ensures t.pc == (match front case Token => InReactor(opQue == []) case ReadySet(d) => InSet(d) case UserOp(op) => Dispatching(op))
    {
      hide Valid, WakeView, SignalledIds, LoopWake, LoopEnabled, Contents, WakeOneThread, Queue.PopToken, Queue.PopOp, Queue.PopSet, Queue.Empty, One;
      TakingIsEnabled(t);
      PopFront(opQue);
      front := opQue[0];
      opQue := opQue[1..];
      EmptyContents(opQue);
      match front {
        case Token =>
          GoToReactor(t);
        case ReadySet(d) =>
          WakeForMoreIsMove(WakeView(), t.id, WorkView(), TakeSet(d));
          WakeForMore();
          t.pc := InSet(d);
        case UserOp(op) =>
          WakeForMoreIsMove(WakeView(), t.id, WorkView(), TakeOp(op));
          WakeForMore();
          t.pc := Dispatching(op);
      }
    }

    lemma ViewsAre()
      ensures WakeView().idle == idle && WakeView().signalled == SignalledIds()
      ensures WorkView().oneThread == oneThread && (WorkView().opQue.Empty() <==> opQue == [])
    {
      hide Contents, SignalledIds;
      EmptyContents(opQue);
    }

    // ---------- back to the loop ----------

    /** The loop of the task cleanup: private counts published one by one. */
    method PublishPrivateWork(t: ThreadInfo)
      modifies `outstandingWork, t`privateWork
      ensures outstandingWork == old(outstandingWork) + old(t.privateWork) && t.privateWork == 0
    {
      var b := t.privateWork;
      while b > 0
        invariant 0 <= b && outstandingWork + b == old(outstandingWork) + t.privateWork
        modifies `outstandingWork
      {
        outstandingWork := outstandingWork + 1;
        b := b - 1;
      }
      t.privateWork := 0;
    }

    /** The locked half of the task cleanup: what became ready is queued, and the token behind it. */
    method QueueReadyAndToken(t: ThreadInfo)
      modifies `opQue, t`privateQue
      ensures Contents(opQue) == old(Contents(opQue)).Merge(old(Contents(t.privateQue))).PushToken()
      ensures t.privateQue == []
    {
      hide Contents, Queue.Merge, Queue.PushToken, One;
      opQue := MergeLists(opQue, t.privateQue);
      t.privateQue := [];
      PushTokenBack(opQue);
      opQue := opQue + [Token];
    }

    /** After the reactor call: private counts published, the token and what became ready queued. */
    method TaskCleanup(t: ThreadInfo)
      requires Valid() && Knows(t) && t.pc.ReactorExit?
      modifies `outstandingWork, `opQue, `taskInterrupted, t`privateQue, t`privateWork, t`pc
      ensures Valid() && Knows(t)
      ensures Me(t) == AfterTaskCleanup(old(Me(t)))
      ensures Contents(opQue) == old(Contents(opQue)).Merge(old(Contents(t.privateQue))).PushToken() && t.privateQue == []
      ensures outstandingWork == old(outstandingWork) + old(t.privateWork) && t.privateWork == 0 && t.pc == AtLoop
      ensures WakeView() == FinishWake(old(WakeView()), FinishMove.TaskCleanup)
    {
      hide Valid, Contents, SignalledIds, Queue.Merge, Queue.PushToken;
      PublishPrivateWork(t);
      taskInterrupted := true;
      QueueReadyAndToken(t);
      NoContents();
      t.pc := AtLoop;
    }

    /** The first half of a work cleanup: the handler's own unit settled against the private count. */
    method SettleUnit(t: ThreadInfo)
      requires Valid()
      modifies `outstandingWork, `stopped, `firstIdleThread, `idle, `taskInterrupted, `pollerWoken,
               threads`next, threads`signalled, t`privateWork
      ensures Valid() && t.privateWork == 0
      ensures outstandingWork == old(outstandingWork) + old(t.privateWork) - 1
      ensures WakeView() == if old(t.privateWork) == 0 && old(outstandingWork) == 1
                            then Proactor.StopAllThreads(old(WakeView())) else old(WakeView())
    {
      hide Proactor.StopAllThreads, SignalledIds;
      if t.privateWork > 1 {
        var b := t.privateWork - 1;
        while b > 0
          invariant 0 <= b && outstandingWork + b == old(outstandingWork) + t.privateWork - 1
          modifies `outstandingWork
        {
          outstandingWork := outstandingWork + 1;
          b := b - 1;
        }
      } else if t.privateWork < 1 {
        outstandingWork := outstandingWork - 1;
        if outstandingWork == 0 {
          StopAllThreads();
        }
      }
      t.privateWork := 0;
    }

    /** The second half of a work cleanup: the private queue, if there is anything in it, published. */
    method PublishPrivateQueue(t: ThreadInfo)
      modifies `opQue, t`privateQue
      ensures Contents(opQue) == old(Contents(opQue)).Merge(old(Contents(t.privateQue)))
      ensures t.privateQue == []
    {
      if t.privateQue == [] {
        NoContents();
        MergeNothing(Contents(opQue));
      } else {
        opQue := MergeLists(opQue, t.privateQue);
        t.privateQue := [];
      }
    }

    /** After a handler: its own unit is settled against the private count, the private queue published. */
    method WorkCleanup(t: ThreadInfo)
      requires Valid() && Knows(t) && t.pc.Cleaning? && t.call.NoCall?
      modifies `outstandingWork, `opQue, `stopped, `firstIdleThread, `idle, `taskInterrupted, `pollerWoken,
               threads`next, threads`signalled, t`privateQue, t`privateWork, t`pc
      ensures Valid() && Knows(t)
      ensures Me(t) == AfterWorkCleanup(old(Me(t)))
      ensures Contents(opQue) == old(Contents(opQue)).Merge(old(Contents(t.privateQue))) && t.privateQue == []
      ensures outstandingWork == old(outstandingWork) + old(t.privateWork) - 1 && t.privateWork == 0 && t.pc == AtLoop
      ensures WakeView() == if old(t.privateWork) == 0 && old(outstandingWork) == 1
                            then Proactor.StopAllThreads(old(WakeView())) else old(WakeView())
    {
      hide Valid, Contents, SignalledIds, Queue.Merge, Proactor.StopAllThreads;
      SettleUnit(t);
      PublishPrivateQueue(t);
      NoContents();
      t.pc := AtLoop;
    }
  }
}
