# Verified models of the completion service, its transports and their helpers

This project models, in Dafny, the parts of the repository whose correctness does not show in
any single function, and proves what those parts are for.

- **The completion service** (`deviceagent/2deviceagent/io/async`). `Proactor` is a state machine
  with any number of threads, descriptor states and operations, in both settings of the one-thread
  hint. Every step is one region under a lock, one access to the unlocked work counter, or one
  thread-local move; all interleavings of steps are covered. `ProactorLedger`, `ProactorWake` and
  `ProactorIo` prove the inductive invariants, `ProactorRuns`, `ProactorReady` (ready descriptors),
  `ProactorAttend` (who comes to the queue) and `ProactorControl` (stopping and restarting) the
  theorems over whole runs.
  `TaskIoService` and `OpSets` are the same code in place (the intrusive idle list, event flags,
  queues, per-descriptor queues); each method is proved to make exactly the moves of the machine.
- **The local RPC transport** (`local_rpc/drpc_core.cpp`). `Bytes` and `Rpc` define frames and the
  two decoders on byte strings; `IoVectors` has the scatter/gather loops over one byte memory,
  `RpcCalls` the calls, and the round trip of a sender with either receiver under any fragmentation.
- **The chained transmit buffer and its write operation** (`io/object/operation`). `ChainBytes` sees
  a chain as one flat byte string, `Chain` is the linked structure in place.
- **Supporting machines.** `ObjectPool` (the pool of descriptor states), `ThreadPool` and
  `ThreadPoolQueue` (mutex and condition variable protocol, and its job list), `ReadAtLeast` (the
  stream connection's read), `ChatMessage` and `ChatRoom` (framing, history, write pipeline).
- **Two algorithms.** `ZigZag` (closed-form row permutation) and `Substring` (sliding window over a
  bit set).

## Reading the model

- `list::merge` is called on lists that are not sorted, so a merged queue is some interleaving of
  the two; the state machine keeps queues as multisets and `MergeLists` makes an arbitrary one.
- The work counter is a plain integer with a note that it should be atomic; `++` and `--` are
  atomic steps here, taken outside the lock where the source takes them outside the lock.
- An interruption of the reactor is a flag (`pollerWoken`) that makes a blocked reactor call count as
  awake. In the source the interrupter's descriptor is modified but never added to the epoll set.
- A thread's event is its `signalled` flag; the wait loop is the `Wake` move, enabled when it is up.
- In every socket or `select` loop, what the system calls report is a parameter (a script or a
  function of the pass), restricted only by what the calls promise.
- Memory of the transport is one array of bytes and a vector is a sequence of regions in it; `int`
  values lie in it low byte first.

## Where the code does not do what it seems to

- `set_bytes` charges an item it goes past the length of the buffer it is called on
  (`socket_op_decl.hpp:213-214`). `ChainBytes.WalkSharesIff` and `ChainBytes.AlwaysSharesIffUniform`
  give the exact condition, `ChainBytes.UnequalLengthsGoWrong` an input that fails.
- Appending to a chain that is used up loses the new data for the cursor; `Chain.CBuffer.Append`
  and `ChainBytes.AppendExactIff` say exactly when progress stays consistent,
  `ChainBytes.AppendAfterEndGoesWrong` gives an input that fails.
- A receiver of the transport never compares the number of parameters with the one sent
  (`drpc_core.cpp:68-93`). `Rpc.OneReceivedAsTwo` is a frame with one parameter that is received
  successfully as two, with wrong contents; `Rpc.NumberDecides` says for every number which
  expectations are met and that the contents are right exactly when the numbers agree.
- `thpool_destroy` sets its flag without the lock, so its broadcast can fall between a worker's test
  and its wait: `ThreadPool.LostBroadcast` is such a run, `ThreadPool.OnlySleepyMissBroadcast` and
  `ThreadPool.SleepyCanMissBroadcast` say exactly which workers it can miss.
- A refused read calls its handler at once, and the handler that reads indefinitely asks for the
  same read again (`connection.hpp:503-521`). `ReadAtLeast.RefusedForEver` has three inputs whose
  asks are refused without end; `ReadAtLeast.SettlesIff` says exactly when some ask is accepted.

## Model

| member | source | states |
|---|---|---|
| ProactorRuns.WorkAccounting | deviceagent/2deviceagent/io/async/task_io_service.hpp:151-196 | in every reachable state the shared and private counters together are the counted operations whose handlers have not begun, plus one per thread running a handler or still owing its own unit (the empty `perform_io` included) |
| ProactorRuns.ExactlyOnce | deviceagent/2deviceagent/io/async/task_io_service.hpp:295-346 | in every reachable state each operation handed over is in exactly one place or its handler has begun, never both, and no handler begins twice |
| ProactorRuns.DrainedAtZero | deviceagent/2deviceagent/io/async/task_io_service.hpp:295-299 | at the step whose `work_finished` reaches zero no handler runs and every operation handed over, cancelled ones included, has had its handler run exactly once |
| ProactorRuns.LogsOnlyGrow | deviceagent/2deviceagent/io/async/task_io_service.hpp:306-346 | nothing handed over is forgotten and handlers begun stay begun, in order, over any stretch of a run |
| ProactorRuns.OneReactorToken | deviceagent/2deviceagent/io/async/task_io_service.hpp:362-379 | once there is a reactor, the token is queued once or held by one thread, never both, and at most one thread is inside the reactor; before that there is no token |
| ProactorRuns.ReactorStays | deviceagent/2deviceagent/io/async/task_io_service.hpp:241-249 | a reactor once created is there for the rest of the run |
| ProactorRuns.IdleStackExact | deviceagent/2deviceagent/io/async/task_io_service.hpp:395-401 | the idle list never repeats a thread and holds exactly the threads waiting with their event down |
| ProactorRuns.NoLostWakeup | deviceagent/2deviceagent/io/async/task_io_service.hpp:361-444 | while not stopped, a non-empty shared queue and a thread inside `run` imply a thread that is neither waiting nor in an uninterrupted blocking reactor call |
| ProactorRuns.StopWakesAll | deviceagent/2deviceagent/io/async/task_io_service.hpp:407-422 | while stopped the idle list is empty and every thread inside `run` is awake |
| ProactorRuns.StopIsFinal | deviceagent/2deviceagent/io/async/task_io_service.hpp:361-422 | from a stop to the next reset, the handlers begun, together with those of operations already taken from the queue and not begun, never grow in number |
| ProactorRuns.QueuedAtStopStays | deviceagent/2deviceagent/io/async/task_io_service.hpp:361-422 | an operation in the shared queue of a stopped service stays there until a reset, and its handler does not begin |
| ProactorRuns.IoInStartOrder | deviceagent/2deviceagent/io/async/epoll.hpp:169-312 | for every descriptor and operation type, operations that did their I/O followed by those queued are those started, in start order, without the cancelled ones |
| ProactorRuns.FreedSetsAreEmpty | deviceagent/2deviceagent/io/async/epoll.hpp:335-369 | a descriptor state given back to the pool was live and has empty queues |
| ProactorRuns.HandlerNeedsIo | deviceagent/2deviceagent/io/async/epoll.hpp:260-369 | an operation handed to `start_op` whose handler has begun had its I/O done or was cancelled, unless the descriptor was shut down or it was a write alone in its queue, tried in vain, that could not be registered for |
| ProactorRuns.DoneAtOnceFoundNothingAhead | deviceagent/2deviceagent/io/async/epoll.hpp:274-281 | an operation is done as it is started exactly if the descriptor was open, its own queue was empty, a read's urgent queue too, and the try was allowed and succeeded |
| ProactorRuns.QueuedWritesAreWaitedFor | deviceagent/2deviceagent/io/async/epoll.hpp:283-307 | in every reachable state writes are queued only on descriptors registered for writability |
| ProactorIo.StartDecides | deviceagent/2deviceagent/io/async/epoll.hpp:260-312 | every operation started is done at once, queued last of its type or turned away, the last only on a shut down descriptor or for a write that can neither be done nor waited for |
| ProactorControl.PerformIoHandsOn | deviceagent/2deviceagent/io/async/epoll.hpp:124-202 | after one `perform_io` the thread goes to the handler of the first operation finished of the last type that finished any, and with none finished to its cleanup with one unit counted |
| ProactorControl.RecycledLooksNew | deviceagent/2deviceagent/io/async/epoll.hpp:239-258 | a descriptor state taken from the pool again is open, has nothing queued and is not registered for writes |
| ProactorReady.ReadyAccounting | deviceagent/2deviceagent/io/async/task_io_service.hpp:162-171 | in every reachable state the descriptors the reactor reported, each as often as it was, are those in the shared queue, those in private queues and those taken for their I/O |
| ProactorControl.TakenSetIsWorked | deviceagent/2deviceagent/io/async/task_io_service.hpp:381-392 | the thread that takes a ready descriptor does its I/O next |
| ProactorAttend.SleeperMeansSomeoneComing | deviceagent/2deviceagent/io/async/task_io_service.hpp:361-444 | not stopped and with more than one thread promised, queued work and a sleeping thread, idle or blocked in the reactor, imply a thread at the loop or waiting with its event up; one busy in a handler or holding the token does not count |
| ProactorAttend.StepKeepsAttended | deviceagent/2deviceagent/io/async/task_io_service.hpp:361-444 | every step of every thread keeps that so |
| ProactorControl.ZeroLeadsToStop | deviceagent/2deviceagent/io/async/task_io_service.hpp:251-299 | a thread that enters `run` with no work, or settles the last unit, stops the service before it does anything else |
| ProactorControl.ZeroMeansStopping | deviceagent/2deviceagent/io/async/task_io_service.hpp:251-299 | entering `run` or settling a unit leads to a stop exactly when no work is left |
| ProactorControl.ResetLetsWorkBeTaken | deviceagent/2deviceagent/io/async/task_io_service.hpp:286-289 | after a reset nothing but the stop flag has changed, and any operation queued can be taken by any thread at the loop |
| ProactorControl.PrivateOnlyIfPromised | deviceagent/2deviceagent/io/async/task_io_service.hpp:306-346 | without the promise of one thread, no thread ever has operations or units put aside privately |
| ProactorControl.AcceptedPrivatelyIff | deviceagent/2deviceagent/io/async/task_io_service.hpp:306-319 | an operation posted becomes private, leaving the shared work alone, exactly inside a run of the one promised thread |
| ProactorRuns.RunKeepsInv | deviceagent/2deviceagent/io/async/task_io_service.hpp:251-444 | ledger, wake-up and I/O invariants hold in every state of every run |
| ProactorLedger.StepKeepsLedger | deviceagent/2deviceagent/io/async/task_io_service.hpp:151-196 | every step of every thread keeps the account of the work counter and of the operations |
| ProactorLedger.IoConserves | deviceagent/2deviceagent/io/async/epoll.hpp:169-194 | one `perform_io` splits the queued operations into those done and those still queued |
| ProactorLedger.StartConserves | deviceagent/2deviceagent/io/async/epoll.hpp:260-312 | `start_op` adds its operation to the queues exactly when it is neither refused nor done at once |
| ProactorLedger.PerformIoAccounts | deviceagent/2deviceagent/io/async/epoll.hpp:124-202 | running or posting what `perform_io` finished, or adding one unit when it finished nothing, keeps the account balanced |
| ProactorLedger.WorkTransferAccounts | deviceagent/2deviceagent/io/async/task_io_service.hpp:175-180 | publishing one private unit keeps every tally and the counter's balance |
| ProactorLedger.WorkFinishAccounts | deviceagent/2deviceagent/io/async/task_io_service.hpp:181-184 | settling the thread's own unit by `work_finished` keeps the account balanced |
| ProactorLedger.PostDeferredAccounts | deviceagent/2deviceagent/io/async/task_io_service.hpp:334-346 | deferred completions change hands without touching the counter or losing an operation |
| ProactorWake.StepKeepsWake | deviceagent/2deviceagent/io/async/task_io_service.hpp:361-444 | every step keeps the token, interruption flag, idle list and stop invariants and leaves no queued work to sleepers alone |
| ProactorWake.WakingWorks | deviceagent/2deviceagent/io/async/task_io_service.hpp:424-444 | after `wake_one_thread` some thread inside `run` is awake, whatever slept before |
| ProactorWake.StopAllThreadsKeepsBase | deviceagent/2deviceagent/io/async/task_io_service.hpp:407-422 | stopping keeps the token, flag and idle list invariants |
| ProactorWake.AllAsleepMeansPolling | deviceagent/2deviceagent/io/async/task_io_service.hpp:361-401 | when every thread inside `run` sleeps, nothing is queued and one thread is in the blocking reactor call |
| ProactorIo.StepKeepsIo | deviceagent/2deviceagent/io/async/epoll.hpp:169-369 | every step keeps the per-descriptor order, the emptiness of shut down states and the states being freed apart |
| ProactorIo.StartOrders | deviceagent/2deviceagent/io/async/epoll.hpp:260-312 | every outcome of `start_op` keeps the start order of that type |
| ProactorIo.IoOrders | deviceagent/2deviceagent/io/async/epoll.hpp:169-194 | stopping at the first unfinished operation keeps the start order, for any events |
| ProactorIo.CancelOrders | deviceagent/2deviceagent/io/async/epoll.hpp:314-333 | unlinking everything keeps the order of what remains |
| TaskIoService.MergeLists | deviceagent/2deviceagent/io/async/task_io_service.hpp:164 | merging keeps exactly the contents of both lists |
| TaskIoService.Service.WakeOneIdleThreadAndUnlock | deviceagent/2deviceagent/io/async/task_io_service.hpp:435-444 | pops the first idle thread off the intrusive list and raises its event; false when there is none |
| TaskIoService.Service.WakeOneThreadAndUnlock | deviceagent/2deviceagent/io/async/task_io_service.hpp:424-433 | wakes an idle thread, else interrupts the reactor unless it already was |
| TaskIoService.Service.StopAllThreads | deviceagent/2deviceagent/io/async/task_io_service.hpp:407-422 | empties the idle list, raising every event, and interrupts the reactor: the machine's stop in one step |
| TaskIoService.AllIdleWokenAtOnce | deviceagent/2deviceagent/io/async/task_io_service.hpp:410-416 | waking idle threads one by one until none is left raises exactly the events of those on the list |
| TaskIoService.Service.InitTask | deviceagent/2deviceagent/io/async/task_io_service.hpp:241-249 | a call that finds no reactor queues the token and wakes one thread; one that finds a reactor changes nothing |
| TaskIoService.Service.Stop | deviceagent/2deviceagent/io/async/task_io_service.hpp:276-279 | stopping from outside or from a handler is exactly the machine's two moves of a stop |
| TaskIoService.Service.Reset | deviceagent/2deviceagent/io/async/task_io_service.hpp:286-289 | only the stop flag goes down |
| TaskIoService.Service.PostImmediateCompletion | deviceagent/2deviceagent/io/async/task_io_service.hpp:306-319 | outside a single-threaded run counted and queued last with a wake-up, inside one put last privately with a private unit and nothing else touched |
| TaskIoService.AfterPostIsMoves | deviceagent/2deviceagent/io/async/task_io_service.hpp:306-319 | posting without interference is exactly the machine's moves of posting |
| TaskIoService.Service.PostDeferredCompletions | deviceagent/2deviceagent/io/async/task_io_service.hpp:334-346 | with operations to queue, exactly the machine's enabled move of queueing them, shared with a wake-up or private without; nothing when there are none |
| TaskIoService.Service.EnterRun | deviceagent/2deviceagent/io/async/task_io_service.hpp:251-264 | with no work outstanding everything is stopped and the thread stays outside, else it is at the loop with nothing private |
| TaskIoService.Service.LeaveOrSleep | deviceagent/2deviceagent/io/async/task_io_service.hpp:361-404 | with nothing to take: leaves if stopped, else pushes itself on the idle list with its event down |
| TaskIoService.Service.TakeFront | deviceagent/2deviceagent/io/async/task_io_service.hpp:362-392 | taking the front of the queue is exactly the machine's move for that item, which is enabled; with more queued and more than one thread promised, exactly the first idle thread is taken off the idle list and signalled, otherwise none is |
| TaskIoService.WakeForMoreIsMove | deviceagent/2deviceagent/io/async/task_io_service.hpp:383-387 | waking one thread exactly when more is queued and more than one thread may run is what the machine's moves of taking an operation or a ready descriptor wake |
| TaskIoService.WakesFirstIdle | deviceagent/2deviceagent/io/async/task_io_service.hpp:369-387 | each of the machine's moves of taking something signals the first idle thread exactly when more is queued, more than one thread may run and one is idle |
| TaskIoService.Service.GoToReactor | deviceagent/2deviceagent/io/async/task_io_service.hpp:367-379 | the reactor blocks exactly when nothing else is queued, and whom it wakes is what the machine's move of taking the token wakes |
| TaskIoService.PopFront | deviceagent/2deviceagent/io/async/task_io_service.hpp:363-364 | taking the front takes that item and no other out of the contents |
| TaskIoService.Service.TaskCleanup | deviceagent/2deviceagent/io/async/task_io_service.hpp:151-171 | the counter grows by the private units, what became ready is merged into the shared queue and the token put behind it, and nothing private is left |
| TaskIoService.AfterTaskCleanupIsMoves | deviceagent/2deviceagent/io/async/task_io_service.hpp:151-171 | a task cleanup without interference is exactly the machine's moves |
| TaskIoService.Service.WorkCleanup | deviceagent/2deviceagent/io/async/task_io_service.hpp:173-196 | the counter changes by the private units less one, the private queue is published, and everything is stopped exactly when the last unit went |
| TaskIoService.AfterWorkCleanupIsMoves | deviceagent/2deviceagent/io/async/task_io_service.hpp:173-196 | a work cleanup without interference is exactly the machine's moves |
| OpSets.OpSetState.PerformIo | deviceagent/2deviceagent/io/async/epoll.hpp:169-194 | queues of types the events do not select are left as they are, selected ones end empty or with a front that does not finish; the operations returned all finish and are what left the queues, from the last type to the first |
| OpSets.OpSetState.StartOp | deviceagent/2deviceagent/io/async/epoll.hpp:260-312 | done at once, turned away or queued last, each exactly under the conditions of the source, and nothing else queued or done |
| OpSets.OpSetState.UnlinkAll | deviceagent/2deviceagent/io/async/epoll.hpp:321-329 | returns every queued operation, type by type in order, and leaves all queues empty |
| OpSets.OpSetState.Deregister | deviceagent/2deviceagent/io/async/epoll.hpp:335-369 | unlinks everything and shuts the state down the first time, nothing after that |
| Bytes.IntsRoundTrip | local_rpc/drpc_core.cpp:294-304 | an array of ints read back from its bytes is the array |
| Bytes.LowByteFirst | local_rpc/drpc_core.cpp:294-304 | ints lie in memory low byte first, negative ones in two's complement |
| IoVectors.RecalcIovec | local_rpc/drpc_core.cpp:48-65 | with bytes remaining, leaves exactly the vector's addresses past the bytes moved, empty entries included; with none, leaves the vector alone |
| IoVectors.TrimSkipped | local_rpc/drpc_core.cpp:53-62 | skipping whole entries and shortening the next drops exactly the bytes moved |
| IoVectors.DoSend | local_rpc/drpc_core.cpp:100-146 | the wire always carries a prefix of the vector, exactly what the writes met so far move; 0 is returned exactly when it carries all of it, anything else only for a failure just met, with its code, or a spent time budget; a script that covers the vector within the budget has all of it sent |
| IoVectors.CoveringScriptSendsAll | local_rpc/drpc_core.cpp:105-145 | with nothing that stops the loop, within the budget and with enough bytes taken by writes, the send loop returns 0 |
| IoVectors.CoveringReadsFillAll | local_rpc/drpc_core.cpp:156-196 | with nothing that stops the loop, within the budget, with the data there and enough bytes taken by reads, the receive loop returns 0 |
| IoVectors.DoRecv | local_rpc/drpc_core.cpp:149-197 | ends within its time budget whatever `select` and `readv` do, never reads past the vector, writes only the vector's bytes, and returns 0 exactly when they hold the next stream bytes; it gives up only for a failure or an end of the stream just met, or a spent budget |
| Rpc.AllAtOnceRoundTrip | local_rpc/drpc_core.cpp:286-343 | for every expected command, lengths and number of parameters: which expectations a stream starting with a frame meets; the parameters come back exactly when command and all lengths agree, and a successful decode is right, and takes exactly the frame, if and only if the numbers of parameters agree |
| Rpc.HeaderRoundTrip | local_rpc/drpc_core.cpp:302-355 | the fixed header tells command, frame length and number of parameters |
| Rpc.ReservedIntsAreZero | local_rpc/drpc_core.cpp:294-304 | the other ints of the fixed header are zero |
| Rpc.TwoStepRoundTrip | local_rpc/drpc_core.cpp:286-382 | the same behind the fixed header, where the command is not looked at |
| Rpc.NumberDecides | local_rpc/drpc_core.cpp:68-93 | lengths are accepted exactly when they agree as far as both sides go, further ones being read out of the parameters and what follows; what is then yielded is what was sent if and only if the numbers agree |
| Rpc.DecodersAgree | local_rpc/drpc_core.cpp:286-382 | the two decoders take the same from a frame, the first also looking at the command |
| Rpc.OneReceivedAsTwo | local_rpc/drpc_core.cpp:68-81 | a 40 byte frame with the one parameter of four zero bytes, received as parameters of four bytes and none: 44 bytes are taken and the first parameter is whatever follows the frame |
| Rpc.SplitConcat | local_rpc/drpc_core.cpp:306-309 | parameters written one after the other and cut by their lengths are the parameters |
| RpcCalls.ParseHeader | local_rpc/drpc_core.cpp:68-81 | 0 exactly when the command and every length agree |
| RpcCalls.ParseHeader2 | local_rpc/drpc_core.cpp:84-93 | 0 exactly when every length agrees |
| RpcCalls.Inv | local_rpc/drpc_core.cpp:286-312 | sends a prefix of the frame of command and parameters, all of it exactly when it returns 0, and gives up only for a failure just met or a spent time budget; too many parameters send nothing |
| RpcCalls.VectorOfFrame | local_rpc/drpc_core.cpp:306-311 | the vector handed to the send loop runs exactly over the frame |
| RpcCalls.Ouv | local_rpc/drpc_core.cpp:319-343 | returns 0 exactly when one whole frame arrived and decodes for this command and these lengths; the parameters then hold its contents |
| RpcCalls.OuHeader | local_rpc/drpc_core.cpp:346-355 | returns 0 exactly when 32 bytes were read, and then the header they encode |
| RpcCalls.Ouv2 | local_rpc/drpc_core.cpp:358-382 | returns 0 exactly when lengths and parameters all arrived and the lengths agree; the parameters then hold their contents |
| RpcCalls.InvThenOuv | local_rpc/drpc_core.cpp:286-343 | under any fragmentation and for any two numbers of parameters, two successes mean equal commands; equal parameters, and exactly one frame consumed, each hold if and only if the numbers agree, and then all lengths agree; with equal commands and lengths and enough taken in time by writes and reads, both succeed |
| RpcCalls.InvThenOuHeaderOuv2 | local_rpc/drpc_core.cpp:286-382 | the two-step receiver first learns command, frame length and number of parameters; a success then means equal parameters, and exactly one frame consumed, if and only if it expects the number it was told; with equal lengths and enough taken in time by writes and reads, all steps succeed |
| ChainBytes.WalkSharesIff | deviceagent/2deviceagent/io/object/operation/socket_op_decl.hpp:204-227 | for all lengths and counts, `set_bytes` charges every item its share if and only if every item it goes past is as long as the buffer it is called on |
| ChainBytes.AlwaysSharesIffUniform | deviceagent/2deviceagent/io/object/operation/socket_op_decl.hpp:204-227 | it does so for every count up to the total if and only if every item with bytes behind it has that length |
| ChainBytes.UnequalLengthsGoWrong | deviceagent/2deviceagent/io/object/operation/socket_op_decl.hpp:212-214 | lengths 2, 1, 5 and four bytes sent: the second item is charged two bytes and the third is handed out again from its start |
| ChainBytes.WalkStops | deviceagent/2deviceagent/io/object/operation/socket_op_decl.hpp:211-226 | within the chain the walk leaves the cursor where nothing is left in front of it |
| ChainBytes.WalkLeavesFilled | deviceagent/2deviceagent/io/object/operation/socket_op_decl.hpp:215-225 | it never leaves the cursor on an item it has filled |
| ChainBytes.GatheredIsSuffix | deviceagent/2deviceagent/io/object/operation/socket_write_op.hpp:44-48 | with shares and cursor in agreement, the items from the cursor hold the flat string from the transmitted count on |
| ChainBytes.AdvanceExactIff | deviceagent/2deviceagent/io/object/operation/socket_op_decl.hpp:171-227 | an advance keeps count, shares and cursor in agreement if and only if the items it goes past have the receiver's length |
| ChainBytes.AdvanceTwice | deviceagent/2deviceagent/io/object/operation/socket_op_decl.hpp:193-198 | advancing by a and then by b equals one clamped advance by a + b, whatever the lengths; on a uniform chain the cursor agrees too |
| ChainBytes.SharesSplit | deviceagent/2deviceagent/io/object/operation/socket_op_decl.hpp:135-159 | cutting at the cursor gives the first part all of its bytes and the second what its first item has |
| ChainBytes.AppendExactIff | deviceagent/2deviceagent/io/object/operation/socket_op_decl.hpp:40-66 | an untransmitted chain behind another keeps progress in agreement if and only if the first is not used up or the second is empty |
| ChainBytes.AppendAfterEndGoesWrong | deviceagent/2deviceagent/io/object/operation/socket_op_decl.hpp:53-64 | a buffer of three bytes sent whole, then two bytes appended: progress no longer agrees, for the cursor stays past the end |
| Chain.CBuffer.Append | deviceagent/2deviceagent/io/object/operation/socket_op_decl.hpp:40-66 | succeeds exactly for a last item and another chain's untouched first item; links, head pointers, totals, count and end are then those of the joined chain, progress stays in agreement exactly when the cursor was not past the end or nothing was added; else nothing changes |
| Chain.CBuffer.SetBytes | deviceagent/2deviceagent/io/object/operation/socket_op_decl.hpp:204-227 | transmitted count, every item's consumed bytes and the cursor are those of the walk |
| Chain.CBuffer.AddBytes | deviceagent/2deviceagent/io/object/operation/socket_op_decl.hpp:171-202 | the chain's progress moves by exactly one clamped advance |
| Chain.CBuffer.SplitFromCur | deviceagent/2deviceagent/io/object/operation/socket_op_decl.hpp:135-167 | cut at a cursor past the first item: both parts are chains with their own totals and counts, the first used up, the second with its first item's bytes transmitted, the counts adding up; else nothing changes |
| Chain.CBuffer.Reset | deviceagent/2deviceagent/io/object/operation/socket_op_decl.hpp:116-123 | every item becomes an empty buffer on its own |
| Chain.WriteOp.GatherRegions | deviceagent/2deviceagent/io/object/operation/socket_write_op.hpp:42-48 | from any buffer of the chain, at most sixteen regions, together exactly what the chain has yet to transmit |
| Chain.WriteOp.DoWork | deviceagent/2deviceagent/io/object/operation/socket_write_op.hpp:38-81 | on any buffer of a chain whose items with bytes behind them are as long as that buffer: interruptions are retried; what was sent is the front of what remained and the rest remains; not done exactly on EAGAIN |
| Chain.WriteAll | deviceagent/2deviceagent/io/object/test/client.cc:90-104 | any sequence of partial sends puts what remained on the wire once and in order, exactly as much as the results met so far take; it fails only for an error just met, and a script that takes enough with no such error has everything sent |
| Chain.BuildChain | deviceagent/2deviceagent/io/object/test/client.cc:43-50 | a chain built by appending one buffer after another is well formed and holds the messages in order |
| Chain.EqualLengthsAreReady | deviceagent/2deviceagent/io/object/test/client.cc:43-50 | sixteen or fewer messages of one length make a chain the write operation can drain |
| ObjectPool.CallsKeepPartition | deviceagent/2deviceagent/utils/object_pool.hpp:54-91 | after any sequence of calls every object created is in exactly one list, once, and what would be allocated next is not live |
| ObjectPool.Pool.Alloc | deviceagent/2deviceagent/utils/object_pool.hpp:54-69 | hands out the first returned object or a new one and links it in front of the live ones; both lists stay well formed and together hold every object created, once |
| ObjectPool.Pool.Free | deviceagent/2deviceagent/utils/object_pool.hpp:71-91 | takes a live object out of the middle of the list and puts it in front of the returned ones; both lists stay well formed and together hold every object created, once |
| ObjectPool.Pool.First | deviceagent/2deviceagent/utils/object_pool.hpp:49-52 | the first live object |
| ObjectPool.Pool.Destroy | deviceagent/2deviceagent/utils/object_pool.hpp:43-47 | destroys every object ever created exactly once |
| ObjectPool.Pool.DestroyList | deviceagent/2deviceagent/utils/object_pool.hpp:94-102 | destroys the objects of a list in order, each once |
| ThreadPool.DispatchedInOrder | thread_pool/thread_pool.c:31-60 | in every reachable state the submitted jobs are the dispatched ones followed by the queue, and the pool's count is the queue's length |
| ThreadPool.AssertsHold | thread_pool/thread_pool.c:122-137 | a worker that goes on past the wait outside shutdown finds a job, takes the first and runs it |
| ThreadPool.NothingTakenAfterShutdown | thread_pool/thread_pool.c:115-120 | once the flag is set no further job is taken, a worker that goes on past the wait exits, and one that exited does nothing more |
| ThreadPool.NoJobOverlooked | thread_pool/thread_pool.c:55-119 | outside shutdown no worker idles while a queued job has neither a free worker nor a signal to come, so a non-empty queue means an awake worker or a pending signal |
| ThreadPool.OnlySleepyMissBroadcast | thread_pool/thread_pool.c:65-72 | after the shutdown's broadcast only a worker caught between its test and its wait can be found waiting |
| ThreadPool.SleepyCanMissBroadcast | thread_pool/thread_pool.c:108-113 | any worker caught there can miss it |
| ThreadPool.LostBroadcast | thread_pool/thread_pool.c:65-77 | a run of a one-worker pool that ends with the broadcast over and the worker waiting |
| ThreadPoolQueue.Pool.AddWorker | thread_pool/thread_pool.c:31-55 | the job is last in the list and the count one more |
| ThreadPoolQueue.Pool.TakeWorker | thread_pool/thread_pool.c:122-139 | the first job leaves the list and the count is one less; nothing when the count is zero |
| ThreadPoolQueue.Pool.FreeQueue | thread_pool/thread_pool.c:82-90 | frees exactly the entries left, each once |
| ReadAtLeast.Connection.Arm | deviceagent/connection.hpp:256-277 | armed exactly for an idle connection and 0 < num_bytes <= len; else nothing changes and the code says too many bytes, else a read in progress, else nothing to read |
| ReadAtLeast.Connection.AsyncReadAtLeast | deviceagent/connection.hpp:478-493 | an armed read, or its handler called at once with the code and no bytes |
| ReadAtLeast.Connection.AsyncReadIndef | deviceagent/connection.hpp:495-521 | for any sizes and state, followed for any number of asks: settled with the read armed exactly when the chain of asks settles, else every ask called the handler with the code of the refusal and changed nothing else |
| ReadAtLeast.SettlesIff | deviceagent/connection.hpp:495-521 | setting up an indefinite read comes to an end if and only if no read is armed and 0 < num_bytes <= len |
| ReadAtLeast.AsksAllAlike | deviceagent/connection.hpp:503-521 | after any number of asks either the first one armed the read or every one was refused and called the handler |
| ReadAtLeast.RefusedForEver | deviceagent/connection.hpp:256-277 | no bytes asked for, two bytes into a buffer of one, and a read already armed: after k asks the handler was called k times and asks again |
| ReadAtLeast.Connection.CompleteRead | deviceagent/connection.hpp:394-399 | the handler is told the code and given the bytes read; the indefinite one leaves the same read armed with an empty buffer |
| ReadAtLeast.Connection.FatalError | deviceagent/connection.hpp:215-221 | completes an armed read with what it has, losing nothing |
| ReadAtLeast.Connection.ReadSomeImpl | deviceagent/connection.hpp:374-391 | takes as much input as fits, completes when enough is there, and completed reads with the partial buffer grow by exactly what was taken |
| ReadAtLeast.Connection.ReadAll | deviceagent/connection.hpp:185-197 | ends; takes all input when each completion arms the next read, what fits of a single read, nothing when none is armed |
| ReadAtLeast.Connection.FeedAll | deviceagent/connection.hpp:185-197 | however input is cut into calls, completed reads followed by the partial buffer are the input, and every completion carries between the bytes asked for and the buffer's length |
| ChatMessage.HeaderRoundTrip | chat/chat_message.hpp:66-86 | a body length up to 512 printed in four characters is read back as itself |
| ChatMessage.HeaderCharacters | chat/chat_message.hpp:80-86 | the four characters are spaces and then the length's own digits up to the right edge |
| ChatMessage.SignedHeaderIsRead | chat/chat_message.hpp:66-78 | a plus sign in front and spaces behind are read |
| ChatMessage.TabsAreSkipped | chat/chat_message.hpp:66-78 | tabs and line ends in front are skipped, a letter ends the number |
| ChatMessage.NegativeHeaderIsRefused | chat/chat_message.hpp:66-78 | a negative length is refused |
| ChatMessage.LongHeaderIsRefused | chat/chat_message.hpp:66-78 | a length of 513 is refused |
| ChatMessage.ParseRecovers | chat/chat_server.cpp:115-144 | reading four header bytes and then the body recovers any sequence of well-formed messages and goes on with what follows |
| ChatMessage.ParseLosesNothing | chat/chat_server.cpp:115-144 | what a reader accepted, written out again, followed by what it left, is the stream byte for byte |
| ChatMessage.RelayedBodiesArrive | chat/chat_client.cpp:59-123 | a client reading what a server passes on sees every text sent, cut to what fits |
| ChatMessage.Reader.DecodeBodyLength | chat/chat_message.hpp:66-78 | a number past the limit or negative is refused and leaves length zero; else the length is the number |
| ChatMessage.Reader.ReadStream | chat/chat_client.cpp:59-89 | the two read handlers, alternating over one message buffer, find exactly the messages of the stream |
| ChatRoom.Session.Deliver | chat/chat_server.cpp:101-113 | the message joins the queue; a write is outstanding exactly when the queue is not empty and none has failed |
| ChatRoom.Session.HandleWrite | chat/chat_server.cpp:146-164 | a finished write moves the front of the queue to the completed ones and starts the next; a failed one leaves the room and starts none; completed and queued together stay what was handed over |
| ChatRoom.Room.Join | chat/chat_server.cpp:45-50 | a new session is handed exactly what the room holds |
| ChatRoom.Room.Deliver | chat/chat_server.cpp:57-65 | every session that joined at history length t has been handed exactly the history from max(0, t - 100) on, and the room holds the last 100 messages |
| ChatRoom.Room.Leave | chat/chat_server.cpp:52-55 | the session is no longer a participant, the others are untouched |
| ZigZag.RowIsPenRow | leetcode/1-100/6-ZigZagConversion.c:27-39 | the row min(i mod p, p - i mod p) is where a pen going down and up over the rows writes character i |
| ZigZag.OrderIsPermutation | leetcode/1-100/6-ZigZagConversion.c:72-96 | reading row by row reads every index exactly once |
| ZigZag.IndexStep | leetcode/1-100/6-ZigZagConversion.c:81-85 | the closed form's n-th index of a row is in that row, and no index between it and the next one is |
| ZigZag.ColumnsCover | leetcode/1-100/6-ZigZagConversion.c:54-67 | the column count reaches past the end of the text in every row |
| ZigZag.NeverTooMuch | leetcode/1-100/6-ZigZagConversion.c:80 | the text is never overrun, and once it is full every row is done, so the early exit skips nothing |
| ZigZag.OuterRow | leetcode/1-100/6-ZigZagConversion.c:72-76 | appends exactly the characters of the first or last row, in order |
| ZigZag.InnerRow | leetcode/1-100/6-ZigZagConversion.c:79-89 | appends exactly the characters of a row in between, in order |
| ZigZag.Convert | leetcode/1-100/6-ZigZagConversion.c:41-98 | for two rows or more the result is the text read row by row; for fewer it is the text |
| Substring.UpAndDown | leetcode/1-100/3-lengthOfLongestSubstring.c:10-33 | raising or lowering a character's bit changes the presence of that character and no other |
| Substring.WindowMoves | leetcode/1-100/3-lengthOfLongestSubstring.c:16-29 | moving the front past the earlier occurrence gives the longest repeat-free window ending at the new character |
| Substring.DropThrough | leetcode/1-100/3-lengthOfLongestSubstring.c:16-25 | characters leave the window up to and including the repeated one, and the bits follow |
| Substring.NextWindow | leetcode/1-100/3-lengthOfLongestSubstring.c:10-33 | the window, its length and its bits after one more character |
| Substring.NothingLaterBeats | leetcode/1-100/3-lengthOfLongestSubstring.c:35 | the early exit never loses a longer substring |
| Substring.LengthOfLongestSubstring | leetcode/1-100/3-lengthOfLongestSubstring.c:2-38 | the result is the length of some repeat-free substring and no repeat-free substring is longer |

## Left out

- `epoller::shutdown_service`, `shutdown_service` and `abandon_operations`: not part of the runs modelled; the first merges lists of different element types and is never called.
- Order of completion handlers in the scheduler: merging lists that are not sorted promises none.
- `post_deferred_completion` for a single operation, nested calls of `run` on one thread, and operations destroyed without their handler running.
- Sockets, `epoll_ctl` bookkeeping, the five minute reactor timeout, wall-clock time, `errno` values other than those tested.
- OpSets.OpSetState.PerformIo: whether an operation finishes is a fixed function of the operation during one call.
- IoVectors.DoSend: its script may end while the loop is still trying, because retries and zero-byte writes spend none of the time budget, so the loop need not end; `timeout * 1000` is converted to 64 bits without the overflow of `int`.
- RpcCalls.Inv: requires that everything carried as an `int` fits one; the header is laid out low byte first, and header and parameters do not overlap.
- RpcCalls.RecvWithHeader: requires the regions of header and parameters to be disjoint.
- Chain.CBuffer.SplitFromCur: does not re-establish the second part's end, nor its cursor, because the code does not; progress of the second part is in agreement when its first buffer's own cursor is on itself.
- Chain.WriteOp.DoWork: requires at most sixteen items and fewer than 2^31 bytes, as the fixed array of regions and the `int` result do; the peer address and the flags are not modelled.
- `cbuffer::unlink` (like `Reset`, keeping the data), `set_data` and `destroy_buffer_list`; self-deletion in `do_callback`, whose single run the scheduler's exactly-once theorem covers.
- Joins of `thpool_destroy`: they can wait for ever, as the lost broadcast shows; the pool count is unbounded.
- The connection's `read` from an input stream, `eof` and its write side.
- The chat server's acceptor, the client's input loop and socket closing; `do_write` and `handle_write` of the client are the session's pipeline again.
- ZigZag.Convert: integers are unbounded, and a null text is not modelled.
- Substring.LengthOfLongestSubstring: characters are 7-bit, as the four words require; the result is not narrowed to `int`.
- `select_interrupter`, older copies of these files, the other small exercises, and all main programs.
