# Verified model of the N-API engine's concurrent and algorithmic cores

The project models, in Dafny, the parts of an N-API implementation whose correctness does not show
from reading one function:

- **Thread-safe functions** (`SafeAsyncWork.dfy`, `NativeSafeAsyncWork.dfy`): a queue with many
  producers and one consumer, a four-state lifecycle, a thread ledger, abort and graceful close. The
  consumer drops the lock around every user callback. The protocol is a transition system whose runs
  are all interleavings of any number of threads; the object is a class whose methods are runs of it,
  whatever other threads do while the lock is dropped.
- **Cancelable events** (`NativeEvent.dfy`, `CancelableEvents.dfy`): run and cancel race on one
  atomic handle per event; each event owes the engine one waiting request.
- **The default function's locks** (`DefaultFunctionLocks.dfy`): senders against the destroyer.
- **Teardown** (`RequestLedger.dfy`, `AsyncCleanupHook.dfy`, `CleanupHooks.dfy`): the shared counter
  of waiting requests, hooks that keep themselves alive, and hook bodies that change the map being
  walked.
- **Module registry** (`ModuleList.dfy`, `Sonames.dfy`): the linked list of modules, its lookup, and
  the greylist's parser, validator and buffer.
- **References and workers** (`ReferenceList.dfy`, `WorkerCounts.dfy`): an intrusive doubly linked
  list and the two-level worker counters.
- **Kernels** (`Calculator.dfy` with `CalculatorGrammar.dfy`, `Sieve.dfy`, `Crc32.dfy` with
  `LinearRegister.dfy` and `CrcRemainder.dfy`, `Rle.dfy`).

Conventions. A step of a transition system is one critical section or one atomic operation, so
sequential consistency of the atomics is assumed. What libuv, the engine check and user code answer is
a parameter of the step (`uvOk`, `check`, `script`, `windows`, `passes`), so every statement holds for
all their answers. Fields the program does not have (logs, insertion histories) are ghost or belong to
the specification only.

Findings. The model follows the code where the code does less than its surroundings suggest; each
point names the lemmas that say exactly when:

- A send, release or round end whose `uv_async_send` or engine check fails can lose the consumer's
  wake-up; the object is then stuck for good if and only if it is closing (`WakeLostIff`,
  `NeverStuckIff`, `StuckForGoodIff`).
- An event whose send fails after it was enqueued is given back twice, and the source deletes its
  wrapper (native_engine/native_event.cpp:362-367) while the queue still holds it, so the later callback
  reads a deleted record; the model keeps the record and shows the double decrement. Cancelling the
  reserved id gives one unit back too many while a settled event is queued (`FaultDueIff`,
  `EventConservation`, `UnsignalledExample`, `ReservedIdCancel`).
- Also on the ordinary path the callback deletes the wrapper (native_engine/native_event.cpp:198) before
  the round pops it, so the scan of a concurrent cancellation can read a deleted wrapper
  (`ScanReadsDeletedIff`).
- After a bad send or cancellation `CleanupHandles` can leave although requests are outstanding (`LeavesEarlyIff`,
  `LeavesEarlyExample`).
- A cleanup hook that registers its own argument again while it runs loses the registration; one that
  removes a hook still to come and registers its argument again makes the removed function run and
  loses the new registration (`EachHookOnceIff`, `ReregisteredIsLost`, `StaleRunsRemoved`).
- An async cleanup hook removed on another thread while it is being started loses the record or the
  handle, and only then (`FineRunIff`, `StepGoesWrongIff`, `OverlapLoses`).
- A calculator operator directly after a number is skipped (`TokensAgreeIff`, `MissingBlankExample`).
- The default function's locks can deadlock if and only if the shared mutex prefers writers and two
  threads send (`StuckIff`, `DeadlockIff`).
- A worker decrement that finds its pool at zero still lowers the shared counter (`LedgerIff`,
  `LedgerKeptIff`, `UnmatchedExample`).

## Model

| member | source | states |
|---|---|---|
| SafeAsyncWork.NextKeepsInv | native_engine/native_safe_async_work.cpp:181-425 | every critical section of every thread keeps the invariant behind the results below: queue and logs agree, ledger balanced, one close, bound on the queue |
| SafeAsyncWork.FifoExactlyOnce | native_engine/native_safe_async_work.cpp:308-425 | for any interleaving, with the lock dropped during callbacks: enqueued == delivered ++ drained ++ still queued, in order; nothing is drained unless somebody aborted, so without an abort everything accepted was delivered when the object is gone |
| SafeAsyncWork.AbortedOnlyByAbort | native_engine/native_safe_async_work.cpp:235-277 | only Release(ABORT) sets the aborted mark |
| SafeAsyncWork.SendAnswers | native_engine/native_safe_async_work.cpp:181-217 | each answer of Send in terms of status, bound, queue length, mode, thread count, engine check and signal, both directions: only a blocking caller on a full queue sleeps, only a non-blocking one is told QUEUE_FULL |
| SafeAsyncWork.SendDoes | native_engine/native_safe_async_work.cpp:181-217 | the data is enqueued exactly if the object is open, not full and the engine alive; wake-up and thread count accordingly |
| SafeAsyncWork.AcquireAnswers | native_engine/native_safe_async_work.cpp:219-233 | an open object counts the thread and answers OK, another answers CLOSED unchanged |
| SafeAsyncWork.ReleaseAnswers | native_engine/native_safe_async_work.cpp:235-277 | each answer of Release and its effect: engine and signal matter only for an abort or the last thread |
| SafeAsyncWork.LoopDoes | native_engine/native_safe_async_work.cpp:308-425 | what every step of the loop thread does to each field: a round takes the wake-up, pops from the front, and closes exactly a CLOSING object or an empty one without threads |
| SafeAsyncWork.LedgerAndBounds | native_engine/native_safe_async_work.cpp:158-277 | for any number of threads: threadCount == initial + acquires - decrementing releases - sends that found the object CLOSING or CLOSED and were answered so; uv_close and the finalizer happen at most once and the finalizer not before the close; a bounded queue holds at most maxQueueSize + 1 |
| SafeAsyncWork.ClosedSendReleasesIff | native_engine/native_safe_async_work.cpp:166-206 | a send answered CLOSED gives a thread back if and only if the status is CLOSING or CLOSED; answered so because the engine was replaced it changes nothing |
| SafeAsyncWork.NextForward | native_engine/native_safe_async_work.cpp:181-425 | one step never moves the status back, rewrites a log, or lets the queue grow after INTE |
| SafeAsyncWork.LifecycleForward | native_engine/native_safe_async_work.cpp:181-425 | the same along any run |
| SafeAsyncWork.WakeLostIff | native_engine/native_safe_async_work.cpp:203-381 | a step gets the object stuck (work left, no wake-up pending, no round running) if and only if no wake-up is pending and it hands over work outside a round unsignalled, or ends a round unsignalled with items left, or with none after an abort by a thread that was not the last |
| SafeAsyncWork.NeverStuckIff | native_engine/native_safe_async_work.cpp:181-382 | a run passes through no stuck state if and only if none of its steps is one of those |
| SafeAsyncWork.NoLostWakeup | native_engine/native_safe_async_work.cpp:308-382 | from Init, with any threads: no state of the run is stuck if and only if no step is one of those; then, unless CLOSED, items waiting or CLOSING or no thread left imply a wake-up pending or a round running |
| SafeAsyncWork.NoLostWakeupIfSignalled | native_engine/native_safe_async_work.cpp:203-216 | the same in terms of the calls alone: living engine, every uv_async_send of sends, releases and round ends succeeds |
| SafeAsyncWork.LostAbortIsStuck | native_engine/native_safe_async_work.cpp:235-277 | after an abort whose signal was lost no later call by anyone can close the object or move its queue |
| SafeAsyncWork.LostAbortExample | native_engine/native_safe_async_work.cpp:252-274 | a concrete such abort on a fresh object |
| SafeAsyncWork.StuckForGoodIff | native_engine/native_safe_async_work.cpp:181-277 | a stuck object is stuck for good, whatever anyone calls, if and only if it is CLOSING |
| SafeAsyncWork.AbortInsideRound | native_engine/native_safe_async_work.cpp:372-381 | an unsignalled abort in the last callback of a round: the round closes the object if it was the last thread, and leaves it stuck if not |
| SafeAsyncWork.DoomedStep | native_engine/native_safe_async_work.cpp:308-425 | once aborted or without threads, every step of the loop thread lowers a rank and no client call raises it |
| SafeAsyncWork.ReachesCleanUp | native_engine/native_safe_async_work.cpp:308-425 | so it is deleted after at most 4 * queue + 4 loop steps and at most one more round, whether or not signals fail |
| SafeAsyncWork.LoopIsBlockedIff | native_engine/native_safe_async_work.cpp:308-425 | and until then the loop thread has such a step to take if and only if the object is not stuck |
| ThreadSafeFunction.NativeSafeAsyncWork.constructor | native_engine/native_safe_async_work.cpp:75-156 | constructor and Init: the object starts open with an empty queue, no wake-up pending, and the given bound and thread count |
| ThreadSafeFunction.NativeSafeAsyncWork.Send | native_engine/native_safe_async_work.cpp:181-217 | the call is the protocol's Send step; its six answers and the new queue, status, thread count and wake-up are stated on the fields |
| ThreadSafeFunction.NativeSafeAsyncWork.Acquire | native_engine/native_safe_async_work.cpp:219-233 | the protocol's Acquire step; answer and thread count stated on the fields |
| ThreadSafeFunction.NativeSafeAsyncWork.Release | native_engine/native_safe_async_work.cpp:235-277 | the protocol's Release step; its answers and the new fields stated on the fields, abort included |
| ThreadSafeFunction.NativeSafeAsyncWork.ProcessAsyncHandle | native_engine/native_safe_async_work.cpp:308-382 | whatever clients do in every window in which the lock is dropped, a round is a run of the protocol, delivers exactly the items queued when it began, and ends closed exactly if it was CLOSING, or nothing is queued and no thread left; items left are announced |
| ThreadSafeFunction.NativeSafeAsyncWork.CloseHandles | native_engine/native_safe_async_work.cpp:384-403 | closes once: a second call changes nothing |
| ThreadSafeFunction.NativeSafeAsyncWork.CleanUp | native_engine/native_safe_async_work.cpp:405-425 | whatever other threads call between its steps: the finalizer runs once, then exactly the items left behind are drained in order, and the whole is a run of the protocol |
| ThreadSafeFunction.ClientsKeepQueue | native_engine/native_safe_async_work.cpp:341-376 | calls made while the lock is dropped only extend the queue, so the front item stays in place |
| ThreadSafeFunction.ClosedKeepsQueue | native_engine/native_safe_async_work.cpp:187-202 | calls on a closing or closed object leave its queue alone |
| NativeEvent.EventKeepsInv | native_engine/native_event.cpp:182-425 | every atomic step of senders, consumer and cancellers keeps: each settled event is exactly one of run, cancelled, in the consumer's hand |
| NativeEvent.RunXorCancel | native_engine/native_event.cpp:182-425 | however many cancellers race with the consumer: no event is both run and cancelled or either twice, and when the object is gone each enqueued event, drained ones included, was one of them exactly once |
| NativeEvent.PoppedIsNotQueued | native_engine/native_event.cpp:182-200 | an event that was popped is not in the queue again |
| NativeEvent.RefusedButEnqueuedIff | native_engine/native_event.cpp:342-369 | an event whose send was answered with a failure was enqueued if and only if its uv_async_send failed on an open object of a living engine |
| NativeEvent.ScanReadsDeletedIff | native_engine/native_event.cpp:395-425 | the scan of a cancellation reads a wrapper the program has deleted if and only if the callback on the front item is over and the item not popped yet, or it passes an event whose failed send was given up |
| NativeEvent.PendingMoves | native_engine/native_event.cpp:342-425 | every step changes the number of outstanding requests less faults by what it adds to the counter |
| NativeEvent.FaultDueIff | native_engine/native_event.cpp:342-425 | a step makes a faulty decrement due if and only if it is such a send, or a cancellation of the reserved id on an open object while a settled entry is queued |
| NativeEvent.EventConservation | native_engine/native_event.cpp:342-425 | over any run the events' share of the counter is sends in progress + live queued + claimed but not yet given back, less one for each of those two kinds of call in the run; no cancellation being in progress, equal if and only if there was no such call |
| NativeEvent.FaultlessRun | native_engine/native_event.cpp:342-425 | no fault can happen if uv_async_send succeeds and nobody cancels the reserved id |
| NativeEvent.UnsignalledExample | native_engine/native_event.cpp:362-367 | a send whose signal fails gives its unit back and still leaves its event queued (its wrapper, deleted there, stays a record here) |
| NativeEvent.ReservedIdCancel | native_engine/native_event.cpp:408-423 | cancelling the id 2^64 - 1 gives one unit too many back exactly if a settled event is queued, and does nothing otherwise |
| CancelableEvents.EventQueue.UvCancelEvent | native_engine/native_event.cpp:395-425 | the scan answers ok exactly if open and some queued event has the handle; the call is a run of the event protocol and changes the counter as that run does |
| CancelableEvents.EventQueue.ThreadSafeCallback | native_engine/native_event.cpp:182-200 | runs the task exactly if the event is not settled, settles it, and is a run of the event protocol |
| CancelableEvents.EventQueue.SendEventByUv | native_engine/native_event.cpp:342-369 | answers ok and hands out the id exactly if open, alive and signalled; otherwise takes its count back |
| CancelableEvents.CancelLeads | native_engine/native_event.cpp:395-425 | an uninterrupted cancellation as a run: a match is settled and costs one unit, no match changes nothing |
| CancelableEvents.CallbackLeads | native_engine/native_event.cpp:182-200 | an uninterrupted callback as a run: a live event is settled and run for one unit, a settled one changes nothing |
| CancelableEvents.SendLeads | native_engine/native_event.cpp:342-369 | an uninterrupted send as a run, net one unit if it succeeds and none if not |
| CancelableEvents.LeadsKeepsInv | native_engine/native_event.cpp:342-425 | these runs keep the invariant of all interleavings and the ledger of pending events |
| CancelableEvents.ReachedIsReady | native_engine/native_event.cpp:342-465 | in every state any interleaving reaches, the handles, the queue and the next id are as these operations require |
| DefaultFunctionLocks.LockKeepsInv | native_engine/native_event.cpp:61-245 | every lock operation of senders, destroyer and loop keeps mutual exclusion and: who passed the null check finds the function open |
| DefaultFunctionLocks.SendIsAccepted | native_engine/native_event.cpp:80-107 | a thread inside Send finds its engine alive and the function open; its step enqueues its data and answers OK, or FAILED if only the signal failed |
| DefaultFunctionLocks.NoSendAfterAbort | native_engine/native_event.cpp:226-245 | over any run with any senders: nobody is inside Send once the abort was made, and every send that returned was accepted, so none observes CLOSING or CLOSED |
| DefaultFunctionLocks.AbortIsMadeOnce | native_engine/native_event.cpp:226-245 | over any run: before the destroyer's release nobody has released or aborted the function; after it the function was released once, with an abort, is CLOSING or CLOSED and has no thread; if the abort was signalled and it is not closed yet, the wake-up is pending or being served; what was enqueued is what the senders sent, each once |
| DefaultFunctionLocks.DestroyerAborts | native_engine/native_event.cpp:239-240 | the one step of the destroyer that touches the function: CLOSING, no thread, queue untouched, wake-up as uv_async_send answers |
| DefaultFunctionLocks.SenderTests | native_engine/native_event.cpp:82-104 | a sender leaves with nothing done exactly if its engine is dead or the function gone |
| DefaultFunctionLocks.StuckIff | native_engine/native_event.cpp:80-90 | in any reached state no thread can move although some has not finished if and only if waiting writers come first, one sender inside Send wants the alive mutex another holds while it wants the shared lock, the destroyer waits, and no other reader can go on |
| DefaultFunctionLocks.NoDeadlock | native_engine/native_safe_async_work.cpp:166-179 | in particular, although Send takes the alive mutex again inside, some thread can always move if readers are admitted while a writer waits |
| DefaultFunctionLocks.DeadlockIff | native_engine/native_event.cpp:80-107 | a stuck state can be reached if and only if the shared mutex lets waiting writers go first and at least two threads send |
| DefaultFunctionLocks.WritersFirstDeadlocks | native_engine/native_event.cpp:82-90 | so two senders suffice, one does not |
| RequestLedger.EngineKeepsInv | native_engine/native_async_work.cpp:91-208 | every step of works, hooks and events keeps the ledger |
| RequestLedger.QueueLeads | native_engine/native_async_work.cpp:91-124 | queueing as a run: a work libuv takes is counted and open, one it refuses leaves the counter as it was and is over |
| RequestLedger.NativeAsyncWorks.Queue | native_engine/native_async_work.cpp:91-196 | answers true exactly with a loop that takes the work, and only then adds one to the counter |
| RequestLedger.NativeAsyncWorks.AsyncAfterWorkCallback | native_engine/native_async_work.cpp:238-247 | takes one off the counter for a queued work, cancelled ones included |
| RequestLedger.RequestConservation | native_engine/native_engine.cpp:927-938 | over any interleaving: requestWaiting == works queued and not completed + events owed + hooks started and not finished, less event faults; without a fault it is never negative and 0 exactly when nothing is outstanding |
| RequestLedger.ZeroMeansNothing | native_engine/native_engine.cpp:933-937 | the count of outstanding requests is 0 exactly if every work is settled, every started hook finished, and no event is owed |
| RequestLedger.CleanupHandles | native_engine/native_engine.cpp:927-938 | against any environment, faulty calls included: of the moments between two passes of uv_run the loop leaves at the first at which no more requests are outstanding than faulty decrements were made |
| RequestLedger.LeavesWhenNothingOutstanding | native_engine/native_engine.cpp:933-937 | while every uv_async_send succeeds and nobody cancels the reserved id, that is exactly when nothing is outstanding |
| RequestLedger.LeavesEarlyIff | native_engine/native_engine.cpp:933 | after any run that leaves no cancellation in progress, the loop would leave with requests outstanding if and only if there are some, but not more than the run had faulty calls; it never stays when there are none |
| RequestLedger.LeavesEarlyExample | native_engine/native_event.cpp:362-367 | after one send whose signal fails the counter is 0 with a live event queued |
| RequestLedger.CounterIsRightIff | native_engine/native_engine.cpp:927-938 | over any run that leaves no cancellation in progress, requestWaiting is the number of requests outstanding if and only if the run had none of the two faulty calls |
| RequestLedger.FaultlessEngineRun | native_engine/native_engine.cpp:927-938 | runs without failing signals and without the reserved id stay without faults |
| AsyncCleanupHook.HookKeepsInv | native_engine/native_node_api.cpp:269-344 | every access of the program to the record keeps the lifetime invariant and changes the counter by what becomes outstanding |
| AsyncCleanupHook.HookLifetime | native_engine/native_node_api.cpp:269-344 | over every interleaving of teardown and destructor steps: one increment at most, before the one call, one decrement at most, after it; a destroyed handle leaves nothing outstanding |
| AsyncCleanupHook.RecordIsOwned | native_engine/native_node_api.cpp:269-327 | if no removal overlaps the start of the hook: whenever a step that reads or writes the info record can be taken, the handle, self_ or the copy in FinishAsyncCleanupHook owns it; resetting self_ never frees the record it is stored in; the hook is called with a handle not yet being destroyed |
| AsyncCleanupHook.SelfAloneOwns | native_engine/native_node_api.cpp:269-274 | when the destructor enters FinishAsyncCleanupHook the handle's reference is gone and self_ is the only owner |
| AsyncCleanupHook.FreedWithLastReference | native_engine/native_node_api.cpp:269-327 | the record is freed exactly when the destructor drops the handle's reference of an unstarted hook, or the copy of a started one |
| AsyncCleanupHook.FineRunIff | native_engine/native_node_api.cpp:269-344 | of all runs in which teardown and destructor interleave as they like and a hook counted is also called, those that use nothing freed or being destroyed are exactly those in which no removal overlaps the start |
| AsyncCleanupHook.StepGoesWrongIff | native_engine/native_node_api.cpp:269-344 | for each possible step of a reached state: without overlap it and every serial way on is fine, with overlap some way on goes wrong |
| AsyncCleanupHook.OverlapLoses | native_engine/native_node_api.cpp:280-327 | an overlap before started_ is set can lose the record, one after it the handle while self_ keeps the record |
| AsyncCleanupHook.RemovedBeforeStartNeverRuns | native_engine/native_node_api.cpp:305-313 | once the removal of an unstarted hook has begun, whatever follows, the hook never runs and never touches the counter |
| AsyncCleanupHook.AsyncHookHandle.RunAsyncCleanupHook | native_engine/native_node_api.cpp:280-289 | the call, with or without removal inside the user hook, as a run of those steps; the record is freed by it exactly in the first case |
| AsyncCleanupHook.AsyncHookHandle.Destroy | native_engine/native_node_api.cpp:321-327 | the destructor as a run of those steps: the record is freed and nothing is left on the counter |
| AsyncCleanupHook.AsyncHookHandle.RemoveEnvironmentCleanupHook | native_engine/native_node_api.cpp:305-313 | detaches: resets self_ and unregisters if not started, then drops the handle's reference |
| AsyncCleanupHook.AsyncHookHandle.FinishAsyncCleanupHook | native_engine/native_node_api.cpp:269-278 | gives one request back and frees the record |
| CleanupHooks.SnapshotIsSortedCopy | native_engine/native_engine.cpp:869-880 | the copy has exactly the map's entries, most recent first |
| CleanupHooks.DescendingUnique | native_engine/native_engine.cpp:876-879 | that copy is unique, so any sorting algorithm gives it |
| CleanupHooks.RoundDecreases | native_engine/native_engine.cpp:863-898 | every pass uses up additions still to come or leaves fewer hooks: the lexicographic measure of the outer loop |
| CleanupHooks.TurnAccountsIff | native_engine/native_engine.cpp:883-893 | a turn leaves every registration run, removed or still registered, exactly one of them, if and only if it is skipped or finds the entry it was copied from and its hook does not register its own arg anew |
| CleanupHooks.EachHookOnceIff | native_engine/native_engine.cpp:863-898 | over the whole run, for any hooks: every registration, also those made meanwhile, had its turn exactly once or was removed before it, and each pass runs in strictly decreasing insertion number, if and only if every turn is clean in that sense |
| CleanupHooks.FreshRunIsClean | native_engine/native_engine.cpp:863-898 | every turn is clean if hooks remove what they like and what they do register anew has an arg neither running nor still to come in the pass (adding a registered arg is refused and harmless) |
| CleanupHooks.OpCancelsIff | native_engine/native_engine.cpp:836-842 | an operation cancels a registration if and only if it is a removal naming its function and its arg while it is registered and not yet run |
| CleanupHooks.NotRemovedHasTurn | native_engine/native_engine.cpp:836-898 | in a clean run every registration whose function and arg user code never removes has its turn |
| CleanupHooks.WaitedTasksAreSeen | native_engine/native_engine.cpp:894-896 | a hook registered while CleanupHandles waits is there for the next pass |
| CleanupHooks.RegisteredIsAccounted | native_engine/native_engine.cpp:811-861 | whatever was registered and removed before teardown, these results apply |
| CleanupHooks.PassOrder | native_engine/native_engine.cpp:876-893 | the turns of one pass are strictly decreasing, whatever the hooks do |
| CleanupHooks.ReregisteredIsLost | native_engine/native_engine.cpp:889-892 | a concrete hook whose new registration of its own arg is dropped |
| CleanupHooks.StaleRunsRemoved | native_engine/native_engine.cpp:883-892 | a concrete hook that removes a later hook of the pass and registers its arg anew: the removed function runs, the new registration is dropped |
| CleanupHooks.NativeEngine.AddCleanupHook | native_engine/native_engine.cpp:811-834 | a known arg is refused and the map unchanged, a new one entered under the current number; a number is used up in both cases |
| CleanupHooks.NativeEngine.RemoveCleanupHook | native_engine/native_engine.cpp:836-861 | removes the entry exactly if arg and function match; a refused removal leaves the map as it was |
| CleanupHooks.NativeEngine.SortedHooks | native_engine/native_engine.cpp:869-880 | copying the unordered map in any order and sorting gives the snapshot |
| CleanupHooks.NativeEngine.RunCleanupHooks | native_engine/native_engine.cpp:863-898 | terminates with an empty map, in the state the specification computes; the functions called are those of the turns taken, in order, null ones left out |
| ModuleList.NativeModuleList.CreateHeadNativeModule | module_manager/native_module_manager.cpp:407-428 | a fresh empty module in front of the unchanged rest; head, tail and chain stay consistent |
| ModuleList.NativeModuleList.CreateTailNativeModule | module_manager/native_module_manager.cpp:430-451 | the same at the end |
| ModuleList.NativeModuleList.RemoveNativeModuleByCacheLocked | module_manager/native_module_manager.cpp:1621-1668 | removes exactly the first module whose moduleName matches without regard to case and keeps the order of the rest; false and unchanged if there is none |
| ModuleList.RemovalTakesOneMatch | module_manager/native_module_manager.cpp:1621-1668 | each removal takes one match, so it succeeds exactly as often as there are matches |
| ModuleList.SameIgnoringCaseIff | module_manager/native_module_manager.cpp:1621-1668 | two names are the same key exactly if each pair of characters is equal or the same letter of the alphabet in the other case |
| ModuleList.WhichNamesMatch | module_manager/native_module_manager.cpp:1684-1703 | on concrete modules: moduleName counts as written for the lookup and in any case for the removal, name in any case for the lookup only; missing and empty paths fit |
| ModuleList.NativeModuleList.FindNativeModuleByCache | module_manager/native_module_manager.cpp:1670-1719 | the first module of that name with a fitting path, remembered instead of returned while it is loading; otherwise the last conflicting one is reported |
| ModuleList.NativeModuleList.Search | module_manager/native_module_manager.cpp:1684-1703 | the loop of that lookup stops at the first fitting module, having remembered the last same-named one before it whose path differs |
| ModuleList.FirstLabel | module_manager/native_module_manager.cpp:1689-1694 | the inner loop stops at the first candidate equal to the module's path |
| Sonames.IsValidLibNameStrict | module_manager/native_module_manager.cpp:1728-1751 | accepts exactly names of 4 to NAME_MAX - 1 bytes ending in .so, of allowed bytes, without three dots in a row |
| Sonames.ValidNameIff | module_manager/native_module_manager.cpp:1728-1751 | a name is valid exactly if it is a stem of 1 to 251 allowed bytes, given by number, and ".so", without three dots in a row |
| Sonames.ValidEndsInSo | module_manager/native_module_manager.cpp:1728-1751 | and every valid name is such a stem with ".so" |
| Sonames.LoadGreylistConfig | module_manager/native_module_manager.cpp:482-524 | the accepted names of the one bracketed list, false if there are none |
| Sonames.GreylistRoundTrip | module_manager/native_module_manager.cpp:482-524 | parsing a printed list of names, with spaces, tabs, line ends and quotes around them and any bracket-free text around the list, returns the valid ones in order |
| Sonames.AllValidNames | module_manager/native_module_manager.cpp:482-524 | hence the whole list if all its names are valid |
| Sonames.ValidIsWritten | module_manager/native_module_manager.cpp:496-522 | a valid name between blanks meets what the round trip asks of an item |
| Sonames.ParseNeedsOneList | module_manager/native_module_manager.cpp:482-495 | a name is only ever read from between exactly one '[' and exactly one ']' behind it |
| Sonames.ItemsReadBack | module_manager/native_module_manager.cpp:496-522 | the same for the text between the brackets |
| Sonames.ValidNameHasNoColon | module_manager/native_module_manager.cpp:1728-1751 | an accepted name has no ':' and no NUL |
| Sonames.ParsedHaveNoColons | module_manager/native_module_manager.cpp:482-524 | hence no name read from any file has one |
| Sonames.ListingSplits | module_manager/native_module_manager.cpp:598-616 | splitting what was printed at ':' returns the names |
| Sonames.PrintName | module_manager/native_module_manager.cpp:598-606 | one print: name, colon and NUL if they fit, failure otherwise |
| Sonames.FillSonames | module_manager/native_module_manager.cpp:583-616 | no print ever runs out of the length computed first, the cursor ends on the last byte, and the string splits into allow list then greylist |
| Sonames.CreateSharedLibsSonames | module_manager/native_module_manager.cpp:526-618 | for any file content the string splits into the built-in allow list, then the greylist read |
| Sonames.AllowListEnds | module_manager/native_module_manager.cpp:529-582 | the built-in list has 48 names, libc.so first and libOpenCL.so last |
| Calculator.ReadsSpine | sample/native_module_calculator/napi_calculator.cpp:372-411 | after the tokens of an expression the stacks hold exactly its unapplied right spine on top of what was there |
| Calculator.SpineCollapses | sample/native_module_calculator/napi_calculator.cpp:329-370 | any popping loop that takes the whole spine replaces it by the expression's value |
| Calculator.EvaluatesExpression | sample/native_module_calculator/napi_calculator.cpp:372-411 | for every expression tree over left-associative operators with Precedence, and any meaning of numbers and operators: no empty stack is read and exactly the tree's value remains |
| CalculatorGrammar.EvaluatesSum | sample/native_module_calculator/napi_calculator.cpp:291-318 | for every tree of a grammar of sums, products, powers and atoms, with its value written per operator, and any meaning of numbers and operators, the evaluator answers that value |
| CalculatorGrammar.GroupedIff | sample/native_module_calculator/napi_calculator.cpp:291-307 | the groupings the evaluator respects are exactly those of that grammar |
| CalculatorGrammar.EvaluatesSumText | sample/native_module_calculator/napi_calculator.cpp:372-411 | the same for any text with that tree's tokens whose numbers end in a blank or at the end |
| CalculatorGrammar.EvaluatesWritten | sample/native_module_calculator/napi_calculator.cpp:372-411 | the same for the tree written out with one space after every number, operator and parenthesis |
| CalculatorGrammar.TimesBeforePlus | sample/native_module_calculator/napi_calculator.cpp:291-318 | x + y * z is x plus the product, whichever numbers are written |
| Calculator.TokensAgreeIff | sample/native_module_calculator/napi_calculator.cpp:384-407 | the loop acts on all tokens of the text if and only if every number is followed by a blank or the end; otherwise it loses some |
| Calculator.BlanksAreSkipped | sample/native_module_calculator/napi_calculator.cpp:384-388 | skipped are the six white-space characters, given by number, and no others |
| Calculator.EvaluatesText | sample/native_module_calculator/napi_calculator.cpp:372-411 | text to value under that condition |
| Calculator.MissingBlankExample | sample/native_module_calculator/napi_calculator.cpp:384-407 | "1+2" evaluates to 2 |
| Calculator.PrintReadsBack | sample/native_module_calculator/napi_calculator.cpp:320-327 | tokens printed with blanks are read back |
| Calculator.EvaluatesPrinted | sample/native_module_calculator/napi_calculator.cpp:372-411 | tree to text to value |
| Calculator.Evaluator.ApplyTop | sample/native_module_calculator/napi_calculator.cpp:309-318 | replaces the two top values by the top operator applied in the right order; fails exactly on fewer than two values |
| Calculator.Evaluator.ProcessClosingParenthesis | sample/native_module_calculator/napi_calculator.cpp:329-343 | the effect of ')' in the specification |
| Calculator.Evaluator.ProcessOperator | sample/native_module_calculator/napi_calculator.cpp:345-357 | the effect of an operator in the specification |
| Calculator.Evaluator.ParseNumber | sample/native_module_calculator/napi_calculator.cpp:320-327 | reads the maximal run of digits and points |
| Calculator.Evaluator.EvaluateExpression | sample/native_module_calculator/napi_calculator.cpp:372-411 | the whole loop answers what the token-level specification says for the text |
| Sieve.GeneratePrimeNumbers | sample/native_module_complex/napi_complex.cpp:397-421 | refuses n < 1; otherwise exactly the primes up to n, increasing |
| Sieve.SievedMarks | sample/native_module_complex/napi_complex.cpp:400-410 | after the nested loops a mark is set exactly for primes |
| Sieve.MarkMultiples | sample/native_module_complex/napi_complex.cpp:406-408 | the inner loop crosses out exactly the multiples of i from i * i on |
| Sieve.MarkedIsComposite | sample/native_module_complex/napi_complex.cpp:404 | stopping at the square root is enough |
| Sieve.SkippedIsMarked | sample/native_module_complex/napi_complex.cpp:405 | skipping a crossed-out i loses nothing |
| Sieve.MultiplesDone | sample/native_module_complex/napi_complex.cpp:406 | starting at i * i loses nothing |
| Sieve.OneListOfPrimes | sample/native_module_complex/napi_complex.cpp:412-418 | the result is determined by that description |
| Crc32.CalculateCRC32 | sample/native_module_compression/napi_compression.cpp:574-585 | the nested loops compute Crc, which the next row describes |
| CrcRemainder.CrcIsRemainder | sample/native_module_compression/napi_compression.cpp:28-30 | the checksum of every message is the complement of the remainder, in long division of polynomials by the generator with exponents 32, 26, 23, 22, 16, 12, 11, 10, 8, 7, 5, 4, 2, 1, 0, of the message (lowest bit of every byte first) followed by 32 zeros, its first 32 coefficients complemented |
| PolynomialDivision.RemainderOfMultiple | sample/native_module_compression/napi_compression.cpp:576-583 | that long division is a remainder: adding any power of x times the generator does not change it |
| BitRegister.RegisterIsRemainder | sample/native_module_compression/napi_compression.cpp:576-583 | shifting a message through such a register divides it, for any word type with bitwise sums |
| Crc32.ByteBijective | sample/native_module_compression/napi_compression.cpp:576-583 | for each byte the update is a bijection on 32-bit states, with its inverse |
| Crc32.BitXor | sample/native_module_compression/napi_compression.cpp:577-583 | one bit step is linear over xor |
| Crc32.ShortWordIsXored | sample/native_module_compression/napi_compression.cpp:575-584 | up to four bytes act like one little-endian word xored into the register |
| Crc32.BurstDetected | sample/native_module_compression/napi_compression.cpp:574-585 | messages of any length that differ only within four consecutive bytes, a single byte included, have different checksums |
| Crc32.CrcAffine | sample/native_module_compression/napi_compression.cpp:574-585 | crc(x) ^ crc(y) ^ crc(z) == crc(x ^ y ^ z) for equal lengths |
| Rle.CompressRLE | sample/native_module_compression/napi_compression.cpp:94-115 | the loop computes Encode |
| Rle.DecompressRLE | sample/native_module_compression/napi_compression.cpp:143-150 | the loop computes Decode, a trailing odd byte ignored |
| Rle.RoundTrip | sample/native_module_compression/napi_compression.cpp:94-150 | decompressing the compressed form returns every byte string |
| Rle.EncodeCanonical | sample/native_module_compression/napi_compression.cpp:103-115 | counts are 1..255, neighbours share a character only after a count of 255, at most twice the input |
| Rle.OutputsAreCanonical | sample/native_module_compression/napi_compression.cpp:103-115 | the outputs are exactly the strings of that shape |
| Rle.CanonicalIsEncoded | sample/native_module_compression/napi_compression.cpp:94-150 | compressing what such a string decompresses to gives it back |
| Rle.NoShorterCode | sample/native_module_compression/napi_compression.cpp:103-115 | no string of pairs with the same decompression is shorter |
| ReferenceList.NativeReferenceManager.CreateHandler | reference_manager/native_reference_manager.cpp:28-35 | a fresh node becomes the head; prev and next stay inverse and the chain is the sequence of members |
| ReferenceList.NativeReferenceManager.ReleaseHandler | reference_manager/native_reference_manager.cpp:37-52 | releasing head, middle or tail removes only that member and leaves the node's own links as they were; also when called by the destructor for the member it has stepped over |
| ReferenceList.NativeReferenceManager.Delete | native_engine/impl/ark/ark_native_reference.cpp:119-128 | the reference leaves the list and forgets its neighbours |
| ReferenceList.NativeReferenceManager.Destroy | reference_manager/native_reference_manager.cpp:20-26 | every member is deleted exactly once, also if finalizers delete other members and create references on the way, which are deleted too; otherwise in list order |
| ReferenceList.LeftKeeps | reference_manager/native_reference_manager.cpp:37-52 | after any sequence of releases exactly the members not asked for remain |
| WorkerCounts.LedgerStep | native_engine/worker_manager.cpp:119-215 | every step of every thread keeps shared counter - pools - calls in progress, except a decrement at zero: an empty pool lowers it by one, an empty shared counter raises it by one |
| WorkerCounts.LedgerIff | native_engine/worker_manager.cpp:119-139 | a step keeps the ledger if and only if it is not a decrement that finds a counter at zero |
| WorkerCounts.LedgerKeptIff | native_engine/worker_manager.cpp:45-215 | over any run of any threads the ledger holds in every state if and only if no decrement ever finds a counter at zero |
| WorkerCounts.NoFault | native_engine/worker_manager.cpp:67-73 | with matched decrements that never happens |
| WorkerCounts.CountsKeepInv | native_engine/worker_manager.cpp:45-215 | a matched step keeps ledger, limit of 80 and every pool's limit |
| WorkerCounts.CountsFromStart | native_engine/worker_manager.cpp:45-215 | over any run of any number of threads: the shared counter is the sum of the pools and what calls in progress hold, at most 80; the Ark pool is at most 64, the limited one at most 16, the others within the largest limit read; no pool is negative |
| WorkerCounts.QuietCounts | native_engine/worker_manager.cpp:45-215 | when all calls have returned all counters are the workers alive: failed increments left nothing behind |
| WorkerCounts.RefusedIff | native_engine/worker_manager.cpp:119-129 | refused at the shared limit exactly when workers and calls in progress make 80 |
| WorkerCounts.NoDeadlock | native_engine/worker_manager.cpp:45-73 | while a call is in progress some call can move |
| WorkerCounts.ExclusiveStep | native_engine/worker_manager.cpp:45-73 | a pool mutex has at most one holder |
| WorkerCounts.UnmatchedExample | native_engine/worker_manager.cpp:187-196 | one unmatched decrement makes the shared counter forget a live worker |
| WorkerCounts.WorkerManager.Increment | native_engine/worker_manager.cpp:45-62 | an uninterrupted increment is a run of those steps, succeeds exactly below 80 and below the pool's limit (64, 16, or the one read), and restores every counter when refused |
| WorkerCounts.WorkerManager.Decrement | native_engine/worker_manager.cpp:64-73 | an uninterrupted decrement is a run of those steps |

## Left out

- The Ark VM, handles, JS values, N-API argument checks, logging and tracing.
- libuv itself: `uv_async_send` is a coalescing flag, `uv_run` a sequence of arbitrary steps, `uv_close` a later callback that comes once.
- The EventHandler paths (`PostTask`, `SendEventByEventHandler`) and container scopes, which bypass the queue.
- Weak memory: atomics are sequentially consistent here.
- Liveness of blocked senders: `notify_one` is sent only when the round's remaining count equals the bound, so none is claimed.
- Rounds nested inside a user callback through a second event loop.
- Memory reclamation of event wrappers and of the object itself: a wrapper stays a record after it was deleted, and callers arriving after deletion are excluded.
- Wrap-around of event ids, and of `size_t` and `int` counters.
- `DestoryDefaultFunction` without release, and creating a default function again afterwards.
- `RunInstanceFinalizer` and `RunCleanup` beyond the two calls modelled: the first repeats the scheme of the hooks, the second is glue.
- ThreadSafeFunction.NativeSafeAsyncWork.constructor: the failure paths of `Init` (no loop, `uv_async_init` fails) are not modelled.
- AsyncCleanupHook.RecordIsOwned: assumes that no removal overlaps the start of the hook (`FineRunIff` shows this is exact); a record freed and another allocated at the same address are not identified.
- AsyncCleanupHook.AsyncHookHandle.RunAsyncCleanupHook: removal inside the user hook or not at all; removal by other threads is part of the step system only.
- CancelableEvents.EventQueue.UvCancelEvent: an uninterrupted call; its interleavings are those of `NativeEvent`.
- CancelableEvents.EventQueue.ThreadSafeCallback: likewise.
- CancelableEvents.EventQueue.SendEventByUv: likewise.
- WorkerCounts.WorkerManager.Increment: an uninterrupted call; interleavings are those of the transition system.
- WorkerCounts.WorkerManager.Decrement: likewise.
- ReferenceList.NativeReferenceManager.Destroy: each finalizer deletes first and creates afterwards, and finitely many of them create.
- Sonames.CreateSharedLibsSonames: failed allocation is not modelled.
- Rle.CompressRLE: works on the byte string; the cut at an embedded NUL and the UTF-8 conversion of the result are outside.
- Calculator: '/' has no case in `ApplyOp` and yields its default; std::stod is a parameter.
- Sieve: mathematical integers; `i * i` in 32 bits overflows for very large n.
- Loading of modules (`dlopen`, namespaces, file reads, path formats per platform).
- GCD, LCM, Adler-32 and the other samples: they would only add easy members or are incomplete.
