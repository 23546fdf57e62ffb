# Verified models of the repository's concurrent and layout code

This project models, in Dafny, the parts of the repository whose correctness spans many functions, whole runs or
several threads, and proves what those parts promise.

**The GPS timer service** (`gps/utils`). Clients start and stop `LocTimer` objects under a lock per client; a poll
thread turns kernel timer expiries into messages; one message thread owns two heaps of timers, arms the kernel timers,
calls the clients back and deletes the timers.
- `Deadline` is the time arithmetic of `start` and the comparison of `ranks`, with C's narrowing to `int`.
- `HeapTree` says what push, pop and remove do to the value of a heap and proves what they promise for any total
  preorder of ranks; `LocHeap` is the pointer heap, proved against those functions.
- `TimerProtocol` is the service as a state machine, one step per locked client call, per kernel or queue operation of
  the poll thread, and per action of the message thread. `TimerOwnership`, `TimerLedger`, `TimerLocks`, `TimerArming`,
  `TimerExpiry`, `TimerCallback`, `TimerDestroy`, `TimerPoll`, `TimerProgress`, `TimerLiveness` and `TimerClients` prove
  facts about every reachable state, that is about every interleaving.
- `LocTimer` has the containers and the service as classes over the pointer heap and the message queue; each method is
  proved to be a run of the steps of `TimerProtocol`.

**What the timer service stands on** (`gps/utils`). `LinkedList` is the doubly linked list, `MsgQueue` the message
queue as a monitor and as a state machine of senders and receivers, `MsgTask` what the threads that send and process
messages see of it, `LocThread` the life of the delegate shared by a thread and its creator.

**The master DTB file** (`dtbtool`). `ChipList` is the sorted, duplicate-free doubly linked list of chips and the
registration of DTB files; `MasterImage` is the file as a sequence of bytes and what a loader finds in it; `MasterDtb`
has the two passes that write it.

**IPACM and the offload HAL** (`data-ipa-cfg-mgr`). `IpacmQueue` has the command queues and the thread that serves
them, `EvtRegistry` the registry of listeners, `PrefixMask` and `PrefixParser` the prefix masks and the parser that
builds them.

`Optional`, `Powers`, `Sequences` and `Words` are what the others share.

Properties of runs are proved by invariants over lists of steps, so they hold for every run of every length.

## What was found on the way

- A timer can be called back early, in two ways, and `TimerCallback.CalledBackExact` tells them apart by whether the
  client stopped the popped timer. If it did not, the callback is that timer's, and early exactly if nothing in the heap
  was due: `MsgTimerExpire` pops its first timer without looking at the time (`gps/utils/LocTimer.cpp:367`);
  `TimerExpiry.EarlyCallback` is such a run, and `TimerExpiry.PopExpiredExact` says when a timer is popped early. If it
  did, the callback is that of a timer started since, whenever that one is due: `expire` reads `mClient` and then stops
  whatever timer that client has (`gps/utils/LocTimer.cpp:525-527`); `TimerCallback.RestartedCallback` is such a run,
  with any timeout.
- No due timer is missed, in spite of a kernel timer that may be armed for a time already past: left alone by the
  clients, the service comes to rest within a bound and has then called back every timer that was due
  (`TimerLiveness.DueTimersFire`).
- `ranks` narrows the difference of seconds to an `int`; `Deadline.RanksByTimeExact` says exactly when it orders by
  time, for any two times.
- A LocTimer can be destroyed while the message thread holds its address (`gps/utils/LocTimer.cpp:522-531`), which the
  timer's lock does not prevent: `TimerDestroy.DestroyedInUse` is such a run and `TimerDestroy.DestroyGuardExact` says
  exactly which runs go wrong. `TimerDestroy.UnsharedDestroyIsSafe` gives a condition on the owner's side: destroying a
  LocTimer whose lock counts one reference is safe.
- `LocThread::start` can return false although the thread was created, when the thread is through with its runnable
  before `create` looks at it; the thread then deletes the runnable, where `gps/utils/LocThread.h:74-77` leaves that to
  the caller: `LocThread.StartReportsExact`, with a run in `LocThread.ThreadOvertakesCreate`. It takes a `run` that has
  answered false by then: `LocThread.FalseReportExplained`. A runnable stays undeleted exactly if stop overtakes the
  thread: `LocThread.RunnableDeletedExact`, with a run in `LocThread.StopOvertakesThread`.
- `allAreFullyQualified` accepts every prefix whose host part is zero, whatever the length of its mask
  (`data-ipa-cfg-mgr/hal/src/PrefixParser.cpp:87-106`), while the name and line 238 suggest full-length masks. The
  model follows the code: `PrefixParser.PrefixParser.AllAreFullyQualified` says exactly when, and
  `PrefixParser.ShortMaskQualifies` is 10.0.0.0/8.
- Comments that the code contradicts, where the model follows the code: `mSize` counts the node itself
  (`gps/utils/LocHeap.cpp:34` against 197-220); `remove` finds a node by address, not by equal rank
  (`gps/utils/LocHeap.h:84-86` against `gps/utils/LocHeap.cpp:173`); a parent is only not outranked by its children
  (`gps/utils/LocHeap.h:54-55`); the kernel timer is updated when the removed timer was the top
  (`gps/utils/LocTimer.cpp:337-339`); emptying a heap by `remove` leaves the kernel timer armed
  (`gps/utils/LocTimer.cpp:285-292`).

## Model

| member | source | states |
|---|---|---|
| Deadline.AfterExact | gps/utils/LocTimer.cpp:551-558 | The deadline is normalised and is now plus the timeout to the nanosecond; the unnormalised `tv_nsec` fits 32 bits |
| Deadline.DeadlineFits | gps/utils/LocTimer.cpp:551-558 | On a device up for less than 67 years every timeout gives a deadline that fits a 32-bit `time_t` |
| Deadline.RanksByTimeExact | gps/utils/LocTimer.cpp:503-517 | For any two times, `ranks` tells which is sooner if and only if the later is ahead, modulo 2^32 seconds, by less than 2^31, or by none and ahead in nanoseconds; for times less than 2^32 seconds apart, if and only if they are less than 2^31 apart |
| Deadline.RanksCanBeWrong | gps/utils/LocTimer.cpp:503-517 | Two concrete times for which the later outranks the earlier |
| Deadline.RanksIsEarlier | gps/utils/LocTimer.cpp:503-517 | On times since boot, outranking is being due earlier |
| HeapTree.BelowExact | gps/utils/LocHeap.h:54-58 | The recursive heap order is the same as: no member of the subtree outranks the top |
| HeapTree.TopRanksHighest | gps/utils/LocHeap.h:73-77 | No member of a heap outranks what peek shows |
| HeapTree.PushKeeps | gps/utils/LocHeap.cpp:107-124 | Push keeps heap order and true sizes at every node and adds exactly its item to the multiset |
| HeapTree.PopSplits | gps/utils/LocHeap.cpp:134-164 | Without any order, pop takes exactly one occurrence of the top's item out of the multiset |
| HeapTree.PopKeeps | gps/utils/LocHeap.cpp:134-164 | Pop keeps order and sizes, and the data that ends up in the popped leaf node is the old top's |
| HeapTree.RemoveFinds | gps/utils/LocHeap.cpp:170-193 | The search that skips subtrees by rank still reaches every member of an ordered heap |
| HeapTree.RemoveExact | gps/utils/LocHeap.cpp:170-193 | Remove succeeds if and only if the item is in the heap, takes only that one, keeps order and sizes, changes nothing on failure, and keeps a different top |
| HeapTree.CheckNodesExact | gps/utils/LocHeap.cpp:197-220 | The check of parents against children accepts exactly the trees that are ordered and sized as a whole |
| HeapTree.PushBalanced | gps/utils/LocHeap.cpp:113-123 | A push keeps left minus right in {0, 1} at every node |
| HeapTree.PushAllBalanced | gps/utils/LocHeap.cpp:113-123 | So does any sequence of pushes |
| HeapTree.BalancedIsShallow | gps/utils/LocHeap.h:54-58 | Such a tree of height h holds at least 2^(h-1) items and fewer than 2^h |
| HeapTree.PushGoesToSmaller | gps/utils/LocHeap.h:57-58 | After whatever pops, a push goes to a child no larger than its sibling and leaves the sibling alone |
| HeapTree.PopSide | gps/utils/LocHeap.cpp:143-160 | With two children the left one's data moves up if and only if it outranks the right one's, and the other subtree is left alone |
| HeapTree.PopAllPermutes | gps/utils/LocHeap.cpp:245-254 | Popping until empty yields exactly the members of the heap |
| HeapTree.PopAllDescends | gps/utils/LocHeap.cpp:245-254 | It yields them in non-increasing rank |
| HeapTree.PushThenPopSorts | gps/utils/LocHeap.cpp:228-254 | Pushing any items and popping until empty sorts them |
| LocHeap.LocHeapNode.Swap | gps/utils/LocHeap.cpp:87-92 | Two nodes exchange data and nothing else |
| LocHeap.LocHeapNode.Settle | gps/utils/LocHeap.cpp:107-111 | The higher ranking data stays in the tree's node, the lower goes to the incoming node |
| LocHeap.LocHeapNode.Drop | gps/utils/LocHeap.cpp:113-123 | The node goes to the smaller subtree; nodes of the tree are the old ones and the new one |
| LocHeap.LocHeapNode.Push | gps/utils/LocHeap.cpp:107-124 | The tree of pointers keeps its nodes, gains the new one, and its value becomes that of the push specification |
| LocHeap.LocHeapNode.RaiseChild | gps/utils/LocHeap.cpp:145-153 | The data of the higher ranking child moves up, the top's moves into that child |
| LocHeap.LocHeapNode.Pop | gps/utils/LocHeap.cpp:134-164 | One leaf-level node leaves the tree, unlinked and holding the old top's data; every other node keeps both its links, except that the one link to the node that left is null; the value is that of the pop specification |
| LocHeap.LocHeapNode.Remove | gps/utils/LocHeap.cpp:170-193 | A node is returned if and only if the search specification succeeds, it holds the item, and the others keep their links as with Pop; otherwise no field of any node changes |
| LocHeap.LocHeapNode.CheckNodes | gps/utils/LocHeap.cpp:197-220 | Returns what the specification of the check says of the tree's value |
| LocHeap.LocHeap.Push | gps/utils/LocHeap.cpp:228-235 | The heap's value is that of the push specification |
| LocHeap.LocHeap.Peek | gps/utils/LocHeap.cpp:237-243 | The top's item, or nothing for an empty heap |
| LocHeap.LocHeap.Pop | gps/utils/LocHeap.cpp:245-254 | The top's item and the value of the pop specification; an empty heap stays empty |
| LocHeap.LocHeap.Remove | gps/utils/LocHeap.cpp:256-267 | The item exactly when it was found, and the value of the remove specification |
| LocHeap.LocHeap.CheckTree | gps/utils/LocHeap.cpp:270-272 | True if and only if the pointer heap is ordered throughout and every cached size is true |
| TimerOwnership.RankIsPreorder | gps/utils/LocTimer.cpp:503-517 | Ranking timers by deadline is a total preorder, which the heap's results need |
| TimerOwnership.WellFormedKept | gps/utils/LocTimer.cpp:281-580 | Every step keeps both heaps ordered, sized and unmixed, and the message thread's client pointer valid |
| TimerOwnership.OwnedKept | gps/utils/LocTimer.cpp:310-349 | Every step keeps the ownership statement of every timer delegate |
| TimerOwnership.OwnershipHolds | gps/utils/LocTimer.cpp:310-580 | In every interleaving a live delegate either is its client's `mTimer`, in exactly one place (pending push, heap, being expired), with no removal pending; or has no client, exactly one removal pending, behind its push; a deleted one is nowhere |
| TimerDestroy.DestroyGuardExact | gps/utils/LocTimer.cpp:520-545 | With LocTimers destroyed at any time, the message thread comes to use a destroyed one in exactly those runs in which one is destroyed between that thread's read of it and its last use of it |
| TimerDestroy.HeldIsShared | gps/utils/LocTimer.cpp:475-532 | While the message thread holds a LocTimer, the LocTimer's lock counts at least one delegate besides it |
| TimerDestroy.UnsharedDestroyIsSafe | gps/utils/LocTimer.cpp:539-545 | A run that destroys LocTimers only when their lock counts one reference never uses a destroyed one |
| TimerDestroy.DestroyedInUse | gps/utils/LocTimer.cpp:522-531 | A run in which a LocTimer is destroyed while the message thread holds it, and is used then |
| TimerLedger.Conservation | gps/utils/LocTimer.cpp:520-580 | Successful starts equal callbacks plus successful client stops plus running timers plus a callback under way; no timer is both fired and stopped or either twice |
| TimerLedger.DeletedOnce | gps/utils/LocTimer.cpp:328-350 | A deleted delegate was deleted once, and no message, heap, client or running expiry holds it |
| TimerLocks.LockCountsReferences | gps/utils/LocSharedLock.h:47-52 | In every reachable state a lock exists if and only if its LocTimer or one of its delegates does, and counts exactly those |
| TimerArming.ArmedAtTop | gps/utils/LocTimer.cpp:281-381 | In every reachable state with a non-empty heap, no expire message under way and the message thread between messages, the timerfd is polled and set to the deadline of the top |
| TimerArming.NoTimerForgotten | gps/utils/LocTimer.cpp:281-470 | When no thread of the service has anything to do, every running timer is due in the future |
| TimerExpiry.PopExpiredExact | gps/utils/LocTimer.cpp:360-390 | The popped timers come in deadline order; popped plus left equals the heap; nothing left is due; all but the first are due; the first is popped early if and only if none was due, and then alone |
| TimerExpiry.ExpireMessagePops | gps/utils/LocTimer.cpp:360-374 | Whatever other threads do meanwhile, an expire message pops what an uninterrupted loop over the heap it found would have popped |
| TimerExpiry.EarlyCallback | gps/utils/LocTimer.cpp:366-372 | A reachable state in which a timer that is not due is being called back, having been popped first |
| TimerCallback.CalledBackExact | gps/utils/LocTimer.cpp:366-372 | The callback is that of the timer popped last if and only if its client has not stopped that one, and then it comes before the deadline if and only if nothing that the expire message found is due yet; otherwise it is that of a timer which the same client started after its `mClient` was read, and that one's deadline plays no part |
| TimerCallback.ExpiryStopsItsTimer | gps/utils/LocTimer.cpp:520-532 | The stop made by an expiry stops and calls back the popped timer if and only if its client has not stopped it since; otherwise it stops and calls back the timer that the client has started since, if any |
| TimerCallback.RestartedCallback | gps/utils/LocTimer.cpp:525-530 | For every timeout a reachable state in which a due timer was popped, and one restarted in its place is being called back with the whole of that timeout still to run |
| TimerProgress.TaskAdvances | gps/utils/LocTimer.cpp:360-390 | Every step of the message thread within a message brings its end nearer |
| TimerProgress.MessageEnds | gps/utils/LocTimer.cpp:310-390 | In any interleaving the message thread takes at most four steps for each timer in the heap, and two more, between receiving a message and being done with it |
| TimerLiveness.ServiceAdvances | gps/utils/LocTimer.cpp:281-470 | Every step of the poll thread and of the message thread lowers one bound, although push and remove messages can arm a container for a time already past |
| TimerLiveness.ServiceComesToRest | gps/utils/LocTimer.cpp:281-470 | Left alone by the clients and the clock, the two threads take at most that many steps, in any interleaving of the two |
| TimerLiveness.DueTimersFire | gps/utils/LocTimer.cpp:281-470 | Wherever those steps lead from a reachable state with a running timer that is due, when none can be taken any more the timer has been called back |
| TimerLiveness.RestIsReached | gps/utils/LocTimer.cpp:281-470 | From every state of the invariants some steps of the two threads lead to where none can be taken |
| TimerClients.StartAlwaysPossible | gps/utils/LocTimer.cpp:547-565 | A LocTimer can be started at any time, with any 32-bit timeout and either kind of timer |
| TimerClients.NewClientIsIdle | gps/utils/LocTimer.cpp:536-537 | A new LocTimer has no timer running and its lock to itself |
| TimerClients.StartStarts | gps/utils/LocTimer.cpp:547-565 | Starting a client without a running timer creates exactly one, new, with the deadline to the nanosecond and the kind asked for, makes it the client's, and posts its push |
| TimerClients.StartRefused | gps/utils/LocTimer.cpp:550 | Starting a client whose timer is running changes nothing |
| TimerClients.StopStops | gps/utils/LocTimer.cpp:567-580 | Stopping leaves the client without a timer, counts exactly the timer that it had as stopped, detaches it and posts its removal |
| TimerClients.DestroyDestroys | gps/utils/LocTimer.cpp:539-545 | Destroying does what stopping does, and the LocTimer is gone |
| TimerClients.StoppedStaysSilent | gps/utils/LocTimer.cpp:520-580 | Once stop has returned true, the timer that was running is never called back, over the rest of any run |
| TimerClients.StartedTimerFires | gps/utils/LocTimer.cpp:281-580 | Over any run in which its client is neither stopped nor destroyed, a started timer is running, being called back or called back; and it has been called back once its timeout is over and the service is at rest |
| TimerClients.CallbackIsReached | gps/utils/LocTimer.cpp:281-470 | From the time a running timer is due, steps of the service alone lead to its callback |
| TimerPoll.WakeupIsHandled | gps/utils/LocTimer.cpp:377-470 | After a wakeup the poll thread has disarmed, unpolled and posted an expire message for each container reported, in order, left the other one alone, and waits again |
| LocTimer.FutureTime | gps/utils/LocTimer.cpp:551-558 | Computes the deadline of `Deadline.AfterExact`, normalised |
| LocTimer.LocTimerContainer.UpdateSoonestTime | gps/utils/LocTimer.cpp:281-306 | The timerfd and the poll set become what the message thread's steps of the machine make them; the heap is untouched |
| LocTimer.LocTimerContainer.ProcPush | gps/utils/LocTimer.cpp:317-321 | The container after a push message: the kernel timer is polled and set to the new timer's deadline if and only if that is due before everything in the heap, and otherwise left as it was |
| LocTimer.LocTimerContainer.ProcRemove | gps/utils/LocTimer.cpp:334-343 | The container after a remove message: the kernel timer is polled and set to the new top's deadline if and only if the top was removed and something is left, and otherwise left as it was |
| LocTimer.LocTimerContainer.PopIfOutRanks | gps/utils/LocTimer.cpp:383-390 | Pops the top exactly when the given time does not outrank it, and otherwise changes nothing |
| LocTimer.PushSettles | gps/utils/LocTimer.cpp:310-325 | A push message processed without interruption is three steps of the machine |
| LocTimer.RemoveSettles | gps/utils/LocTimer.cpp:328-350 | So is a remove message, with the deletion |
| LocTimer.ExpireRuns | gps/utils/LocTimer.cpp:520-532 | Expiring a popped timer is a run of the message thread's steps |
| LocTimer.EndRuns | gps/utils/LocTimer.cpp:373 | So is the end of an expire message, with its update of the kernel timer |
| LocTimer.TimerService.constructor | gps/utils/LocTimer.cpp:201-206 | The service starts in the initial state of the machine |
| LocTimer.TimerService.Start | gps/utils/LocTimer.cpp:547-565 | Takes the machine's start step; success if and only if no timer was running, and then exactly one new timer exists, is the client's, is of the kind asked for, is due the timeout after now to the nanosecond, and its push is posted; otherwise nothing changes |
| LocTimer.TimerService.NewTimer | gps/utils/LocTimer.cpp:475-482 | A new delegate is live with its client and container, holds a share of the client's lock, and its push is posted last |
| LocTimer.TimerService.DestroyLocked | gps/utils/LocTimer.cpp:485-501 | The delegate loses client and container; its removal is posted exactly if it still had its container |
| LocTimer.TimerService.Release | gps/utils/LocTimer.cpp:567-580 | What a stop does, whoever calls it; it succeeds if and only if a timer was running |
| LocTimer.TimerService.Stop | gps/utils/LocTimer.cpp:567-580 | Takes the machine's stop step; the client has no timer afterwards, and success means that exactly its timer counts as stopped |
| LocTimer.TimerService.Destroy | gps/utils/LocTimer.cpp:539-545 | Takes the machine's destroy step: stop, then drop the lock |
| LocTimer.TimerService.ExpireTimer | gps/utils/LocTimer.cpp:520-532 | Stops and calls back the client of a popped timer if it still has one |
| LocTimer.TimerService.PollExpire | gps/utils/LocTimer.cpp:377-380 | Takes the four poll steps of the machine in the source's order: disarm, unpoll, post; the container is neither armed nor polled afterwards |
| LocTimer.TimerService.PopFirst | gps/utils/LocTimer.cpp:367 | The first pop of an expire message takes the top, due or not, as the machine's receive step does |
| LocTimer.TimerService.PopNext | gps/utils/LocTimer.cpp:369 | A further pop takes the top exactly if it is due, as the message thread's step does |
| LocTimer.TimerService.ExpireAndPop | gps/utils/LocTimer.cpp:367-372 | One round of the expire loop is a run of the message thread, and the heap shrinks with each timer popped |
| LocTimer.TimerService.ExpireLoop | gps/utils/LocTimer.cpp:367-372 | The loop ends, at a top that is not due, by a run of the message thread |
| LocTimer.TimerService.ProcExpire | gps/utils/LocTimer.cpp:360-374 | A whole expire message is a run of the message thread |
| LocTimer.TimerService.ProcPush | gps/utils/LocTimer.cpp:317-321 | A whole push message is a run of the message thread |
| LocTimer.TimerService.ProcRemove | gps/utils/LocTimer.cpp:334-345 | A whole remove message is a run of the message thread, deletion of the timer included |
| LinkedList.YoungestMatchExact | gps/utils/linked_list.c:290-323 | The match found is the one nearest the head, and none is found if and only if none exists |
| LinkedList.FreedExact | gps/utils/linked_list.c:229-262 | What a flush frees is each owned payload as often as it is listed, and nothing else |
| LinkedList.YoungerFreedFirst | gps/utils/linked_list.c:229-262 | Payloads are freed from the head on: the younger before the older |
| LinkedList.LinkedList.Add | gps/utils/linked_list.c:109-154 | The item becomes the youngest of the sequence; a null payload is refused and changes nothing |
| LinkedList.LinkedList.Remove | gps/utils/linked_list.c:161-203 | The oldest item leaves the sequence and is returned; an empty list is reported |
| LinkedList.LinkedList.Empty | gps/utils/linked_list.c:210-222 | True if and only if the sequence is empty |
| LinkedList.LinkedList.Flush | gps/utils/linked_list.c:229-259 | The list becomes empty and exactly the owned payloads are freed, youngest first |
| LinkedList.LinkedList.Unlink | gps/utils/linked_list.c:296-309 | Exactly the given element leaves the sequence, and the links stay consistent |
| LinkedList.LinkedList.Search | gps/utils/linked_list.c:266-326 | Finds the youngest match; what is removed, stored through the caller's pointer and freed follows the flags; an empty list stores nothing, and without a match nothing changes |
| MsgQueue.MsgQ.Snd | gps/utils/msg_q.c:184-220 | The protected state after a send and its status; refused if and only if the message is null or the queue unblocked; the condition variable is signalled exactly on success |
| MsgQueue.MsgQ.Rcv | gps/utils/msg_q.c:227-268 | The protected state after a receive or a wakeup; on entry refused if and only if the queue is unblocked, after a wait only if it is empty too; it waits if and only if the queue is empty and not unblocked |
| MsgQueue.MsgQ.Flush | gps/utils/msg_q.c:275-298 | The queue becomes empty, its payloads are freed, the unblocked flag stays |
| MsgQueue.MsgQ.Unblock | gps/utils/msg_q.c:305-335 | The queue is unblocked afterwards, its messages unchanged; success if and only if it was not before |
| MsgQueue.NoReceiverForgotten | gps/utils/msg_q.c:200-330 | While a receiver sleeps there are no more messages than receivers already woken, and the queue is not unblocked |
| MsgQueue.MessagesConserved | gps/utils/msg_q.c:184-335 | Over any run each accepted message is exactly one of received, flushed or queued; receipts follow acceptance order; nothing is accepted after unblock |
| MsgQueue.ReceivesOldest | gps/utils/msg_q.c:246-263 | What a receive hands out is the oldest accepted message still queued; it waits only on an empty queue and refuses only an unblocked one |
| MsgQueue.SendRefusedExact | gps/utils/msg_q.c:184-220 | A send is refused, and changes nothing, if and only if the message is null or the queue unblocked |
| MsgQueue.ReceiveRefusedExact | gps/utils/msg_q.c:227-268 | An entering receive is refused if and only if the queue is unblocked; a woken one if and only if it is empty as well |
| MsgQueue.SleepsExact | gps/utils/msg_q.c:246-252 | A receiver goes to sleep if and only if the queue is empty and has not been unblocked |
| MsgQueue.UnblockFrees | gps/utils/msg_q.c:305-335 | After an unblock the queue is closed with its messages unchanged, and every sleeper has been woken |
| MsgQueue.StaysUnblocked | gps/utils/msg_q.c:184-335 | From then on nothing is accepted and nobody sleeps, over any run |
| MsgTask.MsgTask.SendMsg | gps/utils/MsgTask.cpp:75-77 | The message joins the end of the pending ones, kept by address in the queue of `MsgQueue` |
| MsgTask.MsgTask.Receive | gps/utils/MsgTask.cpp:84-96 | The oldest pending message is handed out, its address is queued no more, and none is handed out if and only if none is pending |
| MsgTask.MsgTask.Delete | gps/utils/MsgTask.cpp:98 | Deleting a handled message leaves every pending message as it was |
| MsgTask.MsgTask.Take | gps/utils/MsgTask.cpp:84-98 | One round of the loop for a handler that only reads its message: the oldest pending message is handed out and deleted, the others stay |
| LocThread.DelegateFreedOnce | gps/utils/LocThread.cpp:155-175 | In every interleaving of creator and thread, joinable, detached or failed, the delegate is deleted at most once, and has been once both are done |
| LocThread.NothingTouchesFreed | gps/utils/LocThread.cpp:66-204 | No step of either thread touches a deleted delegate |
| LocThread.StopWaitsForJoinable | gps/utils/LocThread.cpp:132-148 | When stop on a joinable thread has returned, the thread has ended and the delegate is gone; after stop cleared `mRunnable` at most one callback begins |
| LocThread.RunnableDeletedExact | gps/utils/LocThread.cpp:177-200 | The runnable is deleted at most once; a thread that has ended did not delete it if and only if stop cleared `mRunnable` before the thread read it |
| LocThread.StartReportsExact | gps/utils/LocThread.cpp:113-125 | For a created thread, start returns false if and only if the thread cleared `mRunnable` before create looked at it, and then the thread deletes the runnable |
| LocThread.FalseReportExplained | gps/utils/LocThread.cpp:118-121 | If start returns false for a created thread, a callback of `run()` had answered false before create looked |
| LocThread.StoppedExact | gps/utils/LocThread.cpp:48-52 | The parent stops the thread if and only if stop was called or the LocThread of a joinable thread was deleted: letting go of a detached thread leaves it to itself |
| LocThread.OneLateCall | gps/utils/LocThread.cpp:132-192 | Counted over the steps of any run, at most one callback begins after stop has cleared `mRunnable` |
| LocThread.CallsInOrder | gps/utils/LocThread.cpp:181-192 | In every run the thread calls prerun once and first, run until it returns false, and postrun once and last, cut short only by a stop |
| LocThread.StopOvertakesThread | gps/utils/LocThread.cpp:181 | A run that leaves a runnable undeleted |
| LocThread.ThreadOvertakesCreate | gps/utils/LocThread.cpp:118-121 | A run in which the thread was created and start returns false |
| LocThread.LocThreadDelegate.constructor | gps/utils/LocThread.cpp:66-105 | The delegate starts with two references, or with one and no runnable if the thread could not be created |
| LocThread.LocThreadDelegate.Confirm | gps/utils/LocThread.cpp:118-121 | Reports whether the runnable is still there; if not, the parent's reference is dropped |
| LocThread.LocThreadDelegate.Destroy | gps/utils/LocThread.cpp:155-175 | Drops one reference and deletes exactly on the last, as a run of one thread's steps |
| LocThread.LocThreadDelegate.Stop | gps/utils/LocThread.cpp:132-148 | Clears the runnable, joins if joinable, drops the reference, as a run of the parent's steps |
| LocThread.LocThreadDelegate.Bye | gps/utils/LocThread.cpp:48-52 | Stops a joinable thread; of a detached one it only lets go, with `mRunnable` as it was |
| LocThread.LocThreadDelegate.RunLoop | gps/utils/LocThread.cpp:188 | The loop ends for any answers of run(), having called it until the first false, as a run of the spawned thread's steps |
| LocThread.LocThreadDelegate.Retire | gps/utils/LocThread.cpp:194-198 | Clears `mRunnable` before deleting the runnable once, as a run of the spawned thread's steps |
| LocThread.LocThreadDelegate.ThreadMain | gps/utils/LocThread.cpp:177-204 | Calls prerun, run until it answers false, and postrun; ends with the thread's reference dropped and the runnable deleted exactly if there was one |
| ChipList.PlaceSplits | dtbtool/dtbtool.c:219-258 | The scan stops in front of the first chip that the new one precedes, or at a duplicate before that |
| ChipList.BeforeExact | dtbtool/dtbtool.c:219-225 | The order is that of chipset, platform, subtype and revision read as one number |
| ChipList.DuplicateExact | dtbtool/dtbtool.c:241-248 | Two chips are duplicates if and only if they differ in nothing but the model: all four PMIC numbers count |
| ChipList.AddExact | dtbtool/dtbtool.c:208-260 | Adding is refused if and only if a duplicate is listed, and otherwise keeps the list sorted and duplicate-free |
| ChipList.AddAllKeeps | dtbtool/dtbtool.c:892-902 | Adding the chips of a group keeps the order, keeps every entry, and leaves an entry for each of them |
| ChipList.AfterFileExact | dtbtool/dtbtool.c:864-902 | A DTB file changes nothing if and only if it is empty or its first chip is a duplicate; otherwise all its chips have entries afterwards |
| ChipList.ListExact | dtbtool/dtbtool.c:765-908 | After any files the list is sorted and duplicate-free, holds only chips of non-empty files, and has an entry for the first chip of each |
| ChipList.ChipTable.ChipAdd | dtbtool/dtbtool.c:208-260 | The doubly linked list gains the chip at the place the order gives it, or is left as it was; no other field changes |
| ChipList.ChipTable.LinkBefore | dtbtool/dtbtool.c:227-239 | Linking in front of a node, head or not, keeps the links consistent both ways |
| ChipList.ChipTable.LinkLast | dtbtool/dtbtool.c:251-256 | Linking behind the last node keeps the links consistent both ways |
| ChipList.ChipTable.SetFile | dtbtool/dtbtool.c:890-892 | The master gets that input file, and the file's size rounded up past the next page boundary |
| ChipList.ChipTable.AddMaster | dtbtool/dtbtool.c:881-892 | A listed master has the file of its group and the size rounded up past the next page boundary, so every listed chip's master stays so |
| ChipList.ChipTable.AddMembers | dtbtool/dtbtool.c:894-902 | The other chips of a group are added or skipped one by one, and the count is what the list grew by |
| ChipList.ChipTable.Register | dtbtool/dtbtool.c:864-902 | A DTB file leaves the list of `ChipList.AfterFileExact`, every listed chip's master listed with the file that the chip comes from, and the count of what the list grew by |
| ChipList.ChipTable.NextFile | dtbtool/dtbtool.c:864-902 | Registering one file of a directory leaves the chips of the files still to come as they were |
| ChipList.ChipTable.FindDtb | dtbtool/dtbtool.c:765-908 | Over a whole directory the count returned is the length of the list, the list is that of `ChipList.ListExact`, and every listed chip's master is listed with the file that the chip comes from |
| MasterImage.WordRoundTrip | dtbtool/dtbtool.c:1001 | A word is written least significant byte first, and read back from its four bytes it is the word |
| MasterImage.EntryFits | dtbtool/dtbtool.c:985-1048 | An index entry has the size reserved for it if and only if the version is not 0 |
| MasterImage.TableSlice | dtbtool/dtbtool.c:1026-1049 | The i-th entry stands in the table at i times the entry size |
| MasterImage.BlobSlice | dtbtool/dtbtool.c:1057-1090 | The k-th blob stands where the sizes of the ones before add up to |
| MasterImage.ImageSize | dtbtool/dtbtool.c:1004-1097 | The bytes written are as many as expected if and only if the version is not 0 |
| MasterImage.LoaderFindsFile | dtbtool/dtbtool.c:1026-1090 | Offset and size decoded from the i-th entry delimit whole pages that start with the bytes of the file of the chip's master and go on with zeros, from one to a page of them |
| MasterImage.ImageReadsBack | dtbtool/dtbtool.c:999-1090 | Every part of the file reads back from fixed places: magic, version word and count; of each entry chipset, platform, subtype, revision, PMIC numbers and model, and the file it points to; behind the last entry zeros up to the first region |
| MasterImage.RegionsTile | dtbtool/dtbtool.c:1004-1090 | The regions are page-aligned, follow one another without gap or overlap in order of first appearance from the first page boundary behind the table to the end of the file |
| MasterDtb.IndexStep | dtbtool/dtbtool.c:1039-1045 | A master seen before keeps its offset; a new one gets the bytes expected so far, which then grow by its size |
| MasterDtb.AssignOffset | dtbtool/dtbtool.c:1039-1045 | Offsets are set for exactly the masters seen, to the places of their regions |
| MasterDtb.WriteEntry | dtbtool/dtbtool.c:1027-1048 | One round of the index pass appends exactly the specified entry |
| MasterDtb.WriteIndex | dtbtool/dtbtool.c:1026-1049 | The index pass writes exactly the specified table and ends with the expected size of the file |
| MasterDtb.Mark | dtbtool/dtbtool.c:1062 | Exactly the masters seen are marked as written |
| MasterDtb.WriteBlob | dtbtool/dtbtool.c:1058-1089 | Succeeds if and only if the master's file can be opened and still has its registered size, and writes it once |
| MasterDtb.WriteBlobs | dtbtool/dtbtool.c:1057-1090 | The blob pass succeeds if and only if every master's file is readable, and writes one blob per master in order of first appearance |
| MasterDtb.CompleteIsReady | dtbtool/dtbtool.c:881-902 | A list that registration has built meets what the two passes need |
| MasterDtb.OutputTells | dtbtool/dtbtool.c:999-1090 | The i-th entry of the output tells of the i-th listed chip, and at the offset it gives stand the bytes of the input file of that chip's master |
| MasterDtb.Generate | dtbtool/dtbtool.c:962-1103 | With chips found, the tool succeeds if and only if the version is not 0 and every file is readable with its registered size, and then has written exactly the specified file, which, read back, tells of each listed chip and has the bytes of its master's input file where its entry says |
| IpacmQueue.MessageQueue.Enqueue | data-ipa-cfg-mgr/ipacm/src/IPACM_CmdQueue.cpp:81-101 | Appends to the sequence even when Tail is left over from before the queue ran empty |
| IpacmQueue.MessageQueue.Dequeue | data-ipa-cfg-mgr/ipacm/src/IPACM_CmdQueue.cpp:104-117 | Takes the first message, or reports an empty queue; Tail is not touched |
| IpacmQueue.Dispatcher.PostEvt | data-ipa-cfg-mgr/ipacm/src/IPACM_EvtDispatcher.cpp:53-116 | The two pointer queues and the consumer take the machine's post step; an event numbered below the marker joins the end of the external queue, any other that of the internal one |
| IpacmQueue.Dispatcher.ServeNext | data-ipa-cfg-mgr/ipacm/src/IPACM_CmdQueue.cpp:141-202 | They take the machine's serve step: an event to process, or sleep |
| IpacmQueue.ServedInOrder | data-ipa-cfg-mgr/ipacm/src/IPACM_CmdQueue.cpp:120-205 | Over any run each kind of event is served in posting order, none lost or repeated; the event in process is the one taken last, and the consumer sleeps only with both queues empty |
| IpacmQueue.InternalFirst | data-ipa-cfg-mgr/ipacm/src/IPACM_CmdQueue.cpp:149-162 | An external event is served if and only if no internal one waits |
| IpacmQueue.ExternalExact | data-ipa-cfg-mgr/ipacm/inc/IPACM_Defs.h:129-196 | The external events are those enumerated before `IPA_EXTERNAL_EVENT_MAX` |
| EvtRegistry.Registry.Registr | data-ipa-cfg-mgr/ipacm/src/IPACM_EvtDispatcher.cpp:150-179 | The registry's sequence gains the entry at its end |
| EvtRegistry.Registry.Unlink | data-ipa-cfg-mgr/ipacm/src/IPACM_EvtDispatcher.cpp:191-202 | Exactly one node leaves the list, at the head, in the middle or at the end |
| EvtRegistry.Registry.Deregistr | data-ipa-cfg-mgr/ipacm/src/IPACM_EvtDispatcher.cpp:182-214 | What stays is the order-preserving selection of the other listeners' entries; exactly the listener's nodes are freed |
| EvtRegistry.Registry.ProcessEvt | data-ipa-cfg-mgr/ipacm/src/IPACM_EvtDispatcher.cpp:118-140 | The listeners called are those of the matching entries, in order; the event's counter grows by their number in 32 bits, the others stay |
| EvtRegistry.NodesOfOthers | data-ipa-cfg-mgr/ipacm/src/IPACM_EvtDispatcher.cpp:182-214 | Selecting nodes and selecting entries is the same |
| EvtRegistry.CallsWithout | data-ipa-cfg-mgr/ipacm/src/IPACM_EvtDispatcher.cpp:118-214 | Deregistering a listener takes exactly its calls out of every delivery, and reorders nothing |
| EvtRegistry.DeliveredToStanding | data-ipa-cfg-mgr/ipacm/src/IPACM_EvtDispatcher.cpp:118-214 | After any run an event is delivered, in registration order, to exactly the registrations for it that no later deregistration took back |
| PrefixMask.CreateMask | data-ipa-cfg-mgr/hal/src/PrefixParser.cpp:318-334 | For a length n of 0 to 32 the loop's word is 2^32 - 2^(32-n); longer masks give all ones, negative ones zero |
| PrefixMask.MaskWordsValue | data-ipa-cfg-mgr/hal/src/PrefixParser.cpp:306-316 | For any number k of words, the words for length n spell 2^(32k) - 2^(32k-n) |
| PrefixMask.AndMask | data-ipa-cfg-mgr/hal/src/PrefixParser.cpp:89-99 | Masking clears exactly the bits after the prefix |
| PrefixMask.SurvivesExact | data-ipa-cfg-mgr/hal/src/PrefixParser.cpp:89-92 | A 32-bit address equals its masked form if and only if its host part is zero |
| PrefixMask.WordsSurviveExact | data-ipa-cfg-mgr/hal/src/PrefixParser.cpp:94-103 | For any number of words, the word-by-word comparison holds if and only if the host part of the long address is zero |
| PrefixParser.PopulateV4Mask | data-ipa-cfg-mgr/hal/src/PrefixParser.cpp:299-304 | Accepts exactly lengths 0 to 32 and then sets only the V4 mask, to 2^32 - 2^(32-n) |
| PrefixParser.PopulateV6Mask | data-ipa-cfg-mgr/hal/src/PrefixParser.cpp:306-316 | Accepts exactly lengths 0 to 128 and then sets only the V6 mask, whose four words spell 2^128 - 2^(128-n) |
| PrefixParser.Find | data-ipa-cfg-mgr/hal/src/PrefixParser.cpp:198 | The first occurrence, or none if and only if there is none |
| PrefixParser.SplitExact | data-ipa-cfg-mgr/hal/src/PrefixParser.cpp:197-234 | A text splits into address and mask if and only if the address has no slash and joining them, with a slash if there was one, gives the text back |
| PrefixParser.PrefixParser.ParsedExact | data-ipa-cfg-mgr/hal/src/PrefixParser.cpp:128-240 | A text is accepted as a prefix if and only if it is an address, or one with a slash and a mask, that the library parses; the family is the hint or else V6 exactly with a colon, the length that of the mask or else 128 or 32, the address the parsed one, all else blank but the masks of that length |
| PrefixParser.PrefixParser.GetFirstPrefix | data-ipa-cfg-mgr/hal/src/PrefixParser.cpp:108-112 | The prefix added first, with the masks that its length asks for; one of no family if and only if none was added |
| PrefixParser.PrefixParser.IsMaskValid | data-ipa-cfg-mgr/hal/src/PrefixParser.cpp:357-375 | Accepts exactly 1 to 32 for V4 and 1 to 128 for V6, and records which rule was broken |
| PrefixParser.PrefixParser.Add | data-ipa-cfg-mgr/hal/src/PrefixParser.cpp:128-168 | Accepts exactly the texts of `PrefixParser.PrefixParser.ParsedExact` and appends their prefix; a refusal changes no prefix and records which of the checks failed first |
| PrefixParser.PrefixParser.AddAll | data-ipa-cfg-mgr/hal/src/PrefixParser.cpp:120-126 | Adds the texts in order up to the first refused one, keeping those before it |
| PrefixParser.PrefixParser.IsMasked | data-ipa-cfg-mgr/hal/src/PrefixParser.cpp:89-103 | The comparison of an address with its masked form, in one word or four, tells whether the host part is zero |
| PrefixParser.PrefixParser.AllAreFullyQualified | data-ipa-cfg-mgr/hal/src/PrefixParser.cpp:87-106 | True if and only if every prefix added has a zero host part, as a number |
| PrefixParser.ShortMaskQualifies | data-ipa-cfg-mgr/hal/src/PrefixParser.cpp:87-92 | 10.0.0.0/8 counts as fully qualified |

## Left out

- timerfd, epoll, clock_gettime and pthreads: an armed deadline and a poll flag per container, a clock that never goes
  back, and atomic locked steps stand for them. Creation of the two containers on demand is left out, and so is
  `timerfd_create` failing, after which `gps/utils/LocTimer.cpp:481` would use a null container.
- The clock of the timer machine stays below 2^31 seconds since boot less the longest timeout, that is for 67 years, so
  that every deadline fits a 32-bit `time_t`. `Deadline` has the arithmetic and the ranking without the bound.
- The timer machine names a delegate by its address together with its client, its deadline and its kind of timer, and
  never repeats the four together; LocTimer objects have names that are never reused. In that machine a LocTimer is not
  destroyed while the message thread holds its address; `TimerDestroy` drops that restriction and says what then fails.
- MsgTask.MsgTask.Take: deletes the message when it has been read, which is before it is handled; in the source `proc`
  reads the same fields and the deletion follows.
- TimerOwnership.WellFormedKept: receiving a remove message and deleting its delegate is one step, since only the
  message thread sees the delegate then.
- Callbacks are recorded, not run: a callback that starts or stops timers does so by the client steps of the machine.
- LocTimer.TimerService.ProcExpire: is about a message processed without interruption; the interleavings are those of
  `TimerProtocol`.
- LocThread.LocThreadDelegate.ThreadMain: runs without the other thread in between, and likewise the other methods of
  that class; the interleavings are those of the state machine in the same module, where each access to `mRunnable`,
  `mJoinable` and `mRefCount` is one step. The C++ memory model, under which the unlocked accesses race, is left out.
- `LocThread::start` with a null runnable or on an object that has a thread already; naming the thread; custom creators.
- The sizes `mSize` of heap nodes and the reference counts are unbounded, where the source has 32 bits.
- Allocation never fails; null handles passed to the C functions of the list and the queue are left out.
- `msg_q_destroy`, `linked_list_destroy`, `MsgTask::destroy` and the C timer API over LocTimerWrapper: thin wrappers.
- dtbtool's directory walk, dtc and text scanning: the chips of a file and its size are inputs. `find_dtb` returning -1
  for a directory that does not open, which its caller adds to the count (`dtbtool/dtbtool.c:814`), is left out.
- dtbtool's writes do not fail, and a file is read in one piece; the total size of the file is taken to fit 32 bits.
- ChipList.ChipTable.FindDtb: takes the files of all subdirectories in one list, in the order of the walk.
- MasterDtb.Generate: takes as count the length of the list, which is what registration returns.
- IPACM: failures of the mutex and of allocation; the branch of `enqueue` for a null Tail of a non-empty queue, which
  the invariant of the queue shows to be dead; event payloads.
- EvtRegistry.Registry.ProcessEvt: callbacks do not change the registry while an event is being delivered.
- PrefixParser: `inet_pton` and `atoi` are parameters of the class, the error texts are values; the public overloads
  that only pass a family on. The branches of `add` for masks that cannot be populated are proved dead.
- Code that would only add easy members or foreign calls: LocApiBase, loc_cfg, loc_misc_utils, `power/`, the other IPACM
  modules, ConntrackClient and the HAL glue, lights, fingerprint, cryptfs, init and the shims.
