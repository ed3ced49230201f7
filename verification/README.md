# Dasynq: a verified model of its event loop core

Dasynq is a C++ event loop library for multi-threaded programs. This project models the parts that carry
its promises, and proves what they promise, in Dafny.

- **The attention and poll lock** (`WaitQueue.dfy`, `AttnLock.dfy`). Two linked queues of condition
  variables decide which thread may poll. They are classes with the source's fields; over them runs a state
  machine with one step per critical section.
- **Watchers and their safe removal** (`SafeRemoval.dfy`, `Firing.dfy`, `Enabling.dfy`, `BidiWatcher.dfy`,
  `BidiLoop.dfy`). One-shot arming and what each return value of a handler lets happen, the `active` and
  `deleteme` flags, the deregistration that waits for the attention lock, and the poller's batch of events
  that have been fetched but not delivered. Bidirectional watchers are treated for backends with and without
  separate watches.
- **The pre-allocating B-tree** (`Btree*.dfy`). Nodes live at addresses and point at each other. Insertion
  cascades splits upward; removal borrows, merges and shrinks. Nodes are reserved when handles are
  allocated, so that insertion cannot fail.
- **Timers** (`TimeVal.dfy`, `TimerQueue.dfy`, `TimerCount.dfy`, `TimerAlarm.dfy`). Time arithmetic, the
  division by shifting and subtracting, the expiry loop, the counting of intervals up to the callback, and
  the single operating-system alarm, all over the d-ary heap.
- **The priority queues** (`HeapSpec.dfy`, `DaryHeap.dfy`, `StableHeap.dfy`, `SVector.dfy`,
  `Storage.dfy`, `EventPass.dfy`). The d-ary heap with indices in its handles, the wrapper that keeps
  arrival order, the vector whose capacity policy makes insertion allocation-free, and a pass over the
  queued events.
- **The pairing heap** (`PairingSpec.dfy`, `PairingHeap.dfy`). Trees as a specification, cells with sibling
  and child links as the program.

Code that updates things in place is modelled by classes, loops and explicit memory. Each such method is
proved against a function of the old state, and the promises are lemmas about those functions or invariants
of those classes. Memory requests, the kernel's choice of events, clock readings, handlers and the order in
which threads run are parameters: every statement holds for all their values.

## Where the code does less than it seems to

Each of these has a lemma with a concrete input, an exact condition, or both.

- Enabling a watcher that sits in a poller's fetched batch, which a client cannot see, lets it be dispatched
  after `watch_removed` (`Enabling.EnablingIsSafeIff`, `Enabling.InFlightIsReachable`; for bidirectional
  watchers `BidiWatchers.EnablingHalfIsSafeIff`).
- Over a combined watch, as epoll has, a direction that is armed again between the fetch of its event and the
  receipt stays armed when nothing else is wanted. It can then be fetched twice, and be dispatched after
  `watch_removed` (`BidiWatchers.ArmedEqualsWatchFlagsIff`, `BidiWatchers.ReceiptIsSafeIff`,
  `BidiWatchers.CombinedRaceIsUnsafe`).
- `deregister` on a bidirectional watcher calls `watch_removed` a second time when both handlers return REMOVE
  and the second of them does so while the deregistration waits for the lock (`BidiWatchers.RemovedTwiceIff`).
- An expired periodic timer is measured from the deadline at the root of the queue after it has been pulled,
  which is another timer's unless it was alone (`TimerQueues.PeriodKeptIff`).
- `divide_timespec` can stop with a remainder above the divisor (`TimeVals.Divide`).
- A timer enabled while its watcher is queued or being dispatched is miscounted: intervals that come in between
  the reading and the clearing of its count are lost, and two threads that dispatch it at once report the same
  intervals twice (`TimerCounts.EnablingMiscountsIff`, `TimerCounts.DispatchedTwiceOvercounts`).
- `stop_timer` can leave the timer heap out of order, and the alarm can then be set late
  (`TimerAlarms.AlarmCanBeLateIff`, `TimerAlarms.StoppingCanMakeTheAlarmLate`).
- A first deadline of exactly zero leaves the alarm off, and one before zero leaves it as it was
  (`TimerAlarms.ArmingIsInTimeIff`).
- Removal from the middle of the d-ary heap, and increasing a key, can break heap order
  (`HeapSpec.RemovedOrderedIff`, `HeapSpec.ReprioritisedOrderedIff`).
- `is_queued` stays true for handles removed from the B-tree, and for some pulled from the pairing heap
  (`BtreeSets.BtreeSet.IsQueued`, `PairingHeaps.PulledHandleLooksQueued`).
- `set_priority` is documented to return true only for a node that was not the root before; it also returns
  true when the root's own key is decreased (`DaryHeaps.DaryHeap.SetPriority`).
- `process_events` with a limit of zero returns with the lock held
  (`EventPasses.EventQueue.ProcessEvents`).

## Model

| member | source | states |
|---|---|---|
| `WaitQueues.WaitQueue.Unqueue` | include/dasynq.h:299-311 | drops the first of the abstract sequence and returns the new first |
| `WaitQueues.WaitQueue.GetSecond` | include/dasynq.h:313-316 | the second of the sequence, or null |
| `WaitQueues.WaitQueue.CheckHead` | include/dasynq.h:318-321 | whether the node is the first of the sequence |
| `WaitQueues.WaitQueue.IsEmpty` | include/dasynq.h:323-326 | whether the sequence is empty |
| `WaitQueues.WaitQueue.Queue` | include/dasynq.h:328-337 | appends to the sequence; the links stay acyclic and exact |
| `AttnLock.EventLoopLock.GetAttnLock` | include/dasynq.h:1136-1154 | the linked queues change as `EnterAttn` on their abstract sequences, interrupting a long poll when second |
| `AttnLock.EventLoopLock.PollAttnLock` | include/dasynq.h:1158-1174 | gives up during a long poll, else joins without interrupting |
| `AttnLock.EventLoopLock.GetPollwaitLock` | include/dasynq.h:1180-1196 | takes a free lock as poller, else waits in the low-priority queue |
| `AttnLock.EventLoopLock.WakeUp` | include/dasynq.h:1150-1196 | a woken thread holds the lock exactly when it is the head; a poller then sets the long-poll flag |
| `AttnLock.EventLoopLock.ReleaseLock` | include/dasynq.h:1199-1219 | the head leaves; a poll-waiter is promoted only when nobody else waits; the two queues stay disjoint |
| `AttnLock.StepKeepsInv` | include/dasynq.h:1136-1219 | every critical section keeps the lock invariant |
| `AttnLock.RunKeepsInv` | include/dasynq.h:715-770 | so does every run |
| `AttnLock.LockProtocolInvariant` | include/dasynq.h:715-770 | in every reachable state one thread at most holds, it is the head, poll-waiters stand only at the head, and the long-poll flag says exactly that |
| `AttnLock.NoLostWakeup` | include/dasynq.h:1180-1219 | while anyone waits the head runs or is signalled, and a poller with anyone behind it has been interrupted since it became head |
| `AttnLock.PollersAreServedInOrder` | include/dasynq.h:1180-1219 | poll-waiters get the lock strictly in arrival order |
| `AttnLock.AcquisitionIsBounded` | include/dasynq.h:1136-1154 | a thread k places from the head is the head after k releases, overtaken by nobody |
| `AttnLock.RequestMeans` | include/dasynq.h:1136-1196 | a request obtains the lock at once exactly when nobody has it; `poll_attn_lock` gives up exactly during a long poll; no other thread is affected |
| `AttnLock.WakeMeans` | include/dasynq.h:1150-1196 | a waiting thread that wakes has the lock exactly when it is the head |
| `AttnLock.UnlockMeans` | include/dasynq.h:1199-1219 | a release leaves its thread idle and passes the lock to the next attention waiter, to the first poll-waiter exactly when there is none, to nobody exactly when nobody waits |
| `AttnLock.AttnIsGrantedIff` | include/dasynq.h:1136-1174 | an attention request made with k threads queued has the lock for the taking exactly from the k-th release after it on, over every run |
| `AttnLock.PollIsGrantedInTurn` | include/dasynq.h:1180-1219 | over every run the n-th poll request is the n-th poll grant, and waits exactly until then |
| `SafeRemoval.FdWatcher.SetEnabled` | include/dasynq.h:1746-1762 | arms, or disarms and dequeues, so that the watcher can fire, or cannot, as `Firing.SetEnabledMeans` and `Firing.DisablingSilences` say |
| `SafeRemoval.FdWatcher.FinishDispatch` | include/dasynq.h:1815-1827 | what each rearm value does after the handler, with the marked watcher removed; what that lets happen is `Firing.FinishMeans` |
| `SafeRemoval.FetchKeepsOk` | include/dasynq.h:516-557 | a fetch under the lock keeps every event in one place, moving it from armed to in flight |
| `SafeRemoval.ReceiveKeepsOk` | include/dasynq.h:516-557 | so does a receipt, moving it from in flight to queued |
| `SafeRemoval.BeginDeregisterKeepsOk` | include/dasynq.h:937-948 | so does the start of a deregistration, from which the removal request is tracked |
| `SafeRemoval.IssueDeleteKeepsOk` | include/dasynq.h:596-618 | so does the deletion under the attention lock: the request goes to the mark on an active watcher, or `watch_removed` is called on one that is gone |
| `SafeRemoval.StepKeepsOk` | include/dasynq.h:596-618 | every step of any thread keeps each event and each removal request in exactly one place |
| `SafeRemoval.RunKeepsOk` | include/dasynq.h:715-770 | so does every run |
| `SafeRemoval.NoBatchWhileDeleting` | include/dasynq.h:937-954 | no poller holds a batch while a deregistering thread holds the lock |
| `SafeRemoval.SafeAfterRemoval` | include/dasynq/basewatchers.h:167-171 | after `watch_removed`, called once, no step of any continuation touches or changes the watcher |
| `SafeRemoval.RemovedStaysUntouched` | include/dasynq/basewatchers.h:167-171 | the same from any state that meets the invariant |
| `SafeRemoval.RemovalIsNotLost` | include/dasynq.h:408-419 | a removal request that is no longer under way has been delivered |
| `Firing.FinishMeans` | include/dasynq.h:1815-1827 | from every state that meets the invariant and for every returned value: a free thread can fetch the watcher exactly after REARM while it is registered, it can be dispatched exactly after REQUEUE if it is not marked, `watch_removed` has been called exactly after REMOVE or for a marked watcher, and REMOVED does nothing |
| `Firing.SetEnabledMeans` | include/dasynq.h:1746-1762 | the watcher can be fetched exactly when it was enabled and is registered, and dispatched exactly when it was enabled and an event was queued |
| `Firing.RegisterMeans` | include/dasynq.h:1719-1726 | a new watcher can be fetched exactly when registered as enabled |
| `Firing.ReportedIsHandled` | include/dasynq.h:1461-1503 | a fetched event can be received, then dispatched, and its handler can return, the thread being free again |
| `Firing.StepSpends` | include/dasynq.h:1256-1262 | no step but an enabling, a REARM or a REQUEUE arms the watcher or brings it an event it was not armed for; a dispatch uses the event up |
| `Firing.OneEventPerArming` | include/dasynq.h:516-557 | one-shot delivery: over every run that does not revive the watcher it is fetched at most once, and only if it was armed, and its handler started at most once, and only if it was armed or an event was fetched or queued |
| `Firing.FinishSilences` | include/dasynq.h:1238-1262 | after a handler has returned anything but REARM or REQUEUE, or for a marked watcher, no continuation fetches, receives or dispatches the watcher until it is revived |
| `Firing.DisablingSilences` | include/dasynq.h:1746-1762 | after disabling, no continuation fetches the watcher until it is revived, and its handler is started only for an event already in flight, at most once |
| `Firing.FetchedBeforeDisablingIsHandled` | include/dasynq.h:1746-1762 | such an event can indeed still be received and dispatched |
| `Firing.RearmedIsHandledAgain` | include/dasynq.h:1238-1262 | after REARM on a registered watcher the next event can be fetched, received and dispatched to its handler |
| `Firing.RequestedIsNotReported` | include/dasynq.h:937-954 | once removal has been requested no continuation fetches the watcher, whatever is done with it |
| `Enabling.EnablingIsSafeIff` | include/dasynq.h:1746-1762 | from every state that meets the invariant: after enabling, some continuation dispatches the watcher after `watch_removed` exactly when an event was fetched, queued or in its handler |
| `Enabling.InFlightIsReachable` | include/dasynq.h:1746-1762 | a disciplined client reaches a state with an event in flight that it cannot see |
| `Enabling.PendingLeadsToViolation` | include/dasynq.h:1746-1762 | the run that does it, from any such state |
| `BidiWatchers.BidiFdWatcher.ReceiveFdEvent` | include/dasynq.h:516-557 | queues the halves that have events, clears their flags, re-arms a combined watch for the rest |
| `BidiWatchers.BidiFdWatcher.ProcessPrimaryRearm` | include/dasynq.h:1270-1344 | every branch of the primary rearm, for both kinds of backend, as the pair function says |
| `BidiWatchers.BidiFdWatcher.ProcessSecondaryRearm` | include/dasynq.h:1347-1419 | the same for the secondary half |
| `BidiWatchers.BidiFdWatcher.RemovePrimary` | include/dasynq.h:1276-1304 | removal of the primary half: the watch goes only with the second half |
| `BidiWatchers.BidiFdWatcher.RemoveSecondary` | include/dasynq.h:1353-1395 | removal of the secondary half |
| `BidiWatchers.BidiFdWatcher.FinishPrimary` | include/dasynq.h:2009-2032 | end of the primary dispatch, with a marked half removed |
| `BidiWatchers.BidiFdWatcher.FinishSecondary` | include/dasynq.h:2034-2062 | end of the secondary dispatch |
| `BidiWatchers.BidiFdWatcher.SetInWatchEnabled` | include/dasynq.h:1842-1887 | sets the flag and arms accordingly; dequeues when disabling |
| `BidiWatchers.BidiFdWatcher.SetOutWatchEnabled` | include/dasynq.h:1842-1894 | the same for output |
| `BidiWatchers.BidiFdWatcher.SetWatchFlags` | include/dasynq.h:1905-1917 | both at once; over a combined watch nothing is dequeued |
| `BidiWatchers.BidiFdWatcher.IssueDelete` | include/dasynq.h:622-654 | marks active halves, removes the others, and calls `watch_removed` when neither is active |
| `BidiWatchers.ReceiveRefines` | include/dasynq.h:516-557 | a receipt acts on each half as on a one-shot watcher, and keeps the invariant exactly when it is over separate watches or finds a direction still wanted or nothing armed since the fetch |
| `BidiWatchers.StepRefines` | include/dasynq.h:1270-1419 | each critical section acts on each half as on an independent one-shot watcher, for both kinds of backend and with anything between a fetch and its receipt |
| `BidiWatchers.StepKeepsOk` | include/dasynq.h:1270-1419 | and keeps the invariant of the pair |
| `BidiWatchers.RunSimulatesTwoWatchers` | include/dasynq.h:1270-1419 | every run shows on each half what a one-shot watcher run alone would show, through steps that such a watcher can take |
| `BidiWatchers.ArmedEqualsWatchFlagsIff` | include/dasynq.h:516-557 | over every run, armed directions equal `watch_flags` whenever nothing is in flight exactly when every receipt is of that kind |
| `BidiWatchers.SeparateIsClean` | include/dasynq.h:541-557 | which over separate watches it always is |
| `BidiWatchers.WatchRemovedExactlyOnce` | include/dasynq.h:622-654 | over every run of such receipts without a late removal, `watch_removed` is called exactly when both halves are removed, once, with neither active, queued or in flight |
| `BidiWatchers.RemovedBidiIsUntouchable` | include/dasynq/basewatchers.h:167-171 | after it, the loop can do nothing with the watcher; all that is possible are calls the client has promised not to make |
| `BidiWatchers.RemovedTwiceIff` | include/dasynq.h:956-972 | over every run of clean receipts with an issued deletion, `watch_removed` is called twice exactly when the second handler returned REMOVE while the deregistration waited for the lock; never more often |
| `BidiWatchers.SecondRemovalIsReachable` | include/dasynq.h:956-972 | a run in which it is |
| `BidiWatchers.ReceiptIsSafeIff` | include/dasynq.h:541-557 | from every state that meets the invariant: after a receipt some well-behaved continuation has a half queued after `watch_removed` exactly when the receipt was not of that kind |
| `BidiWatchers.EnablingHalfIsSafeIff` | include/dasynq.h:1842-1880 | from every state that meets the invariant: after enabling a half, some well-behaved continuation has a half queued after `watch_removed` exactly when an event of it was queued, in its handler, or over separate watches in flight |
| `BidiWatchers.CombinedRaceIsUnsafe` | include/dasynq.h:1306-1344 | a run over a combined watch with one receipt of the other kind, at whose end the output half can be dispatched after `watch_removed` |
| `BidiLoops.MoveIsPossible` | include/dasynq.h:956-972 | with threads and the attention lock: whoever deletes finds nothing in flight |
| `BidiLoops.ThreadsGiveOrderlyRuns` | include/dasynq.h:956-972 | every multi-threaded run is, for the watcher, a run of its own machine |
| `BidiLoops.SafeAfterBidiRemoval` | include/dasynq/basewatchers.h:167-171 | over every multi-threaded run: one `watch_removed`, and no thread can touch the watcher afterwards |
| `BtreeNodeOps.Search` | include/dasynq/btree_set.h:339-391 | binary search: found exactly when present, else the slot to go down |
| `BtreeNodeOps.Scan` | include/dasynq/btree_set.h:553-570 | the linear scan of `find`: present or the slot to go down |
| `BtreeNodeOps.InsertPosition` | include/dasynq/btree_set.h:479-489 | the position that keeps the keys sorted |
| `BtreeNodeOps.SplitFull` | include/dasynq/btree_set.h:398-477 | shifting and splitting a full node is insertion followed by a cut in the middle |
| `BtreeOps.Find` | include/dasynq/btree_set.h:553-570 | returns what the map holds for the key |
| `BtreeOps.FindLeaf` | include/dasynq/btree_set.h:339-391 | finds the key, or the leaf where it belongs |
| `BtreeOps.SplitUnderParent` | include/dasynq/btree_set.h:398-477 | one split below a parent: the tree with one value too many keeps its shape and contents, pending one level up |
| `BtreeOps.SplitRoot` | include/dasynq/btree_set.h:398-472 | the root split, with two nodes from the reserve |
| `BtreeOps.InsertAndSplit` | include/dasynq/btree_set.h:398-497 | the whole cascade ends in a well-formed tree with the new value |
| `BtreeOps.ReserveSuffices` | include/dasynq/btree_set.h:155-167 | mid-cascade the reserve holds the nodes a split needs, one more at the root |
| `BtreeCount.NodesNeeded` | include/dasynq/btree_set.h:117-153 | a well-formed tree has no more nodes than half-full nodes for its values |
| `BtreeCount.NodesNeededToSplit` | include/dasynq/btree_set.h:117-153 | the same for a tree in the middle of a split |
| `BtreeInsert.SplitShaped` | include/dasynq/btree_set.h:398-477 | a split keeps order, equal depth and exact parent links |
| `BtreeInsert.SplitHolds` | include/dasynq/btree_set.h:398-477 | and contents and handle links |
| `BtreeInsert.GrowShaped` | include/dasynq/btree_set.h:463-472 | a new root keeps the shape |
| `BtreeTakeOut.PromoteShaped` | include/dasynq/btree_set.h:500-551 | replacing an inner value by its successor keeps the shape |
| `BtreeTakeOut.PromoteHolds` | include/dasynq/btree_set.h:500-551 | and drops exactly the removed value |
| `BtreeRepair.RecutShaped` | include/dasynq/btree_set.h:212-296 | borrowing from either sibling keeps the shape |
| `BtreeRepair.RecutHolds` | include/dasynq/btree_set.h:212-296 | and the contents |
| `BtreeRepair.MergeShaped` | include/dasynq/btree_set.h:171-208 | merging siblings keeps the shape |
| `BtreeRepair.MergeHolds` | include/dasynq/btree_set.h:171-208 | and the contents |
| `BtreeRepair.CollapseShaped` | include/dasynq/btree_set.h:212-296 | a root without values gives way to its only child |
| `BtreeRemoval.Successor` | include/dasynq/btree_set.h:500-551 | the leaf whose first value is the next in order |
| `BtreeRemoval.TakeOut` | include/dasynq/btree_set.h:500-551 | the value goes, leaving one leaf possibly short |
| `BtreeRemoval.MergeNodes` | include/dasynq/btree_set.h:171-208 | merges, returning a node to the reserve |
| `BtreeRemoval.Borrow` | include/dasynq/btree_set.h:212-296 | repairs a short node from its sibling |
| `BtreeRemoval.Repair` | include/dasynq/btree_set.h:212-296 | the loop upward ends with every node within its limits |
| `BtreeRemoval.Remove` | include/dasynq/btree_set.h:500-551 | a well-formed tree without exactly that value; nodes plus reserve unchanged |
| `BtreeSets.BtreeSet.Allocate` | include/dasynq/btree_set.h:125-153 | reserves a node exactly when one more is needed than exist, or fails with nothing changed |
| `BtreeSets.BtreeSet.Deallocate` | include/dasynq/btree_set.h:317-334 | frees one reserve node exactly when one fewer is needed than before and more than one would be to spare; never from an empty reserve |
| `BtreeSets.BtreeSet.Insert` | include/dasynq/btree_set.h:339-498 | never fails for an allocated handle; a duplicate changes nothing; else the map gains the pair |
| `BtreeSets.BtreeSet.Remove` | include/dasynq/btree_set.h:500-551 | the map loses exactly the handle's key |
| `BtreeSets.BtreeSet.Find` | include/dasynq/btree_set.h:553-570 | map lookup |
| `BtreeSets.BtreeSet.IsQueued` | include/dasynq/btree_set.h:572-575 | true of exactly the handles that were ever inserted, those queued now among them |
| `BtreeSets.RoomForOne` | include/dasynq/btree_set.h:117-153 | allocated handles pay for one more value, and one fewer handle for the nodes there are |
| `BtreeSets.CountOneMore` | include/dasynq/btree_set.h:125-153 | the counters ask for a node exactly when one more is needed for the handles allocated |
| `TimeVals.ComparisonsAgree` | include/dasynq/timerbase.h:113-130 | the field-wise comparisons are comparisons of nanoseconds |
| `TimeVals.ShiftLeft` | include/dasynq/timerbase.h:144-155 | multiplies by a power of two, normalised |
| `TimeVals.ShiftRight` | include/dasynq/timerbase.h:164-173 | halves n times, rounding down |
| `TimeVals.ScaleUp` | include/dasynq/timerbase.h:264-268 | the scale is a power of two, at most twice the quotient |
| `TimeVals.SubtractDown` | include/dasynq/timerbase.h:270-281 | takes off quotient times divisor; what is left is below the divisor when the scale sufficed |
| `TimeVals.Divide` | include/dasynq/timerbase.h:222-282 | num = q*den + rem always; rem < den exactly outside the under-counting operands |
| `TimerQueues.NextDeadline` | include/dasynq/timerbase.h:346-368 | count and next deadline of a periodic timer; beyond now exactly when the division does not under-count |
| `TimerQueues.RoundProgresses` | include/dasynq/timerbase.h:330-373 | a round takes a timer out for good or moves it to after the next root, so the loop ends for every heap, in order or not |
| `TimerQueues.ExpireRoot` | include/dasynq/timerbase.h:330-373 | the round in time values, on the d-ary heap, with the reference deadline read from slot 0 after the pull; what it reports is `ProcessedReports` |
| `TimerQueues.ProcessedIsDone` | include/dasynq/timerbase.h:324-374 | for every heap the root is not due afterwards and only timers that were due have changed; in a heap in order nothing due is left and the order is kept |
| `TimerQueues.ProcessedReports` | include/dasynq/timerbase.h:324-374 | for every heap and every timer: an expired one-shot timer leaves the queue with its count grown by one, a periodic one stays with its count grown by the sum over its expiries; if enabled, the watcher is told what was saved up and the first expiries, and the timer is disabled; if disabled, all is saved up |
| `TimerQueues.DueTimersExpire` | include/dasynq/timerbase.h:324-374 | in a heap in order exactly the due timers expire |
| `TimerQueues.ProcessedAlone` | include/dasynq/timerbase.h:324-374 | a lone periodic timer becomes what `ExpireAll` says |
| `TimerQueues.ProcessTimerQueue` | include/dasynq/timerbase.h:324-374 | the loop with its time comparisons does that |
| `TimerQueues.PeriodKeptIff` | include/dasynq/timerbase.h:346-368 | a round keeps the root on its own grid exactly when the deadline found in slot 0 after the pull is whole periods from its own |
| `TimerQueues.AnotherTimerShiftsThePeriod` | include/dasynq/timerbase.h:346-368 | a queue of two timers in which it is not |
| `TimerCounts.PollCounts` | include/dasynq/timerbase.h:324-374 | a poll puts the deadline at the first grid point after now and counts exactly the points passed |
| `TimerCounts.StepKeepsOk` | include/dasynq/timerbase.h:500-512 | polls, enabling, disabling and each part of a dispatch by any thread keep the count plus what was lost, whatever the client does |
| `TimerCounts.RunKeepsOk` | include/dasynq.h:2373-2396 | so does every run |
| `TimerCounts.CountWithLosses` | include/dasynq.h:2373-2396 | after every run, with any number of threads dispatching the watcher at once, reported plus waiting plus saved plus lost (negative when reported twice) equals floor((now - first)/interval) + 1, and the deadline is the next one |
| `TimerCounts.EnablingMiscountsIff` | include/dasynq/timerbase.h:500-512 | from every state a client keeping the rule reaches: after it enables the timer, some continuation keeping the rule miscounts exactly when a dispatch is under way, or the watcher is queued and nothing is saved up |
| `TimerCounts.RuleIsExact` | include/dasynq.h:473-476 | in the one remaining case that the rule forbids, enabling inserts the watcher into the queue it is already in |
| `TimerCounts.CountIsExact` | include/dasynq.h:2373-2396 | it is exact for a client that enables the timer only while its watcher is neither queued nor being dispatched |
| `TimerCounts.SilentRun` | include/dasynq/timerbase.h:330-373 | over every run without an enabling a disabled timer that is neither queued nor being dispatched hands nothing to its watcher or callback, and cannot be dispatched |
| `TimerCounts.DisabledIsSilent` | include/dasynq/timerbase.h:500-512 | so after the client disables it, with no dispatch under way |
| `TimerCounts.DisarmedIsSilent` | include/dasynq.h:1428-1440 | and after the only dispatch ends with DISARM or NOOP |
| `TimerCounts.EnabledIsDispatched` | include/dasynq/timerbase.h:500-512 | after an enabling or REARM a poll at the deadline or later makes a dispatch possible; REQUEUE makes one possible at once |
| `TimerCounts.SavedUpIsHandedOver` | include/dasynq/timerbase.h:500-512 | enabling hands what was saved up to the watcher, which can then be dispatched |
| `TimerCounts.EnablingDuringDispatchLosesCounts` | include/dasynq.h:568-573 | a run from the start, for every interval, in which an interval is lost |
| `TimerCounts.DispatchedTwiceOvercounts` | include/dasynq.h:1461-1503 | a run from the start in which two threads dispatch the watcher and report four intervals for two |
| `TimerAlarms.ArmingIsInTimeIff` | include/dasynq/timerfd.h:42-54 | arming from the queue leaves the alarm in time exactly when the first deadline is after zero, or before zero, which is refused, with the alarm in time already |
| `TimerAlarms.LeftAloneIsInTime` | include/dasynq/timerbase.h:484-491 | operations that only raise or drop deadlines need not re-arm |
| `TimerAlarms.StepOrderedIff` | include/dasynq/timerfd.h:77-101 | each operation on the d-ary heap keeps it in order exactly under a condition on its slots |
| `TimerAlarms.OrderKeptIff` | include/dasynq/timerfd.h:77-101 | and so over every run |
| `TimerAlarms.StepKeepsOk` | include/dasynq/timerfd.h:42-101 | set, stop, remove, process and the passing of time keep the alarm in time |
| `TimerAlarms.AlarmIsNeverLate` | include/dasynq/timerfd.h:42-101 | over every run that keeps the heap in order the alarm is set no later than any queued deadline, or has gone off |
| `TimerAlarms.AlarmCanBeLateIff` | include/dasynq/timerfd.h:42-101 | from every state in which all is well: after an operation, some continuation that keeps the condition makes the alarm late exactly when the operation broke it |
| `TimerAlarms.StoppingIsLate` | include/dasynq/timerfd.h:166-177 | so for every heap in order, set slot by slot, and every stop in a slot whose parent is later than the last node |
| `TimerAlarms.StoppingCanMakeTheAlarmLate` | include/dasynq/timerfd.h:166-177 | of which ten timers are an example |
| `TimerAlarms.SetMeans` | include/dasynq/timerfd.h:77-101 | the timer, and no other, has the given deadline, interval and reporting, no expiries saved up and its waiting intervals kept; the alarm is touched only if it is now the root |
| `TimerAlarms.StopMeans` | include/dasynq/timerfd.h:166-177 | exactly that timer leaves the queue, its data stays, the alarm is touched only if it was the root |
| `TimerAlarms.RemoveMeans` | include/dasynq/timerbase.h:484-491 | exactly that timer leaves queue and data, the alarm is not touched |
| `TimerAlarms.StoppedIsSilent` | include/dasynq/timerfd.h:166-177 | over every continuation a stopped timer is neither queued nor reported until it is set again |
| `TimerAlarms.UnqueuedIsSilent` | include/dasynq/timerbase.h:324-374 | so is any timer that is not queued |
| `TimerAlarms.RearmIsExact` | include/dasynq/timerfd.h:42-54 | whenever the alarm is set anew it is set for exactly the earliest deadline, and off when there is none |
| `TimerAlarms.FiresExactlyWhenDue` | include/dasynq/timerfd.h:42-54 | it then goes off exactly when some queued timer is due |
| `TimerAlarms.DueIsReported` | include/dasynq/timerfd.h:56-75 | from the clock to the watcher: at a queued deadline the alarm has gone off, and processing reports an enabled timer, saves up for a disabled one, and keeps exactly the periodic ones queued |
| `TimerAlarms.SetThenProcessed` | include/dasynq/timerfd.h:77-101 | a timer set in an empty queue and processed at its deadline or later is reported exactly when enabled, and stays queued exactly when its interval is not zero |
| `TimerAlarms.TimerFd.SetTimer` | include/dasynq/timerfd.h:77-101 | stores exactly what was asked for; re-arms exactly when the heap reports a new root; from a heap in order the alarm is in time for the root |
| `TimerAlarms.TimerFd.StopTimer` | include/dasynq/timerfd.h:166-177 | takes exactly that timer out; re-arms exactly when the first timer was stopped; from a heap in order the alarm is in time for the root |
| `TimerAlarms.TimerFd.ProcessTimer` | include/dasynq/timerfd.h:56-75 | runs the expiry loop and re-arms; from a heap in order nothing due is left and the alarm is in time |
| `HeapSpec.RiseOrders` | include/dasynq/daryheap.h:120-139 | moving a node towards the root restores heap order |
| `HeapSpec.RiseMultiset` | include/dasynq/daryheap.h:120-139 | with the same nodes |
| `HeapSpec.ChosenIsLeast` | include/dasynq/daryheap.h:158-167 | the selected child is least among those before the last slot |
| `HeapSpec.SinkOrders` | include/dasynq/daryheap.h:148-181 | moving a node away from the root restores the order of all slots before the last |
| `HeapSpec.SinkMultiset` | include/dasynq/daryheap.h:148-181 | with the same nodes |
| `HeapSpec.InsertedOrdered` | include/dasynq/daryheap.h:260-266 | insertion keeps heap order and adds the node |
| `HeapSpec.RemovedMultiset` | include/dasynq/daryheap.h:183-193 | removal at any slot takes exactly that node |
| `HeapSpec.RemovedOrderedIff` | include/dasynq/daryheap.h:183-193 | and keeps heap order exactly when the last node is not below the slot's parent; always at the root |
| `HeapSpec.RemovalCanBreakOrder` | include/dasynq/daryheap.h:183-193 | a heap of ten in which it does not |
| `HeapSpec.DecreasedOrdered` | include/dasynq/daryheap.h:311-315 | decreasing a key keeps heap order |
| `HeapSpec.ReprioritisedOrderedIff` | include/dasynq/daryheap.h:300-316 | a new key changes one node, and keeps the order unless the last node is passed over |
| `HeapSpec.IncreaseCanBreakOrder` | include/dasynq/daryheap.h:158-167 | a heap of three in which it is |
| `HeapSpec.RootIsLeast` | include/dasynq/daryheap.h:268-277 | in an ordered heap nothing comes before the root |
| `DaryHeaps.DaryHeap.BubbleDown` | include/dasynq/daryheap.h:120-139 | the loop over the hole computes `Rise`; every handle's index stays exact |
| `DaryHeaps.DaryHeap.SelectChild` | include/dasynq/daryheap.h:158-167 | the inner loop computes `Chosen` |
| `DaryHeaps.DaryHeap.BubbleUp` | include/dasynq/daryheap.h:148-181 | the loop over the hole computes `Sink`, also when the last slot holds the moving node |
| `DaryHeaps.DaryHeap.RemoveAt` | include/dasynq/daryheap.h:183-193 | computes `Removed`; the removed handle becomes idle, nobody else's index goes stale |
| `DaryHeaps.DaryHeap.Allocate` | include/dasynq/daryheap.h:204-239 | storage follows the policy function; a failure changes nothing |
| `DaryHeaps.DaryHeap.Deallocate` | include/dasynq/daryheap.h:242-251 | never shrinks below what is queued |
| `DaryHeaps.DaryHeap.Insert` | include/dasynq/daryheap.h:260-266 | computes `Inserted` in the storage already there, whatever the allocator would say |
| `DaryHeaps.DaryHeap.GetRoot` | include/dasynq/daryheap.h:268-272 | the root's handle, least in an ordered heap |
| `DaryHeaps.DaryHeap.PullRoot` | include/dasynq/daryheap.h:279-282 | removal at the root |
| `DaryHeaps.DaryHeap.Remove` | include/dasynq/daryheap.h:284-287 | removal at the handle's index |
| `DaryHeaps.DaryHeap.IsQueued` | include/dasynq/daryheap.h:294-297 | true exactly when one of the nodes is the handle's |
| `DaryHeaps.DaryHeap.SetPriority` | include/dasynq/daryheap.h:299-316 | computes `Reprioritised`; reports the root only for a decreased key |
| `SVectors.SVector.ChangeCapacity` | include/dasynq/svec.h:108-126 | the copy loop keeps the contents; a refusal changes nothing |
| `SVectors.SVector.EnsureCapacity` | include/dasynq/svec.h:128-152 | succeeds exactly when it fits or is granted; the new capacity fits the request |
| `SVectors.RequestDoubles` | include/dasynq/svec.h:128-152 | growth that is not exact at least doubles the capacity or takes all there can be |
| `SVectors.SVector.EmplaceBack` | include/dasynq/svec.h:200-208 | appends; with spare capacity nothing is asked for or moved |
| `SVectors.SVector.ShrinkTo` | include/dasynq/svec.h:258-263 | keeps the contents |
| `Storages.StepKeepsOk` | include/dasynq/daryheap.h:204-251 | queued <= allocated <= capacity, so an insertion always finds room |
| `Storages.RunKeepsOk` | include/dasynq/daryheap.h:204-251 | over every run |
| `Storages.AllocateMeans` | include/dasynq/daryheap.h:204-236 | an allocation succeeds exactly when there is room or either request is granted; storage moves only when full, and then doubles if the first request is granted |
| `Storages.CapacityIsProportional` | include/dasynq/daryheap.h:242-251 | over every run in which shrinking is granted the capacity stays within four times the allocated nodes plus three |
| `Storages.MovesAreAmortised` | include/dasynq/daryheap.h:204-251 | over every run in which growth gets what it first asks for, elements moved are at most 2*allocates + deallocates, at every size |
| `Storages.StarvedMovesQuadratically` | include/dasynq/daryheap.h:220-236 | without that, k allocations can move k(k-1)/2 |
| `StableHeaps.FirstIsLeastThenEarliest` | include/dasynq/stableheap.h:41-53 | who goes next in the list: least priority, then earliest arrival |
| `StableHeaps.PutRefines` | include/dasynq/stableheap.h:72-76 | insertion with a fresh number appends to the list |
| `StableHeaps.RootIsFirst` | include/dasynq/stableheap.h:41-53 | the heap's root is the one whose turn it is |
| `StableHeaps.PullRefines` | include/dasynq/stableheap.h:103-106 | pulling takes exactly that one from the list |
| `StableHeaps.RunRefines` | include/dasynq/stableheap.h:56-76 | heap and list hand out the same from any related states |
| `StableHeaps.StableOrder` | include/dasynq/stableheap.h:4-9 | over every run of insertions and pulls the heap hands out least priority first and equals in arrival order |
| `StableHeaps.StableHeap.Insert` | include/dasynq/stableheap.h:72-76 | the in-place heap and counter change as `Put` |
| `StableHeaps.StableHeap.PullRoot` | include/dasynq/stableheap.h:98-106 | and as `Pull`, the pulled handle being idle |
| `EventPasses.PassCount` | include/dasynq.h:1453-1459 | a pass dispatches exactly as many as it may, and everything else queued before or meanwhile is still queued |
| `EventPasses.LimitedPass` | include/dasynq.h:1453-1503 | with a positive limit the lesser of the limit and the number queued at entry, with a negative one all that were queued at entry |
| `EventPasses.LateArrivalsWait` | include/dasynq.h:1453-1459 | and only watchers queued at entry, in their own order, as long as nothing of better priority arrives |
| `EventPasses.FairPass` | include/dasynq.h:1445-1503 | with one priority: the first queued at entry, in order, even if every handler requeues; under a positive limit that many at most, without a limit all of them |
| `EventPasses.BetterPriorityStarves` | include/dasynq.h:1445-1503 | a better watcher that requeues itself takes every turn |
| `EventPasses.EventQueue.ProcessEvents` | include/dasynq.h:1445-1503 | the loop over the mutating heap dispatches and leaves what the list says, in number the lesser of a positive limit and the queue at entry; a limit of zero leaves the lock held |
| `PairingSpec.MeldKeeps` | extra/heaptest/dasynq-pairingheap.h:82-117 | melding two trees keeps nodes, priorities and heap order |
| `PairingSpec.PairsKeep` | extra/heaptest/dasynq-pairingheap.h:121-163 | the first pass keeps them |
| `PairingSpec.FoldKeeps` | extra/heaptest/dasynq-pairingheap.h:165-171 | the second pass keeps them and ends in one tree |
| `PairingSpec.MergePairsKeeps` | extra/heaptest/dasynq-pairingheap.h:119-174 | any list of heap-ordered trees becomes one heap-ordered tree of the same nodes |
| `PairingSpec.CutParts` | extra/heaptest/dasynq-pairingheap.h:214-238 | cutting a node parts the nodes into it, its children and the rest |
| `PairingHeaps.PairingHeap.MergePair` | extra/heaptest/dasynq-pairingheap.h:82-117 | the cells hold the melded tree in the same place of the list; nothing else changes but the link leading to it |
| `PairingHeaps.PairingHeap.FirstPass` | extra/heaptest/dasynq-pairingheap.h:121-163 | the first loop computes `Pairs` in memory |
| `PairingHeaps.PairingHeap.SecondPass` | extra/heaptest/dasynq-pairingheap.h:165-173 | the second computes `Fold` |
| `PairingHeaps.PairingHeap.MergePairs` | extra/heaptest/dasynq-pairingheap.h:119-174 | together `MergePairs`; a lone tree keeps its backward link |
| `PairingHeaps.PairingHeap.Merge` | extra/heaptest/dasynq-pairingheap.h:45-79 | a new node becomes a child of the root or the root |
| `PairingHeaps.PairingHeap.Insert` | extra/heaptest/dasynq-pairingheap.h:201-205 | adds exactly the item; all links exact; true exactly when it is the root |
| `PairingHeaps.PairingHeap.PullRoot` | extra/heaptest/dasynq-pairingheap.h:264-270 | takes the least item and no other; says which backward link goes stale |
| `PairingHeaps.PairingHeap.Remove` | extra/heaptest/dasynq-pairingheap.h:208-252 | takes exactly that item from anywhere, despite a stale root link |
| `PairingHeaps.PairingHeap.SetPriority` | extra/heaptest/dasynq-pairingheap.h:194-198 | exchanges one item |
| `PairingHeaps.PairingHeap.IsQueued` | extra/heaptest/dasynq-pairingheap.h:272-275 | true of queued handles, and of idle ones exactly when a link was left in them |
| `PairingHeaps.PulledHandleLooksQueued` | extra/heaptest/dasynq-pairingheap.h:264-275 | which two insertions and two pulls bring about |

## Left out

- The epoll, kqueue, select and pselect backends: a backend is reduced to registered and armed directions with one-shot delivery, where arming an unregistered descriptor does nothing.
- Signals, child processes, interrupts as system calls, the `itimer` and `posixtimer` back ends, and fork handling.
- Emulation of regular files, whose re-enabling paths can queue a watcher twice.
- `binary_heap`, `nary_heap` and `btree_queue`: variants of the queues treated here.
- Releasing of loop handles: counts do not balance in the bidirectional `issue_delete` and are not claimed to.
- Machine integers: sequence numbers, expiry counts, sizes and seconds are unbounded here; only the cast of a negative event limit to an unsigned number is modelled.
- Template parameters are fixed: fan-out 4 for the heap, 8 values per B-tree node, integer priorities.
- Fairness of the scheduler: that a signalled thread eventually runs is not stated; what is stated is how many releases it needs.
- The B-tree's nodes are kept as the valid prefix of their arrays, so what stale tails hold is not modelled; its node store is a map from addresses, updated as a value.
- The cells of the pairing heap are a map from addresses to cells, updated one field at a time.
- Deadlines stand in the timer heap as nanoseconds; each is the normalised time value it stands for.
- BidiWatchers.WatchRemovedExactlyOnce: handlers do not return REMOVED; no late removal (`BidiWatchers.RemovedTwiceIff`) and no receipt that leaves a combined watch misaligned (`BidiWatchers.ReceiptIsSafeIff`).
- BidiLoops.SafeAfterBidiRemoval: under the same conditions.
- SafeRemoval.SafeAfterRemoval: for a client that enables no watcher with an event pending and requests removal once.
- TimerCounts.CountWithLosses: for a timer alone in its queue, whose watcher counts as queued once when it is inserted into the event queue twice; the identity does not depend on how often it is queued. Handlers do not return REMOVE or REMOVED.
- TimerAlarms.AlarmIsNeverLate: for deadlines after zero, and runs that keep the heap in order; `TimerAlarms.OrderKeptIff` says which those are, and `TimerAlarms.AlarmCanBeLateIff` that no others are safe.
- StableHeaps.StableOrder: for insertions and pulls; `HeapSpec.RemovedOrderedIff` says when a removal in between keeps the order.
- EventPasses.EventQueue.ProcessEvents: one processing thread and no dequeuing during the pass.
