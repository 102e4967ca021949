# Nemo: a verified model

Nemo is a coroutine web server. This project models its stateful algorithms in Dafny and proves
what they are for. `dafny verify dfyconfig.toml` checks all of it.

**Coroutine runtime.** `ProcessorMachine` is one processor as a state machine whose events are the
regions the code runs without interruption: a step of the dispatcher loop, what the running
coroutine does, tasks handed over or stolen by other threads, and the three stages of a wake-up
call (lock the weak reference, erase the wait-set copy, drop the own copy). A suspension's control
block is a set of holders; when the last one goes, the deleter puts the task on the run queue.
`Cluster` puts any number of processors and the balancing thread's hand together and proves, over
every run in which no steal takes a task between its Suspend and its Yield: each live task has
exactly one owner, a suspension is resumed at most once, a waker never touches another suspension
than its own, and new work is never left with a sleeping dispatcher and no signal. `UnsafeSteals`
proves that the condition on steals is exact. `DispatchOrder` proves first come, first served.
`DispatcherLoops`, `Interleavings` and `Processors` hold the imperative processor. Its loop is written
region by region; between any two regions other threads do whatever the given moves say, and the
loop ends exactly where the machine ends. `CoroutineEnds` says what becomes of a task by the state in
which its coroutine swaps out.

**Balancing.** `BalancePlan` has the water filling of `balanceBlock` and the levelling of
`balanceActive` on recorded loads, with machine subtraction where the code relies on its wrapping.
`Schedulers` has the balancing round on processor objects while other threads add tasks at every
interruption point: no task is lost or duplicated, at least all new tasks of the blocked processors
are taken, and every active processor ends at its computed level, arrivals on top. When nothing
arrives, every queue ends at exactly the computed length. `ConcurrentLinkedDeques` has the bulk pops.

**Reactor.** `Reactors` keeps four waiting lists, the promised mask and the kernel's registration in
step, so that ADD, MOD and DEL are only issued in the right state, also after refused calls.

**LRU cache.** `LinkedLists` proves the pointer operations on rings of nodes on the heap, `Recency`
the abstract recency list, which is the order of last use, `LruCaches` the cache object that refines it.

**Log appender.** `LogMachine` is the appender as a state machine of producers and consumer, stops
and restarts included: the stream of accepted messages is written in order, exactly once, and the
calls after which an assertion fails or null is dereferenced are characterised exactly.
`LogConsumers` has any number of consumers, which racing starts can bring about: every buffer is
still written whole and once, and the order is kept as long as batches do not overlap.
`LogAppenders` and `Buffers` hold the objects.

**ORM.** `Rows`, `Forests` and `Orm`: flat rows are folded into a forest of messages; one message per
level and id, attached to the message of the first row that names it.

**Codecs.** `LogFormatters` and `PatternPrinting` (log patterns), `ByteArrays` (chunked writes),
`Varints` and `Zigzags` (integer encoding), `Decimals` (printing integers).

Results that differ from what one might expect of the code:

- A steal in the window between a task's Suspend and its Yield can take the task that is still
  executing, when it has been woken already, and another processor can then run it as well.
  `SafeStealsAreCareful` gives the exact condition and `OneTaskOnTwoProcessors` a run that gets there.
- The log appender cannot in general be used after `stop()`. A message that was waiting when the
  consumer drained takes the current buffer with it, and the next `log()` dereferences null
  (`LogAfterStopCrashes`); a message longer than a buffer can leave no spare buffer, and the restarted
  consumer aborts (`RestartAborts`). A `stop()` before the consumer thread has entered its loop
  aborts as well. `SurvivesIffCareful` gives the exact condition.
- Two threads that log for the first time can start two consumers. Messages can then be written in the
  wrong order (`OrderLost`), and a plain `stop()` can dereference null, because one consumer drains
  the current buffer while the other is already behind the loop condition (`HaltAborts`).
- Three of the four `put` overloads insert a new entry at the end from which the cache evicts
  (`PutBackIsNextVictim`); `RecentIffOrderly` says when that does no harm.
- In `balanceBlock` the remainder goes to the processor that was rejected, because the loop steps past
  it and its wrapped demand asks for everything; it goes to the least loaded one only when nothing was
  rejected or the last kept processor is at the average already (`BalancePlan.Receiver`).
- A log message that does not fit an empty buffer is dropped (`LogMachine.Stored`).
- "%%" in a log pattern leaves a '%' in the text and then reads the second '%' as the start of a
  directive, so a '%' in a text comes back exactly when another one follows it (`ParseUndoesPrint`).
- The text in front of an unclosed directive ends up behind the error (`TakeDirective`).

## Model

| member | source | states |
|---|---|---|
| `ProcessorMachine.FreshInv` | include/coroutine/processor.h:110-127 | a processor as constructed satisfies the invariant and owns no task |
| `ProcessorMachine.ReleaseKeeps` | include/coroutine/processor.h:34-55 | dropping a reference never creates or loses an owner: the last one moves the task from its control block to the run queue |
| `ProcessorMachine.EraseKeeps` | src/coroutine/processor.cc:257-277 | the locked region of a wake-up leaves every task's number of owners as it was |
| `ProcessorMachine.RunningIsNotWaiting` | src/coroutine/processor.cc:237-247 | a task about to suspend has no wait-set entry and no live control block, so the insertion into the wait set always takes place |
| `ProcessorMachine.SuspendKeeps` | src/coroutine/processor.cc:237-255 | suspending moves the ownership of the running task to a new control block, and the front of the run queue to the next slot |
| `ProcessorMachine.TickOwners` | src/coroutine/processor.cc:279-351 | every dispatcher step keeps each task's number of owners, except that the finished task is given up |
| `ProcessorMachine.StepOwners` | src/coroutine/processor.cc:124-177 | conservation, for every event and every task: owners after plus taken away equals owners before plus handed in |
| `ProcessorMachine.EraseIsOwn` | src/coroutine/processor.cc:268-269 | a waker that holds a reference erases the wait-set copy of its own suspension and no other |
| `ProcessorMachine.StepGroups` | include/coroutine/processor.h:34-57 | the wait set and the reference groups stay in correspondence, at most one group per task |
| `ProcessorMachine.StepResumed` | src/coroutine/processor.cc:74-83 | each suspension is either still referenced or has been resumed exactly once |
| `ProcessorMachine.StepSignal` | src/coroutine/processor.cc:186-204 | a processor is never asleep with new work and no pending signal |
| `ProcessorMachine.StepSlots` | src/coroutine/processor.cc:294-347 | the running and next slots are filled exactly where the dispatcher relies on it |
| `ProcessorMachine.StepInv` | src/coroutine/processor.cc:279-351 | every event keeps the whole invariant, provided a steal leaves alone a task between Suspend and Yield |
| `ProcessorMachine.StealIsSafeIff` | src/coroutine/processor.cc:222-235 | a steal from the run queue keeps the invariant if and only if it does not take the task that has suspended itself, was woken, and has not yielded yet |
| `ProcessorMachine.StealCanTakeTheExecutingTask` | src/coroutine/processor.cc:237-277 | that case is reachable: a concrete run after which a steal of one task takes the task that is still executing |
| `Cluster.WakeEraseIsLocal` | src/coroutine/processor.cc:81-82 | the processor a waker looks up in the task is the one that holds the suspension |
| `Cluster.NotRunningTwice` | src/coroutine/processor.cc:294-307 | no task is in the running slot of two processors |
| `Cluster.EachAtHomeNext` | src/coroutine/processor.cc:302 | a running or suspended task names the processor it belongs to, after every event |
| `Cluster.OneOwnerNext` | src/coroutine/processor.cc:279-351 | every event of the system keeps exactly one owner per live task |
| `Cluster.RunKeepsInv` | src/coroutine/processor.cc:279-351 | every run of any length and interleaving in which no steal takes a task between Suspend and Yield keeps the system invariant |
| `Cluster.SingleOwnership` | src/coroutine/processor.cc:237-351 | after every such run from fresh processors each live task has exactly one owner in the whole system, every other task none, and none runs twice |
| `Cluster.ResumedAtMostOnce` | include/coroutine/processor.h:34-55 | after every such run with any number of wakers, a suspension has been put on a run queue exactly once if its last reference is gone and not at all otherwise |
| `Cluster.WakersStayWithTheirEntry` | src/coroutine/processor.cc:74-83 | a waker holding a reference of one suspension never touches or resumes another one, of the same task or any other |
| `Cluster.NewWorkIsSignalled` | src/coroutine/processor.cc:124-204 | no lost wake-up for new work, after every such run |
| `UnsafeSteals.UnsafeStealRunsTwice` | src/coroutine/processor.cc:237-277 | any steal of a task between Suspend and Yield leads, by careful steps only, to that task executing on any chosen other processor while it is still in the running slot of the first |
| `UnsafeSteals.SafeStealsAreCareful` | src/coroutine/scheduler.cc:133-141 | a steal is followed by no careful run with a task in two running slots if and only if it is careful |
| `UnsafeSteals.OneTaskOnTwoProcessors` | src/coroutine/processor.cc:237-277 | a concrete run from two fresh processors to one task executing on both |
| `Cluster.BalancingConserves` | src/coroutine/scheduler.cc:72-160 | stealing and handing out keep every task's number of owners |
| `DispatchOrder.StepRank` | src/coroutine/processor.cc:283-347 | a dispatch brings every waiting task exactly one place forward, a finished task followed by a new one sets it back by one, and nothing else moves it |
| `DispatchOrder.RankAlongRun` | src/coroutine/processor.cc:283-347 | the same, added up over every run during which the task waits |
| `DispatchOrder.ServedInOrder` | src/coroutine/processor.cc:249-252 | a task at index k of the run queue waits through at most k + 1 + d dispatches, d being the finishes followed by a new task |
| `DispatcherLoops.SelectTicks` | src/coroutine/processor.cc:283-293 | the head of the dispatcher loop is one, three or four machine steps, by which queues are empty |
| `DispatcherLoops.YieldTicks` | src/coroutine/processor.cc:309-319 | the RUNNING case is that sequence of machine steps |
| `DispatcherLoops.DoneTicks` | src/coroutine/processor.cc:332-347 | the case of a finished task is that sequence of machine steps |
| `DispatcherLoops.ParkTicks` | src/coroutine/processor.cc:320-327 | the BLOCK case is one machine step |
| `DispatcherLoops.WaitTicks` | src/coroutine/processor.cc:186-195 | the rest of the wait, and the fetching of new tasks, are machine steps |
| `Processors.Processor.constructor` | include/coroutine/processor.h:110-127 | a new processor is the machine's initial state |
| `Processors.Processor.AddTask` | src/coroutine/processor.cc:124-177 | appends to the new queue and signals or sets the flag |
| `Processors.Processor.NotifyNewQueCondition` | src/coroutine/processor.cc:197-204 | the notification step of the machine |
| `Processors.Processor.Steal` | src/coroutine/processor.cc:222-235 | exactly min(n, new + run) tasks off the tails, new queue first; with zero the whole new queue |
| `Processors.Processor.SelectTask` | src/coroutine/processor.cc:283-297 | the head of the outer loop up to a task or into the wait, with other threads between any two of its regions; undisturbed it takes the front of the run queue, after fetching new tasks if that is empty |
| `Processors.Processor.ResumeFromWait` | src/coroutine/processor.cc:190-194 | the return from the wait and the fetching of new tasks, with other threads in between |
| `Processors.Processor.SuspendBySelf` | src/coroutine/processor.cc:237-255 | the suspension step of the machine |
| `Processors.Processor.AfterSwapIn` | src/coroutine/processor.cc:308-348 | the three cases after a coroutine swaps out, region by region among other threads; undisturbed, the exact state by the way the coroutine ended |
| `Processors.Processor.EnterTask` | src/coroutine/processor.cc:301-307 | the inner loop is entered exactly with a task in the running slot, and left otherwise |
| `Processors.Processor.RunTask` | src/coroutine/processor.cc:301-349 | one pass of the inner loop ends where the moves that its regions and the other threads made in between lead, back at the loop condition |
| `Processors.Processor.FindTask` | src/coroutine/processor.cc:283-294 | so does the head of the outer loop, through a wait if need be |
| `Processors.Processor.Process` | src/coroutine/processor.cc:279-351 | for any sequence of moves of coroutines and other threads, unsafe steals included, the loop ends exactly where that sequence leads the machine, by the run of EventsOf; careful moves keep the invariant |
| `Interleavings.MovesAreARun` | src/coroutine/processor.cc:279-351 | every sequence of moves is a run of the machine, made of the listed events |
| `Interleavings.CarefulMovesKeep` | src/coroutine/processor.cc:279-351 | any number of moves of which no steal takes a task between Suspend and Yield keep the invariant, and no task has two owners |
| `Interleavings.CarefulFromFresh` | src/coroutine/processor.cc:279-351 | so it is from a new processor on, after every number of moves |
| `Interleavings.QuietTicks` | src/coroutine/processor.cc:283-347 | undisturbed moves outside a coroutine are dispatcher steps in a row |
| `Interleavings.QuietSelect` | src/coroutine/processor.cc:283-297 | so the head of the loop, undisturbed, ends as computed |
| `Interleavings.QuietSwapOut` | src/coroutine/processor.cc:308-348 | and so does what follows a coroutine |
| `CoroutineEnds.YieldedGoesBack` | src/coroutine/processor.cc:309-319 | a coroutine that swaps out as RUNNING goes to the back of the line, new tasks before it if the run queue was empty, and the front of the line runs |
| `CoroutineEnds.BlockedWaits` | src/coroutine/processor.cc:237-255 | one that blocks is in the wait set under a new entry, or back on the run queue if it was there already, and the front of the run queue runs |
| `CoroutineEnds.FinishedIsGone` | src/coroutine/processor.cc:328-347 | one that ends in any other way is replaced by a new task or by the next one, and has no owner left |
| `CoroutineEnds.GivenUpIffEnded` | src/coroutine/processor.cc:308-348 | whatever other threads do meanwhile, until the loop condition is reached again the processor gives up that task if its coroutine ended, and nothing if it yielded or blocked |
| `CoroutineEnds.SelectedTakesFront` | src/coroutine/processor.cc:283-297 | an undisturbed search takes the front of the run queue, or of the new queue if that is empty |
| `Processors.Processor.Drop` | include/coroutine/processor.h:46-52 | the reference count and the deleter |
| `Processors.Processor.LockEntry` | src/coroutine/processor.cc:75-79 | locking the weak reference succeeds exactly while the suspension is referenced |
| `Processors.Processor.EraseEntry` | src/coroutine/processor.cc:260-269 | the erase step of the machine |
| `Processors.Processor.WakeUp` | src/coroutine/processor.cc:74-83 | a whole wake-up call: nothing happens on an expired suspension, otherwise its stages in order, with a notification exactly when the run queue holds one task or the caller is another thread |
| `DispatcherLoops.WokenResumes` | src/coroutine/processor.cc:257-277 | an undisturbed wake-up of a waiting task puts it at the back of the run queue and ends the suspension |
| `ConcurrentLinkedDeques.ConcurrentLinkedDeque.PushBackAll` | include/container/concurrent_linked_deque.h:42-46 | splices all of the other list to the back and leaves it empty |
| `ConcurrentLinkedDeques.ConcurrentLinkedDeque.PopAll` | include/container/concurrent_linked_deque.h:90-94 | takes everything |
| `ConcurrentLinkedDeques.ConcurrentLinkedDeque.InnerPopFrontBulk` | include/container/concurrent_linked_deque.h:145-168 | splits at n from the front, whichever end the walk starts from |
| `ConcurrentLinkedDeques.ConcurrentLinkedDeque.InnerPopBackBulk` | include/container/concurrent_linked_deque.h:170-192 | splits at n from the back, whichever end the walk starts from |
| `ConcurrentLinkedDeques.BulkPopsCompose` | include/container/concurrent_linked_deque.h:88-89 | two bulk pops are one of the sum |
| `BalancePlan.Plan` | src/coroutine/scheduler.cc:88-108 | the averaging loop finds a filling: no division by zero, every kept load at most the average, every later one above it |
| `BalancePlan.FillingIsUnique` | src/coroutine/scheduler.cc:88-104 | there is only one such number of kept processors and only one such average |
| `BalancePlan.FillingLeavesRemainder` | src/coroutine/scheduler.cc:110-122 | the stolen tasks raise all kept processors to the average, and the rest is the remainder, less than their number |
| `BalancePlan.WrappedDemand` | src/coroutine/scheduler.cc:106-111 | the wrapped `avg - load` of the rejected processor asks for all that is left |
| `BalancePlan.SharesAreHanded` | src/coroutine/scheduler.cc:106-122 | the hand-out loop with its machine subtraction and early end, and the hand-over of the rest, give each processor its share |
| `BalancePlan.SharesLevel` | src/coroutine/scheduler.cc:106-122 | the shares bring every kept processor to exactly the average, except for one receiver of the remainder |
| `BalancePlan.SharesAddUp` | src/coroutine/scheduler.cc:106-122 | the shares add up to what was taken |
| `BalancePlan.SharesArrive` | src/coroutine/scheduler.cc:106-122 | the same as an effect on the lengths of all queues; the other processors get nothing |
| `BalancePlan.SurplusCoversDeficits` | src/coroutine/scheduler.cc:133-158 | what is above the average covers what is below it and leaves total mod n |
| `BalancePlan.LevelsReached` | src/coroutine/scheduler.cc:133-158 | cutting down, raising and handing over the rest end at the average everywhere, plus the remainder at the least loaded |
| `BalancePlan.LevelsAreFair` | src/coroutine/scheduler.cc:133-158 | the levels add up to the loads, and no two differ by as much as there are processors |
| `BalancePlan.LevelsWithout` | src/coroutine/scheduler.cc:143-145 | when nothing was stolen all active processors are level already |
| `BalancePlan.EmplacePosition` | src/coroutine/scheduler.cc:48-53 | an entry of the multimap goes behind all of at most its load |
| `BalancePlan.EmplaceRecord` | src/coroutine/scheduler.cc:48-53 | recording keeps the multimap a sorted list of distinct processors with the right total |
| `Schedulers.Scheduler.Interfere` | src/coroutine/processor.cc:168-177 | what other threads add in between loses and duplicates nothing |
| `Schedulers.Scheduler.StealFrom` | src/coroutine/processor.cc:222-235 | exactly the tasks off the tails, or the whole new queue for zero, move from a processor to the balancing thread's hand, none lost or duplicated; no other queue changes |
| `Schedulers.Scheduler.GiveTo` | src/coroutine/scheduler.cc:115-116 | tasks move from the hand to a processor, none lost or duplicated |
| `Schedulers.Scheduler.CollectBlocked` | src/coroutine/scheduler.cc:78-82 | from every blocked processor at least all tasks that were new are taken, and none from its run queue or from another processor; what was taken from where adds up to the tasks in hand |
| `Schedulers.Scheduler.HandOut` | src/coroutine/scheduler.cc:110-117 | the hand-out loop gives exactly the computed amounts |
| `Schedulers.Scheduler.Distribute` | src/coroutine/scheduler.cc:88-122 | every active processor gets its share of the collected tasks |
| `Schedulers.Scheduler.BalanceBlock` | src/coroutine/scheduler.cc:72-123 | conservation, at least all new tasks of the blocked processors taken, and every active one given exactly its share of what was taken, whatever arrives in between |
| `Schedulers.Scheduler.StealSurplus` | src/coroutine/scheduler.cc:133-141 | the processors above the average are cut down to it |
| `Schedulers.Scheduler.RaiseDeficits` | src/coroutine/scheduler.cc:147-154 | the processors below the average are raised to it |
| `Schedulers.Scheduler.BalanceActive` | src/coroutine/scheduler.cc:125-160 | nothing happens above the threshold; otherwise every active processor ends at the average, the least loaded also with the remainder, and arrivals come on top |
| `Schedulers.Scheduler.FindBlocked` | src/coroutine/scheduler.cc:37-46 | exactly the processors that block and do not wait are collected, in order, and made inactive |
| `Schedulers.Scheduler.RecordLoads` | src/coroutine/scheduler.cc:48-61 | exactly the active processors are recorded, sorted, each with a length it had since the start, and their total; the others become active again if they may, and the last of them is remembered |
| `Schedulers.Scheduler.Observe` | src/coroutine/scheduler.cc:37-61 | both passes in terms of the probes: who is blocked, who is recorded, who is active afterwards (a processor that waits in both passes is) and which index is remembered; each recorded load lies between the length at the start and what could have arrived by then |
| `Schedulers.WaitingEndsActive` | src/coroutine/scheduler.cc:39-58 | a processor that waits is not blocked in the first pass and ends active by the second |
| `Schedulers.Scheduler.RunBalance` | src/coroutine/scheduler.cc:27-70 | one round: conservation of all tasks under any interference, what was taken from every blocked processor, the share and the level of every active one, and nothing taken from the others; without arrivals all final lengths exactly; the active flags and the remembered index afterwards, in terms of the probes |
| `Schedulers.RoundWithoutArrivals` | src/coroutine/scheduler.cc:27-160 | when nothing arrives, the blocked processors end with their run queues alone, every active one at its level plus its share of exactly their new tasks, all others as they were |
| `Schedulers.Scheduler.NextTaskAcceptableProcessor` | src/coroutine/scheduler.cc:173-191 | the first active processor behind the last chosen one, which itself comes last, or none exactly when none is active |
| `Reactors.PollEvent2EpollEvent` | src/net/io/epoll_reactor.cc:16-32 | keeps the four common bits |
| `Reactors.EpollEvent2PollEvent` | src/net/io/epoll_reactor.cc:34-50 | keeps the four common bits |
| `Reactors.MaskRoundTrip` | src/net/io/epoll_reactor.cc:16-50 | poll events survive the way to the kernel and back, except POLLNVAL |
| `Reactors.RollbackRestores` | src/net/io/reactor_element.cc:42-47 | rollback restores the list if and only if no other entry that compares equal waits, or all from there on are copies of it |
| `Reactors.RollbackTakesFirst` | src/net/io/reactor_element.cc:42-47 | the first entry with the same index, result array and key goes, nothing else |
| `Reactors.NewSlotRestored` | src/net/io/hook.cc:101-123 | a poll call adds each slot of its own result array once, so rollback takes out exactly what was added |
| `Reactors.UnexpiredAre` | src/net/io/reactor_element.cc:49-54 | exactly the entries whose suspension has not expired stay, in order and as often as before |
| `Reactors.InterestInBits` | src/net/io/reactor_element.cc:69-73 | the interest and the wanted events, bit by bit |
| `Reactors.LeftOrWoken` | src/net/io/reactor_element.cc:34-40 | every waiting entry is either left or woken, with a non-empty part of the event |
| `Reactors.Epoll.AddEvent` | src/net/io/epoll_reactor.cc:57-65 | issues ADD exactly when all promised events are new, and records whether the descriptor was in the wrong state for that |
| `Reactors.Epoll.DelEvent` | src/net/io/epoll_reactor.cc:67-74 | issues DEL exactly when nothing is promised any more, and records whether the descriptor was registered |
| `Reactors.ReactorElement.constructor` | src/net/io/reactor_element.cc:56-59 | nobody waits and nothing is promised |
| `Reactors.ReactorElement.Covered` | src/net/io/reactor_element.cc:61-134 | what the kernel reports covers what anybody waits for |
| `Reactors.ReactorElement.Promise` | src/net/io/reactor_element.cc:69-86 | the kernel mask equals the promised mask, also after a refusal |
| `Reactors.ReactorElement.Add` | src/net/io/reactor_element.cc:61-87 | keeps coverage and epoll legality; every waiter that has not expired still waits, in order, ahead of the new entry; a refused entry for a new slot leaves exactly the unexpired list |
| `Reactors.ReactorElement.TriggerLists` | src/net/io/reactor_element.cc:92-125 | the lists after an event, who was woken with which events, and what still has to be promised |
| `Reactors.ReactorElement.GiveUp` | src/net/io/reactor_element.cc:127-133 | gives up exactly the events nobody waits for, or nothing when the kernel refuses |
| `Reactors.ReactorElement.Trigger` | src/net/io/reactor_element.cc:89-134 | keeps coverage and epoll legality, also when the kernel refuses; an error empties all four lists, otherwise exactly the own bits of a list do, and every entry of an emptied list is woken once with its bits and the errors |
| `Reactors.WokenForItsEvents` | src/net/io/reactor_element.cc:22-125 | from poll to wake-up: an entry is woken by an event if and only if that has one of the bits it was added with or an error, and is told exactly these |
| `Reactors.ReactorElement.OnClose` | src/net/io/reactor_element.cc:18-20 | wakes everybody with POLLNVAL and leaves nobody waiting |
| `LinkedLists.UnlinkSelfUnchecked` | include/container/list.h:33-39 | takes one node out of a ring and leaves a ring of the others |
| `LinkedLists.UnlinkBefore` | include/container/list.h:68-77 | takes the last node off a ring; null when there is none |
| `LinkedLists.LinkAfter` | include/container/list.h:79-84 | makes a node the second of a ring |
| `LinkedLists.LinkBefore` | include/container/list.h:86-91 | makes a node the last of a ring |
| `LinkedLists.BringFront` | include/container/lru_cache.h:65-69 | moves any node of the ring right behind the header |
| `Recency.CacheIsMostRecentlyUsed` | include/container/lru_cache.h:95-105 | after every sequence of gets, moving puts and clears the cache is exactly the front of the list of all entries in order of their last use |
| `Recency.UsedInOrder` | include/container/lru_cache.h:95-193 | that list is in the order of the call that last used each key |
| `Recency.UsedIsAllPut` | include/container/lru_cache.h:95-193 | and has exactly the keys put since the last clear, each with the value put last |
| `Recency.CachedAreTheLatest` | include/container/lru_cache.h:95-193 | so no key that is missing was used after one that is there, and one is missing only when the cache is full |
| `Recency.RecentIffOrderly` | include/container/lru_cache.h:95-193 | over any sequence of calls the cache holds the most recently used entries all along if and only if the other overloads are called only with keys that are there, on an empty cache, or with room for one entry |
| `Recency.PutBackIsPutFrontIff` | include/container/lru_cache.h:107-187 | the other overloads do what the moving one does exactly in those cases |
| `Recency.PutBackIsNextVictim` | include/container/lru_cache.h:107-127 | an entry put by another overload survives the next new entry if and only if there was room for both |
| `LruCaches.LruCache.constructor` | include/container/lru_cache.h:82-87 | an empty cache of any limit |
| `LruCaches.LruCache.Get` | include/container/lru_cache.h:95-105 | a hit returns the value and becomes most recent; the heap stays well formed |
| `LruCaches.LruCache.PutMoved` | include/container/lru_cache.h:169-187 | refines the recency list: new or updated entry first, the least recently used one evicted; with limit zero null is dereferenced |
| `LruCaches.LruCache.PutCopied` | include/container/lru_cache.h:107-167 | the three other overloads: a new entry goes to the evicted end; with limit zero null is dereferenced |
| `LruCaches.LruCache.EvictLast` | include/container/lru_cache.h:177-181 | the last node leaves the ring and exactly its key leaves the map |
| `LruCaches.LruCache.Clear` | include/container/lru_cache.h:189-193 | nothing is left |
| `Buffers.Buffer.Append` | src/container/buffer.cc:80-94 | appends everything, or nothing when fixed and there is too little room; returns what was appended |
| `Buffers.Buffer.EnsureCapacity` | src/container/buffer.cc:10-18 | moves the contents to a new allocation |
| `Buffers.Buffer.Resize` | src/container/buffer.cc:71-78 | sets the size and keeps the common part |
| `Buffers.Buffer.Clear` | include/container/buffer.h:31 | empties the buffer |
| `LogMachine.StepInv` | src/log/log_appender.cc:116-249 | every step of producers and consumer keeps the stream lossless and in order, restarts included |
| `LogMachine.LosslessAlways` | src/log/log_appender.cc:104-138 | in every state of every run, file, batch, full buffers and current buffer together are the accepted messages, and a consumer that has exited has written what was accepted before its drain |
| `LogMachine.NothingButTheMessages` | src/log/log_appender.cc:122-137 | and the accepted messages are the stored ones themselves, all but those longer than a buffer |
| `LogMachine.CarefulRunsSurvive` | src/log/log_appender.cc:188-234 | no assertion fails and no null is dereferenced in any careful run, whatever the interleaving |
| `LogMachine.WorkingIsCareful` | src/log/log_appender.cc:116-186 | until a consumer drains, every call is careful, except for stopping it before it has entered its loop |
| `LogMachine.SurvivesIffCareful` | src/log/log_appender.cc:116-234 | a call is careful if and only if the process survives it and whatever the consumer does after it |
| `LogMachine.ReadyAfterDrain` | src/log/log_appender.cc:237-246 | what a drain leaves is ready for a restart if and only if the current buffer was empty and the spare one was there |
| `LogMachine.LogAfterStopCrashes` | src/log/log_appender.cc:119-125 | a concrete family of runs: a message, stop, and the next message dereferences null |
| `LogMachine.RestartAborts` | src/log/log_appender.cc:215-230 | another one: after a message longer than a buffer and a stop, the restarted consumer fails its second assertion about the batch |
| `LogConsumers.StepWhole` | src/log/log_appender.cc:116-249 | every step of any number of consumers, racing starts included, keeps every buffer whole and in one place |
| `LogConsumers.NothingLostWithMany` | src/log/log_appender.cc:116-249 | in every state of every such run the accepted messages are, in order, the buffers taken and those that wait, and the file is made of whole buffers that were taken, each once |
| `LogConsumers.OrderKeptOneAtATime` | src/log/log_appender.cc:200-213 | if a batch is only taken when no consumer has anything left to write, the file is a beginning of what was accepted |
| `LogConsumers.OverlapLosesOrder` | src/log/log_appender.cc:200-213 | if one is taken while another consumer has buffers left, and written first, the order is lost exactly if that buffer is not a copy of the one whose turn it is |
| `LogConsumers.OrderLost` | src/log/log_appender.cc:119-121 | a concrete family of runs: two threads start a consumer each, and two messages are written in the wrong order |
| `LogConsumers.ManyConsumersSurvive` | src/log/log_appender.cc:116-234 | without a stop no assertion fails and no null is dereferenced, however many consumers there are |
| `LogConsumers.CarefulActionsSurvive` | src/log/log_appender.cc:116-249 | with stops, the same for every run of careful actions |
| `LogConsumers.CarelessAborts` | src/log/log_appender.cc:116-249 | and after a careless action some consumer, left alone, ends the process |
| `LogConsumers.HaltAborts` | src/log/log_appender.cc:176-186 | a concrete family of runs: with two consumers, one message and a stop end the process |
| `LogAppenders.FileLogAppender.constructor` | src/log/log_appender.cc:85-102 | two empty buffers, nothing accepted, not running |
| `LogAppenders.FileLogAppender.Store` | src/log/log_appender.cc:122-137 | the locked region of log; it fails exactly without a current buffer |
| `LogAppenders.FileLogAppender.Start` | src/log/log_appender.cc:166-174 | starts a consumer with two empty spare buffers unless one runs; not between a stop and its join |
| `LogAppenders.FileLogAppender.Log` | src/log/log_appender.cc:116-138 | starts the consumer if need be and stores the message; not between a stop and its join |
| `LogAppenders.FileLogAppender.Stop` | src/log/log_appender.cc:176-186 | asks the consumer to finish |
| `LogAppenders.FileLogAppender.Enter` | src/log/log_appender.cc:188-195 | the assertion on entry |
| `LogAppenders.FileLogAppender.CheckRunning` | src/log/log_appender.cc:196-199 | the loop condition and the assertions behind it |
| `LogAppenders.FileLogAppender.Swap` | src/log/log_appender.cc:200-211 | takes everything stored so far and gives the spare buffers to the producers |
| `LogAppenders.FileLogAppender.WriteOne` | src/log/log_appender.cc:140-142 | the next buffer goes to the file, in order |
| `LogAppenders.FileLogAppender.Refill` | src/log/log_appender.cc:215-234 | takes the spare buffers back out of the batch; the assertions fail exactly when there are too few |
| `LogAppenders.FileLogAppender.Drain` | src/log/log_appender.cc:237-246 | takes everything that is left |
| `LogAppenders.FileLogAppender.Exit` | src/log/log_appender.cc:247-249 | the consumer ends when its last batch is written |
| `LogAppenders.FileLogAppender.Consume` | src/log/log_appender.cc:188-249 | the consumer thread, region by region, is the machine's consumer |
| `LogAppenders.FileLogAppender.Write` | src/log/log_appender.cc:140-160 | a batch goes to the file buffer by buffer |
| `LogAppenders.FileLogAppender.Destroy` | src/log/log_appender.cc:104-114 | writes whatever no consumer has taken, so that the file holds every accepted message once |
| `Rows.RowSets` | src/orm/orm.cc:15-22 | a row sets exactly the fields of the messages it names for which it has a cell that is not null |
| `Rows.PathIs` | src/orm/orm.cc:66-111 | the j-th id that a row names is there if and only if the row has all id columns up to that one and none is null, and is the value of that column |
| `Rows.CellIs` | src/orm/orm.cc:74-97 | the cell for a field is that many columns behind the id, if the element has so many plain columns |
| `Rows.LastCellWins` | src/orm/orm.cc:74-97 | after all rows a field has the value of the last row with a cell for it, and none if there was no such row |
| `Forests.VisitAllIsFirstSeen` | include/orm/orm.h:31-46 | folding row by row gives, on every level, each id once, when it is first seen |
| `Forests.FirstSeenOnce` | src/orm/orm.cc:122-139 | no id has two messages on one level |
| `Forests.FirstSeenFrom` | src/orm/orm.cc:122-139 | an id named on a level has a message, with the parent of the first row that names it |
| `Forests.FirstSeenInOrder` | src/orm/orm.cc:122-139 | the messages of a level stand in the order of the rows that name them first |
| `Orm.Builder.FindOrMake` | src/orm/orm.cc:122-139 | the message of the level and id, made once; everything else stays |
| `Orm.Builder.ParseField` | src/orm/orm.cc:15-64 | sets one field unless the cell is null |
| `Orm.Builder.AddNested` | src/orm/orm.cc:79-92 | a nested message becomes a child of this one exactly if it is new |
| `Orm.Builder.InitMessage` | src/orm/orm.cc:66-98 | fills in one message and all below it; terminates on the columns left |
| `Orm.Builder.InnerMakeMessage` | src/orm/orm.cc:100-147 | the messages stand for the forest after the path of this row; the tree is never indexed beyond its end |
| `Orm.MakeMessage` | include/orm/orm.h:31-46 | the messages stand for the forest of all rows, and the roots come out in first-seen order |
| `Orm.AttachedOnce` | src/orm/orm.cc:79-92 | every message below the roots is attached at exactly one place, to the message of the first row that names it |
| `Orm.ChildrenInRowOrder` | src/orm/orm.cc:79-92 | the children of a message are in the order of the rows that name them first |
| `Orm.NamedHasMessage` | src/orm/orm.cc:100-147 | every id that a row names has exactly one message on that level |
| `Orm.MessageHasLastCells` | src/orm/orm.cc:15-64 | whose fields are set exactly if some row has a cell for them, to the value of the last one |
| `Orm.RootOnce` | include/orm/orm.h:40-43 | every root message comes out exactly once |
| `Orm.RootsInRowOrder` | include/orm/orm.h:35-43 | and in the order of the rows that name them first |
| `Orm.RootsHaveNoParent` | include/orm/orm.h:40-43 | a message that comes out is nobody's child |
| `LogFormatters.LogFormatter.ScanDirective` | src/log/log_formatter.cc:286-317 | the inner loop finds the name up to the first other character, and the argument in braces, or that it is not closed |
| `LogFormatters.LogFormatter.TakeDirective` | src/log/log_formatter.cc:319-332 | text collected so far comes first; after an error it is kept for later and the scan goes on at the next character |
| `LogFormatters.LogFormatter.Split` | src/log/log_formatter.cc:266-337 | the first pass equals the recursive reading of the pattern, and terminates |
| `LogFormatters.LogFormatter.Parse` | src/log/log_formatter.cc:266-370 | one item for each piece; an error is reported exactly for unclosed braces and unknown names |
| `LogFormatters.LogFormatter.constructor` | src/log/log_formatter.cc:266-370 | the items and the error flag of a new formatter |
| `PatternPrinting.ParseUndoesPrint` | src/log/log_formatter.cc:266-337 | a list of pieces comes back from its printed pattern if and only if it is canonical |
| `PatternPrinting.PlainPatternsWork` | src/log/log_formatter.cc:266-370 | patterns of known directives and of texts without percent signs give exactly their items and no error: each text as it stands, each directive with its argument |
| `PatternPrinting.KnownNames` | src/log/log_formatter.cc:338-353 | the twelve directives |
| `PatternPrinting.ScanIs` | src/log/log_formatter.cc:286-317 | a directive is the longest name and, when a brace follows, the argument up to the first closing one, character by character |
| `PatternPrinting.UnknownShows` | src/log/log_formatter.cc:359-363 | an unknown directive shows up as a text that says so, and is an error |
| `PatternPrinting.UnclosedKeepsText` | src/log/log_formatter.cc:319-332 | an argument that is never closed is an error, and the rest of the pattern is text behind it, together with the text before it |
| `PatternPrinting.PrintUndoesParse` | src/log/log_formatter.cc:266-337 | a pattern without empty braces and without errors is spelled by its own pieces |
| `PatternPrinting.PrintedLength` | src/log/log_formatter.cc:266-337 | the pieces never spell more than the pattern |
| `ByteArrays.ByteArray.constructor` | src/container/byte_array.cc:55-66 | one empty block of any size |
| `ByteArrays.ByteArray.GetTotalBytes` | include/container/byte_array.h:275-278 | the number of bytes written |
| `ByteArrays.ByteArray.EnsureWritableSize` | src/container/byte_array.cc:30-53 | links exactly as many new blocks as are needed; what is stored stays |
| `ByteArrays.EnoughIsUnique` | src/container/byte_array.cc:36-44 | that number of blocks is determined |
| `ByteArrays.CeilingIsEnough` | src/container/byte_array.cc:36-44 | and the rounded-up division computes it |
| `ByteArrays.ByteArray.CopyIn` | src/container/byte_array.cc:362-388 | copies block by block and ends in the last block, with no block behind it |
| `ByteArrays.ByteArray.Write` | src/container/byte_array.cc:356-389 | the contents are the old contents followed by the bytes |
| `ByteArrays.PutVarint` | src/container/byte_array.cc:138-144 | the loop puts down the base-128 bytes within the scratch space |
| `ByteArrays.ByteArray.WriteUint32` | src/container/byte_array.cc:130-146 | five bytes of scratch space suffice, and the bytes are appended |
| `ByteArrays.ByteArray.WriteUint64` | src/container/byte_array.cc:152-161 | ten bytes of scratch space suffice, and the bytes are appended |
| `ByteArrays.ByteArray.WriteInt32` | src/container/byte_array.cc:126-128 | appends the bytes of the zigzag encoding |
| `Varints.EncodedMeans` | src/container/byte_array.cc:138-144 | the bytes are minimal and evaluate to the number |
| `Varints.EncodedLength` | src/container/byte_array.cc:138-144 | n bytes are enough if and only if the number is below 128 to the n |
| `Varints.AtMost` | src/container/byte_array.cc:138-161 | at most five bytes for 32 bits, ten for 64 |
| `Varints.Unambiguous` | src/container/byte_array.cc:131-137 | a number is recognised whatever follows it |
| `Varints.MinimalIsEncoded` | src/container/byte_array.cc:138-144 | there is no other minimal form |
| `Zigzags.EncodeInterleaves` | src/util/util.cc:60-76 | 0, -1, 1, -2, 2 become 0, 1, 2, 3, 4, the smallest number included |
| `Zigzags.DecodeInterleaves` | src/util/util.cc:86-95 | the shift and the exclusive or undo the interleaving |
| `Zigzags.DecodeUndoesEncode` | src/util/util.cc:60-95 | the round trip is the identity on all 32-bit numbers |
| `Zigzags.EncodeUndoesDecode` | src/util/util.cc:60-95 | and so is the other one |
| `Zigzags.SignedComesBack` | src/container/byte_array.cc:126-146 | the at most five bytes of a signed number give it back |
| `Zigzags.SmallIsShort` | src/container/byte_array.cc:126-146 | exactly the numbers of small magnitude take few bytes |
| `Zigzags.StreamDetermines` | src/container/byte_array.cc:126-146 | different sequences of numbers give different bytes |
| `Decimals.TableMirrored` | include/util/util.h:116-126 | the mirrored table has the digit for a remainder of either sign |
| `Decimals.DecimalIsTheOne` | include/util/util.h:113-136 | what is printed is the only canonical decimal of the number: sign, no leading zeros, value |
| `Decimals.DifferentNumbersPrintDifferently` | include/util/util.h:113-136 | the text determines the number |
| `Decimals.PutDigits` | include/util/util.h:120-127 | the loop puts down the digits, last one first |
| `Decimals.Reverse` | include/util/util.h:133 | reverses the first characters in place |
| `Decimals.Digit2Str` | include/util/util.h:113-136 | the buffer holds the canonical decimal and a terminating zero, and its length is returned |

## Left out

- Sockets, SSL, hooks, HTTP, `epoll_wait`, configuration, daemon and database access: foreign calls. The kernel is a registration map whose calls may fail at will, the log file a sequence of bytes, a row a list of null or integer cells.
- Context switches and stacks: a coroutine step ends in an arbitrary task state.
- Every Suspend is assumed to be followed by a Yield before the coroutine suspends again or returns.
- Cluster.SingleOwnership: only for runs without steals of a task that is between Suspend and Yield, because the property is false otherwise; the condition is exact.
- The wait set is inserted into and erased from under two different mutexes (processor.cc:245 and 260), and the deleter and `wakeUpBySelf` touch `runQue_` without its lock (processor.h:50, processor.cc:271); the model treats each of these regions as atomic.
- `addNewTask` pops all new tasks in one locked region and appends them in another; the model takes them as one step. Only the dispatcher's own thread fetches new tasks.
- Cluster.NewWorkIsSignalled: only about the new queue. Tasks that wake-ups put on the run queue may arrive after the notification, so no such claim is made for `runQue_`. The iterator overload of `addTask`, which does not notify, is not modelled.
- Spurious wake-ups of the condition variable are covered, since the wait may end at any step.
- Starting and stopping schedulers and processors, and memory-order effects.
- `isWaiting()` and `isBlocking()` read a clock and another thread's counters: their answers are parameters of a round.
- Schedulers.Scheduler.RunBalance: loads plus the number of processors are below 2^64; sums of loads are unbounded, only the subtraction that wraps in practice does. The threshold of 1% is any natural number.
- Schedulers.Scheduler.BalanceActive: the levels are promised only if no recorded load has shrunk meanwhile, that is, without dispatching in between; conservation is promised always.
- The scheduler's processors are objects whose methods are atomic regions; what other threads add is a list of arrivals consumed at each interruption point, and other threads' dispatching during a round appears only in `Cluster`.
- `taskCount_` and the task option callbacks, the suspend timers, `Runnable`'s alternative of a callback.
- Processors.Processor.AddTask: one method for the overloads that take the lock; a single task is a list of one.
- Processors.Processor.Process: runs until the given moves are used up and the scheduler is asked at the head of a loop; passed over are only stages of a wake-up call that has not come to that stage. The task's `processor_` field is part of `Cluster`.
- ConcurrentLinkedDeques.ConcurrentLinkedDeque.InnerPopFrontBulk: the list is a sequence and its iterators are positions; node identity is not modelled.
- Reactors.ReactorElement.OnClose: `event_` stays as it was while the kernel forgets the descriptor; the element is not used afterwards. Repeated calls after EINTR are one call.
- Reactors.RollbackRestores: the comparison key of a suspension, which no code assigns, is any number.
- LruCaches.LruCache.EvictLast: a node stores the key itself; in the code it stores an iterator of the hash map, which a rehash may invalidate before the entry is erased through it.
- LruCaches.LruCache.PutCopied: one method for three overloads with the same effect; copying and moving of keys and values are not told apart. Freeing of nodes is not modelled.
- `Buffer::appendPossible`, copying, moving and zeroing of buffers.
- The level test and the formatting come before `Store`. Buffers behind unique pointers are values, and file rolling and flushing are not modelled.
- LogAppenders.FileLogAppender.Swap: the wait before it may end at any time, with or without a notification. A null buffer in the batch counts as dereferenced here, though it is the write behind it that does so.
- LogAppenders.FileLogAppender.Start: the object has the local variables of one consumer, so it is started only while one runs, before the first one, or after the last one was joined. The machine in `LogConsumers` has the other starts.
- LogAppenders.FileLogAppender.Log: the same for the start inside it.
- LogConsumers.NothingLostWithMany: the append of one buffer to the file is one step, although `fwrite_unlocked` is called without a lock.
- Orm.Builder.InnerMakeMessage: messages are indexes into a list of all messages made; the mapper element fits the row as the code asserts; element names, message types, and the number of the repeated field are not modelled; association and collection are alike; field values are integers.
- Message descriptors whose nested types refer back to their parents, and the freeing of messages.
- LogFormatters.LogFormatter.Parse: letters are the ASCII letters; the items are names and arguments, not formatter objects.
- ByteArrays.ByteArray.constructor: a block size that is not negative; the order in which the constructor initialises its fields, reading, seeking, clearing, `getWriteBuffers` and fixed-width and floating point writers are not modelled.
- ByteArrays.ByteArray.Write: needs a positive block size unless nothing is written, because the code divides by it.
- Varints.EncodedMeans: masks and shifts of unsigned numbers are written as remainders and quotients. The varint reader and the 64-bit zigzag encoder are not modelled, and no round trip through them is claimed.
- Decimals.Digit2Str: for integers of any size; the buffer is assumed to be long enough, as the code does.
- `Hex2Str`, file listing, backtraces, the Ragel parsers.
