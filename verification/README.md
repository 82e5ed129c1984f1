# A verified model of gazosan and of the scheduler it runs on

gazosan compares images: it groups changed pixels into segments and times its
stages, and it runs its loops on the oneTBB scheduler kept in its repository.
This project models the algorithms of both in which order, interleaving or
arithmetic matters, and proves what they promise.

The concurrent parts are state machines. Each module has a `State`, an `Event`
for every atomic step (one load, store, exchange, compare-exchange, lock or
unlock, or one loop turn under a lock), a function that makes the step, an
invariant, a lemma that every step keeps it, and main results about all runs of
any number of threads, under sequential consistency. What a call was asked and
what it answered is read off the run by small functions over its events (a
`Visit`, `Notice`, `Stay`, `Look` or `Call`), so that these results speak of what
a caller sees: nothing is lost or done twice, and nothing is done without cause,
missed, or waited for in vain. The sequential parts are classes and methods over
arrays, linked nodes and fields updated in place, each proved against a
specification about which the promises are proved.

| module | what it is about |
|---|---|
| `TaskPool`, `DequeProtocol`, `DequeTakers`, `ArenaSlot` | the work-stealing deque: cells, interleaved protocol, what takers may miss, and the array code |
| `Cancellation`, `CancellationFate`, `CancellationCause` | cancellation of a tree of contexts against concurrent binding |
| `Mailbox`, `TaskProxy` | mailed tasks: the many-producer queue and the claim of the tagged word |
| `ConcurrentMonitor`, `MonitorTargets`, `MonitorWaits`, `SentinelList` | the event monitor: two-phase wait and notification, whom it wakes, when it sleeps, and its linked wait set |
| `PrivateServer` | the supply of worker threads: slack, sleepers and chains of wakeups |
| `ArenaSnapshot` | the state word of an arena (empty, busy, full) and its concurrency flag |
| `TokenBuffer`, `SerialFilter`, `PipelineThrottle` | the pipeline: token ring, serial filters, limit on tokens |
| `Allotment`, `Market` | proportional allotment of workers, and the books of demand |
| `SmallObjectPool` | the pool of small objects freed by its last user |
| `FloodFill` | grouping of pixels into segments |
| `TimerForest` | timer records and their report |
| `Common` | declarations that several modules share |

Where the code does not do what one would expect:

- The binding of a context copies the mark of its parent over its own. So a context
  cancelled before it is bound can lose its own cancellation
  (`Cancellation.EarlyCancelIsLost`), and in the branch for a parent without a
  parent, where the copy is a load and a store and the comment calls it safe, a
  cancellation of the parent in between is lost
  (`Cancellation.TornCopyLosesCancellation`). `Cancellation.StepErase` shows that
  marks are overwritten in no third way, and `Cancellation.NoLostCancellation` that
  nothing else is lost: contexts cancelled early still inherit.
- `CancellationFate` says exactly when these two losses happen. A context that was
  bound when it was cancelled keeps its cancellation (`OwnCancellationKept`). For one
  that was not, the state tells: as long as nobody else cancels, it ends up marked if
  and only if `EndsMarked` holds (`SureIffFated`), which fails in every state where
  the deciding copy is still to come and the parent has no mark
  (`EarlyCancelLostFromAnywhere`); if `Secure` holds it is marked in every run, other
  cancellations included (`KeptForGood`); and between the two lies only the wait for
  the comparison of epochs, whose outcome another cancellation can turn
  (`EpochRevokes`). A cancellation of a parent without a parent is missed exactly by
  a child that has read the mark before and not stored it yet (`TornIfReadBefore`),
  or whose mark the copy overwrote (`TornIffOverwritten`).
- When the last arena in global concurrency mode is destroyed while the market
  asks for the one worker of that mode, the request is not computed again.
  `Market.TryDestroy` says when it stays right, in both directions, and
  `ForgottenRequest` shows it going wrong.
- The comments on the slack of the worker supply say that it is raised only under
  the mutex, and that there is none while a worker sleeps. Both are false: the first
  step of `wake_some` raises it without the mutex (`PrivateServer.RaisedUnderMutex`),
  after which a sleeper may stand beside positive slack
  (`PrivateServer.SlackWithASleeper`). The invariant holds whenever nobody is inside
  `wake_some` or about to start its chain reaction
  (`PrivateServer.NoSlackWhenNobodyWakes`, which is `NoStrandedSupply` read the other
  way), and `PrivateServer.BrokenByTheseOnly` tells which steps break it.

## Model

| member | source | states |
|---|---|---|
| DequeProtocol.DequeSafety | third-party/tbb/src/tbb/arena_slot.cpp:61-214 | in every interleaving of the owner and any number of thieves no task is handed out twice, only spawned tasks are, and every spawned task is in exactly one place: being spawned, in the window that the current takers leave behind, or out |
| DequeProtocol.NothingLostAtRest | third-party/tbb/src/tbb/arena_slot.h:258-275 | with nobody at work the tasks not handed out are exactly those between head and tail, and if there are any the pool is published, so that thieves see it |
| DequeProtocol.EmptyHandedMeansDrained | third-party/tbb/src/tbb/arena_slot.cpp:61-146 | a `get_task` that passes over nothing and comes back empty has found every task spawned so far handed out |
| DequeProtocol.SourceAssertions | third-party/tbb/src/tbb/arena_slot.cpp:62-138 | the conditions asserted along the way hold in every reachable state: outcome of the arbitration, empty pool on leaving, non-empty one on publishing, restored bounds |
| DequeProtocol.StepInv | third-party/tbb/src/tbb/arena_slot.cpp:148-214 | every atomic step of owner and thieves keeps the invariant that accounts for all tasks |
| DequeProtocol.RelocateLocated | third-party/tbb/src/tbb/arena_slot.h:240-253 | moving the live cells to the front, in place or into a longer array, keeps every pending task at exactly one index |
| DequeProtocol.RelocateStep | third-party/tbb/src/tbb/arena_slot.h:208-256 | the relocation under the lock keeps the invariant of the protocol with thieves at any point of theirs |
| DequeProtocol.RunInv | third-party/tbb/src/tbb/arena_slot.h:282-352 | the invariant holds after every run, with the lock word in the hands of at most one party |
| DequeTakers.NoThiefLeavesForNothing | third-party/tbb/src/tbb/arena_slot.cpp:148-214 | in every interleaving a thief that leaves has taken a task, or there was a moment in its visit at which every task that was neither out nor being spawned lay at or beyond the tail or had been passed over by this thief |
| DequeTakers.ThiefTurnsBack | third-party/tbb/src/tbb/arena_slot.cpp:158-166 | a thief turns back only when nothing is left before the tail but what it passed over; with the owner idle, every task is then out or was passed over |
| DequeTakers.ThiefTakesOldest | third-party/tbb/src/tbb/arena_slot.cpp:168-200 | what a thief takes is the oldest pending task that it has not passed over |
| DequeTakers.OwnerReturnsWith | third-party/tbb/src/tbb/arena_slot.cpp:61-146 | a `get_task` that returns has taken a task, or every task spawned so far is out or was passed over by this call |
| DequeTakers.OwnerTakesNewest | third-party/tbb/src/tbb/arena_slot.cpp:72-112 | what the owner takes is the newest pending task that it has not passed over |
| DequeTakers.OmittedTells | third-party/tbb/src/tbb/arena_slot.cpp:104-143 | the owner puts its bounds back, and leaves a hole or republishes, if and only if it has passed over a task in this call; emptied proxies do not count |
| DequeTakers.ThiefOmittedTells | third-party/tbb/src/tbb/arena_slot.cpp:185-200 | the thief leaves a hole and puts the head back if and only if it has passed over a task in this visit |
| DequeTakers.OwnerWaitsForThief | third-party/tbb/src/tbb/arena_slot.h:282-306 | the owner waits for the lock only, and only while a thief has it |
| TaskPool.RankAt | third-party/tbb/src/tbb/arena_slot.h:240-246 | in a compaction each task keeps its place among the survivors |
| TaskPool.OriginAt | third-party/tbb/src/tbb/arena_slot.h:240-246 | every survivor of a compaction comes from exactly one cell |
| TaskPool.NewSize | third-party/tbb/src/tbb/arena_slot.h:231-239 | the array after a relocation has room for the live tasks and the new ones and never shrinks |
| TaskPool.RoundUpToLine | third-party/tbb/src/tbb/arena_slot.h:109-112 | the allocation has at least the entries asked for, less than 16 more, and fills whole lines |
| ArenaSlot.Slot.PrepareTaskPool | third-party/tbb/src/tbb/arena_slot.h:208-256 | the tasks in the deque stay the same sequence, there is room for n more behind the returned tail, and a relocation leaves no holes |
| ArenaSlot.Slot.Spawn | third-party/tbb/src/tbb/arena_slot.h:158-166 | appends the task and publishes the pool |
| ArenaSlot.Slot.GetTaskImpl | third-party/tbb/src/tbb/arena_slot.cpp:28-59 | looks at one cell: takes the task, passes over another isolation, or frees an emptied proxy |
| ArenaSlot.Slot.GetTask | third-party/tbb/src/tbb/arena_slot.cpp:61-146 | undisturbed, it takes the matching task nearest the tail and leaves the rest as the specification says, through all hole, skip, reset and republish paths |
| ArenaSlot.Slot.StealTask | third-party/tbb/src/tbb/arena_slot.cpp:148-214 | undisturbed, it takes the first eligible task from the head and leaves all others in order |
| ArenaSlot.GetIsNearestTail | third-party/tbb/src/tbb/arena_slot.cpp:96-103 | the task taken has the isolation asked for and is no emptied proxy, and every task of that isolation behind it was one |
| ArenaSlot.GetLeavesTheRest | third-party/tbb/src/tbb/arena_slot.cpp:104-143 | of the tasks behind the one taken only emptied proxies are gone; everything else keeps its order |
| ArenaSlot.StealIsFirst | third-party/tbb/src/tbb/arena_slot.cpp:164-200 | the stolen task is eligible, none before it is, and all others stay in order |
| ArenaSlot.ThiefMayTake | third-party/tbb/src/tbb/arena_slot.cpp:171-186 | the stolen task has the isolation asked for and is no mail for an idle addressee unless the victim is idle too; none is stolen only if there is no such task |
| ArenaSlot.CountLive | third-party/tbb/src/tbb/arena_slot.h:226-228 | counts the cells that hold a task |
| ArenaSlot.MoveLive | third-party/tbb/src/tbb/arena_slot.h:240-246 | copies the live tasks in order to the front, also within one array |
| Cancellation.NoLostCancellation | third-party/tbb/src/tbb/task_group_context.cpp:113-283 | when a cancellation of `a` and the binding of `x` below it are over, in any interleaving, `x` is marked, unless the mark of `a` itself was overwritten, or on the way from `a` to `x` a mark made by a cancellation of an isolated parent was overwritten by the copy from that parent |
| Cancellation.CancelledWhenBound | third-party/tbb/src/tbb/task_group_context.cpp:113-283 | the same, with conditions on the order of the calls: if `a` was bound when it was cancelled, and no isolated parent was cancelled within the copy of `a` or of a context on the way, then `x` is marked |
| Cancellation.EpochPathInherits | third-party/tbb/src/tbb/task_group_context.cpp:129-155 | a context whose parent has a parent is marked if a cancellation has reached that parent, however the two overlapped, and also if it was cancelled itself before it was bound |
| Cancellation.TornCopyLosesCancellation | third-party/tbb/src/tbb/task_group_context.cpp:156-162 | a run in which the copy in the branch without grand-ancestor overwrites the mark of a cancellation of the parent that ran in between |
| Cancellation.EarlyCancelIsLost | third-party/tbb/src/tbb/task_group_context.cpp:144 | a run in which a context cancelled before it is bound has its own mark overwritten by the speculative copy |
| Cancellation.StepErase | third-party/tbb/src/tbb/task_group_context.cpp:141-161 | whatever the step, a mark is overwritten with 0 only on a context that was cancelled before it was bound, or whose isolated parent was cancelled within its copy |
| Cancellation.BindStepInv | third-party/tbb/src/tbb/task_group_context.cpp:113-163 | every step of a binding keeps the invariant: snapshot, copy, registration, comparison of epochs, copy under the lock |
| Cancellation.CancelStepInv | third-party/tbb/src/tbb/task_group_context.cpp:201-270 | every step of a propagation keeps the invariant: global epoch, scan of each list, marking of the path, list epoch |
| Cancellation.RunInv | third-party/tbb/src/tbb/task_group_context.cpp:272-283 | the invariants hold after every run of any number of bindings and cancellations |
| CancellationCause.NoMarkWithoutCause | third-party/tbb/src/tbb/task_group_context.cpp:201-270 | in every run a context is marked only if somebody called for the cancellation of this context or of one above it, and that call won the exchange |
| CancellationCause.OthersAreSpared | third-party/tbb/src/tbb/task_group_context.cpp:218-226 | a context, such as one that encloses a cancelled one, stays unmarked as long as nobody cancels it or a context above it |
| CancellationCause.CancelTakesEffect | third-party/tbb/src/tbb/task_group_context.cpp:258-270 | when a call for a context has returned, the context was marked at some moment of the call |
| CancellationCause.ScannedListStands | third-party/tbb/src/tbb/task_group_context.cpp:229-242 | while a propagation goes through a list, no step of anybody puts a context into the list or takes one out |
| CancellationCause.BindWaitsFor | third-party/tbb/src/tbb/task_group_context.cpp:113-163 | a binding waits only for a list that a propagation has locked, or for the lock |
| CancellationCause.CancelWaitsForLock | third-party/tbb/src/tbb/task_group_context.cpp:201-256 | a propagation waits only for the lock: every other step of it goes on |
| CancellationFate.FateIsSealed | third-party/tbb/src/tbb/task_group_context.cpp:113-163 | while nobody cancels, no step of any binding changes whether a context will end up marked, which depends on the mark last read, the epoch seen and the marks above |
| CancellationFate.BoundAsFated | third-party/tbb/src/tbb/task_group_context.cpp:113-163 | after every run of bindings a context that is bound is marked if and only if the state before the run said so |
| CancellationFate.BindingCompletes | third-party/tbb/src/tbb/task_group_context.cpp:113-192 | with no propagation in progress, bindings alone bring every context from every reachable state to the end of its binding, whoever has the lock |
| CancellationFate.SureIffFated | third-party/tbb/src/tbb/task_group_context.cpp:141-161 | with no call in progress, a context ends up marked in every continuation by bindings if and only if the state says so |
| CancellationFate.KeptForGood | third-party/tbb/src/tbb/task_group_context.cpp:141-161 | once the mark is secure (nothing left to copy, or a 1 copied or to be copied from a parent whose mark is secure), the context is marked whenever it is bound, in every run of bindings and cancellations |
| CancellationFate.EpochRevokes | third-party/tbb/src/tbb/task_group_context.cpp:141-155 | below a bound parent a favourable fate that is not secure is exactly that of a context awaiting the comparison of epochs with an unmarked parent, and an advance of the global epoch turns it |
| CancellationFate.OwnCancellationKept | third-party/tbb/src/tbb/task_group_context.cpp:258-270 | a context whose cancellation has returned is marked if it was bound when it was cancelled, and also if no copy overwrote its mark |
| CancellationFate.EarlyCancelLostFromAnywhere | third-party/tbb/src/tbb/task_group_context.cpp:141-161 | from every state at rest in which a cancelled context has its deciding copy still before it and its parent is not marked, its own cancellation is lost: it can be bound, and whenever it is, it is not marked |
| CancellationFate.TornIfReadBefore | third-party/tbb/src/tbb/task_group_context.cpp:156-162 | if the cancellation of a parent without a parent returns before its child is bound, the child misses it if and only if it had read the mark before and has still to store it |
| CancellationFate.TornIffOverwritten | third-party/tbb/src/tbb/task_group_context.cpp:156-162 | a bound child without children of its own, not cancelled itself, of a cancelled parent without a parent is marked if and only if no copy overwrote its mark |
| Mailbox.ExactlyOnce | third-party/tbb/src/tbb/mailbox.h:115-168 | every pushed proxy is received or queued, never both, at most once, and what is queued is in the order of the exchanges |
| Mailbox.FirstInFirstOut | third-party/tbb/src/tbb/mailbox.h:115-156 | with no isolation asked for, proxies are received in the order of the exchanges |
| Mailbox.PopTakesOldestMatch | third-party/tbb/src/tbb/mailbox.h:116-135 | a pop delivers the oldest queued proxy that matches the isolation its caller asked for, the very oldest if it asked for none |
| Mailbox.PopFailsHonestly | third-party/tbb/src/tbb/mailbox.h:116-128 | a pop that comes back empty has seen no match of what its caller asked for up to the end or to a proxy still being linked |
| Mailbox.PopAnswers | third-party/tbb/src/tbb/mailbox.h:115-156 | every pop that has returned has delivered exactly one proxy that matches what its caller asked for, or there was a moment in the call at which nothing matched up to the end or to a proxy still being linked |
| Mailbox.PopWaitsForAPush | third-party/tbb/src/tbb/mailbox.h:143-152 | a pop waits only for a producer that has made its exchange and not stored its link yet |
| Mailbox.LinksAreStoredSafely | third-party/tbb/src/tbb/mailbox.h:159-168 | a producer stores its link into an empty place, never into a proxy that was received |
| Mailbox.LinkedAtRest | third-party/tbb/src/tbb/mailbox.h:159-168 | with no call in progress the links lead through exactly the queued proxies, in order |
| Mailbox.StepInv | third-party/tbb/src/tbb/mailbox.h:135-155 | every step keeps the chain, with producers between exchange and link store and the consumer taking from the middle |
| TaskProxy.ClaimedOnceFreedOnce | third-party/tbb/src/tbb/mailbox.h:63-83 | exactly one side extracts the mailed task and the other frees the proxy, once, when neither will touch it again |
| TaskProxy.TagIsConsistent | third-party/tbb/src/tbb/mailbox.h:64-82 | the tagged word names one side alone only to a side that finds the proxy empty, as asserted |
| ConcurrentMonitor.FlagTellsMembership | third-party/tbb/src/tbb/concurrent_monitor.h:204-256 | outside the windows between two updates the in-list flag tells whether the node is in the wait set, and within them the flag is up and the node out |
| ConcurrentMonitor.NoSleepForever | third-party/tbb/src/tbb/concurrent_monitor.h:229-301 | after every run: a sleeper whose condition was established, not withdrawn, and announced by a later notification is posted, in the hand of a notifier that will post, or about to be taken out; with no notification in progress it can go on |
| ConcurrentMonitor.WakeupsAreExact | third-party/tbb/src/tbb/concurrent_monitor.h:152-184 | at most one wakeup is due to a node, a waiter past its semaphore is out of the set with its flag down, a skipped wakeup is noted exactly if one is due, and a destroyed node is in nobody's hand |
| ConcurrentMonitor.WakeupLedger | third-party/tbb/src/tbb/concurrent_monitor.h:242-378 | over every run each removal by a notifier gives one post, done or still in hand, and each post one wait, done or still in the semaphore |
| ConcurrentMonitor.StepInv | third-party/tbb/src/tbb/concurrent_monitor.h:204-378 | every step of waiters and notifiers keeps the invariant, for any number of both |
| ConcurrentMonitor.NotifyStepInv | third-party/tbb/src/tbb/concurrent_monitor.h:281-378 | every step of a notification keeps the invariant: the empty check, lock, epoch, removals, flags, posts |
| ConcurrentMonitor.WaitStepInv | third-party/tbb/src/tbb/concurrent_monitor.h:204-272 | every step of prepare, commit and cancel keeps the invariant |
| MonitorTargets.NotifiesWhomItIsFor | third-party/tbb/src/tbb/concurrent_monitor.h:281-409 | a notification that returns has found nobody waiting, or has taken out of the set as it was when it got the lock exactly the node at the front, all, those with a matching context, or the last one of these, as its caller asked for, and has posted once to each of them |
| MonitorTargets.LongestWaitingFirst | third-party/tbb/src/tbb/concurrent_monitor.h:57-63 | the nodes stand in the set in the order in which they entered it, so the one at the front has waited longest |
| MonitorWaits.WaitReturnsWithCause | third-party/tbb/src/tbb/concurrent_monitor.h:256-272 | a wait returns only if its condition has held in it, or a notification took its node out of the set since it last entered |
| MonitorWaits.SleepsUnlessNotified | third-party/tbb/src/tbb/concurrent_monitor.h:229-240 | a waiter whose condition did not hold goes to sleep if and only if the epoch has not moved since its node entered the set: always if no notification has had the lock since, never if one has had it and left it |
| MonitorWaits.ReturnsWhenHeld | third-party/tbb/src/tbb/concurrent_monitor.h:256-272 | a waiter that finds its condition to hold returns before it does anything else, whoever interferes |
| MonitorWaits.WaitsForPostOrLock | third-party/tbb/src/tbb/concurrent_monitor.h:204-256 | a waiter stands still only while it waits for the lock that another has, for a post, or for the one in a notifier's hand that it has to collect |
| SentinelList.List.Add | third-party/tbb/src/tbb/concurrent_monitor.h:57-63 | appends the node to the circular list |
| SentinelList.List.Remove | third-party/tbb/src/tbb/concurrent_monitor.h:66-71 | takes the node out wherever it stands |
| SentinelList.List.FlushTo | third-party/tbb/src/tbb/concurrent_monitor.h:74-84 | moves all nodes in order to the other list |
| SentinelList.List.NotifyAll | third-party/tbb/src/tbb/concurrent_monitor.h:309-336 | empties the set, lowers all flags and posts in list order |
| SentinelList.List.NotifyMatching | third-party/tbb/src/tbb/concurrent_monitor.h:347-378 | exactly the matching nodes leave, with flags down, and are posted from the last to the first; the others stay in order with flags up |
| SentinelList.List.NotifyOne | third-party/tbb/src/tbb/concurrent_monitor.h:281-301 | takes and posts to the node at the front, if any |
| SentinelList.List.NotifyOneMatching | third-party/tbb/src/tbb/concurrent_monitor.h:382-409 | takes and posts to the last matching node, or finds that none matches |
| SentinelList.List.Walk | third-party/tbb/src/tbb/concurrent_monitor.h:329-332 | following the links from the front visits the nodes in list order |
| SentinelList.Selected | third-party/tbb/src/tbb/concurrent_monitor.h:359-368 | a node is selected exactly if it is in the list and its context matches |
| SentinelList.NobodyLost | third-party/tbb/src/tbb/concurrent_monitor.h:359-373 | a notification posts to exactly the nodes it does not leave in the set |
| PrivateServer.NoStrandedSupply | third-party/tbb/src/tbb/private_server.cpp:367-409 | if there is slack and a worker on the list, some thread is inside `wake_some` or has still to start its chain reaction |
| PrivateServer.NoSlackWhenNobodyWakes | third-party/tbb/src/tbb/private_server.cpp:71-72 | the documented invariant of sleeping workers, no slack while one is on the list, holds whenever no thread is inside `wake_some` or about to start its chain reaction |
| PrivateServer.BrokenByTheseOnly | third-party/tbb/src/tbb/private_server.cpp:349-377 | from a reachable state where the documented invariant holds, a step breaks it if and only if it contributes a caller's slack, making it positive, while somebody is on the list, or enters the list while slack is positive |
| PrivateServer.RaisedUnderMutex | third-party/tbb/src/tbb/private_server.cpp:133-134 | every step that raises the slack is made with the mutex held, except the first one of `wake_some` |
| PrivateServer.SlackWithASleeper | third-party/tbb/src/tbb/private_server.cpp:367-375 | a run to a state in which the documented invariant is false: slack is positive, nobody has the mutex and the only worker sleeps on the list |
| PrivateServer.SupplyConserved | third-party/tbb/src/tbb/private_server.cpp:367-420 | after every step slack, claimed or pending units, and workers that are up or about to be woken make the sum of all adjustments |
| PrivateServer.EnoughWorkersUp | third-party/tbb/src/tbb/private_server.cpp:257-287 | at rest as many workers are up as were requested, or all, and the slack is the difference |
| PrivateServer.ExactlyTheWorkersWanted | third-party/tbb/src/tbb/private_server.cpp:257-287 | when no step changes anything any more, exactly as many workers are up as were requested, as far as there are so many: workers in excess have gone to sleep |
| PrivateServer.ExcessGoesToSleep | third-party/tbb/src/tbb/private_server.cpp:257-287 | from every state at rest the workers alone come to a standstill, those in excess asleep |
| PrivateServer.WantedWorkersStay | third-party/tbb/src/tbb/private_server.cpp:257-287 | at rest with no worker in excess nothing moves any more |
| PrivateServer.ClaimsWhatThereIs | third-party/tbb/src/tbb/private_server.cpp:377-388 | a unit of slack is claimed only while there is one, so that only requests for fewer workers make the slack negative, and a second one is left only if there is none |
| PrivateServer.WakesASleeper | third-party/tbb/src/tbb/private_server.cpp:289-316 | a worker about to be woken is asleep, off the list and in nobody else's hand |
| PrivateServer.SleepsWhenOversubscribed | third-party/tbb/src/tbb/private_server.cpp:349-365 | a worker enters the list only while more is used than was asked for, and that makes no shortage |
| PrivateServer.StepInv | third-party/tbb/src/tbb/private_server.cpp:349-409 | every atomic step keeps shape, balance and supply, for any number of workers and clients |
| PrivateServer.NetIsTheSum | third-party/tbb/src/tbb/private_server.cpp:411-420 | the net request is the sum of the deltas of all calls |
| ArenaSnapshot.NeverRestsOnEmpty | third-party/tbb/src/tbb/arena.h:520-536 | with a task enqueued the state is `Empty` only while some thread is still advertising, and a closing snapshot is undone by one that has still to look or saw the same busy value |
| ArenaSnapshot.DemandNets | third-party/tbb/src/tbb/arena.cpp:327-336 | transitions from and to `Empty` alternate, and demand told plus demand about to be told is nothing or one unit |
| ArenaSnapshot.AtRest | third-party/tbb/src/tbb/arena.cpp:279-351 | with all calls returned the state is not busy, enqueued tasks imply `Full`, and the market knows of one unit exactly if it is `Full` |
| ArenaSnapshot.StepInv | third-party/tbb/src/tbb/arena.h:142-174 | every step keeps the invariant, for the arena's state and for the concurrency flag |
| ArenaSnapshot.ClosesOnlyWhatIsEmpty | third-party/tbb/src/tbb/arena.cpp:304-336 | a thread about to declare the arena empty has looked at every slot in use and all streams since it began, and has seen no task |
| ArenaSnapshot.ProbeAnswers | third-party/tbb/src/tbb/arena.cpp:279-351 | a look for work that returns has closed the arena and is about to tell the market so, unless it saw a task, the word was not full to begin with, or somebody else changed it meanwhile |
| TokenBuffer.MaskInjective | third-party/tbb/src/tbb/parallel_pipeline.cpp:206 | masked indices of tokens within one window of the ring's length differ, so no put overwrites another token |
| TokenBuffer.MaskWraps | third-party/tbb/src/tbb/parallel_pipeline.cpp:221 | the token that enters the window takes the place of the one that leaves |
| TokenBuffer.InputBuffer.Grow | third-party/tbb/src/tbb/parallel_pipeline.cpp:250-266 | every waiting record keeps its token, new places are empty, and the ring reaches the size asked for |
| TokenBuffer.InputBuffer.Copy | third-party/tbb/src/tbb/parallel_pipeline.cpp:255-261 | the records of the window land at their places in the longer ring |
| TokenBuffer.InputBuffer.TryPutToken | third-party/tbb/src/tbb/parallel_pipeline.cpp:187-212 | the record keeps its item, and its token unless an ordered buffer gives it the next one; it waits under its token unless its turn has come, and nothing else changes |
| TokenBuffer.InputBuffer.NextToken | third-party/tbb/src/tbb/parallel_pipeline.cpp:217-230 | the turn passes to the next token, whose record is handed out and leaves the buffer if it is waiting |
| SerialFilter.OneAtATimeInOrder | third-party/tbb/src/tbb/parallel_pipeline.cpp:187-230 | for every order of arrival at most one task is in the filter, and the items let in are those that came, in the order of their tokens, without a gap and each once |
| SerialFilter.IdleOnlyIfTurnIsOut | third-party/tbb/src/tbb/parallel_pipeline.cpp:216-228 | the filter stands idle only if the task whose turn it is has not arrived |
| SerialFilter.NobodyLeftWaiting | third-party/tbb/src/tbb/parallel_pipeline.cpp:187-228 | when tokens 0 to n-1 have arrived and the filter is idle, all were let in and none waits |
| SerialFilter.FirstComeFirstServed | third-party/tbb/src/tbb/parallel_pipeline.cpp:191-199 | a filter that numbers the items itself lets in the i-th item that came as the i-th |
| SerialFilter.TurnIsNotOver | third-party/tbb/src/tbb/parallel_pipeline.cpp:199 | a turn is never over before its task arrives, as asserted |
| PipelineThrottle.Throttled | third-party/tbb/src/tbb/parallel_pipeline.cpp:281-287 | until the end of input the tokens taken are those of items in flight, and there is an input task, one, exactly while a token is left |
| PipelineThrottle.NeverOverLimit | third-party/tbb/src/tbb/parallel_pipeline.cpp:349-411 | at all times no more items are in flight than tokens, the counter stays in range, and at most one task is at the input |
| PipelineThrottle.NothingReadAfterEnd | third-party/tbb/src/tbb/parallel_pipeline.cpp:352-368 | once a task has stored that a serial input is at its end, the input is not read again |
| PipelineThrottle.OnlyAdmittedCall | third-party/tbb/src/tbb/parallel_pipeline.cpp:369-381 | once the pipeline is stopped or the end was stored, a parallel input is called by those tasks only that had passed the check before |
| PipelineThrottle.Drains | third-party/tbb/src/tbb/parallel_pipeline.cpp:398-408 | after the end of input every run is bounded by the work that is left |
| Allotment.DealIsFair | third-party/tbb/src/tbb/market.cpp:417-424 | every arena gets its proportion rounded down or up, and no more than it asked for |
| Allotment.HigherArenasServed | third-party/tbb/src/tbb/market.cpp:393-396 | a level gets workers only if every arena of every level before it has all it asked for |
| Allotment.AllIsDealtOut | third-party/tbb/src/tbb/market.cpp:386-432 | each level gets exactly what is meant for it, and together the lesser of the total demand and the limit is given |
| Allotment.FirstMandatoryWins | third-party/tbb/src/tbb/market.cpp:412-416 | with a soft limit of 0 the one worker goes to the first arena that asks in global concurrency mode, nobody else gets any |
| Allotment.TopIsFirst | third-party/tbb/src/tbb/market.cpp:406-408 | the top priority level is the first one with a request |
| Allotment.LevelIsDealtOut | third-party/tbb/src/tbb/market.cpp:419-421 | the shares of a level add up to its workers and the carry ends at 0 |
| Allotment.Deal | third-party/tbb/src/tbb/market.cpp:386-432 | the nested loops allot to every arena with a request what the specification says, and mark the top priority |
| Allotment.DealLevel | third-party/tbb/src/tbb/market.cpp:396-428 | the loop over one level, with the remainder carried from arena to arena |
| Allotment.HigherLevelsFirst | third-party/tbb/src/tbb/market.cpp:394-395 | the levels get at most their demands, together the lesser of demand and supply, in the order of priority |
| Market.CorrectionIsExact | third-party/tbb/src/tbb/market.cpp:567-579 | the incremental correction brings the request to the server to what it would be if computed afresh |
| Market.Market.AdjustDemand | third-party/tbb/src/tbb/market.cpp:512-582 | keeps all the books: clamped request, level and total demand as sums, request to the server, sum of the deltas; an arena's mandatory requests count once |
| Market.Market.UpdateWorkersRequest | third-party/tbb/src/tbb/market.cpp:217-229 | requests the lesser of demand and limit, or one worker for arenas in global concurrency mode, and returns the change |
| Market.Market.UpdateAllotment | third-party/tbb/src/tbb/market.h:164-169 | deals if there is any demand |
| Market.Market.SetActiveNumWorkers | third-party/tbb/src/tbb/market.cpp:246-281 | changes the limit with all books kept; with a new limit of 0 exactly the arenas with enqueued tasks are in global concurrency mode |
| Market.Market.EnableMandatory | third-party/tbb/src/tbb/market.cpp:466-480 | puts the arena in global concurrency mode if the limit is 0, and asks for one worker |
| Market.Market.DisableMandatory | third-party/tbb/src/tbb/market.cpp:490-509 | ends the mode unless tasks are enqueued; the limit is 0 then, as asserted |
| Market.Market.SetMode | third-party/tbb/src/tbb/market.cpp:458-464 | the count of mandatory requests stays the number of arenas in the mode |
| Market.Market.Insert | third-party/tbb/src/tbb/market.cpp:296-302 | a new arena leaves all books as they are |
| Market.Market.TryDestroy | third-party/tbb/src/tbb/market.cpp:304-349 | a removed arena leaves the books consistent; the request to the server stays right if and only if it was not the last arena in the mode with a worker requested |
| Market.ForgottenRequest | third-party/tbb/src/tbb/market.cpp:308-311 | a run after which a worker stays requested with limit 0 and no arena in global concurrency mode |
| SmallObjectPool.PoolFreedOnce | third-party/tbb/src/tbb/small_object_pool.cpp:97-106 | the pool is freed by one thread, when the owner is gone and no object is in use or being given back, and it is freed once all are through |
| SmallObjectPool.CounterIsExact | third-party/tbb/src/tbb/small_object_pool.cpp:133-145 | until it goes the owner's counter is the number of its objects on lists, in use and being given back; it is never negative |
| SmallObjectPool.NothingLeaks | third-party/tbb/src/tbb/small_object_pool.cpp:119-150 | when the pool is freed every object it ever had has been released |
| SmallObjectPool.AllocatesWhatIsFree | third-party/tbb/src/tbb/small_object_pool.cpp:46-71 | an allocation hands out what nobody has; the grab of the public list finds an object, as asserted |
| SmallObjectPool.AllocatesFromLists | third-party/tbb/src/tbb/small_object_pool.cpp:46-71 | an allocation takes the front of the private list, goes for the public one if that is empty, and makes a new object only if both are |
| SmallObjectPool.GrabsAll | third-party/tbb/src/tbb/small_object_pool.cpp:52-61 | the grab empties the public list at once, hands out its front and keeps the rest in order |
| SmallObjectPool.PushedInv | third-party/tbb/src/tbb/small_object_pool.cpp:108-111 | a push succeeds with a right link even if the list changed and came back to the value seen |
| SmallObjectPool.StepInv | third-party/tbb/src/tbb/small_object_pool.cpp:46-150 | every step of owner and foreign threads keeps lists, places and counters consistent |
| FloodFill.SplitSegments | image.cc:175-188 | lists the bounding boxes of the 8-connected components of two pixels or more, in raster order of first pixels, sets exactly these pixels to 0 and keeps everything else |
| FloodFill.Bfs | image.cc:131-172 | a pixel that stands alone changes nothing and has no box; otherwise its whole component is set to 0 and the box is the smallest around it; the queue loop ends |
| FloodFill.Expand | image.cc:140-166 | all live neighbours are marked, enqueued and taken into the box |
| FloodFill.OneEntryPerComponent | image.cc:178-186 | every component of two pixels or more has exactly one first pixel, so it is listed once |
| FloodFill.OneComponent | image.cc:140-166 | pixels of one component have the same component |
| FloodFill.SameComponent | image.cc:178-186 | after whole components are removed, the components of what is left are those of the original grid |
| TimerForest.TimerLog.Start | perf.cc:25-33 | a new record is registered with its parent, and the records stay a forest with parents first |
| TimerForest.TimerLog.Stop | perf.cc:35-46 | takes the time once; further calls change nothing |
| TimerForest.TimerLog.Link | perf.cc:70-83 | a record without a parent gets the nearest earlier record that encloses it, and the records stay a forest |
| TimerForest.Nearest | perf.cc:75-82 | the chosen record encloses the inner one and none between them does |
| TimerForest.TimerLog.PrintRec | perf.cc:48-63 | prints exactly the records of the subtree, each once, indented by depth, parents first and siblings by start |
| TimerForest.TimerLog.Print | perf.cc:85-89 | prints every record exactly once |
| TimerForest.TimerLog.PrintTimerRecords | perf.cc:65-92 | stops, links and prints: the report covers the linked forest |
| TimerForest.SiblingsApart | perf.cc:61-62 | records with the same parent have no descendant in common |

## Left out

- Memory orders and fences: every interleaving is sequentially consistent.
- Progress and fairness: spinning on a lock is a step that changes nothing.
- Pointer values: tasks, nodes, proxies and contexts are numbers; freed memory is tracked only where a result speaks of it.
- `work_spawned` advertising and the slots of an arena: what a look at a slot finds is left to chance in `ArenaSnapshot`, since the source itself is sloppy there.
- Cancellation.NoLostCancellation: leaves out an `a` whose own mark was overwritten and paths on which a mark was torn, because the code loses cancellations there; `CancellationFate` has the exact conditions. They are stated for runs without further cancellations, or for a child without children that nobody cancelled itself, since a later cancellation may mark a context again.
- Registration and exit of threads, orphaned context lists (the lists are fixed, and the contexts of a list are taken in as one step when a propagation has locked it), reset and destruction of contexts, and exceptions and floating point settings carried by contexts.
- The methods of `ArenaSlot.Slot` run undisturbed: `AcquireTaskPool` cannot be called while another party holds the pool, where the source spins. `DequeProtocol` has the interleavings.
- The drain of a mailbox when its arena is destroyed.
- `abort_all` of the monitor, which is `notify_all` plus a flag, and exceptions thrown by a waiter's predicate.
- The exact order in which nodes are removed and flags lowered inside a notification of the machine `ConcurrentMonitor`: any order is allowed there; `SentinelList` has the real one.
- Shutdown of the worker supply: slack is not maintained once it begins, and starting a thread counts as waking it.
- The two epochs that order the calls to the server for one arena after `adjust_demand`: the deltas are added when the lock is released, so their order is not modelled.
- Widths of integers in tokens, counters and allotments: all are unbounded; the mask of the token ring is a bitwise conjunction of unbounded numbers.
- The end-of-input flag of a parallel input filter that is kept per thread: whether a filter finds the end is left to chance.
- Pipelines of a single serial filter, which never take a token.
- Large objects of the small object pool, which bypass it. The exchange that grabs the public list and the read of its first link are one step of `SmallObjectPool`, as is the exchange that marks it dead.
- Choice of the arena for a worker, its round-robin pointer, and arena reference counts: whether an arena is still referenced is a parameter of `TryDestroy`.
- Critical and resumable tasks, observers, coroutines, affinity, task streams inside an arena, the queuing reader-writer mutex and other locks.
- Watershed, contours, feature matching and the other image library calls: the marker grid is an arbitrary matrix, and a segment is given by its corners, not by a rectangle of the library.
- Clocks and resource usage: readings are parameters of the timer methods. The number formats of the report, and the order of children that started at the same time.
- The protocols are state machines on values, not classes: an interleaving cannot be written as a method body, so aliasing is not captured there beyond the explicit links.
