# A verified model of a priority thread pool and two hand-written locks

The repository holds a C thread pool whose workers serve a three-lane priority queue with aging, and
two lock experiments: the filter lock and the bakery lock, each guarding a shared counter. This
project models both in Dafny and proves what they promise.

**Locks.** `FilterLock` and `BakeryLock` step one thread by one shared read or write. A run is any
sequence of thread numbers, for any number of threads. The scans (`check_k`, `max_label`,
`check_waiting`) are interruptible, and the repeated reads of a label are separate steps.
`FilterMachine` and `BakeryMachine` are the same locks on shared arrays updated in place. Each method
there is proved equal to the step function, so every theorem about runs is about the arrays too.
`FilterProgress` and `BakeryProgress` prove that every schedule that runs in rounds lets a thread in; the
argument they share, a measure and a helpful thread, is `Fairness`. `FilterStarvation` and
`BakeryStarvation` prove the same of each single thread, from wherever in its entry protocol it stands.

**Queue.** `PriorityLanes` is the specification: three sequences, with push, pop and promotion.
`PriorityQueue` is the code: nodes linked by `next`, `heads` and `tails` arrays, a ready bitmask, a size
and its mirror, all updated in place. Its methods refine the specification, and `QueueOrder` runs whole
batches of nodes through it. `Overtaking`, `Aging`, `Capacity` and `Deadline` prove what the
specification does over whole runs.

**Pool.** `ThreadPool` is one state machine for submitters, workers, pausers, waiters, the aging thread
and one destroyer. A step is one access to shared state, or one mutex region with a single access to
an atomic. Condition variables follow `pthread_cond_wait` and `pthread_cond_signal` of POSIX.1-2017:
releasing the mutex and going to sleep is one step, a signal wakes some sleeper if there is one, and any
sleeper may wake for no reason. The shutdown handshake uses sequentially consistent atomics (section
7.17.3 of ISO/IEC 9899:2011). A run is any sequence of actions; an action that is not possible leaves
the state as it is. Time enters as the order of stamps: a submit that finds aging on takes the next stamp,
and an aging pass that reads its clock learns how many stamps, from the first on, are old enough.
`PoolStamps` proves that this is what a monotone clock gives. The invariants are in `PoolAccounts`,
`PoolTasks`, `PoolStamps`, `PoolWakeups` and `WorkerCount`, the theorems in `PoolTheorems`, `PoolJoin`,
`PoolShutdown`, `PoolTermination`, `PoolStranding`, `PoolQuietStranding`, `PoolDrain` and `PoolForgetting`.
`PoolCalls` says what a whole call of submit, wait, pause or resume does, from its start and over any run of
the other threads. `PoolQueue` proves that the pool refines the specification of its queue, and `PoolAging`
does so for the passes of the aging thread. `PoolReplay` holds the pieces of the concrete runs.

## Where the code falls short of its promise

Each of these comes with a concrete run or lane and with the exact condition. The concrete runs have no
spurious wakeups. "Without spurious wakeups" excludes these and nothing else: the capacity and aging may be
changed at any time.

- `thread_pool_destroy` can hang and leave a task behind although its submit returned an id
  (`PoolShutdown.DestroyCanHang`). A worker may exit on shutdown with an empty queue while a submit that
  passed its own shutdown check has not pushed yet.
  - If workers may wake for no reason, a call of destroy can strand a task if and only if some submit
    stands between that check and its push (`PoolStranding.DestroyStrandsIff`).
  - If they may not, a further condition joins: fewer workers doze on the queue than there are submits in
    that window or owing their signal, or a broadcast is still to come
    (`PoolQuietStranding.DestroyStrandsQuietlyIff`). It comes from a pause, or from an aging pass past its
    last look at the shutdown flag: the pass has moved tasks already, or a task that was old enough when
    it read its clock is in its lane, or is about to be pushed there with another submit behind it in the
    window. The two conditions differ
    (`PoolQuietStranding.SleeperSavesTask`).
  - Once the spin is over, destroy can still finish if and only if the queue is empty or a worker is left
    (`PoolShutdown.DestroyFinishesIff`), for any number of waiters.
- A wait that sleeps beside destroy can take the only signal, and destroy sleeps on
  (`PoolForgetting.WaitTakesSignal`). Without spurious wakeups destroy can finish if and only if, besides,
  it does not sleep on a drained pool without an owed signal (`PoolShutdown.DestroyFinishesQuietlyIff`). If
  all waits returned before, it never does (`PoolShutdown.DestroyFinishesAfterWaits`), and then every fair
  schedule ends destroy (`PoolTermination.DestroyTerminates`).
- Two concurrent calls of `thread_pool_wait` can lose a wakeup (`PoolDrain.SecondWaiterForgotten`). So can one
  call beside a refused submit, whose rollback lowers the total without a signal
  (`PoolDrain.RollbackForgets`). A pool with a submitter and a worker has such a run before destroy if and
  only if two threads may wait (`PoolForgetting.UncappedForgetsIff`), or one if the capacity may be set
  (`PoolForgetting.CappedForgetsIff`). `PoolDrain.DrainCoveredIff` says at which steps it happens.
- A task submitted while aging was off carries no stamp and keeps every task behind it from aging
  (`Aging.UnstampedHeadBlocks`, `Aging.UnstampedPinsLane`). Stamps are taken before the queue lock
  (src/thread_pool.c:252-257), so two submits can also queue in the other order, and then the older task
  waits for the younger (`Aging.YoungerHeadBlocks`). Passes promote exactly the eligible tasks at all
  times if and only if no stamped task stands behind an unstamped or a younger one
  (`Aging.PromotesExactlyIff`).

## Model

| member | source | states |
|---|---|---|
| `FilterLock.LevelBound` | proof/filter-lock/filter_lock.c:20-41 | In every run of n threads at most n - j are past the wait of level j, with scans half finished at any point. |
| `FilterLock.MutualExclusion` | proof/filter-lock/filter_lock.c:29-55 | In every run at most one thread is between the last wait and the unlock. |
| `FilterLock.CounterExact` | proof/filter-lock/filter_lock.c:44-54 | The split read and write of the counter loses no update, and once all n threads stopped the counter is between ITER + 1 and ITER + n. |
| `FilterLock.AtMostNMinusJ` | proof/filter-lock/filter_lock.c:33-41 | Every state of the invariant, reachable or not, has at most n - j threads past level j. |
| `FilterLock.OwnersAreWinners` | proof/filter-lock/filter_lock.c:33-53 | In every state of the invariant two lock owners are the same thread. |
| `FilterLock.StepKeepsLevels` | proof/filter-lock/filter_lock.c:33-53 | The published level of a thread always is the level its program counter says it is at. |
| `FilterLock.StepKeepsScan` | proof/filter-lock/filter_lock.c:20-27 | A half-finished scan has gone past a competitor of its level only if the scanning thread is no longer the victim there. |
| `FilterLock.StepKeepsWinner` | proof/filter-lock/filter_lock.c:34-39 | A thread past a level at which another thread competes is not the victim of that level. |
| `FilterLock.StepKeepsVictim` | proof/filter-lock/filter_lock.c:35-39 | While somebody competes at a level, the last writer of its victim cell is a competitor there. |
| `FilterLock.StepKeepsInv` | proof/filter-lock/filter_lock.c:29-55 | One shared access of any thread keeps the invariant behind the three theorems. |
| `FilterLock.RunKeepsInv` | proof/filter-lock/filter_lock.c:29-55 | Every schedule keeps the invariant. |
| `FilterLock.InitInv` | proof/filter-lock/filter_lock.c:58-66 | The initial arrays satisfy the invariant for every number of threads, zero and one included. |
| `FilterProgress.FairProgress` | proof/filter-lock/filter_lock.c:33-41 | From every reachable state in which some thread tries, every schedule in which each thread steps in each of enough rounds gives the lock to some thread; the number of rounds is explicit. |
| `FilterProgress.DeadlockFree` | proof/filter-lock/filter_lock.c:33-41 | In every reachable state in which some thread tries, some schedule lets a thread in. |
| `FilterProgress.SomeoneMayPass` | proof/filter-lock/filter_lock.c:39 | When every trying thread spins and nobody owns the lock, the wait of some thread is false. |
| `FilterProgress.StepShortens` | proof/filter-lock/filter_lock.c:33-41 | While nobody owns the lock no step takes a thread back in its climb, and a step that takes none forward leaves both arrays alone. |
| `FilterProgress.StepHelps` | proof/filter-lock/filter_lock.c:20-39 | A thread whose wait is false stays so until a climb advances, and each of its own steps brings it closer to passing. |
| `FilterStarvation.NoStarvation` | proof/filter-lock/filter_lock.c:29-41 | From every reachable state in which thread t tries, every schedule in which each thread steps in each of enough rounds gives t the lock; the number of rounds is explicit. |
| `FilterStarvation.OthersShorten` | proof/filter-lock/filter_lock.c:33-53 | While t waits as the victim of its level, every other thread has a bounded number of steps left outside a wait, one pass through the section and one climb up to that level. |
| `FilterMachine.Machine.constructor` | proof/filter-lock/filter_lock.c:58-66 | The arrays start in the initial state. |
| `FilterMachine.Machine.Climb` | proof/filter-lock/filter_lock.c:20-41 | The in-place update of the arrays is the step of the entry protocol. |
| `FilterMachine.Machine.Work` | proof/filter-lock/filter_lock.c:44-54 | The in-place update is the step of the critical section, the unlock or the loop test. |
| `FilterMachine.Machine.Execute` | proof/filter-lock/filter_lock.c:29-55 | Running a schedule on the arrays gives the state of the specification, with one owner at most and an exact counter. |
| `CriticalSection.BodyKeepsTally` | proof/filter-lock/filter_lock.c:44-54 | Under mutual exclusion one step of the section keeps the counter equal to the sections executed and bounds its overshoot. |
| `CriticalSection.TryKeepsTally` | proof/bakery-lock/main.c:50-53 | A move in the entry protocol of either lock does not touch the account of the counter. |
| `CriticalSection.FinalCount` | proof/bakery-lock/main.c:58-67 | When all threads stopped the account leaves ITER + 1 to ITER + n for the counter. |
| `BakeryLock.MutualExclusion` | proof/bakery-lock/main.c:46-70 | In every run of any number of threads, with both scans interruptible, at most one thread owns the lock. |
| `BakeryLock.FirstComeFirstServed` | proof/bakery-lock/main.c:38-53 | If i has its label before k starts its doorway, k does not own the lock before i has left it. |
| `BakeryLock.CounterExact` | proof/bakery-lock/main.c:58-67 | No counter update is lost, and once all n threads stopped the counter is between ITER + 1 and ITER + n. |
| `BakeryLock.LabelsGrow` | proof/bakery-lock/main.c:21-27 | No step lowers a label, and a thread that writes its label raises it. |
| `BakeryLock.LabelIsNext` | proof/bakery-lock/main.c:21-51 | In every run a written label is at most one more than some label present when it is written. |
| `BakeryLock.LabelsBounded` | proof/bakery-lock/main.c:51 | No label exceeds the number of labels written so far. |
| `BakeryLock.EntersAfterCleanScan` | proof/bakery-lock/main.c:30-53 | A thread that was told to wait scans from the beginning: before it owns the lock its scan comes to every thread again. |
| `BakeryLock.StepKeepsPrecedes` | proof/bakery-lock/main.c:30-53 | Once a thread with a label is ordered before another, it stays so until it leaves, through new labels and half-read comparisons. |
| `BakeryLock.StepKeepsPair` | proof/bakery-lock/main.c:30-44 | Every thread that a half-finished waiting scan went past is behind the scanning thread in the order of service. |
| `BakeryLock.OwnersExclusive` | proof/bakery-lock/main.c:38-66 | In every state of the invariant two lock owners are the same thread. |
| `BakeryLock.StepKeepsInv` | proof/bakery-lock/main.c:46-70 | One shared access of any thread keeps the invariant. |
| `BakeryLock.RunKeepsInv` | proof/bakery-lock/main.c:46-70 | Every schedule keeps the invariant. |
| `BakeryLock.InitInv` | proof/bakery-lock/main.c:73-82 | The initial arrays satisfy the invariant. |
| `BakeryLock.OrderHolds` | proof/bakery-lock/main.c:38-66 | Over a whole run without an unlock of i, thread i keeps its label and its place before k. |
| `BakeryLock.BoundedOvertaking` | proof/bakery-lock/main.c:38-66 | Once i has its label, each other thread leaves the critical section at most once before i does. |
| `BakeryStarvation.NoStarvation` | proof/bakery-lock/main.c:21-53 | From every reachable state in which thread i tries, in its doorway or in its wait, every schedule in which each thread steps in each of enough rounds gives i the lock; the number of rounds is explicit. |
| `BakeryStarvation.StepShortensAll` | proof/bakery-lock/main.c:46-70 | While i waits with its label, every other thread has a bounded number of steps left outside its own wait: one pass through the section if it is ahead, and one doorway. |
| `BakeryProgress.FairProgress` | proof/bakery-lock/main.c:46-53 | From every reachable state in which some thread tries, every schedule in which each thread steps in each of enough rounds gives the lock to some thread; the number of rounds is explicit. |
| `BakeryProgress.DeadlockFree` | proof/bakery-lock/main.c:46-53 | In every reachable state in which some thread tries, some schedule lets a thread in. |
| `BakeryProgress.LeastTicket` | proof/bakery-lock/main.c:30-44 | Among the raised flags some thread is before all others. |
| `BakeryProgress.StepHelps` | proof/bakery-lock/main.c:38-53 | The thread before all others stays so until a doorway advances, and each of its own steps, from any scan position, brings it closer to the lock. |
| `BakeryMachine.Machine.constructor` | proof/bakery-lock/main.c:73-82 | The arrays start in the initial state. |
| `BakeryMachine.Machine.Enter` | proof/bakery-lock/main.c:21-51 | The in-place update is the step of the doorway. |
| `BakeryMachine.Machine.Await` | proof/bakery-lock/main.c:30-53 | The in-place update is the step of the waiting scan. |
| `BakeryMachine.Machine.Work` | proof/bakery-lock/main.c:58-67 | The in-place update is the step of the critical section, the unlock or the loop test. |
| `BakeryMachine.Machine.Execute` | proof/bakery-lock/main.c:46-70 | Running a schedule on the arrays gives the state of the specification, with one owner at most and an exact counter. |
| `Deadline.TimespecCell.AddMs` | src/thread_pool.c:56-68 | In place, a normalised time stays normalised and moves by exactly the milliseconds added, and not at all for a non-positive duration. |
| `Deadline.PlusMsExact` | src/thread_pool.c:56-68 | A normalised time stays normalised and moves by exactly the milliseconds added. |
| `Deadline.BeforeIsInstantOrder` | src/priority_queue.c:232-249 | The two-field comparison is the order of the instants. |
| `Deadline.PassedIffDeadlineReached` | src/priority_queue.c:232-249 | For a positive duration the elapsed-time test holds if and only if the start is stamped and the end is not before start plus duration. |
| `Deadline.PassedMonotone` | src/priority_queue.c:232-249 | A later end or an earlier stamped start keeps a passed deadline passed. |
| `Deadline.NoOverflow` | src/priority_queue.c:232-249 | No intermediate value of either computation leaves 64 bits within the stated ranges. |
| `PriorityLanes.PopServesInOrder` | src/priority_queue.c:137-151 | A pop takes the first task of the order of service and leaves the rest of the order. |
| `PriorityLanes.PushIntoOrder` | src/priority_queue.c:69-83 | A push puts the task right behind all tasks of its own and higher priority. |
| `PriorityLanes.PromoteLowInOrder` | src/priority_queue.c:263-292 | Promoting from LOW exchanges the prefix with the whole of MEDIUM in the order of service. |
| `PriorityLanes.PromoteMediumInOrder` | src/priority_queue.c:263-292 | Promoting from MEDIUM exchanges the prefix with the whole of HIGH in the order of service. |
| `PriorityLanes.PromoteKeepsTasks` | src/priority_queue.c:251-297 | A promotion neither loses nor duplicates a task. |
| `PriorityLanes.PushInsertsStably` | src/priority_queue.c:69-83 | On lanes that hold their own priority a push is a stable insertion into the order of service. |
| `PriorityLanes.DrainIsOrder` | src/priority_queue.c:191-208 | Popping until nothing is left returns the order of service. |
| `PriorityLanes.StableOrder` | src/priority_queue.c:191-208 | Pushing any sequence and popping it all returns the stable sort of the sequence by descending priority. |
| `QueueOrder.ServeBatch` | src/priority_queue.c:191-208 | On the linked queue itself, any batch of distinct nodes pushed and popped until null comes out as its stable sort by descending priority, the bitmask choosing the lane. |
| `QueueOrder.InsertAll` | src/priority_queue.c:69-83 | Pushing the nodes of a batch links them into the lanes the specification gives. |
| `QueueOrder.PopAll` | src/priority_queue.c:191-208 | Popping until null returns the order of service of the linked queue and leaves it empty and valid. |
| `Bitmask.HighestPriorityIsTopBit` | src/priority_queue.c:10-14 | For every non-zero 32-bit word the count of leading zeros, taken from the top bit down, gives its highest set bit. |
| `Bitmask.HighestPriorityIsLane` | src/priority_queue.c:10-14 | For a mask of lane bits the lookup names a lane. |
| `Bitmask.SetBitSetsOne` | src/priority_queue.c:69-83 | Setting a lane's bit changes no other bit. |
| `Bitmask.ClearBitClearsOne` | src/priority_queue.c:137-151 | Clearing a lane's bit changes no other bit. |
| `PriorityQueue.MaskFindsTop` | src/priority_queue.c:10-14 | With the mask in step with the lanes, the bit scan names the highest non-empty lane. |
| `PriorityQueue.LinkLast` | src/priority_queue.c:69-83 | Linking at the tail gives a valid lane that ends with the new node, for empty and non-empty lanes. |
| `PriorityQueue.UnlinkFirst` | src/priority_queue.c:137-151 | Unlinking the head gives a valid lane of the remaining nodes and a detached node. |
| `PriorityQueue.FindPrefixTail` | src/priority_queue.c:263-273 | The walk stops at the last node of the longest eligible prefix. |
| `PriorityQueue.Retag` | src/priority_queue.c:282-286 | Every node of the prefix gets the new priority and the links stay. |
| `PriorityQueue.SplitLane` | src/priority_queue.c:269-280 | Cutting a lane behind its prefix gives a segment and a valid rest that share no node. |
| `PriorityQueue.Splice` | src/priority_queue.c:275-292 | The cut and the relinking give a valid source lane of the kept nodes and a valid destination that starts with the moved ones. |
| `PriorityQueue.Queue.constructor` | src/priority_queue.c:21-40 | A new queue is valid, empty and without a capacity. |
| `PriorityQueue.Queue.Insert` | src/priority_queue.c:69-83 | Insertion refines push on the specification and keeps every structural invariant. |
| `PriorityQueue.Queue.TryPush` | src/priority_queue.c:97-115 | The push succeeds if and only if there is no capacity or the queue is below it, and otherwise changes nothing. |
| `PriorityQueue.Queue.SetMaxTasks` | src/priority_queue.c:117-123 | The capacity changes and no task moves. |
| `PriorityQueue.Queue.IsFullApprox` | src/priority_queue.c:125-135 | The check on the mirror agrees with the authoritative one when nothing runs in between. |
| `PriorityQueue.Queue.PopLocked` | src/priority_queue.c:137-151 | The head of the lane leaves, detached, and the queue stays valid. |
| `PriorityQueue.Queue.PopNonblock` | src/priority_queue.c:191-208 | The result is null if and only if the queue is empty, and otherwise the first task of the order of service. |
| `PriorityQueue.Queue.IsEmpty` | src/priority_queue.c:221-230 | True if and only if no task is left to serve. |
| `PriorityQueue.Queue.PromotePrefix` | src/priority_queue.c:251-297 | Unless shut down it refines moving the longest eligible prefix to the front of the next lane, and reports whether it moved any. |
| `PriorityQueue.Queue.AgingPass` | src/priority_queue.c:299-310 | A pass ages MEDIUM before LOW and stops wherever a shutdown is seen. |
| `PriorityQueue.Queue.Destroy` | src/priority_queue.c:42-66 | Every queued node is released exactly once, lane by lane, and the queue ends empty and valid. |
| `PriorityQueue.Walk` | src/priority_queue.c:49-58 | Following the links from the head visits each node of the lane once, in order. |
| `Overtaking.RankIsPosition` | src/priority_queue.c:175-176 | The rank of a place is the position of its task in the order of service. |
| `Overtaking.MoveFollowsTask` | src/priority_queue.c:69-83 | The place tracked through an operation holds the same task, and the task is served exactly when it has rank zero at a pop. |
| `Overtaking.RankAccount` | src/priority_queue.c:137-151 | Over one operation the rank falls by one for a pop and rises by exactly the tasks that overtake. |
| `Overtaking.RankOverRun` | src/priority_queue.c:69-151 | Over any run the rank is the old rank less the pops plus the tasks that overtook. |
| `Overtaking.HighStaysHigh` | src/priority_queue.c:251-297 | A task in HIGH stays there until served and is overtaken only by promotions into HIGH. |
| `Overtaking.HighLeavesExactly` | src/priority_queue.c:251-297 | A task at position i of HIGH leaves after exactly i plus the number of tasks promoted into HIGH since, counted in pops. |
| `Capacity.SizeWithinCapacity` | src/priority_queue.c:97-123 | Over any run that inserts through try-push, a set capacity is exceeded at most by what was queued when it was last changed. |
| `Capacity.AboveCapacityOnlyShrinks` | src/priority_queue.c:97-123 | A queue at or above its capacity never grows, and while above it falls by exactly the tasks served. |
| `Capacity.HandleGrowth` | src/priority_queue.c:97-115 | A refused push, an empty pop and a promotion leave the size; a push adds one and a pop takes one. |
| `Capacity.PerformedAll` | src/priority_queue.c:97-115 | A run of requests leaves the lanes as the operations do that are left when the refused pushes are taken out. |
| `Aging.EligiblePrefix` | src/priority_queue.c:263-273 | All of the prefix is eligible and the task right behind it is not. |
| `Aging.PromotedIff` | src/priority_queue.c:263-273 | A task is promoted if and only if it and all tasks ahead of it in its lane are eligible. |
| `Aging.PromotesExactlyIff` | src/priority_queue.c:251-273 | For normalised stamps, passes promote exactly the eligible tasks at all times and thresholds if and only if no stamped task stands behind an unstamped or a younger one. |
| `Aging.OutOfOrderSkips` | src/priority_queue.c:263-273 | For any pair of tasks out of that order there is a time at which the one behind is eligible, the one ahead is not, and the pass leaves both. |
| `Aging.OrderedLanePromotesAllEligible` | src/priority_queue.c:251-273 | On stamped lanes in submission order the promoted tasks are exactly the eligible ones. |
| `Aging.UnstampedHeadBlocks` | src/priority_queue.c:234-237 | A concrete lane with an unstamped head, whose second task is long due and is not promoted. |
| `Aging.YoungerHeadBlocks` | src/thread_pool.c:252-257 | A concrete lane in which two submits stamped in one order and pushed in the other, and the older task is due and is not promoted. |
| `Aging.RunsPromoteStamped` | src/priority_queue.c:234-273 | Over any run of pushes, pops and passes, at any times and thresholds, no promotion moves an unstamped task. |
| `Aging.UnstampedPinsLane` | src/priority_queue.c:251-310 | Over any run of pushes, pops and passes, at any times and thresholds, until an unstamped task is served, neither it nor a task behind it leaves the lane or passes another. |
| `Aging.TwoPassesReachHigh` | src/priority_queue.c:299-310 | A task in the eligible prefix of LOW at one pass is in HIGH or served after the next, for any traffic in between and after. |
| `Aging.SecondPassPromotes` | src/priority_queue.c:299-310 | What is eligible up to a task stays so until a later pass, which promotes it from MEDIUM to HIGH. |
| `Aging.TrafficKeepsEligible` | src/priority_queue.c:69-151 | Pushes and pops never put an ineligible task ahead of an eligible prefix. |
| `Aging.AtMostOneLanePerPass` | src/priority_queue.c:299-310 | In one pass, with any traffic between its halves, no task rises more than one lane and none falls. |
| `WorkerCount.CapacityBusy` | src/worker.c:5-13 | The loop returns the number of raised busy flags, with no overflow of its 16-bit counter. |
| `WorkerCount.StepKeepsBusy` | src/thread_pool.c:38-41 | Every step keeps a worker's busy flag raised exactly while its task runs or has just run. |
| `WorkerCount.BusyCountExact` | src/thread_pool.c:319-324 | The busy count is the number of workers, among those that the 16-bit worker number counts, whose task runs or has just run. |
| `WorkerCount.DepthExact` | src/thread_pool.c:326-337 | Read at one instant, the depth is exactly the queued tasks, plus the submits between increment and push or rollback, plus the tasks in hand less the busy workers counted; below 65536 workers these are the tasks popped but not started, or run but still in the total. |
| `WorkerCount.DepthEstimate` | src/thread_pool.c:326-337 | So it is at least the queued tasks and at most those plus the workers and the submits in flight, also when the worker number is cut to 16 bits. |
| `PoolAccounts.StepKeepsAccounts` | src/thread_pool.c:225-266 | Every step keeps both counters equal to what they count and the destroyer's phases meaningful. |
| `PoolAccounts.NothingLeft` | src/thread_pool.c:377-389 | Past the drain loop the queue is empty and no worker holds a task. |
| `PoolTasks.StepKeepsTask` | src/thread_pool.c:32-43 | For each id, the times it was pushed are the times it is queued, in a worker's hand or executed. |
| `PoolTasks.StepKeepsId` | src/thread_pool.c:241-250 | No id is given out twice: it belongs to one unfinished submit or one push at most. |
| `PoolTasks.StepKeepsReturned` | src/thread_pool.c:257-266 | An id returned to a caller, or about to be, has been pushed. |
| `PoolTasks.ZeroTotalMeansRun` | src/thread_pool.c:302-317 | When the total is zero, what was pushed has been executed as often as it was pushed. |
| `PoolTasks.StepKeepsTaskInv` | src/thread_pool.c:16-54 | Every step of every thread keeps the account of each single task and the promise of each waiter. |
| `PoolStamps.StepKeepsStamps` | src/thread_pool.c:252-257 | Every step keeps stamps within the ids given out, an id unstamped until its submit stamps it, and a pass's due tasks among those stamped before it read its clock. |
| `PoolStamps.DueIsFirstStamps` | src/priority_queue.c:232-273 | Under a monotone clock a stamp is old enough for a pass if and only if it is among the first ones, up to the first that is not. |
| `PoolStamps.DueGrows` | src/priority_queue.c:255-256 | A later pass with the same threshold finds at least as many stamps old enough, also when more were taken in between. |
| `PoolStamps.LaterStampIsNotDue` | src/priority_queue.c:232-256 | A stamp taken after a pass read its clock is never old enough for that pass. |
| `PoolWakeups.StepKeepsAttended` | src/priority_queue.c:97-179 | While a worker sleeps on the queue, every queued task is matched by an owed signal or by a worker on its way. |
| `PoolWakeups.StepKeepsNoneDozes` | src/priority_queue.c:158-189 | Once destroy woke all workers, none is asleep on the queue or about to be. |
| `PoolWakeups.StepKeepsResume` | src/thread_pool.c:286-300 | A worker asleep in an unpaused pool always has a resume broadcast coming. |
| `PoolWakeups.StepKeepsDrain` | src/thread_pool.c:43-50 | A destroyer asleep on a drained pool keeps its owed signal through every step but a signal that goes to a waiter instead. |
| `PoolWakeups.StepKeepsWakeInv` | src/thread_pool.c:16-54 | Every step keeps the wakeup invariants of the queue and of the pause gate together. |
| `PoolTheorems.StepKeepsMutexes` | src/thread_pool.c:16-54 | No two threads ever hold the queue, the pause or the drain mutex together. |
| `PoolTheorems.ReachableInv` | src/thread_pool.c:16-401 | Every reachable state of a pool of any shape satisfies the whole invariant. |
| `PoolTheorems.Conservation` | src/thread_pool.c:250-263 | In every reachable state the total is the queued tasks plus those in workers' hands plus the submits between increment and push or rollback; below 65536 workers the busy count and the depth are exact. |
| `PoolTheorems.ShutdownHandshake` | src/thread_pool.c:365-389 | Past the spin no task is ever pushed again; past the drain loop nothing is queued or held, and every returned id was executed exactly once. |
| `PoolTheorems.NoPushAfterSpin` | src/thread_pool.c:225-266 | From any state of the invariant past the spin, no continuation pushes. |
| `PoolTheorems.WaitDelivers` | src/thread_pool.c:302-317 | When a wait ends its loop, every task whose submit returned before the wait began has been executed. |
| `PoolTheorems.NoLostQueueWakeup` | src/priority_queue.c:97-189 | With all workers asleep and a task queued some submit still owes its signal; after destroy's wake-up no worker sleeps on the queue again. |
| `PoolTheorems.NoLostResume` | src/thread_pool.c:286-300 | In every reachable state a worker asleep at the gate of an unpaused pool has a broadcast coming. |
| `PoolTheorems.NoLostDrainWakeup` | src/thread_pool.c:377-382 | Along every run in which no waiter sleeps on the condition beside the destroyer, the destroyer sleeps on a drained pool only while a worker stands between its decrement and its signal. |
| `PoolTheorems.NoLostDrainAfterWaits` | src/thread_pool.c:377-382 | The same along every run that begins after all waits have returned and calls no other. |
| `PoolTheorems.PauseBound` | src/thread_pool.c:21-36 | While a pool stays paused, its pops are at most the workers that were past the gate, hence at most one for each worker. |
| `PoolJoin.FreedAfterJoin` | src/thread_pool.c:386-400 | In every reachable state destroy is about to free the pool, or has, only if every worker has ended. |
| `PoolJoin.StepKeepsJoin` | src/thread_pool.c:386-387 | The workers below the one that destroy waits for have ended and never move again. |
| `PoolJoin.DestroyJoinsAging` | src/thread_pool.c:373-375 | Over any run in which no client disables aging beside destroy, past its call of disable_aging destroy finds the flag down and the aging thread gone. |
| `PoolQueue.PoolRefinesQueue` | src/priority_queue.c:69-151 | Over any run of all threads the lanes and the capacity are those of the bounded queue after the requests of the run: pushes with the priorities asked for, refused exactly at the capacity, pops of the head, promotions, and changes of the capacity. |
| `PoolQueue.PushLandsWhereAsked` | src/thread_pool.c:217-257 | A push puts its task last into the lane that the caller asked for when the call began. |
| `PoolQueue.LaneIsAskedFor` | src/priority_queue.c:69-83 | In every reachable state a queued task stands in a lane not below the priority asked for it, and in exactly that lane if aging was never enabled. |
| `PoolQueue.PoolWithinCapacity` | src/priority_queue.c:97-123 | From any state, until the capacity is set again, the queue of the pool exceeds it by no more than it did. |
| `PoolQueue.HighIsServed` | src/priority_queue.c:137-151 | Whatever the threads do, a task at position i of HIGH leaves the pool's queue after exactly i plus the tasks promoted into HIGH since, counted in pops. |
| `PoolCalls.SubmitCall` | src/thread_pool.c:217-267 | Over any run of all threads, a call for priority p returns an id only if it saw the pool running and pushed that task last into lane p of a queue below its capacity; it refuses only if it saw the shutdown, or a queue that had reached a capacity set during the call. |
| `PoolCalls.CallTakesNextId` | src/thread_pool.c:241-249 | The id of a call was taken from the counter by a step of that call, and the counter went on to the next. |
| `PoolCalls.CallReturns` | src/thread_pool.c:265-267 | The id that a call returns counts as returned from then on. |
| `PoolCalls.RefusedAfterShutdown` | src/thread_pool.c:227-232 | A call that starts after destroy was called never returns an id. |
| `PoolCalls.FullSubmitTakesNothing` | src/thread_pool.c:234-239 | A call that finds the queue full throughout takes no id and leaves the total alone. |
| `PoolCalls.AgingSubmitStamps` | src/thread_pool.c:252-253 | A task submitted while aging is on has a stamp when it is pushed. |
| `PoolCalls.PlainSubmitDoesNotStamp` | src/thread_pool.c:252-253 | A task submitted while aging is off has none. |
| `PoolCalls.WaitCall` | src/thread_pool.c:302-317 | A wait past its look at the pause has seen the pool unpaused or has resumed it, and it ends its loop only after an instant with a total of zero. |
| `PoolCalls.SignalAfterLast` | src/thread_pool.c:43-50 | A worker signals drain_cond only if its own decrement took the total to zero. |
| `PoolCalls.PauseCall` | src/thread_pool.c:277-284 | From a pause that starts before destroy, until a resume, a wait or destroy: the pool is paused, it pops at most once for each worker that was past the gate, and executes at most one more task for each worker that was past the gate or had one in hand. |
| `PoolCalls.PauseWakes` | src/thread_pool.c:282-283 | A pause that has returned has woken every worker from not_empty: at an instant of the call none slept there or was about to. |
| `PoolCalls.ResumeCall` | src/thread_pool.c:293-300 | From a resume until the next pause: the pool is unpaused, a worker at the gate goes on to its pop, and once the call has returned no worker sleeps there. |
| `PoolAging.PassLiftsOnce` | src/priority_queue.c:299-310 | From the start of a pass of the aging thread until the next begins, with any steps of the other threads, a task that is not served rises by one lane at most and never falls. |
| `PoolAging.PassIsQueuePass` | src/priority_queue.c:299-310 | A pass that nobody disturbs does to the pool's queue, its ids seen with their stamps, what `pq_aging` does: what is due in MEDIUM first, then what is due in LOW. |
| `PoolAging.PromotesEligible` | src/priority_queue.c:263-273 | At any time the thread promotes exactly the prefix that is eligible at the time it read. |
| `PoolAging.EnabledPass` | src/thread_pool.c:404-426 | The same of the first pass after aging is enabled, at any times and with any threshold. |
| `PoolAging.DisableCall` | src/thread_pool.c:428-442 | From a call that disables aging until it is enabled again: the flag stays down, and the thread only ends the pass it is in, with no more than one promotion from each lane. |
| `PoolAging.DisabledNeverPromotes` | src/thread_pool.c:100-101 | Once aging is off and the thread between two passes, nothing is promoted until aging is enabled again. |
| `PoolAging.ShutdownNeverPromotes` | src/priority_queue.c:258-259 | After shutdown no promotion begins. |
| `PoolAging.EnableCall` | src/thread_pool.c:404-426 | Enabling aging before destroy starts the thread, which goes on until a disable or destroy. |
| `PoolShutdown.DestroyFinishesIff` | src/thread_pool.c:369-401 | Past the spin, with any number of waiters, destroy can finish if and only if the queue is empty or some worker has not exited. |
| `PoolShutdown.DestroyFinishesQuietlyIff` | src/thread_pool.c:369-401 | Without spurious wakeups it can finish if and only if, besides, it does not sleep on a drained pool to which no worker owes a signal. |
| `PoolShutdown.DestroyFinishesAfterWaits` | src/thread_pool.c:369-401 | After all waits have returned, destroy can finish without spurious wakeups from wherever it has got to, if and only if no task is stranded. |
| `PoolShutdown.OverlookedForever` | src/thread_pool.c:377-382 | A destroyer asleep on a drained pool without an owed signal sleeps on in every run without spurious wakeups. |
| `PoolTermination.DestroyTerminates` | src/thread_pool.c:369-401 | Past the spin, with all waits over, no task stranded and no wakeup lost, every schedule without waits and spurious wakeups in which each worker, pauser, the aging thread and the destroyer step in each of enough rounds ends destroy; submits, resumes and settings may mix in. |
| `PoolTermination.StepCloser` | src/thread_pool.c:369-401 | In such a state no step of any thread takes workers, aging thread or destroyer farther from their end. |
| `PoolTermination.SomeoneAble` | src/thread_pool.c:369-401 | In such a state some thread exists whose own step, when it comes, brings the end closer. |
| `PoolShutdown.StrandedNeverEnds` | src/thread_pool.c:377-387 | A queue left without workers stays so in every continuation, and destroy never leaves its drain loop. |
| `PoolShutdown.UnstrandedStep` | src/priority_queue.c:158-179 | Past the spin no step strands a task that a worker could still take. |
| `PoolShutdown.WorkerStays` | src/priority_queue.c:166-170 | No worker exits while a task is queued. |
| `PoolShutdown.Advance` | src/thread_pool.c:369-401 | From every state past the spin with nothing stranded and no lost wakeup, some thread has a step that brings destroy closer to its end; it is no spurious wakeup and diverts no signal to a waiter. |
| `PoolShutdown.Complete` | src/thread_pool.c:369-401 | From every such state there is a schedule without spurious wakeups that ends destroy. |
| `PoolShutdown.DestroyCanHang` | src/priority_queue.c:166-170 | A state reached without spurious wakeups, whose returned task runs in no continuation and whose destroy ends in none. |
| `PoolShutdown.StrandedNeverRuns` | src/priority_queue.c:158-179 | From a stranded state no further task is ever executed. |
| `PoolStranding.DestroyStrandsIff` | src/thread_pool.c:228-257 | Counting spurious wakeups, a call of destroy can strand a task if and only if some submit stands between its shutdown check and its push. |
| `PoolQuietStranding.DestroyStrandsQuietlyIff` | src/thread_pool.c:228-257 | Without spurious wakeups it can if and only if, besides, fewer workers doze than there are submits in that window or owing a signal, or a pause still brings a broadcast, or an aging pass does for a task old enough when it read its clock. |
| `PoolQuietStranding.GuardedRun` | src/priority_queue.c:158-179 | While as many workers doze as there are submits in the window or owing a signal, and no broadcast comes, a queued task always has a worker left. |
| `PoolQuietStranding.DueQueuedStrands` | src/priority_queue.c:258-296 | A pass past its shutdown read with a task old enough for it anywhere in its lane can strand a task: workers serve what is ahead, and the pass then broadcasts. |
| `PoolQuietStranding.ComingStrands` | src/priority_queue.c:97-115 | Enough signals or a coming broadcast let every worker exit before the last push, for any mix of pausers, waiters and an aging pass. |
| `PoolQuietStranding.SleeperSavesTask` | src/priority_queue.c:166-172 | A reachable call of destroy that can strand a task, but only if the sleeping worker wakes for no reason. |
| `PoolStranding.WorkersExit` | src/priority_queue.c:166-170 | While the destroyer spins and signals suffice, all workers can exit, without spurious wakeups, with a submit still in its window. |
| `PoolStranding.ClosedAtCall` | src/thread_pool.c:225-232 | With no submit in that window at the call, no continuation strands a task. |
| `PoolStranding.OpenAtCall` | src/thread_pool.c:228-257 | With a submit in that window at the call, some continuation, possibly with spurious wakeups, ends the spin with a task stranded. |
| `PoolForgetting.UncappedForgetsIff` | src/thread_pool.c:302-317 | A pool with a submitter and a worker, and no capacity, has a run before destroy that leaves a waiter asleep on a drained pool with no signal owed, if and only if two threads may wait. |
| `PoolForgetting.CappedForgetsIff` | src/thread_pool.c:257-263 | If the capacity may be set, it has one if and only if a thread may wait. |
| `PoolDrain.RollbackForgets` | src/thread_pool.c:257-263 | A reachable state in which a refused submit rolls the total back to zero without a signal, after which the only waiter sleeps on in every run without steps of submits, destroy or spurious wakeups. |
| `PoolForgetting.WaitTakesSignal` | src/thread_pool.c:46-50 | A reachable state in which a waiter took the only signal: nothing is stranded, yet destroy ends in no run without spurious wakeups. |
| `PoolDrain.DrainCoveredIff` | src/thread_pool.c:43-50 | A step keeps every drain sleeper of a drained pool covered by an owed signal if and only if it is neither an unsignalled rollback to zero nor a last signal that leaves another sleeper; both kinds of step are reachable. |
| `PoolDrain.SoleWaiterIsWoken` | src/thread_pool.c:302-317 | With at most one waiter, no capacity and no destroy, no run loses the wakeup of the wait. |
| `PoolDrain.SecondWaiterForgotten` | src/thread_pool.c:302-317 | A reachable state in which the only task has run and a second waiter sleeps on in every run without steps of submits, destroy or spurious wakeups; settings may change. |
| `PoolDrain.ForgottenRun` | src/thread_pool.c:46-50 | A waiter asleep on an idle, drained pool with no signal owed sleeps on in every run without steps of submits, destroy or spurious wakeups. |

## Left out

- DestroyStrandsIff: for pools with at least one worker, as `thread_pool_init` demands; likewise DestroyStrandsQuietlyIff.
- UncappedForgetsIff: for pools with a submitter and a worker, the only ones in which a task can be run; likewise CappedForgetsIff.
- NoOverflow: for times below 9 * 10^9 seconds and durations below 9 * 10^12 milliseconds.
- ThreadPool.Step: the protocol of src/thread_pool.c is a state machine on values and not a class, because its threads interleave; update in place is modelled in the queue, the lock arrays, the time cell and the busy counter.
- The blocking pop is part of the pool protocol and not of the queue class, which has the pop without blocking.
- Weak memory: steps are sequentially consistent, also for `volatile` variables and relaxed atomics.
- The 64-bit size and depth and the 32-bit total do not wrap; labels and the lock counters are unbounded.
- Failure of `malloc` and of the pthread initialisers, null arguments and the errno values.
- The timed wait, the pause wait and the mutex of the aging thread: a pass may start whenever aging is on. In the pool the clock is the order of the stamps; the times themselves are in `Aging`, `Deadline` and `PoolStamps`.
- DestroyJoinsAging: for runs in which no client disables aging beside destroy, because the join of that call is not modelled.
- The broadcasts of pause_cond that serve the aging thread's pause wait have no effect here, since that wait is left out.
- Joining the aging thread in a client's own call of `thread_pool_disable_aging`; destroy's join is modelled. The pause broadcast of that call is an event of its own, which may come at any time.
- Calls on a freed pool, and pausing or enabling aging once destroy has begun: callers must not.
- The printed progress lines of the locks, which read the shared arrays again without effect.
- src/monitor.c, demo/, src/baseline/ and benchmark/: drawing, sockets, a simpler copy of the pool and measurement.
