# FreeRTOS kernel: a Dafny model

This project models the FreeRTOS V10.5.0 kernel under `FreeRTOS-Kernel/`, as configured by
`include/FreeRTOSConfig.h`: preemption, time slicing, generic task selection, 32-bit ticks,
56 priorities, mutexes, recursive mutexes and software timers.  `dafny verify dfyconfig.toml`
checks everything.

| file | what it models |
|---|---|
| `KernelConfig.dfy` | widths and constants of the build, tick arithmetic |
| `ListViews.dfy`, `IntrusiveList.dfy` | the intrusive list: its value as a sequence and a walking index, and the linked nodes on the heap |
| `TaskTables.dfy` | all task lists and control blocks, their containers, and counting |
| `SleepModel.dfy` | the reference: sleeping tasks on one timeline of unbounded time |
| `Refinement.dfy` | two delayed lists of wrapped values, decoded into that timeline |
| `PriorityRules.dfy` | priority setting, inheritance and disinheritance of one control block |
| `SchedulerState.dfy`, `Scheduling.dfy` | the scheduler: its invariant, and its calls as methods on mutable state |
| `Timeouts.dfy` | time limits of blocking calls, and periodic tasks |
| `Mutexes.dfy` | mutex accounting, recursive mutexes, priority inheritance |
| `Rings.dfy` | reading a ring of cells from some cell on |
| `QueueRing.dfy` | the byte ring of a queue, as a deque of items |
| `QueueWakeups.dfy` | the lock counts between tasks and interrupts |
| `TimerTables.dfy`, `Timers.dfy` | the timer daemon and its two lists |
| `EventGroups.dfy` | event groups |
| `StreamBuffer.dfy`, `StreamInterleaving.dfy` | stream and message buffers, run alone and with writer and reader interleaved byte by byte |
| `StreamRequests.dfy` | what is sent and received in such runs, traced back to what was asked for |
| `StreamWaiting.dfy` | how sender and receiver of such a buffer wait for and notify each other |

**Form.**  State that the C code updates in place is a class with those fields; its loops are
loops with invariants.  Each method is one critical section, one interrupt call, or one stretch
with the scheduler suspended, so a run of the kernel is a sequence of method calls and `Valid()`
is what every reachable state satisfies.  Ticks are what the code reads; ghost parameters beside
them are the instants of unbounded time those ticks stand for.  Callbacks of timers are counted
in a ghost multiset.

**The main results.**

- *Time.*  `Model()` decodes the wrapped tick and the two delayed lists into one timeline of
  unbounded wake times.  Every call of the scheduler is stated on it: a tick readies exactly the
  tasks whose time has come, and ticks deferred by a suspended scheduler come to the same as
  ticks taken at once (`DeferredTicksAgree`).  A task that blocks for n ticks is ready at the n-th and
  not before (`BlockedFor`).
- *Preemption.*  A tick, a resume of the scheduler, and each of the calls that create, resume or wake
  a task, or set or inherit a priority, asks for a switch exactly where the code compares priorities.
  If the running task had the highest priority of all ready tasks before, and no switch is asked
  for, it has it afterwards (`IncrementTick`, `ResumeAll`, `StillHighest`).  Giving a mutex is the
  exception, below.
- *Time slicing.*  The ready tasks of the highest priority take turns, one tick each (`TakeTurns`).
- *Task lists.*  Through create, delete, suspend, resume, block, wake, tick and priority changes
  the state lists partition the tasks, and containers agree with the lists (`TasksPartitioned`).
- *Wake-ups.*  Under every interleaving of tasks and interrupts there are, while a receiver waits, no
  more messages than woken receivers yet to retry, and dually for senders (`NoLostWakeup`).  An
  unlock wakes exactly as many tasks as calls were made, despite the cap (`ReceiverWindow`).
  `QueueLock.Run` says so over any series of critical sections and interrupts.
- *Mutexes.*  The holder runs no lower than any task that blocked during its hold and still waits
  (`HolderServesWaiters`, over runs `MutexSystem.Run`), and the accounting survives every operation.
- *Timers.*  When the daemon blocks, every timer has had exactly the callbacks due since the last
  message that named it (`RunTask`).
- *Event groups.*  Setting bits releases exactly the waiters that are met, and nobody who is met
  is ever left waiting.
- *Queues.*  The byte ring is a deque: first in first out with sends to the back (`Queue.Run`), last in
  first out with sends to the front (`LastInFirstOut`).
- *Buffers.*  What is received is a prefix of what was sent, byte by byte and message by message, for
  every interleaving; what was sent is what was asked for, request by request (`MessagesAsked`,
  `BytesAsked`); and neither side of a stream buffer misses the notification it waits for
  (`StreamWaiting.NoWakeupLost`).

**Where the code does less than one might expect.**  Each has a theorem with the exact condition,
and an input that fails.

- The comments in `include/list.h:335-346` and `list.c:109-111` say that an item inserted at the end
  is the last to be visited.  This holds if and only if the index is on the marker
  (`InsertEndIsLastIff`); otherwise the indexed item comes last (`InsertEndNotLast`).
- Blocking for no ticks at the last tick before a wrap breaks the assertion of
  `taskSWITCH_DELAYED_LISTS`, and no other block does (`BlockingIsSafeIff`, `BlockedAtLastTick`).
  The timer daemon can ask for a block of no ticks, but only at tick 0 (`TakeTurn`).
- `xTaskCheckForTimeOut` decides rightly if and only if it runs within a full turn of the tick count,
  or sees the turn by a changed wrap count and a tick that is not smaller, or sees enough of the
  wait anyway (`ExpiryIsTrueIff`, `ExpiryMissed`).  `xTaskDelayUntil` plans the right sleep if and
  only if the call is not before the previous wake time, and is less than a full turn late or looks
  a period late (`SleepsUntilNextWakeIff`, `LateCallSleeps`).  A task that is suspended and resumed
  in its sleep calls early; it then sleeps too short a time or not at all (`EarlyCallReturns`).
- An overwriting send on a full semaphore, a queue of length one with items of size zero, counts
  past the length, and nothing else does (`Queue.TrySend`, `FullSemaphoreOverwritten`).
- A reset of a queue wakes one waiting sender.  It loses no wake-up if and only if no second sender
  waits or as many are on their way as there are spaces (`QueueLock.Reset`, `ResetStrandsSender`).
- `vTaskPrioritySet` on a boosted task can put the base priority above the priority in use
  (`MutexSystem.PrioritySet`) and the event item value out of step with it
  (`SetPriorityKeepsEventValueIff`, `BoostedTaskReprioritised`).
- Giving a mutex wakes its first waiter and forgets that the giver has lost an inherited priority.  A
  ready task is left above the running one, and no switch asked for, if and only if the last mutex of
  a boosted holder is given, its first waiter is no higher than the base priority, and another ready
  task is (`Scheduler.GiveMutex`, `LastGiveMissesSwitch`, and the calls that lead there,
  `GivesOutOfOrder`).
- Priority inheritance is not transitive.  Blocking keeps its promise if and only if the holder need
  not be raised, or every holder it waits for itself already runs at the new priority
  (`BlockKeepsPromiseIff`); a chain of two breaks it (`ChainOfTwo`).  For `vTaskPrioritySet` the
  condition is in `PriorityKeepsPromiseIff` (`LoweredBelowWaiter`).
- The timer daemon follows the epochs if and only if it samples the tick more often than once a full
  turn (`EpochFollowedIff`, `EpochMissed`), which matters only while a timer is active (`RunTask`).
  It judges a late command rightly if and only if the command waited less than a full turn, or what
  is seen of the wait is already a period (`LateCommandJudgedIff`, `LateCommandMissed`).
- Sender and receiver of a stream buffer can both sleep, each waiting for the other, if and only if
  the bytes to send, at most the capacity, and the trigger level exceed the capacity plus one
  (`BothSleepIff`, `NineBytesBothSleep`).  On a message buffer they never do
  (`MessageBuffersNeverBothSleep`).

## Model

| member | source | states |
|---|---|---|
| IntrusiveList.List.constructor | FreeRTOS-Kernel/list.c:50-83 | an initialised list is a lone marker linked to itself, with the index on it and the greatest value |
| IntrusiveList.List.InsertEnd | FreeRTOS-Kernel/list.c:98-125 | the linked nodes afterwards are the old ones with the item just before the indexed node; the index stays on its node |
| IntrusiveList.List.FindInsertionPoint | FreeRTOS-Kernel/list.c:148-188 | the walk ends because of the value of the marker, behind the last item whose value is not greater, and behind all items for the greatest value |
| IntrusiveList.List.Insert | FreeRTOS-Kernel/list.c:128-196 | stable sorted insertion: the keys stay sorted and the item goes after every equal one, the greatest value included |
| IntrusiveList.List.Detach | FreeRTOS-Kernel/list.c:199-225 | removal leaves the other items linked in their order, steps an index on the item back, and returns the new length |
| IntrusiveList.List.Remove | FreeRTOS-Kernel/include/list.h:314-328 | the item finds its list through its container, leaves it, and afterwards has none |
| IntrusiveList.List.GetOwnerOfNextEntry | FreeRTOS-Kernel/include/list.h:285-297 | the index moves to the next item, past the marker, and the owner of that item is returned |
| ListViews.VisitsFollowRotation | FreeRTOS-Kernel/include/list.h:266-297 | n calls return the first n entries of the rotation, and rotate it by n |
| ListViews.FullTurnVisitsAll | FreeRTOS-Kernel/include/list.h:266-297 | as many calls as there are items return every item exactly once, and restore the order of visits |
| ListViews.RemoveKeepsRotation | FreeRTOS-Kernel/list.c:199-225 | removing any item, the one under the index included, takes just that item out of the rotation |
| ListViews.InsertEndRotation | FreeRTOS-Kernel/include/list.h:335-377 | where in the rotation a new item appears: last with the index on the marker, otherwise last but one |
| ListViews.InsertEndIsLastIff | FreeRTOS-Kernel/list.c:98-125 | the documented promise that the new item is visited last holds if and only if the index is on the marker |
| ListViews.InsertEndNotLast | FreeRTOS-Kernel/list.c:98-125 | a list of one item under the index: the item inserted at its end is visited first |
| ListViews.InsertThenRemove | FreeRTOS-Kernel/list.c:128-225 | removing an item just inserted restores items and index |
| ListViews.SortedInsertion | FreeRTOS-Kernel/list.c:128-196 | inserting at the sorted position keeps a list sorted, after equals and before everything greater |
| TaskTables.Db.ListsPartitionTasks | FreeRTOS-Kernel/tasks.c:221-225 | if lists and containers agree, the lengths of all state lists add up to the number of tasks |
| TaskTables.Db.DetachConsistent | FreeRTOS-Kernel/list.c:199-225 | taking an item off its list keeps list contents and containers in agreement, for every task |
| TaskTables.Db.AttachConsistent | FreeRTOS-Kernel/list.c:98-125 | so does putting an item that is on no list onto one |
| TaskTables.Db.RelocateStateFirst | FreeRTOS-Kernel/tasks.c:1685-1704 | off the state list, off any event list, onto another state list: everything still agrees and only this task moved |
| TaskTables.Db.RelocateEventFirst | FreeRTOS-Kernel/tasks.c:2199-2202 | the same with the event item leaving first |
| SchedulerState.TasksPartitioned | FreeRTOS-Kernel/tasks.c:221-225 | the state lists partition the tasks, a ready task is on the list of its priority, every event item is on at most the one list its container names, and the list lengths sum to the task count |
| SleepModel.SoundAdvance | FreeRTOS-Kernel/tasks.c:2716-2826 | in unbounded time: letting time pass keeps a timeline that holds exactly the timed tasks, each once, in wake order |
| SleepModel.SoundSleep | FreeRTOS-Kernel/tasks.c:5288-5359 | going to sleep keeps such a timeline |
| SleepModel.AdvanceReleaseHead | FreeRTOS-Kernel/tasks.c:2753-2826 | releasing a due head of the timeline is part of what the time brings anyway, so the unblocking loop may stop or go on there |
| SleepModel.AdvanceCompose | FreeRTOS-Kernel/tasks.c:2232-2254 | ticks taken one by one, in groups or all at once lead to the same timeline and ready tasks |
| Refinement.ModelSound | FreeRTOS-Kernel/tasks.c:201-213 | the two wrapped lists, decoded, form one sound timeline of unbounded wake times |
| Refinement.NextTickModel | FreeRTOS-Kernel/tasks.c:201-213 | a tick increments the decoded time also when the count wraps and the lists are switched, provided the current list is empty then |
| Refinement.HeadDueIff | FreeRTOS-Kernel/tasks.c:2750-2784 | the head of the current list alone decides whether any task is due |
| Refinement.QueuedModel | FreeRTOS-Kernel/tasks.c:5330-5353 | inserting by wrapped value into the current or overflow list is sleeping until the true wake time |
| SchedulerState.PlacedByEpoch | FreeRTOS-Kernel/tasks.c:5330-5353 | a timed task is on the current delayed list if and only if its true wake time is in the current wrap epoch, and on the overflow list if and only if it is in the next |
| SchedulerState.EmptyAtWrap | FreeRTOS-Kernel/tasks.c:201-206 | the assertion of the list switch: at a wrap no task is left on the current delayed list |
| SchedulerState.BlockingIsSafeIff | FreeRTOS-Kernel/tasks.c:5288-5359 | blocking keeps that assertion safe if and only if it is for at least one tick or not at the last tick before a wrap |
| SchedulerState.BlockedAtLastTick | FreeRTOS-Kernel/tasks.c:201-206 | the only task blocks for no ticks at the last tick before a wrap: it would still be listed at the switch |
| SchedulerState.HeadIsLeast | FreeRTOS-Kernel/tasks.c:3990-4008 | the head of a delayed list has the least wake value on it |
| SchedulerState.UnblockRound | FreeRTOS-Kernel/tasks.c:2753-2817 | one round of the unblocking loop keeps the invariant and is one release in unbounded time |
| SchedulerState.WakeInstant | FreeRTOS-Kernel/tasks.c:5330-5333 | the wrapped sum of tick and block time, read in the epoch of its list, is the true wake time |
| SchedulerState.StillHighest | FreeRTOS-Kernel/tasks.c:2172-2281 | tasks released and ticks taken without a request to yield leave the running task the highest of the ready tasks |
| SchedulerState.TicksYieldStep | FreeRTOS-Kernel/tasks.c:2232-2254 | the request to yield of n + 1 ticks is that of the first n joined with that of the last |
| Scheduling.Scheduler.constructor | FreeRTOS-Kernel/tasks.c:1026-1049 | the first task created: it is ready, is to run, and the invariant holds |
| Scheduling.Scheduler.CreateBeforeStart | FreeRTOS-Kernel/tasks.c:1026-1081 | after any creations before the start every task is ready at its priority, and the one to run is the last created of those of the highest priority |
| Scheduling.Scheduler.StartScheduler | FreeRTOS-Kernel/tasks.c:1952-2074 | the start, after any creations in any order: the invariant holds, no sleeper is expected, and the running task has the highest priority of all |
| Scheduling.Scheduler.AddTaskToReadyList | FreeRTOS-Kernel/tasks.c:221-225 | the task goes to the end of the ready list of its priority, and the recorded top priority stays an upper bound of the ready lists in use |
| Scheduling.Scheduler.ResetNextTaskUnblockTime | FreeRTOS-Kernel/tasks.c:3990-4008 | the next unblock time is the wake value of the head, no later than any other on the current list, or the greatest tick if the list is empty |
| Scheduling.Scheduler.UnblockDueTasks | FreeRTOS-Kernel/tasks.c:2753-2817 | exactly the tasks due by now become ready, whatever their order, and a switch is asked for if and only if one has at least the priority of the running task |
| Scheduling.Scheduler.SwitchDelayedLists | FreeRTOS-Kernel/tasks.c:201-213 | the lists change roles, the wrap is counted and the next unblock time is valid for the new list |
| Scheduling.Scheduler.IncrementTick | FreeRTOS-Kernel/tasks.c:2716-2886 | one tick: time advances by one and exactly the due tasks are ready, or, suspended, one tick is pended; a switch is requested if and only if one was pending, a task of at least the running priority has become ready, or another task is ready at that priority; and without a request the running task is still the highest |
| Scheduling.Scheduler.SuspendAll | FreeRTOS-Kernel/tasks.c:2088-2106 | the nesting count grows, and nothing else about the tasks changes |
| Scheduling.Scheduler.DrainPendingReady | FreeRTOS-Kernel/tasks.c:2196-2214 | all parked tasks become ready in order, the list is empty, and a yield is noted if and only if one of them has at least the running priority |
| Scheduling.Scheduler.CatchUp | FreeRTOS-Kernel/tasks.c:2232-2254 | all pended ticks are taken, each as a tick interrupt would, and a yield becomes pending if and only if a task of at least the running priority has become ready, or ticks were taken while two were ready at it |
| Scheduling.Scheduler.ResumeAll | FreeRTOS-Kernel/tasks.c:2172-2281 | only the outermost call makes the parked tasks ready and takes the pended ticks; the result is the unbounded-time model advanced by them; the yield is pending if and only if it was, a task of at least the running priority has become ready, or ticks were taken while another task was ready at that priority; without it the running task is still the highest |
| Scheduling.DeferredTicksAgree | FreeRTOS-Kernel/tasks.c:2088-2281 | n ticks while suspended and then the resume give the same time, sleepers and ready tasks as n ticks at once, for every n and any context switches in between |
| Scheduling.TicksAreCounted | FreeRTOS-Kernel/tasks.c:2088-2886 | however suspending and resuming the scheduler nest, the tick count and the pended ticks together count every tick interrupt |
| Scheduling.TakeTurns | FreeRTOS-Kernel/tasks.c:2828-2836 | time slicing: of n ready tasks that share the highest priority each runs for exactly one of n ticks, if each tick is followed by the switch it asks for and no task of that priority or above wakes |
| Scheduling.BlockedFor | FreeRTOS-Kernel/tasks.c:5288-5359 | a task that blocks for some ticks is ready after n tick interrupts if and only if n is at least as many, and not zero; one that blocks indefinitely never is |
| Scheduling.SuspendThenResume | FreeRTOS-Kernel/tasks.c:1671-1869 | a task that is suspended and resumed is ready and waits for nothing, whatever it waited for before |
| Scheduling.Scheduler.FindTopPriority | FreeRTOS-Kernel/tasks.c:130-146 | with a task ready, the search ends without its assertion failing, at the highest list in use |
| Scheduling.Scheduler.SwitchContext | FreeRTOS-Kernel/tasks.c:3001-3071 | a ready task of maximal priority runs next, the next one in the turn of its list |
| SchedulerState.HighestReady | FreeRTOS-Kernel/tasks.c:126-151 | a task of the highest non-empty ready list has maximal priority among all ready tasks |
| Scheduling.Scheduler.AddCurrentTaskToDelayedList | FreeRTOS-Kernel/tasks.c:5288-5359 | the running task sleeps until the true now plus its block time, or indefinitely; the list switch stays safe if and only if the wait is at least one tick or it is not the last tick before a wrap |
| Scheduling.Scheduler.PlaceOnEventList | FreeRTOS-Kernel/tasks.c:3075-3097 | the running task joins the event list behind the tasks whose event value is not greater and sleeps, both in one step of the model; the invariant is kept under the same condition |
| Scheduling.Scheduler.PlaceOnUnorderedEventList | FreeRTOS-Kernel/tasks.c:3100-3123 | the running task joins the end of the event list with the given item value, its top bit set, and sleeps; the invariant is kept under the same condition |
| Scheduling.Scheduler.RemoveFromEventList | FreeRTOS-Kernel/tasks.c:3161-3226 | the first waiter becomes ready, or is parked while the scheduler is suspended; a yield is pending if and only if it has a higher priority; the running task is the highest afterwards if and only if it was and no higher task was released |
| Scheduling.Scheduler.RemoveFromUnorderedEventList | FreeRTOS-Kernel/tasks.c:3229-3275 | the chosen waiter is told the value and becomes ready, and a yield is pending if it is higher; the running task is the highest afterwards if and only if it was and the waiter is not above it |
| Scheduling.Scheduler.Suspend | FreeRTOS-Kernel/tasks.c:1671-1770 | the task leaves every list for the suspended list, wherever it was |
| Scheduling.Scheduler.Resume | FreeRTOS-Kernel/tasks.c:1777-1869 | a task on the suspended list that waits for no event becomes ready, and a switch is asked for if and only if it has at least the running priority; any other call changes nothing; without a switch the running task is still the highest |
| Scheduling.Scheduler.Delete | FreeRTOS-Kernel/tasks.c:1112-1207 | the running task is left to the idle task, any other leaves every list and is gone; the counts follow |
| Scheduling.Scheduler.CheckTasksWaitingTermination | FreeRTOS-Kernel/tasks.c:3681-3706 | exactly the tasks that were not terminated are left |
| Scheduling.Scheduler.FreeFirstTerminated | FreeRTOS-Kernel/tasks.c:3691-3703 | one terminated task is freed |
| Scheduling.Scheduler.CreateTask | FreeRTOS-Kernel/tasks.c:1026-1107 | a fresh task is ready at its priority, and nothing else changes; without a switch the running task is still the highest |
| Scheduling.Scheduler.ChangePriority | FreeRTOS-Kernel/tasks.c:1625-1644 | a ready task moves to the ready list of its new priority; time and waiting do not change |
| Scheduling.Scheduler.PrioritySet | FreeRTOS-Kernel/tasks.c:1505-1662 | the base priority changes, the priority in use only if it is not inherited, an item value an event group has borrowed not at all, and the lists follow; exactly when a switch is asked for, and without one the running task is still the highest |
| Scheduling.Scheduler.PriorityInherit | FreeRTOS-Kernel/tasks.c:4058-4141 | the holder runs at the higher of its priority and the running one, at its old base, and exactly when inheritance is reported; the running task stays the highest |
| Scheduling.Scheduler.PriorityDisinherit | FreeRTOS-Kernel/tasks.c:4148-4221 | one mutex fewer is held, and only with the last one an inherited priority is given back; the running task is then no longer the highest if and only if another ready task is above its base priority |
| Scheduling.Scheduler.PriorityDisinheritAfterTimeout | FreeRTOS-Kernel/tasks.c:4228-4327 | the holder of exactly one mutex goes to the higher of its base and the highest waiter, otherwise nothing changes; and exactly when the running task is still the highest |
| Scheduling.Scheduler.GiveMutex | FreeRTOS-Kernel/queue.c:929-956 | a give disinherits and then wakes the first waiter, and asks for a switch if that waiter is higher, or, with no waiter, if the priority was given back; a ready task is left above the running one without a switch if and only if the last mutex of a boosted holder is given, its first waiter is no higher than the base priority, and another ready task is |
| SchedulerState.LastGiveMissesSwitch | FreeRTOS-Kernel/queue.c:929-956 | such a state: a holder of base 1 at the priority 5 of a task that has already got its mutex gives its last one to a waiter of priority 1 |
| SchedulerState.ReprioritisedHighestIff | FreeRTOS-Kernel/tasks.c:1625-1644 | after a change of priority the running task is the highest if and only if, its own priority changed, no other ready task is above the new one, or, another ready task changed, that is not above it |
| Scheduling.Scheduler.DelayUntil | FreeRTOS-Kernel/tasks.c:1214-1294 | the running task sleeps for exactly what PlanDelay says, the stored wake time moves on by the increment, and ticks that arrive meanwhile are taken on top, however many |
| Timeouts.ElapsedTicks | FreeRTOS-Kernel/tasks.c:3309-3310 | the difference of two tick counts is the elapsed time modulo the range, however often the count wrapped |
| Timeouts.TurnSeenIsTrue | FreeRTOS-Kernel/tasks.c:3334-3343 | a changed wrap count with a tick that is not smaller is always a full turn |
| Timeouts.TimeOut.CheckForTimeOut | FreeRTOS-Kernel/tasks.c:3298-3360 | expiry if and only if the elapsed time the code can see has reached the wait: all of it if the wrap count changed and the tick is not smaller, else modulo the range; otherwise the remaining wait is the rest, counted from now; an indefinite wait never expires |
| Timeouts.TimeOut.Retry | FreeRTOS-Kernel/queue.c:853-1042 | over any checks at any instants, remaining plus seen time is the requested wait, and the first check reported as expired is the first by which the wait is seen over; where every check sees its elapsed time, these are the true times |
| Timeouts.SeenByIsTrueIff | FreeRTOS-Kernel/tasks.c:3334-3360 | over any series of checks, what is seen in all is the true elapsed time if and only if every single check sees its own |
| Timeouts.SeenIsTrueIff | FreeRTOS-Kernel/tasks.c:3334-3343 | the elapsed time seen is the true one if and only if the check is within a full turn, or sees the turn by a changed wrap count and a tick that is not smaller |
| Timeouts.ExpiryIsTrueIff | FreeRTOS-Kernel/tasks.c:3334-3355 | the expiry decision is right if and only if the elapsed time is seen, or what is seen of it has already reached the wait |
| Timeouts.ExpiryMissed | FreeRTOS-Kernel/tasks.c:3334-3355 | entered at the last tick and checked a full turn and a tick later, a wait of 5 goes on |
| Timeouts.WakeTimesDoNotDrift | FreeRTOS-Kernel/tasks.c:1230-1266 | the stored wake times are start, start + increment, start + 2 * increment and so on |
| Timeouts.SleepsUntilNextWakeIff | FreeRTOS-Kernel/tasks.c:1230-1273 | for any previous wake time, call and increment: a call sleeps for exactly the rest of the period if and only if it is not before the previous wake time, and is less than a full turn of the counter late or late by a visible remainder of a period or more |
| Timeouts.LateCallSleeps | FreeRTOS-Kernel/tasks.c:1230-1273 | a call two ticks more than a full turn late sleeps for 3 ticks |
| Timeouts.EarlyCallReturns | FreeRTOS-Kernel/tasks.c:1230-1266 | a call 40 ticks before the previous wake time, as after an early resume, does not sleep at all, with 90 ticks to go |
| Timeouts.PeriodicTask | FreeRTOS-Kernel/tasks.c:1214-1294 | call number n of a task that is neither early nor a full turn late wakes it at start + (n + 1) * increment |
| PriorityRules.InheritanceKeepsEventValue | FreeRTOS-Kernel/tasks.c:4074-4082 | inheriting and disinheriting keep the event item value in step with the priority |
| PriorityRules.SetPriorityKeepsEventValueIff | FreeRTOS-Kernel/tasks.c:1592-1615 | setting the priority keeps them in step if and only if the task is not boosted or gets the priority it runs at |
| PriorityRules.BoostedTaskReprioritised | FreeRTOS-Kernel/tasks.c:1576-1622 | a task of base priority 2 that runs at 5: a new base of 9 is above it, and one of 3 is what the event lists see |
| Mutexes.MutexSystem.CreateMutex | FreeRTOS-Kernel/queue.c:542-565 | a new mutex is available and held by nobody |
| Mutexes.MutexSystem.Take | FreeRTOS-Kernel/queue.c:1553-1598 | taking: count 0, the taker is the holder and holds one more; refused if and only if somebody holds it |
| Mutexes.MutexSystem.Block | FreeRTOS-Kernel/queue.c:1651-1673 | the holder is raised to the higher of the two priorities; the task joins the waiters behind all that are not lower; whatever the waiters hold, the promise of inheritance is kept if and only if the holder need not be raised or waits only for mutexes whose holders already run at the new priority |
| Mutexes.MutexSystem.StopWaiting | FreeRTOS-Kernel/tasks.c:2787-2796 | a waiter that times out leaves the list; every other promise stays |
| Mutexes.MutexSystem.DisinheritAfterTakeTimeout | FreeRTOS-Kernel/queue.c:1702-1723 | after a time-out the holder, whoever it is by then, keeps at least the priority of every task still waiting; with this mutex alone held it runs at its base priority or at that of one of them, and with nobody waiting at its base |
| Mutexes.MutexSystem.Give | FreeRTOS-Kernel/queue.c:2195-2209 | giving: nobody holds it, the waiter of the highest priority leaves the list, and the priority goes back to the base with the last mutex |
| Mutexes.MutexSystem.PrioritySet | FreeRTOS-Kernel/tasks.c:1505-1662 | accounting survives any priority change; priority falls below base if and only if a boosted base is set above the priority in use; and, whatever the task holds or waits for, exactly when the promise of inheritance survives |
| Mutexes.MutexSystem.HolderServesWaiters | FreeRTOS-Kernel/tasks.c:4058-4141 | in every state with the invariant the holder runs no lower than any task that blocked during its hold and still waits |
| Mutexes.MutexSystem.Run | FreeRTOS-Kernel/queue.c:542-2209 | over any series of creations, takes, waits, time-outs, gives and priority changes, up to the first call that is not plain, the accounting holds and every holder serves its waiters |
| Mutexes.MutexSystem.TakeRecursive | FreeRTOS-Kernel/queue.c:723-758 | the holder only counts up; anybody else takes if the mutex is free, and otherwise, if it may wait, raises the holder and joins the waiters |
| Mutexes.MutexSystem.GiveRecursive | FreeRTOS-Kernel/queue.c:668-715 | the mutex is released by exactly the give that matches the first take; a give by anybody else changes nothing |
| Mutexes.MutexSystem.NestedUse | FreeRTOS-Kernel/queue.c:668-758 | after each of any series of takes and gives by one task, the mutex is held exactly while there are more takes than gives |
| Mutexes.MutexSystem.ChainOfTwo | FreeRTOS-Kernel/tasks.c:4058-4141 | inheritance is not transitive: the end of a chain of two runs only at the priority of its middle, and the promise is broken |
| Mutexes.MutexSystem.GivesOutOfOrder | FreeRTOS-Kernel/tasks.c:4148-4221 | the calls that lead to a missed switch: a holder gives the mutex the high task waits for first and its last one to a waiter that is no higher than it, and ends at its base priority below the high task, which waits for nothing |
| Mutexes.TakeAccounts | FreeRTOS-Kernel/queue.c:1569-1579 | taking keeps count, holder and held mutexes in agreement, for every task and mutex |
| Mutexes.GiveAccounts | FreeRTOS-Kernel/tasks.c:4161-4187 | so does giving, and a task that holds no mutex runs at its base priority |
| Mutexes.BlockInherits | FreeRTOS-Kernel/queue.c:1659-1672 | blocking keeps the inheritance promise for every mutex |
| Mutexes.BlockKeepsPromiseIff | FreeRTOS-Kernel/tasks.c:4058-4141 | in any state that keeps the promise, with any mutexes held by waiters, blocking keeps it if and only if the holder is not raised, or no holder it waits for runs below the new priority |
| Mutexes.PriorityKeepsPromiseIff | FreeRTOS-Kernel/tasks.c:1576-1622 | in any state that keeps the promise, another priority for any task keeps it if and only if, raised, the task waits only for mutexes whose holders run at that priority, and, lowered, it holds none that a higher task waits for |
| Mutexes.LoweredBelowWaiter | FreeRTOS-Kernel/tasks.c:1576-1622 | a holder that is set below its waiter breaks the promise |
| Mutexes.HeadIsHighest | FreeRTOS-Kernel/queue.c:2159-2179 | the head of the waiters has the highest priority of them all |
| Mutexes.LoweredInherits | FreeRTOS-Kernel/tasks.c:4245-4280 | lowering the holder of a single mutex to its highest waiter keeps the promise for every mutex |
| Mutexes.GiveInherits | FreeRTOS-Kernel/tasks.c:4161-4194 | giving one of several mutexes keeps the promise for the others |
| QueueRing.CopyToSlot | FreeRTOS-Kernel/queue.c:2212-2229 | copying an item to the offset of a slot changes that slot and no other, for every item size |
| QueueRing.RingPushBack | FreeRTOS-Kernel/queue.c:2212-2224 | writing behind the last item appends to the sequence in the ring |
| QueueRing.RingPushFront | FreeRTOS-Kernel/queue.c:2226-2238 | writing one slot before the first item puts it in front |
| QueueRing.RingPopFront | FreeRTOS-Kernel/queue.c:2267-2285 | moving the read position on takes the first item off |
| QueueRing.Queue.constructor | FreeRTOS-Kernel/queue.c:494-536 | a new queue is empty |
| QueueRing.Queue.Reset | FreeRTOS-Kernel/queue.c:296-316 | a reset queue is empty and fit for use, wherever the pointers were |
| QueueRing.Queue.WriteBehind | FreeRTOS-Kernel/queue.c:2212-2224 | the write pointer goes around the ring and only the free slot behind the items is written |
| QueueRing.Queue.WriteAhead | FreeRTOS-Kernel/queue.c:2226-2238 | the read pointer goes back around the ring and only the slot it stood on is written |
| QueueRing.Queue.CopyDataToQueue | FreeRTOS-Kernel/queue.c:2184-2263 | push-back, push-front and, for a queue of one, replace, on the sequence of items |
| QueueRing.Queue.CopyDataFromQueue | FreeRTOS-Kernel/queue.c:2267-2285 | the bytes copied out are the oldest item |
| QueueRing.Queue.TrySend | FreeRTOS-Kernel/queue.c:856-956 | a send goes in, behind the items, before them or in place of the only one, if there is room or it overwrites, and otherwise changes nothing; the count exceeds the length exactly when a full semaphore is overwritten |
| QueueRing.Queue.TryReceive | FreeRTOS-Kernel/queue.c:1409-1440 | the oldest item is handed out and removed, or the queue is empty and unchanged |
| QueueRing.Queue.TryPeek | FreeRTOS-Kernel/queue.c:1770-1785 | the oldest item is handed out, and contents and read pointer are unchanged |
| QueueRing.Queue.Run | FreeRTOS-Kernel/queue.c:2184-2285 | any run of sends, receives and peeks on the byte ring hands out and takes in what the deque does: first in first out with sends to the back, and without overwrites nothing is lost |
| QueueRing.FullSemaphoreOverwritten | FreeRTOS-Kernel/queue.c:2240-2258 | a full binary semaphore that is overwritten counts two |
| QueueRing.FirstInFirstOut | FreeRTOS-Kernel/queue.c:2184-2285 | over any run with sends to the back, what came out and what is left is what was there and what went in, in order |
| QueueRing.NothingLost | FreeRTOS-Kernel/queue.c:2184-2285 | over any run without overwrites no item is lost, invented or duplicated, and the length is never exceeded |
| QueueRing.LastInFirstOut | FreeRTOS-Kernel/queue.c:2226-2285 | sends to the front and as many receives hand the items out in reverse order and leave the older ones as they were |
| QueueRing.OverwriteThenReceive | FreeRTOS-Kernel/queue.c:2236-2285 | what overwrites the only item is what the next receive hands out |
| QueueRing.FrontComesOutNext | FreeRTOS-Kernel/queue.c:2226-2285 | on runs: an item sent to the front, and any calls that restore the queue, and the next receive hands out that item and restores the contents before it |
| QueueRing.FrontsReversed | FreeRTOS-Kernel/queue.c:2226-2285 | on runs: any series of sends to the front with room and as many receives come out in reverse order |
| QueueWakeups.QueueLock.NoLostWakeup | FreeRTOS-Kernel/queue.c:251-293 | while a receiver waits there are no more messages than woken receivers yet to retry, while a sender waits no more free spaces than woken senders; so with nobody on the way a waiting receiver means an empty queue, a waiting sender a full one |
| QueueWakeups.QueueLock.Run | FreeRTOS-Kernel/queue.c:251-2466 | over any series of critical sections of tasks, interrupt calls, time-outs and resets, in any order the calls allow, no wake-up is lost, up to the first reset that strands a sender |
| QueueWakeups.QueueLock.TryReceive | FreeRTOS-Kernel/queue.c:1403-1440 | the first critical section of a receive: a message out, a sender woken, and the invariant kept |
| QueueWakeups.QueueLock.TryPeek | FreeRTOS-Kernel/queue.c:1763-1808 | a peek passes its wake-up on to the next receiver |
| QueueWakeups.QueueLock.TrySend | FreeRTOS-Kernel/queue.c:856-956 | the first critical section of a send, overwriting included, also of a full semaphore: a receiver is woken if one waits |
| QueueWakeups.QueueLock.Lock | FreeRTOS-Kernel/queue.c:251-264 | both counts start at zero |
| QueueWakeups.QueueLock.CheckEmpty | FreeRTOS-Kernel/queue.c:2408-2425 | the answer, and that posts after it are on record until the unlock |
| QueueWakeups.QueueLock.CheckFull | FreeRTOS-Kernel/queue.c:2449-2466 | the same for a queue found full |
| QueueWakeups.QueueLock.WaitToReceive | FreeRTOS-Kernel/queue.c:1477-1482 | joining the receivers with the queue locked, after any number of interrupts, loses no wake-up |
| QueueWakeups.QueueLock.WaitToSend | FreeRTOS-Kernel/queue.c:1005-1008 | joining the senders likewise |
| QueueWakeups.QueueLock.WakeReceivers | FreeRTOS-Kernel/queue.c:2301-2370 | the loop wakes exactly the first min(count, waiters) tasks |
| QueueWakeups.QueueLock.WakeSenders | FreeRTOS-Kernel/queue.c:2381-2400 | so does the loop over the senders |
| QueueWakeups.QueueLock.UnlockTx | FreeRTOS-Kernel/queue.c:2296-2374 | exactly the first min(posts, waiters) receivers are woken, for the true number of posts since the lock, whatever the cap, and no message is left unannounced to a waiter |
| QueueWakeups.QueueLock.UnlockRx | FreeRTOS-Kernel/queue.c:2377-2404 | the same for messages removed, senders and free spaces |
| QueueWakeups.QueueLock.Unlock | FreeRTOS-Kernel/queue.c:2290-2405 | both critical sections: exactly min(posts, waiters) receivers and min(removals, waiters) senders are woken |
| QueueWakeups.QueueLock.StopWaiting | FreeRTOS-Kernel/tasks.c:2787-2796 | a time-out takes a task off its list without upsetting the counts |
| QueueWakeups.QueueLock.IncrementTxLock | FreeRTOS-Kernel/queue.c:271-279 | the capped count stands for one post more and never reaches the value its assertion forbids |
| QueueWakeups.QueueLock.IncrementRxLock | FreeRTOS-Kernel/queue.c:286-294 | the same for the other count |
| QueueWakeups.QueueLock.SendFromIsr | FreeRTOS-Kernel/queue.c:1083-1204 | an interrupt send wakes the first receiver of an unlocked queue, or is put on record |
| QueueWakeups.QueueLock.ReceiveFromIsr | FreeRTOS-Kernel/queue.c:1913-1975 | an interrupt receive wakes the first sender, or is put on record |
| QueueWakeups.QueueLock.LockedCalls | FreeRTOS-Kernel/queue.c:1083-1975 | any series of interrupt sends and receives on a locked queue: nobody is woken, and exactly the accepted calls are on record |
| QueueWakeups.QueueLock.ReceiverWindow | FreeRTOS-Kernel/queue.c:1446-1500 | the whole locked window of a receiver, with any interrupt calls before the check, before it joins, and after: exactly min(posts, waiters) receivers are woken, itself among them, and min(removals, waiters) senders, despite the caps |
| QueueWakeups.QueueLock.SenderWindow | FreeRTOS-Kernel/queue.c:975-1030 | the same for a sender and the messages interrupts remove |
| QueueWakeups.QueueLock.Reset | FreeRTOS-Kernel/queue.c:296-350 | a reset wakes one sender only: no wake-up is lost if and only if no second sender waits, or as many senders are on their way as there are spaces |
| QueueWakeups.ResetStrandsSender | FreeRTOS-Kernel/queue.c:296-350 | two senders wait for a queue of two: after a reset one goes on waiting beside a free space |
| TimerTables.HeadIsEarliest | FreeRTOS-Kernel/timers.c:666-690 | the head of the current list expires no later than any timer on either list |
| TimerTables.MultiplesClosedForm | FreeRTOS-Kernel/timers.c:522-537 | the number of periods that are over is the quotient rounded down, and the next expiry is the first multiple after now |
| TimerTables.SettledClosedForm | FreeRTOS-Kernel/timers.c:522-565 | callbacks owed and next expiry of a timer of either kind, in closed form: none before the expiry, one for a one-shot timer, one per period for the other |
| TimerTables.NoCallbackLost | FreeRTOS-Kernel/timers.c:522-565 | settling a timer at one instant and again later makes the same callbacks as settling it only later |
| TimerTables.EpochFollowedIff | FreeRTOS-Kernel/timers.c:693-713 | one list switch per decrease of the tick follows the true epochs if and only if samples are less than a full turn apart |
| TimerTables.EpochMissed | FreeRTOS-Kernel/timers.c:693-713 | samples at 0 and a full turn later show no wrap |
| TimerTables.AlreadyExpiredIff | FreeRTOS-Kernel/timers.c:726-754 | a period is judged over if and only if the wait the tick count shows is that long |
| TimerTables.LateCommandJudgedIff | FreeRTOS-Kernel/timers.c:726-754 | the judgement is the true one if and only if the command waited less than a full turn, or what is seen of the wait is already the period |
| TimerTables.LateCommandMissed | FreeRTOS-Kernel/timers.c:726-754 | a start of period 5 handled one tick more than a full turn late looks unexpired |
| TimerTables.ListOfExpiry | FreeRTOS-Kernel/timers.c:726-754 | otherwise the comparison picks the list of the true expiry epoch |
| TimerTables.CallbacksConserved | FreeRTOS-Kernel/timers.c:522-565 | for every later horizon, callbacks made plus callbacks owed do not change |
| TimerTables.LateStartCallbacks | FreeRTOS-Kernel/timers.c:828-850 | an auto-reload start handled D ticks late makes D / period callbacks and next expires at the first multiple after now |
| Timers.TimerDaemon.InsertTimerInActiveList | FreeRTOS-Kernel/timers.c:716-757 | true if and only if the visible wait is at least the period; otherwise the timer is on the list of its true expiry, and a list drained at the last tick is never inserted into |
| Timers.TimerDaemon.TryNextPeriod | FreeRTOS-Kernel/timers.c:529 | one test of the reload loop, in true time |
| Timers.TimerDaemon.ReloadTimer | FreeRTOS-Kernel/timers.c:522-537 | the loop ends after one callback for each further period that is over, with the first expiry after now stored |
| Timers.TimerDaemon.ProcessExpiredTimer | FreeRTOS-Kernel/timers.c:541-565 | the head of the list gets its one callback, or one for each period that is over, and its next expiry; no other timer changes |
| Timers.TimerDaemon.SwitchTimerLists | FreeRTOS-Kernel/timers.c:908-930 | every callback of the old epoch is made, nothing is re-inserted into the drained list, and the lists change roles |
| Timers.TimerDaemon.SampleTimeNow | FreeRTOS-Kernel/timers.c:693-713 | the lists are switched if and only if the true epoch has changed; after a full turn without a sample, with no timer active, nothing is lost |
| Timers.TimerDaemon.TakeTurn | FreeRTOS-Kernel/timers.c:604-690 | the daemon blocks only if no callback is owed, and no longer than to the next expiry or the next wrap; its block time is zero if and only if the current list is empty at tick 0 |
| Timers.TimerDaemon.BeginCommand | FreeRTOS-Kernel/timers.c:799-817 | the commanded timer leaves its list before the time is sampled, and no other timer loses a callback |
| Timers.TimerDaemon.CarryOutStart | FreeRTOS-Kernel/timers.c:821-850 | a start counts from the instant it was sent: the callbacks due since are made and the next expiry follows |
| Timers.TimerDaemon.CarryOutStop | FreeRTOS-Kernel/timers.c:852-856 | a stopped timer is on no list and not flagged active |
| Timers.TimerDaemon.CarryOutChangePeriod | FreeRTOS-Kernel/timers.c:858-871 | a new period counts from now, is never over yet, and starts the timer |
| Timers.TimerDaemon.CarryOutDelete | FreeRTOS-Kernel/timers.c:873-895 | a deleted timer is gone, the others are untouched |
| Timers.TimerDaemon.ProcessCommand | FreeRTOS-Kernel/timers.c:760-905 | each command leaves its timer with the period, the flag, the callbacks and the next expiry, in closed form, that it asks for, a start counting from the instant it was sent; every other timer gets the callbacks it would get anyway |
| Timers.TimerDaemon.CreateTimer | FreeRTOS-Kernel/timers.c:355-385 | a new timer is dormant |
| Timers.TimerDaemon.RunTask | FreeRTOS-Kernel/timers.c:568-602 | over any run, from any point on, each timer that no later message names has had exactly the callbacks due when the daemon blocks; the run stops only at an event that finds a timer active after a full turn without a sample |
| EventGroups.PackedRoundTrip | FreeRTOS-Kernel/event_groups.c:376-398 | packing bits and options into an item value loses neither, and never looks like a released value |
| EventGroups.StampedRoundTrip | FreeRTOS-Kernel/event_groups.c:609 | the bits come back out of a released value |
| EventGroups.ConditionMeans | FreeRTOS-Kernel/event_groups.c:692-726 | the test by sets of bits, all of them present or one in common, and the item value that asks for it |
| EventGroups.WithinMeans | FreeRTOS-Kernel/event_groups.c:692-726 | a set of bits lies within another if and only if masking with it changes nothing |
| EventGroups.ClearingSatisfiesNone | FreeRTOS-Kernel/event_groups.c:692-726 | clearing bits never meets a condition that was not met |
| EventGroups.ClearMaskCovers | FreeRTOS-Kernel/event_groups.c:595-620 | what a released waiter asked to have cleared is cleared |
| EventGroups.ClearMaskOnlyAsked | FreeRTOS-Kernel/event_groups.c:595-620 | a bit is cleared only if some released waiter asked for it |
| EventGroups.EventGroup.ReleaseSatisfied | FreeRTOS-Kernel/event_groups.c:560-616 | the walk visits every waiter once although it removes items, and releases exactly those the bits meet |
| EventGroups.EventGroup.SetBits | FreeRTOS-Kernel/event_groups.c:533-620 | exactly the waiters whose bits, all of them or any as they asked, are among the old bits joined with the new ones are released, all told that value; it is left without their masks, and with every other bit; nobody who waits is met |
| EventGroups.EventGroup.SetBitsAndRead | FreeRTOS-Kernel/event_groups.c:533-620 | the value returned is read when other tasks may have set and cleared bits: it is what is left then, it meets no waiter, and if they only cleared it has no bit beyond what setting left |
| EventGroups.EventGroup.WaitBits | FreeRTOS-Kernel/event_groups.c:317-421 | returns at once if and only if all or any of the bits are set, as asked, or no wait is allowed, clearing as asked; otherwise the task waits with its condition packed |
| EventGroups.EventGroup.AfterWait | FreeRTOS-Kernel/event_groups.c:424-461 | a released task gets the bits that released it; one that timed out re-tests, and clears if the bits came meanwhile |
| EventGroups.EventGroup.Sync | FreeRTOS-Kernel/event_groups.c:194-255 | a rendezvous completes if and only if all the bits are among the old and the new ones, and they are then clear; otherwise the caller waits for all of them |
| EventGroups.EventGroup.AfterSync | FreeRTOS-Kernel/event_groups.c:272-305 | a rendezvous completed after the time-out still clears its bits |
| EventGroups.EventGroup.ClearBits | FreeRTOS-Kernel/event_groups.c:473-496 | the old bits are returned, the given ones are clear and the others stay, and no waiter becomes met |
| EventGroups.EventGroup.StopWaiting | FreeRTOS-Kernel/tasks.c:2787-2796 | a waiter that times out leaves the list, and nobody else is affected |
| EventGroups.EventGroup.ReleaseAll | FreeRTOS-Kernel/event_groups.c:628-648 | every waiter is released and told that no bit is set |
| EventGroups.ReleasedMeetsCondition | FreeRTOS-Kernel/event_groups.c:575-609 | a waiter is marked released if and only if its condition is met by the value it is told |
| EventGroups.RendezvousCompletes | FreeRTOS-Kernel/event_groups.c:216-227 | each sync waiter a rendezvous covers is released with the full value, and its bits end up clear |
| StreamBuffer.BytesInBuffer | FreeRTOS-Kernel/stream_buffer.c:1338-1356 | the unsigned arithmetic gives the distance from tail to head |
| StreamBuffer.SpacesAvailable | FreeRTOS-Kernel/stream_buffer.c:597-627 | the free space is the length less one less the bytes in the buffer |
| StreamBuffer.WriteIntoFree | FreeRTOS-Kernel/stream_buffer.c:1248-1288 | bytes written into free cells leave the unread bytes alone and follow them |
| StreamBuffer.ConsumeOldest | FreeRTOS-Kernel/stream_buffer.c:1294-1334 | moving the tail on drops the oldest bytes |
| StreamBuffer.LengthRoundTrip | FreeRTOS-Kernel/stream_buffer.c:1086-1089 | a length survives its four bytes in memory |
| StreamBuffer.FirstFrame | FreeRTOS-Kernel/stream_buffer.c:1084-1089 | the first frame decodes to the first message, whole, and the rest is the other frames |
| StreamBuffer.FramesInjective | FreeRTOS-Kernel/stream_buffer.c:838-849 | the bytes of a message buffer determine its messages |
| StreamBuffer.Buffer.WriteBytesToBuffer | FreeRTOS-Kernel/stream_buffer.c:1248-1288 | the two copies write exactly the cells from the given index on, around the end |
| StreamBuffer.Buffer.ReadBytesFromBuffer | FreeRTOS-Kernel/stream_buffer.c:1294-1334 | the two copies read exactly the bytes from the given index on |
| StreamBuffer.Buffer.WriteStream | FreeRTOS-Kernel/stream_buffer.c:856-868 | as many bytes as there is space for are appended |
| StreamBuffer.Buffer.WriteMessage | FreeRTOS-Kernel/stream_buffer.c:833-868 | the whole frame is appended, or nothing a reader can see changes |
| StreamBuffer.Buffer.Send | FreeRTOS-Kernel/stream_buffer.c:642-820 | a stream takes what fits; a message is taken whole if and only if it is not empty and its frame fits |
| StreamBuffer.Buffer.TakeBytes | FreeRTOS-Kernel/stream_buffer.c:1115-1121 | the bytes copied are those after the prefix, and their cells are freed |
| StreamBuffer.Buffer.ReadMessageFromBuffer | FreeRTOS-Kernel/stream_buffer.c:1075-1124 | a message that fits the caller is handed over whole; one that does not stays |
| StreamBuffer.Buffer.Receive | FreeRTOS-Kernel/stream_buffer.c:874-972 | a stream hands out its oldest bytes; a message buffer its oldest message, or nothing |
| StreamBuffer.Buffer.NextMessageLengthBytes | FreeRTOS-Kernel/stream_buffer.c:978-1015 | the length of the oldest message; the assertion about other byte counts never fails |
| StreamInterleaving.CopyInSafe | FreeRTOS-Kernel/stream_buffer.c:1248-1270 | each byte the writer copies goes into a cell that holds no unread byte, and no unread byte changes |
| StreamInterleaving.PublishSafe | FreeRTOS-Kernel/stream_buffer.c:865-868 | all bytes copied become readable at once, behind what was readable |
| StreamInterleaving.CopyOutSafe | FreeRTOS-Kernel/stream_buffer.c:1294-1320 | each byte the reader copies is the next published byte of the stream |
| StreamInterleaving.ConsumeSafe | FreeRTOS-Kernel/stream_buffer.c:1117-1121 | the reader frees exactly what it has copied |
| StreamInterleaving.StepSafe | FreeRTOS-Kernel/stream_buffer.c:824-1124 | every step of either side, in any interleaving, keeps sent == received + in the buffer |
| StreamInterleaving.ReceivedIsPrefix | FreeRTOS-Kernel/stream_buffer.c:597-627 | over every run the bytes received are a prefix of those sent, and sent == received + in the buffer <= received + length - 1 |
| StreamInterleaving.ConsumeFramed | FreeRTOS-Kernel/stream_buffer.c:1075-1124 | a message that fits is received whole under interference, and one that does not changes nothing |
| StreamInterleaving.StepFramed | FreeRTOS-Kernel/stream_buffer.c:824-1124 | the buffer always holds whole frames |
| StreamInterleaving.MessagesArriveWhole | FreeRTOS-Kernel/stream_buffer.c:824-1124 | over every run the messages received are a prefix of the messages sent, whole and in order |
| StreamInterleaving.UndisturbedWrite | FreeRTOS-Kernel/stream_buffer.c:1248-1288 | left alone, the byte steps do what the copying function does |
| StreamRequests.MessageAccepted | FreeRTOS-Kernel/stream_buffer.c:833-849 | a message is sent if and only if it is not empty and its frame fits, and then it is the message asked for |
| StreamRequests.BytesAccepted | FreeRTOS-Kernel/stream_buffer.c:856-868 | a stream sends the first bytes asked for, as many as there is space for |
| StreamRequests.ReceiveStarts | FreeRTOS-Kernel/stream_buffer.c:912-950 | a receive finds all published bytes, if there are more than a length prefix |
| StreamRequests.BytesHandedOver | FreeRTOS-Kernel/stream_buffer.c:1106-1121 | a stream receive hands over the oldest bytes, as many as it found and never more than the caller has room for |
| StreamRequests.MessagesAsked | FreeRTOS-Kernel/stream_buffer.c:824-868 | over every run the messages sent are the arguments of the sends whose frame fitted, each once and in order |
| StreamRequests.MessagesReceivedAsAsked | FreeRTOS-Kernel/stream_buffer.c:824-1124 | over every run the messages received are arguments of sends, in the order of the sends |
| StreamRequests.BytesAsked | FreeRTOS-Kernel/stream_buffer.c:824-1124 | over every run the bytes sent, and so those received, are the first bytes of the arguments of the sends, each as far as there was space, none missing and in order |
| StreamWaiting.StepKeeps | FreeRTOS-Kernel/stream_buffer.c:642-972 | every step of either task, and any other notification, keeps the invariant: whoever sleeps unnotified is registered, and has reason to sleep or is the next to be notified |
| StreamWaiting.SendWaits | FreeRTOS-Kernel/stream_buffer.c:660-698 | a send that may wait looks for space unless its message could never fit |
| StreamWaiting.PublishAdds | FreeRTOS-Kernel/stream_buffer.c:746-760 | what a send adds to the buffer, and that it goes on to the notification if and only if it added anything |
| StreamWaiting.ConsumeFrees | FreeRTOS-Kernel/stream_buffer.c:953-965 | what a receive frees, and that it goes on to the notification if and only if it freed anything |
| StreamWaiting.NoWakeupLost | FreeRTOS-Kernel/stream_buffer.c:642-972 | over every run a sender sleeps on only for want of space, and a receiver only for want of data or below the trigger level, unless the other is just about to notify it; and the assertions about a second reader or writer hold |
| StreamWaiting.OnlyTimeOutsHelp | FreeRTOS-Kernel/stream_buffer.c:725-732 | with both asleep, nothing but a time-out or a foreign notification can happen |
| StreamWaiting.MessageBuffersNeverBothSleep | FreeRTOS-Kernel/stream_buffer.c:642-972 | over every run of a message buffer sender and receiver are never both asleep |
| StreamWaiting.BothSleepIff | FreeRTOS-Kernel/stream_buffer.c:642-972 | some run of a stream buffer puts both to sleep if and only if the bytes to send and the trigger level exceed the capacity plus one |
| StreamWaiting.NineBytesBothSleep | FreeRTOS-Kernel/stream_buffer.c:642-972 | a stream buffer of nine bytes with trigger level 8: a send of 6 behind 7 unread bytes |

## Left out

- The port layer, memory allocation, stacks, secure contexts, context save and restore; a created task is a fresh control block.
- Code outside `FreeRTOS-Kernel/`, and features this build turns off: co-routines, queue sets, tickless idle, static allocation, `xTaskAbortDelay`, `xTaskResumeFromISR`, MPU wrappers.
- Task notifications outside `StreamWaiting.dfy`, trace hooks, the queue registry, lists of tasks, run-time statistics, hooks and callback bodies: reads, formatting or user code.
- Weak memory ordering: critical sections, interrupt calls and single byte copies are atomic steps.
- The scheduler before it is started, but for the creation of tasks, and after it is ended: `vTaskSuspend` and `vTaskDelete` are modelled while it runs.
- Aliasing and updates through pointers are modelled in `IntrusiveList.dfy` alone.  The scheduler, mutex, timer and event group modules keep control blocks in maps and lists in sequences; they rely on the list operations proved there.
- Counters are unbounded except the tick, the pended ticks, the lock counts and, in `Timeouts.dfy`, the count of wraps; `Scheduling.Scheduler` counts wraps without bound.  Sizes are not limited to a `size_t`, but for the length of a message.
- The calls from one module into another are not composed: `Mutexes.dfy`, `QueueWakeups.dfy` and `EventGroups.dfy` take tasks off their lists, and what that does to the ready lists is stated by the methods of `Scheduling.Scheduler`.
- Mutexes.MutexSystem.Block: the whole invariant of inheritance, event item values included, is kept under the hypothesis that the blocking task holds no mutex, waits for no other, and has the event item value of its priority; the promise alone has its exact condition, for any waiters, in `Mutexes.BlockKeepsPromiseIff`.
- Mutexes.MutexSystem.PrioritySet: the whole invariant of inheritance, event item values included, is kept under the hypothesis that the task neither holds nor waits for a mutex; the promise alone has its exact condition, for any task, in `Mutexes.PriorityKeepsPromiseIff`.
- Mutexes.MutexSystem.TakeRecursive: taking the mutex and counting the call are one step, as only the holder reads the count; the retry of a woken task is another call.
- Mutexes.MutexSystem.Give: only the holder gives; the source asserts this.
- Mutexes.MutexSystem.Run: a call is plain if the task does not wait, a give is by the holder, a task that waits holds no mutex, and a priority is set for a task that neither holds nor waits; beyond that the two exact conditions apply call by call.
- QueueWakeups.QueueLock.NoLostWakeup: woken tasks are neither suspended nor deleted before they retry, and there are at most 127 tasks; after a reset it holds as `QueueWakeups.QueueLock.Reset` says.
- QueueRing.Queue.Reset: the data path alone; the lock counts and the wake-up of one sender are in `QueueWakeups.QueueLock.Reset`.
- Timers.TimerDaemon.RunTask: pended function calls and changes of the reload mode are left out; callbacks do not touch the lists.
- Timers.TimerDaemon.CarryOutDelete: the timer was allocated dynamically, the only way in this build.
- EventGroups.EventGroup.SetBitsAndRead: of the calls other tasks make before the value is read, setting and clearing bits are modelled.
- StreamBuffer.Buffer.Send: the attempt without waiting; waiting for space, notifications and the trigger level are in `StreamWaiting.dfy`, which counts bytes and frames.
- StreamBuffer.Buffer.Receive: the attempt without waiting; waiting for data and notifications are in `StreamWaiting.dfy`.
- StreamInterleaving.StepSafe: a snapshot of both indices is one step; the loop that re-reads the tail is not modelled.
- StreamWaiting.NoWakeupLost: one sender and one receiver, a trigger level that does not change while they run, and no reset or deletion of the buffer.
