# Models and proofs of the rhino kernel core and the Genie storage code

This project models the parts of the AliOS "rhino" kernel and of the Genie application
layer whose correctness depends on state that is changed in place, and proves what those
parts promise.

- **Kernel, single-CPU build** (`kernel_*.dfy`, `kernel.dfy`): ready queue, block lists,
  priority-inheritance mutexes, semaphores, event flags, suspension, sleeping, the tick
  list. Each service is a method of the class `RhinoKernel.Kernel` proved equal to a
  function on the kernel's tables; the theorems are about those functions, over every run
  of service calls and tick interrupts from start-up. `ServiceEffects` says of each service
  what it answers and what it changes, without that function. `KernelSessions` runs the
  class itself through such runs.
- **Heap** (`heap*.dfy`): the boundary-tag allocator, with headers, links, bitmap and the
  bytes of memory changed in place.
- **Reliable flash store and sequence counter** (`flash_*.dfy`): NOR flash as byte
  sequences on which a write can only clear bits; every write and erase is one step, and
  power may fail after any step.
- **Ring buffer and buffer queue** (`ring_buffer.dfy`, `buf_queue.dfy`).
- **Work queues** (`work_queue.dfy`): critical sections interleaved in any order.
- **CRC-16 and calendar** (`crc16.dfy`, `calendar.dfy`).

`basics.dfy` holds the few definitions they share.

The C widths that matter are written out: `tick_t` and the tick counter have 64 bits
(kernel/rhino/core/include/k_sys.h:21) and `tick_list_update` compares in a 32-bit int, `size_t` has
32 bits, and `MM_ALIGN_UP` rounds up to 8 bytes (kernel/rhino/core/include/k_mm.h:18). `MM_MIN_BIT` and
`MM_MAX_BIT` can be overridden by a board (kernel/rhino/core/include/k_default_config.h:92-97), and the
sizes of the heap's headers depend on the configuration, so they are parameters
(`HeapLevels.Params`). So are the CRC the flash store is given and its 16-byte block cipher
(`GenieFlash.Store`).

## Model

| member | source | states |
|---|---|---|
| KernelRuns.StepOk | kernel/rhino/core/k_mutex.c:268-432 | Each of the nineteen modelled services, the tick interrupt included, with any 64-bit timeout, keeps the kernel-wide invariant: ready ring, block lists, mutex lists, tick list, inherited priorities, no lost wakeup, and the right task running. |
| KernelRuns.RunOk | kernel/rhino/core/k_sched.c:126-165 | The invariant holds at the end of every run of services from a state that has it. |
| KernelRuns.BootOk | kernel/rhino/core/k_sched.c:168-177 | The tables at start-up, with any created objects, have the invariant. |
| KernelRuns.PriorityInheritance | kernel/rhino/core/k_mutex.c:186-266 | In every reachable state every task's priority is the minimum of its base priority and the first waiters' priorities over the mutexes it holds, and no waiter of a held mutex outranks the holder. |
| KernelRuns.HighestPriorityRuns | kernel/rhino/core/k_sched.c:126-165 | In every reachable state in which scheduling is not locked, the running task is ready and no ready task outranks it. |
| KernelRuns.OneListPerTask | kernel/rhino/core/k_pend.c:22-99 | In every reachable state a task is on the ready ring of level p iff it is ready at priority p, and on an object's block list iff it is pending on that object; no list holds a task twice. |
| KernelRuns.NoLostWakeup | kernel/rhino/core/k_event.c:157-325 | In every reachable state nobody is blocked on a semaphore with a positive count, nor on an event that has all the bits it asked for (AND), or one of them (OR); a waited-for mutex has an owner other than the waiter. |
| KernelRuns.SpawnOk | kernel/rhino/core/k_task.c:7-127 | Creating a task, ready or suspended, keeps the invariant. |
| KernelSessions.Perform | kernel/rhino/core/k_sched.c:87-165 | The code of any service, run on the class, takes its tables exactly where the run semantics says. |
| KernelSessions.Session | kernel/rhino/core/k_sched.c:33-84 | From start-up, the code asked for any list of operations runs exactly those that are allowed when their turn comes (all but blocking calls of the idle task), in order, and ends in the state that run reaches. |
| PriorityChain.PriChangeRestores | kernel/rhino/core/k_task.c:510-581 | Moving a task to the priority its mutexes and base ask for, with the ripple along the chain of blocked owners, restores the minimum rule for every task and re-sorts every block list it touches, for any graph of blocked owners, cycles included. |
| PriorityChain.RankMoves | kernel/rhino/core/k_task.c:510-581 | The termination measure of the ripple: a round that moves one task moves the sum of all priorities by exactly as much, so a call that only raises or only lowers ends. |
| PriorityChain.LimitIsMinimum | kernel/rhino/core/k_mutex.c:186-250 | The running minimum of the mutex scans is the least of its start and the first waiters' priorities, and is attained. |
| MutexServices.UnlockHandsOver | kernel/rhino/core/k_mutex.c:362-432 | Unlocking a waited-for mutex makes its first waiter the owner at the waiter's own priority, which is the most urgent of the waiters, and touches no other task but the caller. |
| MutexServices.UnwaitedChangesNothing | kernel/rhino/core/k_mutex.c:413-420 | Giving up a mutex nobody waits for does not change the holder's priority. |
| MutexServices.MutexLockOk | kernel/rhino/core/k_mutex.c:268-360 | Locking keeps the invariant on every path: error, nested, free, contended with inheritance. |
| MutexServices.ContendOk | kernel/rhino/core/k_mutex.c:338-349 | Raising the owner first and blocking afterwards keeps the minimum rule for everybody. |
| MutexServices.MutexUnlockOk | kernel/rhino/core/k_mutex.c:362-432 | Unlocking keeps the invariant on every path. |
| MutexServices.MutexDelWakes | kernel/rhino/core/k_mutex.c:55-103 | Deleting a mutex makes every waiter ready, or suspended if it was, with the deletion as the reason, and leaves nobody waiting. |
| MutexServices.MutexDelOk | kernel/rhino/core/k_mutex.c:55-103 | Deleting a mutex keeps the invariant, the owner's inherited priority included. |
| TaskServices.TaskPriChangeOk | kernel/rhino/core/k_task.c:583-632 | Changing a base priority keeps the invariant, whatever chain of owners it ripples along. |
| TaskServices.TaskSuspendOk | kernel/rhino/core/k_task.c:310-371 | Suspending a ready, sleeping, pending or suspended task keeps the invariant. |
| TaskServices.TaskResumeOk | kernel/rhino/core/k_task.c:386-435 | Resuming keeps the invariant, the byte-wide count included. |
| TaskServices.DozeOk | kernel/rhino/core/k_task.c:242-282 | A task that goes to sleep, for whatever time, keeps the invariant. |
| Deadlines.TimeoutsExact | kernel/rhino/core/k_tick.c:57-130 | One tick update of fewer than 2^31 ticks releases every timed task whose ticks it reaches and none that it leaves fewer than 2^31, whatever other timeouts are on the list; who waits on has exactly so many ticks fewer, across a wrap of the counter. |
| TickServices.ExpireOk | kernel/rhino/core/k_tick.c:79-129 | The loop stops where it should, keeps the invariant, and only timed tasks whose time is up have changed but in priority. |
| Deadlines.DistanceShrinks | kernel/rhino/core/k_tick.c:72-84 | The 64-bit distance to a deadline shrinks by exactly the ticks that pass, modulo 2^64, and the int distance is what is then left, converted. |
| TickServices.ExpireExact | kernel/rhino/core/k_tick.c:74-129 | Whatever the timeouts: the loop releases a task iff it and everybody in front of it on the tick list are due. |
| Deadlines.ReleasedWhenAllLookDue | kernel/rhino/core/k_tick.c:57-130 | The same for an update of any number of ticks, in terms of what was left before it: released iff, for the task and all in front of it, the low 32 bits of what is left afterwards look due. |
| Deadlines.TickUpdateOnTime | kernel/rhino/core/k_tick.c:79-129 | Whatever the timeouts on the list, an update of fewer than 2^31 ticks leaves none behind that is up, and the list in the order in which the timeouts end: the early break of the loop is late for nobody. |
| Deadlines.TimeoutJoins | kernel/rhino/core/k_tick.c:12-45 | A new timeout of any length goes where its time comes, and has exactly its ticks to go. |
| TickServices.TaskWaitAbortOk | kernel/rhino/core/k_task.c:636-691 | Aborting a wait in any state keeps the invariant; an owner boosted by the aborted waiter drops back. |
| TimeoutRuns.WaitShrinks | kernel/rhino/core/k_tick.c:33-130 | Over any run in which a task keeps waiting with one deadline, whatever other timeouts the run asks for, what it has left shrinks by exactly the ticks of the run and has not run out. |
| TimeoutRuns.ReleasedExactly | kernel/rhino/core/k_tick.c:57-130 | Over any run, the tick interrupt with which the ticks since a state reach the timeout releases the task, and no earlier one does that leaves it fewer than 2^31 ticks. |
| TimeoutRuns.TimeKept | kernel/rhino/core/k_tick.c:12-72 | No service but the tick interrupt moves the tick counter, and none, whatever timeout it is given, leaves the tick list late or out of order. |
| TimeoutRuns.NobodyLate | kernel/rhino/core/k_tick.c:12-130 | In every state reached from start-up by any services, with tick interrupts of fewer than 2^31 ticks, nobody on the tick list is overdue, and the list is sorted by what is left. |
| TimeoutRuns.CallTimesOut | kernel/rhino/core/k_pend.c:50-71 | A blocking call with a timeout below 2^31 ticks is ended, if by nothing else, by exactly the tick interrupt that reaches the timeout. |
| TimeoutRuns.CallerWaits | kernel/rhino/core/k_pend.c:50-71 | A caller that is made to wait has exactly the timeout it asked for left, or none if it waits for ever. |
| LongTimeouts.LoneSleeperReleased | kernel/rhino/core/k_tick.c:57-130 | One update d ticks into a lone sleep of n, for all n and d, ends it iff (n - d) mod 2^32 is 0 or at least 2^31. |
| LongTimeouts.SleepLasts | kernel/rhino/core/k_tick.c:57-130 | A lone sleep of n ticks is ended by tick n mod 2^32 if that is from 1 to 2^31, and by the first tick otherwise; no earlier tick ends it. |
| LongTimeouts.SleepLengthRight | kernel/rhino/core/k_tick.c:80-83 | That is tick n iff n is at most 2^31, and never a later one. |
| LongTimeouts.LongSleepEndsEarly | kernel/rhino/core/k_tick.c:57-130 | The first tick ends a lone sleep of n > 1 ticks iff n mod 2^32 is 0, 1 or above 2^31. |
| LongTimeouts.EarlyAwake | kernel/rhino/core/k_tick.c:57-130 | The instance: asleep for 0x9000_0000 ticks, awake after one. |
| LongTimeouts.LongSleepHidden | kernel/rhino/core/k_tick.c:12-31 | Behind a task that does not look due, a sleep at least as long as any timeout on the list is inserted last and not ended, due as it may look. |
| SyncServices.SemTakeOk | kernel/rhino/core/k_sem.c:238-291 | Taking a semaphore keeps the invariant, a blocked taker waiting only while the count is zero. |
| SyncServices.SemGiveOk | kernel/rhino/core/k_sem.c:155-222 | Giving, to one waiter or to all, keeps the invariant. |
| SyncServices.SemCountSetOk | kernel/rhino/core/k_sem.c:293-332 | Setting the count keeps the invariant: it is refused while somebody waits on zero. |
| SyncServices.EventGetOk | kernel/rhino/core/k_event.c:157-244 | Waiting for flags keeps the invariant: one blocks only on an unmet condition. |
| SyncServices.WakeMetOk | kernel/rhino/core/k_event.c:278-318 | Setting flags wakes exactly the waiters the flags at the time of the call satisfy, clear-on-wake waiters sharing them, and leaves the others as they were. |
| SyncServices.WokenAreTold | kernel/rhino/core/k_event.c:305-317 | Setting flags tells a waiter the flags iff it wakes it, and these satisfy it, even if an earlier waiter asked to clear them. |
| SyncServices.EventSetOk | kernel/rhino/core/k_event.c:246-325 | After the flags the woken waiters asked to clear are gone, no waiter left behind is satisfied. |
| KernelInvariant.MetIs | kernel/rhino/core/k_event.c:186-197 | The test of a request against the flags asks for every bit (AND) or for one of them (OR). |
| RhinoKernel.Kernel.Lock | kernel/rhino/core/k_mutex.c:268-360 | It succeeds iff the mutex had no owner, and then the caller owns it once and has it first among those it holds; the owner locks it once more, or not at all from a depth of 2^32 - 1, and nothing else changes; anybody else is refused or waits for it, and the owner stays and runs at least as urgently. |
| RhinoKernel.Kernel.Unlock | kernel/rhino/core/k_mutex.c:362-432 | Only the owner succeeds. It comes up one level and nothing else changes; or the mutex is free if nobody waits, and else its first waiter, woken, owns it at depth 1. The caller no longer holds it and runs at what its other mutexes and its base ask for. |
| RhinoKernel.Kernel.Delete | kernel/rhino/core/k_mutex.c:55-103 | The mutex is gone, every waiter woken for that reason, the owner rid of it, and every task runs at what the mutexes left ask for. |
| RhinoKernel.Kernel.MutexPriLook | kernel/rhino/core/k_mutex.c:213-250 | The walk that unlinks one mutex while it scans leaves the list without it and finds the minimum over the rest. |
| RhinoKernel.Kernel.MutexPriLimit | kernel/rhino/core/k_mutex.c:186-211 | The scan returns the minimum over the held mutexes, bounded by its argument. |
| RhinoKernel.Kernel.ChangePrio | kernel/rhino/core/k_task.c:510-581 | The loop along the chain of owners computes the recursive specification. |
| RhinoKernel.Kernel.PriorityChange | kernel/rhino/core/k_task.c:583-632 | It succeeds iff neither the task nor the priority is the idle one; the base priority is then the one given, the task runs at the minimum of it and the first waiters of its mutexes, every other task differs in the inherited priority at most, no object in more than the order of its waiters, and the tick list is as it was. It reports the priority the task ran at. |
| RhinoKernel.Kernel.Suspend | kernel/rhino/core/k_task.c:310-371 | A ready, waiting or sleeping task goes to the suspended form of its state with a count of 1, a suspended one counts up to 255; nothing else changes but who runs; the idle task, and the caller under a scheduler lock, are refused. |
| RhinoKernel.Kernel.Resume | kernel/rhino/core/k_task.c:386-435 | The count of a suspended task goes down by one modulo 256, and at 0 it is ready, waiting or sleeping again; nothing else changes but who runs. |
| RhinoKernel.Kernel.SleepFor | kernel/rhino/core/k_task.c:242-282 | The caller sleeps until the counter reaches its ticks from now and joins the tick list; it is refused for 0 ticks and under a scheduler lock. |
| RhinoKernel.Kernel.Yield | kernel/rhino/core/k_task.c:284-296 | The first task of the caller's level goes behind the others of it, and the one then first runs unless scheduling is locked. |
| RhinoKernel.Kernel.WaitAbort | kernel/rhino/core/k_task.c:636-691 | A waiting task leaves its object, a sleeping one its sleep, with the abort as the reason, a suspended one is ready; those that inherited from it run at what is left to inherit. |
| RhinoKernel.Kernel.TickListUpdate | kernel/rhino/core/k_tick.c:57-130 | The loop, with its comparison of ints, computes the recursive specification; the counter moves by the ticks, tasks change by the end of their time at most, and leave their objects iff it ends, and everybody runs at what its mutexes ask for. |
| RhinoKernel.Kernel.TickListInsert | kernel/rhino/core/k_tick.c:12-45 | The task is inserted in front of the first one with strictly more ticks to go by the 64-bit unsigned distance, all before it having no more. |
| RhinoKernel.Kernel.PendToBlkObj | kernel/rhino/core/k_pend.c:50-71 | The task leaves the ready ring, joins the tick list, and joins the block list by priority or last. |
| RhinoKernel.Kernel.PendListReorder | kernel/rhino/core/k_pend.c:101-108 | Removing and re-adding a waiter re-sorts the list. |
| RhinoKernel.Kernel.ReadyListRm | kernel/rhino/core/k_sched.c:285-320 | Ring, bitmap and cached highest level after removing a task. |
| RhinoKernel.Kernel.CoreSched | kernel/rhino/core/k_sched.c:126-165 | The preferred task of the highest level runs unless scheduling is locked. |
| RhinoKernel.Kernel.TakeSem | kernel/rhino/core/k_sem.c:238-291 | It succeeds iff the count is positive, and takes one off it; else the caller is refused or waits, behind those at least as urgent. |
| RhinoKernel.Kernel.GiveSem | kernel/rhino/core/k_sem.c:155-222 | The count goes up by one if nobody waits, and is refused at its maximum; else the first waiter, or every waiter, is woken and the count stays. |
| RhinoKernel.Kernel.GetEvent | kernel/rhino/core/k_event.c:157-244 | It succeeds iff all the bits asked for are there (AND), or one is (OR), and then clears those and no others if told to; else the caller is refused or waits with its request. When it need not wait, it reports the flags as they were before any were cleared. |
| RhinoKernel.Kernel.SetEvent | kernel/rhino/core/k_event.c:246-325 | It wakes a waiter iff the old flags with those set have all the bits it asked for (AND) or one of them (OR); the flags left are these less what the woken ones asked to be cleared. The loop clears flags as it wakes, yet each woken waiter is told the flags from before, in list order. |
| RhinoKernel.Kernel.CreateTask | kernel/rhino/core/k_task.c:7-127 | It succeeds iff the priority is above the idle one; one more task is then there, ready behind the others of its level or suspended once, and all else is as before. |
| RhinoKernel.Kernel.SetSemCount | kernel/rhino/core/k_sem.c:293-332 | The count is what was asked for, unless somebody waits on a count of 0. |
| RhinoKernel.Kernel.DisableSched | kernel/rhino/core/k_sched.c:33-58 | The lock count goes up by one, up to 200. |
| RhinoKernel.Kernel.EnableSched | kernel/rhino/core/k_sched.c:60-84 | The lock count goes down by one, and the first task of the highest level runs when it reaches 0. |
| SchedulerLock.NotPreempted | kernel/rhino/core/k_sched.c:33-84 | Over any run of services and tick interrupts in which scheduling stays locked, whatever becomes ready, the task that runs goes on running. |
| SchedulerLock.LockedStep | kernel/rhino/core/k_sched.c:126-165 | No service but the last unlock of scheduling takes the processor from the running task while it is locked, and none but its lock and unlock moves the count. |
| MutualExclusion.OneAtATime | kernel/rhino/core/k_mutex.c:268-432 | Mutual exclusion over runs: from a lock that succeeds until the caller has unlocked as often as locked, or the mutex is deleted, the caller owns it, it alone holds it, and no other task's lock of it succeeds. |
| MutualExclusion.OwnerStays | kernel/rhino/core/k_mutex.c:268-432 | No service but the owner's own lock and unlock and a deletion changes who owns a mutex or how deep, whatever it does to priorities and other waits. |
| ServiceEffects.LockHas | kernel/rhino/core/k_mutex.c:268-360 | The function the runs are made of takes a free mutex for its caller, nests for its owner, and makes anybody else wait while the owner stays. |
| ServiceEffects.UnlockHas | kernel/rhino/core/k_mutex.c:362-432 | It unnests, frees, or hands over to the first waiter, for the owner only, whose priority is then what its other mutexes ask for. |
| ServiceEffects.DeleteHas | kernel/rhino/core/k_mutex.c:55-103 | It wakes every waiter with the deletion as the reason and leaves every priority at what the other mutexes ask for. |
| ServiceEffects.ChangeHas | kernel/rhino/core/k_task.c:583-632 | It sets the base priority and the minimum rule of the task, and touches nobody else but in inherited priority. |
| ServiceEffects.SuspendHas | kernel/rhino/core/k_task.c:310-371 | It moves a task to the suspended form of its state, or counts once more. |
| ServiceEffects.ResumeHas | kernel/rhino/core/k_task.c:386-435 | It counts down in a byte, and ends the suspension at 0. |
| ServiceEffects.AbortHas | kernel/rhino/core/k_task.c:636-691 | It takes the task off whatever it waits for, with the abort as the reason, and nobody else but in inherited priority. |
| ServiceEffects.TakeHas | kernel/rhino/core/k_sem.c:238-291 | It takes one off a positive count, and else queues the caller behind those at least as urgent. |
| ServiceEffects.GiveHas | kernel/rhino/core/k_sem.c:155-222 | It raises the count iff nobody waits, and else wakes the first waiter or all. |
| ServiceEffects.GetHas | kernel/rhino/core/k_event.c:157-244 | It succeeds iff all, or one, of the bits asked for are there, clears those if told to, and else queues the caller with its request. |
| ServiceEffects.SetHas | kernel/rhino/core/k_event.c:246-325 | It wakes the waiters whose bits are there, no others, and clears what they asked for, nothing else. |
| ServiceEffects.TickHas | kernel/rhino/core/k_tick.c:57-130 | It changes a task by the end of its time or in inherited priority only, takes off the block lists those whose time is up, and leaves everybody at what its mutexes ask for. |
| KernelState.ReadyRmOk | kernel/rhino/core/k_sched.c:285-320 | Removing a ready task keeps ring, bitmap and highest level right for all others. |
| KernelState.HighestIsLeast | kernel/rhino/core/k_sched.c:370-375 | The cached level is at most the priority of any ready task and holds a task of that priority. |
| Heap.Allocator.Alloc | kernel/rhino/core/k_mm.c:394-516 | For a size up to the largest block it returns NULL iff no free block is as large as the least multiple of 8 that is at least the size and the minimum block, and then changes nothing; else one more block is in use, large enough and smaller than max(size + 8, minimum) + head + minimum, in a heap that is again tiled, listed and coalesced; every byte in use is kept. A larger size is taken for the minimum block: it fits iff rounding it up did not wrap. |
| Heap.Allocator.FreePtr | kernel/rhino/core/k_mm.c:518-595 | Exactly that block leaves use and its bytes lie in one free block; the heap is again tiled, listed and coalesced, and every other block's bytes are kept; NULL does nothing. |
| Heap.Allocator.Realloc | kernel/rhino/core/k_mm.c:597-738 | In terms of the size, as for `Alloc`: it fails iff neither the block's place nor any free block has room, leaving everything alone; else the block is in use at its old or a new place with room for the size and the old contents up to the smaller size, every other block in use and its bytes unchanged; a null block allocates, NULL again iff nothing fits, and size 0 frees. |
| Heap.Allocator.Recycle | kernel/rhino/core/k_mm.c:394-595 | A block that is freed can be had again: an allocation of its size right after succeeds. |
| Heap.Allocator.AddRegion | kernel/rhino/core/k_mm.c:239-286 | A region that is large enough adds exactly its space as one free block; a smaller one is refused; nothing in use changes. |
| Heap.Allocator.FindBlock | kernel/rhino/core/k_mm.c:441-476 | In both search orders a block is found iff some free block has room, and what is found has room. |
| Heap.Allocator.FindUpLevel | kernel/rhino/core/k_mm.c:380-392 | A block of a level above, or none exists. |
| Heap.Allocator.FreelistInsert | kernel/rhino/core/k_mm.c:325-347 | The lists and the bitmap hold exactly one more block, on the list of its level. |
| Heap.Allocator.FreelistDelete | kernel/rhino/core/k_mm.c:350-377 | They hold exactly that block less. |
| Heap.Allocator.CarveOut | kernel/rhino/core/k_mm.c:478-505 | Taking a block, splitting off what is too much, keeps the heap valid. |
| Heap.Allocator.FreeBlock | kernel/rhino/core/k_mm.c:538-590 | The two merges and the notice to the block behind give the coalesced heap. |
| Heap.Allocator.ResizeInPlace | kernel/rhino/core/k_mm.c:648-713 | Shrinking or growing in place keeps the heap valid and only this block's size changes. |
| Heap.Allocator.Relocate | kernel/rhino/core/k_mm.c:716-731 | Allocating, copying and freeing move the contents and nothing else, or fail and change nothing. |
| Heap.MergedLeavesRoom | kernel/rhino/core/k_mm.c:653-680 | Shrinking onto a free neighbour always leaves room to split the neighbour back off. |
| HeapTiles.SpacesApart | kernel/rhino/core/k_mm.c:394-595 | In a tiled heap the bytes of different blocks never overlap. |
| HeapTiles.NoGaps | kernel/rhino/core/k_mm.c:35-75 | Every byte of a region, up to the end of its sentinel, belongs to one of its blocks. |
| HeapTiles.SplitOk | kernel/rhino/core/k_mm.c:478-500 | A split keeps the tiling, tags and back-links right. |
| HeapTiles.JoinOk | kernel/rhino/core/k_mm.c:559-577 | Merging into the free block before keeps them right. |
| HeapTiles.AbsorbOk | kernel/rhino/core/k_mm.c:548-557 | Merging the free block behind keeps them right. |
| HeapRelease.ReleasedOk | kernel/rhino/core/k_mm.c:518-595 | Releasing a block, with both merges, keeps the tiling and the rule that no two free blocks touch. |
| HeapLists.UnlinkOk | kernel/rhino/core/k_mm.c:350-377 | Unlinking a block leaves every list doubly linked, the right lists' heads and bitmap bits, and the other lists alone. |
| HeapLevels.HigherLevelFits | kernel/rhino/core/k_mm.c:78-90 | Every block of a level above a request's level is large enough. |
| HeapLevels.LevelRange | kernel/rhino/core/k_mm.c:78-90 | A size is on level k iff it lies between the k-th powers of two; the levels' bounds are a factor of two from what the source comment says. |
| HeapLevels.RequestCovers | kernel/rhino/core/k_mm.c:433-436 | The rounded request covers the size up to 0xFFFF_FFF8; above, it wraps to the minimum block. |
| HeapLevels.RequestLeast | kernel/rhino/core/k_mm.c:433-436 | Up to 0xFFFF_FFF8 the rounded request is the least multiple of 8 that is at least the size and the minimum block, and so less than 8 above their maximum or that itself. |
| RingBuffer.Ring.Push | kernel/rhino/core/k_ringbuf.c:23-100 | The buffer then holds the records it held and the new one last, its prefix and data split at the end or not; it is refused iff it is empty or lacks room, and then nothing changes. |
| RingBuffer.Ring.Pop | kernel/rhino/core/k_ringbuf.c:102-176 | The oldest record is returned exactly and the rest stay, in order; an empty buffer says so. |
| RingBuffer.Ring.IsEmpty | kernel/rhino/core/k_ringbuf.c:192-199 | True iff there is no record. |
| RingBuffer.Ring.Reset | kernel/rhino/core/k_ringbuf.c:202-209 | No records, all the room free. |
| RingBuffer.AdmitExact | kernel/rhino/core/k_ringbuf.c:46-56 | The fullness test tells whether there is room iff the length is not one of the three whose sum with the prefix wraps. |
| RingBuffer.FirstRecord | kernel/rhino/core/k_ringbuf.c:117-176 | The bytes of a sequence of records begin with the first one's length and data, so decoding undoes encoding. |
| BufQueue.Queue.Send | kernel/rhino/core/k_buf_queue.c:190-268 | An accepted message goes to the most urgent blocked receiver, once, or into the ring when nobody waits; the status and every refusal are exact. |
| BufQueue.Queue.Recv | kernel/rhino/core/k_buf_queue.c:278-349 | The oldest stored message is handed over, or the receiver is refused or blocks behind those at least as urgent. |
| BufQueue.Queue.Reorder | kernel/rhino/core/k_pend.c:101-108 | A blocked receiver whose priority changes moves to its new place. |
| BufQueue.Queue.Flush | kernel/rhino/core/k_buf_queue.c:351-374 | The stored messages are dropped and nothing else. |
| BufQueue.Serve | kernel/rhino/core/k_buf_queue.c:190-374 | Over any run of sends, receives, expiring waits and priority changes the queue's state and every caller's code are those of the specification run, and the messages handed over followed by those stored are those of the sends that were answered with success, in order; while somebody waits, all have been handed over. |
| BufQueue.RepliesConserve | kernel/rhino/core/k_buf_queue.c:190-374 | In the specification run nothing is lost, doubled or reordered: what a queue has taken in are the messages of its accepted sends. |
| WorkQueues.WorkQueueSystem.Insert | kernel/rhino/core/k_workqueue.c:187-224 | A work is accepted iff it is neither running on this queue nor queued anywhere; it is then last on its list and one give is owed. |
| WorkQueues.WorkQueueSystem.Give | kernel/rhino/core/k_workqueue.c:224-232 | The semaphore count cannot overflow. |
| WorkQueues.WorkQueueSystem.Pop | kernel/rhino/core/k_workqueue.c:38-50 | The worker that took the semaphore never finds the list empty, and starts its first work. |
| WorkQueues.WorkQueueSystem.Cancel | kernel/rhino/core/k_workqueue.c:239-271 | A queued or running work is left alone. |
| WorkQueues.Interleave | kernel/rhino/core/k_workqueue.c:28-60 | Over every interleaving of producers, workers and cancellations the tables and each step's outcome are those of the specification run; each queue has accepted the works of its successful inserts and started those of its pops, in order, and its list holds the difference. |
| GenieFlash.Store.WriteAcrossPowerFailure | genie_app/base/genie_flash.c:498-753 | A write cut off after any flash step, its recovery cut off any number of times, leaves after a completed boot the old map or the old map with the new record, every other key unchanged, append path and recycle path alike. |
| GenieFlash.Store.BootAtLast | genie_app/base/genie_flash.c:303-407 | Recovery interrupted any number of times reaches the map the flash stood for. |
| GenieFlash.Store.CheckRecycle | genie_app/base/genie_flash.c:303-353 | Finishing an interrupted compaction changes what the flash stands for in none of its steps. |
| GenieFlash.Store.Init | genie_app/base/genie_flash.c:355-407 | A boot ends with a store that stands for what the flash stood for, its cached figures exact; a store with nothing to finish is left alone. |
| GenieFlash.Store.Write | genie_app/base/genie_flash.c:656-753 | It is refused iff the data is empty or larger than the remaining room; else the log is what appending or compacting gives, remaining room accounted for, and without duplicates in the way every step shows the old map or the new. |
| GenieFlash.Store.Read | genie_app/base/genie_flash.c:450-496 | The first active record's data up to the size asked for, its CRC checked against that much. |
| GenieFlash.Store.Delete | genie_app/base/genie_flash.c:628-654 | The first active record of the index is retired, or there was none. |
| GenieFlash.Store.Search | genie_app/base/genie_flash.c:450-470 | The scan stops at the first active record of the index, or at the end of the log. |
| GenieFlash.Store.CheckRemain | genie_app/base/genie_flash.c:236-284 | The remaining room is the partition less the active records, the free offset is the end of the log. |
| GenieFlash.Store.Copy | genie_app/base/genie_flash.c:498-608 | The destination ends with the new record and every other active record in order, committed last; no step before disturbs the source or claims completion. |
| GenieFlash.Store.Compact | genie_app/base/genie_flash.c:610-626 | Both copies of a compaction show the old map or the new after every step. |
| GenieFlash.Store.WriteReliable | genie_app/base/genie_flash.c:839-867 | Refused as invalid iff no buffer can be had for the size, as full iff the rounded record is larger than the remaining room, and then nothing changes; else the client's map gains the data, padding and encryption undone by a read; every step shows the old map or the new; no duplicate appears. |
| GenieFlash.Store.ReadReliable | genie_app/base/genie_flash.c:809-837 | A read of the written size returns the last successfully written data, also from a store in which a power failure left a duplicate; an absent key is reported; a size no buffer can be had for is refused. |
| GenieFlash.Store.DeleteReliable | genie_app/base/genie_flash.c:869-876 | The client's map loses the key and no other, in one step; it succeeds iff the key was there. |
| GenieFlash.Store.CryptInPlace | genie_app/base/genie_flash.c:151-183 | The loop encrypts every 16-byte block in place. |
| GenieFlash.ReliableRoundTrip | genie_app/base/genie_flash.c:809-867 | Padding, encrypting, decrypting and cutting the padding off is the identity. |
| GenieFlash.WritePuts | genie_app/base/genie_flash.c:656-753 | With at most one active record of the index, or on the recycle path, a write replaces its entry and no other. |
| GenieFlash.WriteReadsBack | genie_app/base/genie_flash.c:698-750 | Read-your-write, exactly: the new record is read back iff no second active record with other contents was in the way of an append. |
| GenieFlash.SecondCopySurfaces | genie_app/base/genie_flash.c:698-750 | With a duplicate left, an append retires the first copy only, and the second is read from then on. |
| GenieFlash.IndexZeroNotKept | genie_app/base/genie_flash.c:498-626 | A write to index 0 is kept iff it is appended. |
| GenieFlash.StaysDupFree | genie_app/base/genie_flash.c:656-753 | Writes and deletes never leave two active records of an index. |
| GenieFlash.CompactedFits | genie_app/base/genie_flash.c:656-685 | What remains is enough for the compacted log to fit into the recycle partition. |
| FlashRuns.Session | genie_app/base/genie_flash.c:809-876 | Over any run of reliable writes and deletes the store holds exactly what the successful ones left, and no index twice. |
| FlashRuns.WriteCut | genie_app/base/genie_flash.c:839-867 | A reliable write cut off anywhere, boots cut off any number of times: the client reads the old map or the new. |
| FlashRuns.DeleteCut | genie_app/base/genie_flash.c:869-876 | The same for a delete. |
| FlashRuns.ReadAfterCut | genie_app/base/genie_flash.c:809-867 | After such a write every other key reads as before, the written key as the old data or the new. |
| FlashRuns.SecondWriteLost | genie_app/base/genie_flash.c:733-750 | A write cut off between its last two steps, a boot, and a second write: the first of the two is read, whatever the second wrote. |
| FlashRuns.DuplicateWins | genie_app/base/genie_flash.c:733-750 | The instance from erased flash: three different writes to index 1, the second one cut off; the third succeeds and the second is read. |
| FlashRuns.IndexZeroLost | genie_app/base/genie_flash.c:610-626 | The instance from erased flash: a write to index 0 that succeeds, compacts, and is not found. |
| FlashLog.RecordsOfImage | genie_app/base/genie_flash.c:24-60 | Walking the headers of an encoded log gives the log back. |
| FlashLog.SetFlag | genie_app/base/genie_flash.c:628-637 | Writing a flag clears bits only, changes that record's flag and nothing else. |
| FlashLog.WordTransitions | genie_app/base/genie_flash.c:579-606 | The partition words only ever lose bits on the way from invalid to complete to spent. |
| FlashStore.ReliableSizeExact | genie_app/base/genie_flash.c:800-807 | The 16-bit rounded size is right iff the size is at most 0xFFF0, and 0 above; a buffer can be had iff the size is from 1 to 0xFFF0. |
| FlashSeq.SeqStore.WriteSeq | genie_app/base/genie_flash.c:1178-1228 | A value is refused iff it is not above what is readable; an accepted one is read back iff it was counted or is below 2^24; a count update shows only values between the old and the new after every step. |
| FlashSeq.SeqStore.WriteSeqCount | genie_app/base/genie_flash.c:1145-1176 | The count update ends on the new count, each byte write on a readable count in between. |
| FlashSeq.SeqStore.ReadSeq | genie_app/base/genie_flash.c:1108-1126 | The base plus the count of cleared bits. |
| FlashSeq.WriteAll | genie_app/base/genie_flash.c:1178-1228 | A session from any partition: accepted values strictly increase from above the first reading, through counting and rebasing, and the last one is what is read. |
| FlashSeq.UnaryRoundTrip | genie_app/base/genie_flash.c:1077-1106 | Counting the cleared bits of a unary count gives the count. |
| FlashSeq.MoreCleared | genie_app/base/genie_flash.c:1145-1176 | A later count can be written over an earlier one without an erase. |
| Crc16.Compute | utility/crc/crc16.c:46-60 | The table-free bytewise CRC is the remainder by the generator x^16 + x^12 + x^5 + 1 of section 2 of ITU-T V.41, for every message and seed. |
| Crc16.Ccitt | utility/crc/crc16.c:62-82 | So is the bitwise CRC. |
| Crc16.Agree | utility/crc/crc16.c:46-82 | The two agree on every message and seed, on the remainder of `Crc16.Compute`. |
| Crc16.InBlocks | utility/crc/crc16.h:46-71 | Computing in blocks equals computing at once. |
| Crc16.BurstDetected | utility/crc/crc16.c:46-82 | Messages of one length that differ only within two consecutive bytes never share a CRC. |
| Crc16.CrcInjective | utility/crc/crc16.c:46-82 | Different seeds never meet over one message. |
| Crc16.ByteIsEightSteps | utility/crc/crc16.c:50-56 | The five assignments of the bytewise loop are eight steps of division. |
| Crc16.FoldBits | utility/crc/crc16.c:70-79 | The inner loop of the bitwise form is eight steps of division, the byte mixed in bit by bit. |
| Calendar.Unix2Utc | genie_app/base/vendor_timers.c:82-232 | It ends with a valid date and time; the date is that of the day shown, the right one up to day 48212 and the one before from day 48213; the round trip through UTC2unix is exact iff the time is before 2101-01-01 or at least 4165603200. |
| Calendar.Bisect | genie_app/base/vendor_timers.c:147-201 | The loop ends on an entry of the table of days before each month that the day lies behind, the next one being ahead of it. |
| Calendar.FindMonth | genie_app/base/vendor_timers.c:145-205 | The bisection ends on the one month that contains the day. |
| Calendar.MonthTable | genie_app/base/vendor_timers.c:86 | The table of days before each month, with the leap day, is the sum of the lengths of the months before. |
| Calendar.ValidDateIs | genie_app/base/vendor_timers.c:234-251 | A date is valid iff its day is one of the 31, 30, or 28 or 29 of its month, the leap rule written out. |
| Calendar.DayNumberCounts | genie_app/base/vendor_timers.c:234-251 | Day numbers count days: 1970-01-01 is 0, and the day after a date has the next number. |
| Calendar.AgreesWithPosix | genie_app/base/vendor_timers.c:234-251 | For every valid date and time from 1970 to 2100 UTC2unix is the formula of section 4.16 of POSIX.1-2017 (Base Definitions). |
| Calendar.PosixIsGregorian | genie_app/base/vendor_timers.c:234-251 | That formula counts the days of the Gregorian calendar, for every valid date. |
| Calendar.SimpleDaysExact | genie_app/base/vendor_timers.c:239-248 | The day count of UTC2unix is right iff the year is at most 2100. |
| Calendar.OneDatePerDay | genie_app/base/vendor_timers.c:82-232 | Two valid dates of the same day number are the same date. |

## Findings

Properties the code does not have at every input, with an input and the exact condition.

- **Timeouts of more than 2^31 ticks.** The update compares the low 32 bits only. A lone task that
  sleeps for 0x9000_0000 ticks is released by the first tick (`LongTimeouts.EarlyAwake`); a sleep of
  n ticks lasts n ticks iff n is at most 2^31, and is shorter otherwise (`LongTimeouts.SleepLasts`,
  `LongTimeouts.SleepLengthRight`). In general a task is released early iff what it and everybody in
  front of it on the tick list have left looks due in 32 bits (`Deadlines.ReleasedWhenAllLookDue`);
  with tick interrupts of fewer than 2^31 ticks no timeout is ever late (`TimeoutRuns.NobodyLate`),
  and those below 2^31 are exact whatever else is on the list (`Deadlines.TimeoutsExact`).
- **A duplicate left by a power failure.** After a write to an index is cut off between
  activating the new record and retiring the old one, the next appending write to the index
  succeeds and the data of the write before it is read (`FlashRuns.DuplicateWins`; for every
  such store `FlashRuns.SecondWriteLost`). Read-your-write holds iff there is no second
  active record with other contents, or the write compacts (`GenieFlash.WriteReadsBack`).
- **Index 0.** A write to it that compacts succeeds and is lost (`FlashRuns.IndexZeroLost`);
  it is kept iff it is appended (`GenieFlash.IndexZeroNotKept`).
- **Allocation sizes above 0xFFFF_FFF8.** Rounding up wraps to 0, and a block of the minimum
  size is handed out: a request fits its block iff it is at most 0xFFFF_FFF8
  (`HeapLevels.RequestCovers`, `Heap.Allocator.Alloc`, `Heap.Allocator.Realloc`).
- **Ring-buffer lengths 0xFFFF_FFFC to 0xFFFF_FFFE.** The sum with the 4-byte prefix wraps, so
  the fullness test passes in any ring with more than two free bytes; it is right iff the
  length is not one of these three (`RingBuffer.AdmitExact`).
- **Reliable data of more than 0xFFF0 bytes.** The rounded size wraps to 0 in 16 bits, and the
  allocator hands out no empty buffer, so reads and writes of such sizes are refused as invalid; the
  size is right iff it is at most 0xFFF0 (`FlashStore.ReliableSizeExact`,
  `GenieFlash.Store.WriteReliable`).
- **Sequence values of 2^24 and more.** When they are written as a base they are not read
  back; a successful write is read back iff it was counted or is below 2^24
  (`FlashSeq.SeqStore.WriteSeq`).
- **UTC2unix after 2100.** It takes 2100 for a leap year from 2101 on: the day count is right
  iff the year is at most 2100 (`Calendar.SimpleDaysExact`).
- **unix2UTC from 2102-01-02 on.** Day 48213 is the first shown as the day before it, because
  the four-year division takes 2100 for a leap year (`Calendar.Unix2Utc`, with
  `Calendar.DayShown`). The two errors cancel from there, so the round trip fails iff
  4133980800 <= t < 4165603200.
- **The comment on size_to_level** (kernel/rhino/core/k_mm.c:77). A level's bounds are half of what the comment says; the code's
  bounds are `HeapLevels.LevelRange`.

## Left out

- RingBuffer.Ring.Push: lengths of 0xFFFF_FFFC and more are not pushed, because past the test of `RingBuffer.AdmitExact` the code writes outside the buffer; fixed-size mode is not modelled.
- GenieFlash.Store.WriteReliable: what a write to index 0 leaves is in `GenieFlash.IndexZeroNotKept`; an allocation that fails for lack of memory is not modelled.
- GenieFlash.Store.ReadReliable: what a read of another size than the written one returns is in `GenieFlash.Store.Read`.
- GenieFlash.Store.Copy: the buffer that the source allocates for each record's data is taken to be had.
- GenieFlash.Store.Write: data of whole 16-byte blocks below 64 KiB, which is what the system partition is given; so records need no alignment bytes.
- GenieFlash.Store.WriteAcrossPowerFailure: each flash write and erase happens wholly or not at all; torn ones are not modelled.
- GenieFlash.Store.HalWrite: failures reported by the flash driver are not modelled.
- FlashSeq.SeqStore.WriteSeq: within a session; a rebase cut off between its erase and its write leaves no readable value, and the counter does not survive a boot on this build.
- Heap.Allocator.AddRegion: a region of at most the largest level's size and outside the memory of every other region; the source checks neither.
- Heap.Allocator.Alloc: the small-block pool is absent, and the statistics are not modelled; block contents other than those in use are arbitrary.
- Heap.Allocator.FreePtr: the pointer is one the heap handed out or NULL; a bad pointer is a fatal error in the source.
- Deadlines.TimeoutsExact: updates of fewer than 2^31 ticks, and tasks they leave fewer than that; for the others see `Deadlines.ReleasedWhenAllLookDue`.
- RhinoKernel.Kernel.TickListUpdate: the difference of two ints may overflow, which C leaves undefined; it is taken to wrap. A negative number of ticks is not modelled.
- KernelRuns.StepOk: the idle task makes no blocking calls; interrupts other than the tick, time slices, task deletion and object creation during a run are not modelled.
- BufQueue.Queue.Recv: receivers are known by task and priority only; the kernel's own tables are in the kernel model.
- WorkQueues.WorkQueueSystem.Insert: delayed works are inserted by the timer callback's critical section; the timer itself is not modelled.
- Crc16.Compute: a null data pointer and sizes of 2^32 and more are not modelled.
- Calendar.Unix2Utc: only the conversions; the running clock and the timers are not modelled.
- Task deletion and dynamic creation, software timers, fixed-size block pools, message queues and FIFOs: easier members of the families above, or code whose invariants do not survive it.
- The multi-core build, context switching, stack checks, tracing, hooks and statistics: not state these properties are about.
- The user-data partition and the TG7100B and CH6121 flash variants: their search and counter code differs.
- AES and key derivation: the cipher is any block function with an inverse.
- Board files, drivers, C library stubs, the command line, mesh radio and event dispatch: wrappers, input/output or tables.
