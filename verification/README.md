# Verification of the RT-Thread kernel core

This project models the hard parts of the RT-Thread 5.3 kernel under `rt-thread/src` and
proves what they promise: priority inheritance of mutexes, the two heap allocators, the
uniprocessor and multi-core schedulers, and mailbox, message queue and event.

Code that updates records, arrays and linked structures in place is a class whose methods
take the same branches and do the same stores. Each method is proved against a
specification function on values, and the properties of whole runs are proved about those
functions. `dafny verify dfyconfig.toml` checks everything.

## What is modelled

- **Mutexes** (`MutexState`, `MutexChain`, `MutexRepair`, `MutexOps`, `MutexSafety`,
  `MutexRuns`, `MutexNesting`, `MutexClosure`, `MutexWitness`, `MutexKernel`). Threads and mutexes are
  records that name each other. A take, a release, a wake-up, a clean-up after a failed
  wait, a ceiling change and an unrelated sleep are the steps; any number of threads may do
  them in any order. *Linked* and *Sorted* say that owners, taken lists, pending objects and
  wait lists mirror each other and that wait lists are in order. *Exact* says that every
  cached priority is the one its definition gives; *Bounded* rules out priority inversion. A
  thread is *late* between the wake-up that ended its wait and its own clean-up.
- **Heaps.** A heap is a row of blocks (`BlockRow`, `BlockUse`, `BlockPayload`).
  `SmallHeapLayout`, `SmallHeapGrants`, `SmallHeapCells` and `SmallHeap` are `mem.c`: an array of cells that hold headers with
  offset links, payload bytes, or a hidden pointer. `MemHeapLayout`, `MemHeapSteps`,
  `MemHeapGrants`, `MemHeapCells` and `MemHeap` are `memheap.c`: the same with an additional doubly linked
  ring of free blocks. Alignment, header size and minimal size are parameters. `AlignedAlloc`
  is the aligned allocation of `kservice.c` on top of the small heap.
- **Schedulers.** `Bits` has both variants of `__rt_ffs`, `ReadyLists` the ready lists with
  the flat and the two-level bitmap, `UpSpec`, `UpEffects`, `UpScheduler` and
  `RoundRobin` the uniprocessor scheduler, `MpSpec`, `MpEffects` and `MpScheduler` the multi-core one with its global and
  per-CPU queues.
- **IPC.** `IpcWaiters` has the two suspend lists of a buffer, `Mailbox` the ring,
  `MessageQueue` the node pool with two-phase sends and receives, `Event` the event flags.

A region under a spinlock, under the scheduler lock or with interrupts off is one step.
Runs interleave such steps freely, which is more than the kernel allows and therefore safe
for statements about all runs.

## Model

| member | source | states |
|---|---|---|
| MutexState.EnqueueSplit | rt-thread/src/ipc.c:241-285 | a thread is linked in behind every waiter that is at least as urgent and before all others |
| MutexState.MostUrgentUnique | rt-thread/src/ipc.c:846-866 | the loop over the held mutexes yields the one number that bounds the start value and all demands from below and is one of them |
| MutexChain.ChainStep | rt-thread/src/ipc.c:869-921 | each link of the chain either settles an inconsistent priority or moves a priority further in the direction the chain moves, so the loop stops even in a cycle of waits |
| MutexChain.UpdatePriority | rt-thread/src/ipc.c:869-921 | terminates on every linked and ordered state and leaves links, holders and memberships alone and every wait list in order |
| MutexRepair.UpdateExact | rt-thread/src/ipc.c:869-921 | started with the recomputed priority, the chain leaves every thread and every mutex exact that was exact or lies on it; mutexes excused beforehand may stay stale |
| MutexRepair.UpdateBounded | rt-thread/src/ipc.c:869-921 | started with a priority no less urgent than what the thread holds demands, the chain restores the inversion bound everywhere |
| MutexRepair.BoundedNoInversion | rt-thread/src/ipc.c:869-921 | under the bound no owner runs less urgently than a thread waiting for it |
| MutexSafety.TakeKeeps | rt-thread/src/ipc.c:1327-1464 | a take up to its return or suspension keeps links and orders, the bound, and exact inheritance |
| MutexSafety.TakeExact | rt-thread/src/ipc.c:1327-1464 | the same for exactness with any set of stale mutexes excused |
| MutexSafety.WakeKeeps | rt-thread/src/thread.c:146-174 | the end of a wait by timer, resume or close keeps links, orders and the bound although record and boost become stale |
| MutexSafety.WakeExact | rt-thread/src/thread.c:146-174 | it makes stale at most the record of the mutex waited for |
| MutexSafety.AbandonKeeps | rt-thread/src/ipc.c:1465-1516 | the clean-up after a failed wait keeps links, orders and the bound |
| MutexSafety.AbandonExactIff | rt-thread/src/ipc.c:1465-1516 | with any number of waiters late, the clean-up makes its mutex exact again unless the owner runs neither at the leaver's current priority nor at what the refreshed record demands; then some thread is left inexact |
| MutexSafety.GiveUpExact | rt-thread/src/ipc.c:1079-1141 | a wait given up in one piece restores exact inheritance |
| MutexSafety.DropIsLeave | rt-thread/src/ipc.c:1079-1141 | dropping a thread and the clean-up of a failed take have the same effect |
| MutexSafety.ReleaseKeeps | rt-thread/src/ipc.c:1591-1717 | a release keeps links, orders and the bound; exact inheritance survives if and only if the new owner already meets the ceiling |
| MutexSafety.ReleaseExactIff | rt-thread/src/ipc.c:1591-1717 | the same equivalence with any set of stale mutexes excused |
| MutexSafety.CeilingKeeps | rt-thread/src/ipc.c:1152-1184 | a ceiling change keeps links, orders, the bound and exact inheritance |
| MutexSafety.SleepKeeps | rt-thread/src/thread.c:945-1037 | a suspension unrelated to mutexes changes nothing priorities are made of |
| MutexNesting.TakeMeans | rt-thread/src/ipc.c:1327-1464 | which of the four answers a take gives, and for each the owner, the nesting one deeper, the wait list and the caller's state afterwards; nothing else changes but priorities |
| MutexNesting.ReleaseMeans | rt-thread/src/ipc.c:1591-1717 | a release succeeds exactly for the owner, takes one level off and keeps the owner while levels are left; at the last one the first waiter owns the mutex once and runs, or nobody owns it |
| MutexNesting.WakeMeans | rt-thread/src/thread.c:146-174 | the thread is on no wait list and not suspended, nothing else changes |
| MutexNesting.AbandonMeans | rt-thread/src/ipc.c:1465-1516 | the thread has no pending object any more; owners, nestings and waits stay |
| MutexNesting.CeilingMeans | rt-thread/src/ipc.c:1152-1184 | the new ceiling is in force unless out of range; owners, nestings and waits stay |
| MutexNesting.NestingBalances | rt-thread/src/ipc.c:1327-1717 | in every run a thread holds a mutex exactly as often as it was told it took it or was handed it, less how often it was told it released it |
| MutexNesting.MutualExclusion | rt-thread/src/ipc.c:1327-1717 | in every run, while a thread has takes open it is the owner, nobody else's take is answered with success and nobody else's release succeeds |
| MutexRuns.BootExact | rt-thread/src/ipc.c:1008-1033 | fresh threads and mutexes are linked, ordered, exact and bounded |
| MutexRuns.BoundedRuns | rt-thread/src/ipc.c:1327-1717 | every state of every run keeps links, orders and the bound, with ceilings, timeouts, late clean-ups and deadlocks |
| MutexRuns.NoInversionInAnyRun | rt-thread/src/ipc.c:1327-1717 | in every state of every run the owner of a mutex runs no less urgently than any waiter and the mutex records at least their urgency |
| MutexRuns.StepExactIff | rt-thread/src/ipc.c:1327-1717 | a step without late clean-up keeps exact inheritance if and only if it is no hand-over below the ceiling |
| MutexRuns.ExactRunsIff | rt-thread/src/ipc.c:1327-1717 | a run without late clean-ups is exact throughout if and only if no hand-over on the way skipped a ceiling |
| MutexRuns.ExactRunsWithoutCeilings | rt-thread/src/ipc.c:1327-1717 | without ceilings and late clean-ups every reachable state has exact inheritance |
| MutexRuns.StepLateExactIff | rt-thread/src/ipc.c:1327-1717 | a step of any kind keeps exactness up to records late threads must still refresh, if and only if it neither skips a ceiling nor misses a repair |
| MutexRuns.LateExactRunsIff | rt-thread/src/ipc.c:1327-1717 | over all runs, any number of waiters late at once: exact up to such records throughout if and only if no step skipped a ceiling or missed a repair, and fully exact wherever nobody is late |
| MutexClosure.InheritanceIsClosure | rt-thread/src/ipc.c:846-921 | in an exact state without deadlock a thread runs exactly at the most urgent priority or ceiling brought in by any thread that waits for it directly or through a chain |
| MutexClosure.PrioritiesDetermined | rt-thread/src/ipc.c:846-921 | two such states with the same owners, waits and ceilings have the same priorities, whatever the order of events was |
| MutexWitness.HandOverSkipsCeiling | rt-thread/src/ipc.c:1635-1690 | a concrete release after which the new owner runs below the ceiling it holds |
| MutexWitness.LateCleanUpKeepsBoost | rt-thread/src/ipc.c:1488-1516 | a concrete run after which an owner keeps a boost nobody waits for |
| MutexKernel.Kernel.SuspListEnqueue | rt-thread/src/ipc.c:241-285 | the walk along the list computes the ordered insertion |
| MutexKernel.Kernel.MutexUpdatePriority | rt-thread/src/ipc.c:828-843 | the record becomes the first waiter's priority, 0xFF without one |
| MutexKernel.Kernel.ThreadGetMutexPriority | rt-thread/src/ipc.c:846-866 | the loop computes the recomputed priority of the thread |
| MutexKernel.Kernel.ThreadUpdatePriority | rt-thread/src/ipc.c:869-921 | the loop in place does what the recursive chain repair does |
| MutexKernel.Kernel.CheckAndUpdatePriority | rt-thread/src/ipc.c:923-944 | the guarded recomputation of the releasing owner |
| MutexKernel.Kernel.MutexTake | rt-thread/src/ipc.c:1327-1464 | new state and outcome of a take, every branch included, the nesting count among them (what they mean is in `TakeMeans`) |
| MutexKernel.Kernel.MutexTakeFailed | rt-thread/src/ipc.c:1465-1516 | new state of the clean-up after a failed wait |
| MutexKernel.Kernel.MutexDropThread | rt-thread/src/ipc.c:1079-1141 | new state of dropping a thread |
| MutexKernel.Kernel.MutexRelease | rt-thread/src/ipc.c:1591-1717 | new state and result of a release (what they mean is in `ReleaseMeans`) |
| MutexKernel.Kernel.WakeThread | rt-thread/src/thread.c:146-174 | the thread leaves its wait list and is no longer suspended |
| MutexKernel.Kernel.SetPrioCeiling | rt-thread/src/ipc.c:1152-1184 | new state and old ceiling, 0xFF for one out of range |
| SmallHeapLayout.GeometryInside | rt-thread/src/mem.c:170-196 | an accepted area holds the heap object, all managed bytes and both markers at aligned places |
| SmallHeapLayout.GeometryComplete | rt-thread/src/mem.c:170-196 | no area is refused in which an aligned place for two headers exists |
| SmallHeap.SmallMem.constructor | rt-thread/src/mem.c:198-234 | one free block covers the heap, nothing is used |
| SmallHeap.SmallMem.PlugHolesAt | rt-thread/src/mem.c:119-157 | the stores merge a free block with both free neighbours; headers, links and lowest-free pointer agree with the merged row and no live payload changes |
| SmallHeap.SmallMem.Merge | rt-thread/src/mem.c:128-156 | either half of the merge, and the lowest-free pointer never names the block that disappears |
| BlockRow.AllocKeepsWF | rt-thread/src/mem.c:309-359 | splitting or taking a block keeps the row tiled, aligned and without two free neighbours |
| BlockRow.FreeKeepsWF | rt-thread/src/mem.c:497-539 | so does freeing |
| BlockRow.ShrinkKeepsWF | rt-thread/src/mem.c:449-477 | so does shrinking in place |
| BlockUse.AllocUse | rt-thread/src/mem.c:309-359 | the used blocks are those before and one new block of the size asked for, or a little more when the rest is too small to split |
| BlockUse.FreeUse | rt-thread/src/mem.c:497-539 | the used blocks are those before without the freed one |
| BlockUse.ShrinkUse | rt-thread/src/mem.c:449-477 | the used blocks are those before with the shortened block in place of the old one |
| SmallHeap.SmallMem.Search | rt-thread/src/mem.c:299-307 | the loop from the lowest free block with its bound finds what a scan of all blocks finds |
| SmallHeap.SmallMem.AdvanceLowestFree | rt-thread/src/mem.c:367-374 | the pointer moves to the next free block or to the end marker |
| SmallHeap.SmallMem.Alloc | rt-thread/src/mem.c:271-389 | grants the lowest block that fits, null exactly if none fits or nothing is asked for; other used blocks, accounting, running maximum, live payload |
| SmallHeapLayout.GrantedBlock | rt-thread/src/mem.c:299-388 | the granted payload is aligned, inside the heap, large enough and apart from every other used block |
| SmallHeapGrants.AllocMeans | rt-thread/src/mem.c:271-389 | the pointer returned: nothing exactly if no free block fits, otherwise the lowest that does, aligned, inside the heap, apart from every used block, with the size asked for; the other used blocks stay |
| SmallHeapGrants.ReallocMeans | rt-thread/src/mem.c:403-488 | for a live block: success exactly if the size is within the heap and is the same, can be cut off, or some free block fits; then the pointer is a live block of at least that size which took the old block's place among the used ones |
| SmallHeap.SmallMem.Free | rt-thread/src/mem.c:497-539 | the block leaves the used ones, which otherwise stay; it merges; its extent leaves the used size; other payload stays |
| SmallHeapLayout.ShrinkRemainder | rt-thread/src/mem.c:449-477 | the strict test against the unrounded minimal size still leaves an aligned, allocatable free block behind the shortened one |
| SmallHeap.SmallMem.Shrink | rt-thread/src/mem.c:449-477 | the shrink in place: new row with that remainder, accounting and pointer kept, payload kept |
| SmallHeap.SmallMem.CopyCells | rt-thread/src/mem.c:483 | the payload of the source block is copied to the target, no other cell changes |
| SmallHeap.SmallMem.Move | rt-thread/src/mem.c:479-487 | allocate, copy the shorter length, free; all or nothing |
| SmallHeap.SmallMem.Resize | rt-thread/src/mem.c:438-487 | leave, shrink or move, with the payload kept up to the shorter size and the running maximum over the fullest moment |
| SmallHeap.SmallMem.Realloc | rt-thread/src/mem.c:403-488 | success exactly when it must, a live block of at least the size in the old one's place, all other used blocks as before; the first min(old, new) payload bytes survive, no other live byte changes, a failure changes nothing; running maximum |
| SmallHeap.SmallMem.AllocFree | rt-thread/src/mem.c:271-539 | allocating and freeing restores boundaries, marks, used size, lowest-free pointer and live payload |
| BlockRow.AllocThenFree | rt-thread/src/mem.c:271-539 | on rows, freeing what was just allocated gives the same row |
| AlignedAlloc.PlaceFits | rt-thread/src/kservice.c:1174-1211 | the chosen address is aligned, leaves room for the hidden word before it and for the payload behind it |
| AlignedAlloc.MallocAlign | rt-thread/src/kservice.c:1174-1211 | aligned address inside the block obtained, with the real address hidden before it |
| AlignedAlloc.FreeAlign | rt-thread/src/kservice.c:1220-1228 | the hidden word leads back to the block, which is freed |
| AlignedAlloc.AlignedRoundTrip | rt-thread/src/kservice.c:1174-1228 | aligned allocation and aligned free restore the row |
| MemHeap.MemPool.constructor | rt-thread/src/memheap.c:79-154 | one free block, the tail marker, a ring with that block, and the counters |
| MemHeap.MemPool.Conserved | rt-thread/src/memheap.c:286-297 | live payload, available bytes and one header per block, tail included, make up the pool |
| MemHeapLayout.Conservation | rt-thread/src/memheap.c:286-297 | the same for every row that tiles a range |
| MemHeapLayout.RingFitComplete | rt-thread/src/memheap.c:221-235 | a scan of the ring finds a block exactly if some free block of the row fits |
| MemHeapLayout.AllocSucceedsIff | rt-thread/src/memheap.c:187-347 | an allocation succeeds exactly if a free block fits and the rounded size is strictly below all that is available |
| MemHeapLayout.RefusedThoughFitting | rt-thread/src/memheap.c:204 | a request that fits is refused exactly if one block holds all free payload and is asked for as a whole |
| MemHeapSteps.FreshPoolRefusesAll | rt-thread/src/memheap.c:204 | every fresh pool refuses a request for its one free block |
| MemHeapSteps.Granted | rt-thread/src/memheap.c:187-347 | the granted payload is aligned, inside the pool, large enough and apart from every other used block |
| BlockUse.GrowUse | rt-thread/src/memheap.c:409-484 | the used blocks are those before with the grown block in place of the old one |
| MemHeapGrants.AllocMeans | rt-thread/src/memheap.c:187-347 | the pointer returned: nothing exactly if no free block fits or the size reaches what is available, otherwise the first in the ring that fits, aligned, inside the pool, apart from every used block |
| MemHeapGrants.ReallocMeans | rt-thread/src/memheap.c:362-585 | for a live block: success exactly if the block has the size, its right neighbour has the room, or an allocation succeeds; then the pointer is a live block of at least that size which took the old block's place among the used ones |
| MemHeapSteps.TakeGood | rt-thread/src/memheap.c:237-312 | splitting or taking keeps row and ring well formed and the free payload changes as accounted |
| MemHeapSteps.FreeGood | rt-thread/src/memheap.c:642-708 | so does freeing with both merges |
| MemHeapSteps.GrowGood | rt-thread/src/memheap.c:409-484 | so does growing into the right neighbour |
| MemHeapSteps.ShrinkGood | rt-thread/src/memheap.c:504-585 | so does shrinking with its right merge |
| MemHeap.MemPool.Search | rt-thread/src/memheap.c:221-235 | the ring walk stops at the first entry that is large enough |
| MemHeap.MemPool.Alloc | rt-thread/src/memheap.c:187-347 | pointer, row, ring, available bytes, running maximum, live payload; a refusal changes nothing |
| MemHeap.MemPool.Free | rt-thread/src/memheap.c:594-719 | row, ring and available bytes after freeing, live payload kept |
| MemHeap.MemPool.Shrink | rt-thread/src/memheap.c:504-585 | shrink in place with the remainder at the front of the ring |
| MemHeap.MemPool.TryGrow | rt-thread/src/memheap.c:409-484 | grows in place exactly if the right neighbour is free and large enough |
| MemHeap.MemPool.Realloc | rt-thread/src/memheap.c:362-585 | success exactly when it must, a live block of at least the size in the old one's place, all other used blocks as before; payload kept up to the shorter size, other live bytes unchanged, failure changes nothing, running maximum over the fullest moment |
| MemHeap.MemPool.AllocFree | rt-thread/src/memheap.c:187-719 | allocating and freeing restores row, available bytes, ring members and live payload |
| MemHeapSteps.AllocThenFreeLayout | rt-thread/src/memheap.c:187-719 | the same on rows and rings |
| Bits.FfsIsFirstSet | rt-thread/src/kservice.c:1342-1365 | the table variant gives one plus the index of the lowest set bit, zero for zero |
| Bits.TinyIsFirstSet | rt-thread/src/kservice.c:1305-1308 | so does the modulo-37 variant |
| Bits.VariantsAgree | rt-thread/src/kservice.c:1305-1365 | both variants agree on every 32-bit value |
| ReadyLists.FlatPick | rt-thread/src/scheduler_up.c:104-124 | with up to 32 priorities the bit pick is the least non-empty priority |
| ReadyLists.DeepPick | rt-thread/src/scheduler_up.c:104-124 | with up to 256 priorities the two-level pick is |
| ReadyLists.ReadyQueue.Insert | rt-thread/src/scheduler_up.c:491-534 | the thread is linked in front or behind by its yield flag, and a bit is set exactly if its list is non-empty |
| ReadyLists.ReadyQueue.RemoveThread | rt-thread/src/scheduler_up.c:543-573 | the thread is unlinked, and a bit is set exactly if its list is non-empty |
| ReadyLists.ReadyQueue.Highest | rt-thread/src/scheduler_up.c:104-124 | the pick equals the plain scan |
| ReadyLists.ReadyQueue.HighestOrNone | rt-thread/src/scheduler_mp.c:188-232 | the pick with -1 read as unsigned for an empty queue |
| UpSpec.ScheduleKeeps | rt-thread/src/scheduler_up.c:281-415 | unlocked, the current thread ends at least as urgent as every ready one; locked, the switch is pending; runnable threads stay current or in exactly one list |
| UpSpec.RunKeeps | rt-thread/src/scheduler_up.c:281-573 | in every run each runnable thread is current or in exactly one ready list, and a pending switch is covered by a lock or an exit under way |
| UpSpec.NoLostReschedule | rt-thread/src/scheduler_up.c:281-708 | wherever interrupts fall: an unlocked request settles at once; a request under a lock stays recorded until a call goes through, and one has gone through when no lock is held and no exit is under way |
| UpSpec.ExitIsSteps | rt-thread/src/scheduler_up.c:682-708 | an uninterrupted exit is its unlock, test, clear and reschedule steps in a row |
| UpEffects.ScheduleMeans | rt-thread/src/scheduler_up.c:281-415 | when the current thread stays and when it gives way, to whom, and where it is put back; the others keep their order |
| UpEffects.TickMeans | rt-thread/src/scheduler_comm.c:291-322 | a tick shortens the current slice only, refills it when used up, and makes nobody runnable or not |
| UpEffects.YieldMeans | rt-thread/src/scheduler_comm.c:198-206 | the slice is refilled and the flag set, nothing else changes |
| UpEffects.MakeReadyMeans | rt-thread/src/scheduler_comm.c:229-271 | succeeds exactly for a suspended thread, which is then ready at the end of its list its yield flag says, or running if current; other threads and their order stay |
| UpEffects.SuspendMeans | rt-thread/src/thread.c:945-1037 | the thread ends suspended and in no list, refused exactly if neither runnable nor suspended; others stay |
| UpEffects.CloseMeans | rt-thread/src/thread.c:444-476 | the thread ends closed and in no list; others stay |
| UpEffects.SetPrioMeans | rt-thread/src/scheduler_comm.c:346-396 | the priority is set, a ready thread stands at the front of its new list; others stay |
| UpEffects.RunnableInRuns | rt-thread/src/scheduler_up.c:281-573 | over any run a runnable thread stays current or in a list until it is suspended or closed, and one that is not becomes so only when made ready |
| UpScheduler.Scheduler.constructor | rt-thread/src/scheduler_up.c:210-265 | one thread runs, none is ready, nothing is pending |
| UpScheduler.Scheduler.InsertThread | rt-thread/src/scheduler_up.c:491-534 | new thread state, lists and bitmaps of an insertion |
| UpScheduler.Scheduler.RemoveThread | rt-thread/src/scheduler_up.c:543-573 | new lists and bitmaps of a removal |
| UpScheduler.Scheduler.Reschedule | rt-thread/src/scheduler_up.c:281-415 | the whole reschedule on bitmaps and lists equals the one with a plain scan |
| UpScheduler.Scheduler.ThreadReady | rt-thread/src/scheduler_comm.c:229-271 | makes a suspended thread ready and refuses any other |
| UpScheduler.Scheduler.ThreadYield | rt-thread/src/scheduler_comm.c:198-206 | refills the slice and sets the yield flag |
| UpScheduler.Scheduler.TickIncrease | rt-thread/src/scheduler_comm.c:291-322 | an expired slice yields and reschedules |
| UpScheduler.Scheduler.UpdatePriority | rt-thread/src/scheduler_comm.c:346-396 | a ready thread changes lists with all its masks, any other only its fields |
| UpScheduler.Scheduler.SuspendThread | rt-thread/src/thread.c:945-1037 | a ready or running thread becomes suspended, a suspended one stays so, others are refused |
| UpScheduler.Scheduler.StartThread | rt-thread/src/scheduler_up.c:435-447 | an initialised thread becomes suspended |
| UpScheduler.Scheduler.CloseThread | rt-thread/src/thread.c:444-476 | a thread leaves its list and is closed |
| UpScheduler.Scheduler.EnterCritical | rt-thread/src/scheduler_up.c:656-662 | the new nesting level |
| UpScheduler.Scheduler.ReleaseLock | rt-thread/src/scheduler_up.c:684-698 | the count goes down, not below zero, and whether it was the outermost lock |
| UpScheduler.Scheduler.ExitCritical | rt-thread/src/scheduler_up.c:682-708 | the outermost exit makes up for a deferred switch |
| RoundRobin.OneTurn | rt-thread/src/scheduler_comm.c:291-322 | a thread runs for exactly its remaining ticks and then goes behind its peers |
| RoundRobin.StartsAfter | rt-thread/src/scheduler_comm.c:291-322 | a thread behind j others runs after the remaining ticks of the current thread and of those j, and the order is cyclic |
| RoundRobin.StartsExactly | rt-thread/src/scheduler_comm.c:291-322 | and not a tick before |
| RoundRobin.KeepsAgainstEqual | rt-thread/src/scheduler_up.c:307-344 | against a peer the running thread keeps the processor exactly if its yield flag is clear |
| RoundRobin.StaleYieldPreempts | rt-thread/src/scheduler_comm.c:198-206 | a slice that expired with nobody waiting lets the next peer preempt at the start of the new slice |
| MpSpec.PickIsTop | rt-thread/src/scheduler_mp.c:239-273 | the pick is a ready thread that may run on this CPU, and no such thread is more urgent |
| MpSpec.SwitchKeeps | rt-thread/src/scheduler_mp.c:625-713 | a switch keeps the invariant, touches no other CPU and leaves this one with the most urgent thread it may run |
| MpSpec.BindKeeps | rt-thread/src/scheduler_mp.c:1501-1582 | binding keeps the invariant, sets the binding and keeps a ready thread ready |
| MpSpec.RunIsSafe | rt-thread/src/scheduler_mp.c:280-713 | in every reachable state a ready thread is in exactly the queue of its binding and priority, once, and on no CPU; a thread on a CPU is in no queue; no thread is on two CPUs |
| MpSpec.RunSettles | rt-thread/src/scheduler_mp.c:625-713 | after every switch of any run that CPU runs the most urgent thread it may run |
| MpEffects.SwitchMeans | rt-thread/src/scheduler_mp.c:625-713 | when the thread of a CPU stays and when it gives way, to whom, with the local queue before the global one, and where it is put back; the others keep their order |
| MpEffects.MakeReadyMeans | rt-thread/src/scheduler_comm.c:229-271 | succeeds exactly for a suspended thread, which is then ready at the end of its queue its yield flag says, or running if still on a CPU; other threads, queues and CPUs stay |
| MpEffects.SuspendMeans | rt-thread/src/thread.c:945-1037 | the thread ends suspended and in no queue, refused exactly if neither runnable nor suspended; others stay |
| MpEffects.CloseMeans | rt-thread/src/thread.c:444-476 | the thread ends closed and in no queue; others stay |
| MpEffects.SetPrioMeans | rt-thread/src/scheduler_comm.c:346-396 | the priority is set, a ready thread stands at the front of its new list; others stay |
| MpEffects.BindMeans | rt-thread/src/scheduler_mp.c:1501-1582 | the binding is set, a ready thread stands at the front of the queue it is now bound to; others stay |
| MpEffects.YieldMeans | rt-thread/src/scheduler_comm.c:198-206 | the flag of the thread on the CPU is set, nothing else changes |
| MpEffects.RunnableInRuns | rt-thread/src/scheduler_mp.c:280-713 | over any run a runnable thread stays in a queue or on a CPU until it is suspended or closed, and one that is not becomes so only when made ready |
| MpScheduler.Scheduler.constructor | rt-thread/src/scheduler_mp.c:428-472 | empty queues, cleared bitmaps, one thread on each CPU |
| MpScheduler.Scheduler.InsertThread | rt-thread/src/scheduler_mp.c:280-362 | state, queue and bitmaps after an insertion |
| MpScheduler.Scheduler.UnlinkThread | rt-thread/src/scheduler_mp.c:365-406 | queue and bitmaps after a removal |
| MpScheduler.Scheduler.HighestPriorityThread | rt-thread/src/scheduler_mp.c:239-273 | the bitmap pick over both queues, local on ties |
| MpScheduler.Scheduler.ContextSwitch | rt-thread/src/scheduler_mp.c:625-713 | the whole hand-over of a CPU |
| MpScheduler.Scheduler.BindCpu | rt-thread/src/scheduler_mp.c:1501-1582 | a ready thread moves to the queue of its new binding, any other only changes it |
| MpScheduler.Scheduler.UpdatePriority | rt-thread/src/scheduler_comm.c:346-396 | a ready thread changes lists with all its masks |
| MpScheduler.Scheduler.ThreadReady | rt-thread/src/scheduler_comm.c:229-271 | answer, thread, queue and bitmaps after a resume (what they mean is in `MakeReadyMeans`) |
| MpScheduler.Scheduler.SuspendThread | rt-thread/src/thread.c:945-1037 | a ready or running thread becomes suspended |
| MpScheduler.Scheduler.StartThread | rt-thread/src/scheduler_mp.c:1190-1202 | an initialised thread becomes suspended |
| MpScheduler.Scheduler.CloseThread | rt-thread/src/thread.c:444-476 | a thread leaves its queue and is closed |
| MpScheduler.Scheduler.ThreadYield | rt-thread/src/scheduler_comm.c:198-206 | the thread of a CPU gets its yield flag, queues and bitmaps stay in agreement |
| IpcWaiters.NobodyForgotten | rt-thread/src/ipc.c:105-146 | once every resumed thread has run, nobody waits for an item or for room that is there |
| Mailbox.RunKeeps | rt-thread/src/ipc.c:2566-2977 | in every run the box holds at most its size and no wake-up is lost |
| Mailbox.MailsConserved | rt-thread/src/ipc.c:2566-2977 | in every run each value is in the box as often as it was put in and not yet taken out |
| Mailbox.AnswerMeans | rt-thread/src/ipc.c:2566-2977 | a send is refused or suspends exactly at a full box and a receive at an empty one; a suspended caller is on its list, and what comes up resumes the first waiter |
| Mailbox.HoldsTheDeque | rt-thread/src/ipc.c:2566-2977 | in every run the box holds what a deque replayed from operations and answers holds, and every mail received was at its front |
| Mailbox.ReceivedInOrder | rt-thread/src/ipc.c:2566-2977 | without urgent mails the values received, followed by those in the box, are the values accepted, in order |
| Mailbox.NobodyWaitsInVain | rt-thread/src/ipc.c:2566-2977 | in every run, once all resumed threads have run, no receiver waits at a non-empty box and no sender at one with room |
| Mailbox.Mailbox.constructor | rt-thread/src/ipc.c:2346-2376 | an empty ring |
| Mailbox.Mailbox.TrySend | rt-thread/src/ipc.c:2566-2696 | on the ring with wrap-around, a send appends to the bounded deque, blocks or is refused; the overflow branch cannot be reached |
| Mailbox.Mailbox.TryUrgent | rt-thread/src/ipc.c:2772-2820 | an urgent mail goes in front, wrapping backwards |
| Mailbox.Mailbox.TryRecv | rt-thread/src/ipc.c:2849-2977 | a receive takes the front, blocks or is refused |
| MessageQueue.NodesConserved | rt-thread/src/ipc.c:3097-4035 | in every interleaving each pool node is in exactly one of queue, free list, a sender's or a receiver's hands; none is lost; no wake-up is lost |
| MessageQueue.EntriesBounded | rt-thread/src/ipc.c:3547-3556 | the four places add up to the pool, so the entry count stays in range |
| MessageQueue.StepMeans | rt-thread/src/ipc.c:3381-4035 | a sender gets a node exactly if one is free and a receiver exactly if one is queued, others are refused or on their list; what links or gives back resumes the first waiter; a reset frees every queued node and empties both lists |
| MessageQueue.FilledStays | rt-thread/src/ipc.c:3496-3505 | what a sender wrote is what its node holds when it is linked and until it is written again |
| MessageQueue.ReceivesTheDeque | rt-thread/src/ipc.c:3381-3925 | in every interleaving of halves of sends, urgent sends, receives, resets and timeouts the queue is the deque fixed at the link steps, and what a receiver copies later is what was at its front when it took the node |
| MessageQueue.LinkedMessageStays | rt-thread/src/ipc.c:3505-3925 | no step changes a linked message until its node is given back or reset |
| MessageQueue.ReceivedInOrder | rt-thread/src/ipc.c:3381-3925 | without urgent sends and resets, receivers get exactly the linked messages in link order and the rest is waiting |
| MessageQueue.MessageQueue.constructor | rt-thread/src/ipc.c:3097-3156 | all nodes chained on the free list |
| MessageQueue.MessageQueue.TryTake | rt-thread/src/ipc.c:3412-3494 | first half of a send: a free node, blocked, or refused |
| MessageQueue.MessageQueue.TryTakeNow | rt-thread/src/ipc.c:3657-3688 | first half of an urgent send |
| MessageQueue.MessageQueue.FillNode | rt-thread/src/ipc.c:3496-3502 | the message is in the node, for an ordinary send with an empty link; all other nodes are untouched |
| MessageQueue.MessageQueue.LinkNode | rt-thread/src/ipc.c:3504-3571 | the node becomes the tail of the chain whatever other nodes are being written or read; those stay as they are |
| MessageQueue.MessageQueue.LinkUrgentNode | rt-thread/src/ipc.c:3695-3731 | the node becomes the head of the chain |
| MessageQueue.MessageQueue.TryHead | rt-thread/src/ipc.c:3792-3887 | first half of a receive: the head of the chain, blocked, or refused; an emptied queue loses its tail |
| MessageQueue.MessageQueue.ReadNode | rt-thread/src/ipc.c:3889-3895 | the message, cut to the receiver's room |
| MessageQueue.MessageQueue.GiveBackNode | rt-thread/src/ipc.c:3901-3925 | the node goes to the front of the free list and a sender is resumed |
| MessageQueue.MessageQueue.ResetQueue | rt-thread/src/ipc.c:3987-4035 | every queued node returns to the free list, all waiters are released, nodes in hands stay |
| MessageQueue.OverlappingSends | rt-thread/src/ipc.c:3381-3925 | two sends overlap and link in the other order; a receive gets the one linked first and the other stays queued |
| Event.SendMeans | rt-thread/src/ipc.c:1966-2062 | a send wakes exactly the waiters the joint set satisfies, all judged against the same set, and clears exactly the bits that clearing waiters consumed |
| Event.SatisfiedMeans | rt-thread/src/ipc.c:2003-2021 | AND wants every bit of the mask, OR one of them, and AND decides if both are given |
| Event.ReceivedMeans | rt-thread/src/ipc.c:2013-2020 | a woken waiter receives exactly the bits of its mask that are set |
| Event.OrderStays | rt-thread/src/ipc.c:1993-2047 | woken waiters and those left keep their order |
| Event.RecvMeans | rt-thread/src/ipc.c:2098-2223 | bit by bit: a satisfied receive gets the bits of its mask that are set and with CLEAR takes its mask out of the set; any other is refused or suspended with the set as it is |
| Event.NobodyLeftWaiting | rt-thread/src/ipc.c:1966-2223 | in no run does a thread stay suspended on an event whose current set satisfies it |
| Event.Event.WakeWaiters | rt-thread/src/ipc.c:1992-2052 | the loop over the suspend list in place computes woken threads, remaining list and bits to clear |
| Event.Event.SendEvent | rt-thread/src/ipc.c:1966-2062 | result, woken threads and new event, refusal of an empty set included |
| Event.Event.RecvEvent | rt-thread/src/ipc.c:2098-2223 | received bits, refusal or suspension, and the new event |

## Findings

Properties that do not hold of the code as it is, each with an input on which it fails and
the condition under which it holds.

- **Hand-over ignores the ceiling** (rt-thread/src/ipc.c:1635-1690). A release that gives the
  mutex to a waiter does not raise the new owner to the ceiling. `HandOverSkipsCeiling` is an
  input; by `ReleaseKeeps` and `ReleaseExactIff` exact inheritance survives a release if and
  only if there is no hand-over or the first waiter already runs at the ceiling or above it.
- **A late clean-up can leave a boost behind** (rt-thread/src/ipc.c:1488, 1106-1110). The
  guard compares the owner's priority with the leaver's current one, which may have changed
  since its wait ended. `LateCleanUpKeepsBoost` is a run on which the owner keeps a boost
  nobody needs. By `AbandonExactIff` the repair is missed if and only if the mutex has an
  owner that runs neither at the leaver's current priority nor at its recomputed one;
  `LateExactRunsIff` lifts both findings to all runs. The inversion bound holds regardless.
- **A request that fits can be refused** (rt-thread/src/memheap.c:204). The comparison with
  the available bytes is strict. `FreshPoolRefusesAll` gives an input for every pool; by
  `RefusedThoughFitting` it happens if and only if one block holds all the free payload and
  the rounded request asks for all of it.
- **A stale yield flag** (rt-thread/src/scheduler_comm.c:198-206, 291-322). If a slice expires
  while no peer is ready, the flag stays set although the slice was refilled; the next peer
  to become ready preempts at once (`StaleYieldPreempts`). By `KeepsAgainstEqual` a peer
  preempts if and only if the flag is set.
- **Updates that never happen** (rt-thread/src/mem.c:135-138, 149-152). `plug_holes` moves the
  lowest-free pointer if it names the block that disappears; it never does (`Merge`).
- **Overflow branches** (rt-thread/src/ipc.c:2671, 3547, 3705). The entry counters of mailbox
  and message queue cannot reach their limit (`TrySend`, `EntriesBounded`).

## Left out

- Semaphores, memory pools, timers, signals, object containers and the deletion and
  detachment of IPC objects: easier than what is here, or plumbing around it.
- Detaching or deleting a mutex that another thread holds, and what a closing thread does
  with mutexes it still holds (rt-thread/src/ipc.c:946-977, rt-thread/src/thread.c:101-107).
- MutexKernel.Kernel.MutexDropThread: requires a thread already unlinked, because its caller
  closes the thread first (rt-thread/src/thread.c:503-513), so the unlinking in
  rt-thread/src/ipc.c:1097 finds nothing to unlink; it is modelled and proved to change nothing.
- MutexKernel.Kernel.MutexRelease: does not model the retry when the first waiter's timer
  fired but its wake-up was not carried out yet; a timer expiry and its wake-up are one step.
- MutexKernel.Kernel.MutexTake: the nesting count is bounded by 255 as in the source; the
  value of a timeout, the suspend flavours and the thread's error code are not modelled.
- UpScheduler.Scheduler.ExitCritical: is the uninterrupted exit; exits interrupted between
  their steps are modelled in the runs of `UpSpec`, with counters for the exits under way.
- MpSpec.RunIsSafe: a switch is one step under the scheduler lock; interrupt and critical
  nesting, inter-processor interrupts and the stack switch are not modelled.
- SmallHeap.SmallMem.Alloc: heap offsets and sizes are unbounded, so the wrap-around of
  rounding a size near the top of the address range is not captured.
- AlignedAlloc.MallocAlign: writes the source's masks as remainders, which they are for an
  alignment that is a power of two once rounded to the word size; other alignments are not
  covered.
- Mailbox.Mailbox.TrySend: the place in the suspend list is a parameter, so the order by
  arrival or priority of senders and receivers is not captured; the same holds for the
  message queue and the event.
- MessageQueue.MessageQueue.LinkNode: does not cover the build option that orders messages by
  priority (RT_USING_MESSAGEQUEUE_PRIORITY).
- MessageQueue.MessageQueue.constructor: a pool too small for one message is refused by the
  source before anything is set up and is not modelled.
- Event.Event.RecvEvent: requires AND or OR, as the documentation does; without either the
  source asserts.
- MemHeap.MemPool.Alloc: the best-fit build option, the lock flag for interrupt-time use and
  the magic numbers are not modelled.
- Allocation tracing by thread name, statistics output, hooks and logging.
- The event, mailbox and queue control commands other than the queue's reset.
