# Proofs about the kernel of this RT-Thread board port

This project models the parts of the RT-Thread kernel carried by the repository whose correctness depends on the
interplay of many small updates, and proves what they keep. It consists of Dafny modules only; `dafny verify
dfyconfig.toml` checks all of it.

## What is modelled

**Mutex with priority inheritance** (`PriorityInheritance`, `PriorityWalk`, `MutexSteps`, `MutexEffects`,
`MutexKernel`, `WaitsFor`, `MutexRuns`, `MutexCounts`, `MutexDeadlock`). Thread and mutex control blocks are classes
whose fields the methods of `Kernel` update one by one, as ipc.c does: the sorted suspend list, the cached
`mutex->priority`, the current priority of the owner, and the walk along the chain of owners. A ghost value `Sys`
repeats the fields, and the invariant is stated on it: lists sorted by priority and FIFO among equals, caches exact,
every thread at the minimum of its initial priority and those of the mutexes it holds, every mutex in exactly its
owner's list, no owner then no waiters. `WaitsFor` derives the global closed form from the local invariant, for every
thread that is not part of a deadlock, `MutexRuns` proves it for all runs, deadlocks included, and `MutexDeadlock`
gives a run in which it fails at two threads that are part of one. `MutexEffects` says field by field what each call
does to owners, counts and waiters, and `MutexCounts` what that comes to over runs.

**Small-memory heap** (`HeapChain`, `HeapSteps`, `HeapCells`, `HeapRuns`, `SmallMem`, `VarMem`). The heap of mem.c is
an array of cells that holds headers and payload alike; headers carry `next`, `prev` and the tagged pool pointer. A
ghost sequence of blocks is what the headers spell out. Header size, minimum size and heap size are parameters, so
that varmem.c, which always scans from the head, is a second class over the same chain; both are proved to take the
same block.

**memheap** (`MemheapChain`, `MemheapSteps`, `MemheapLinks`, `MemheapBytes`, `Memheap`, `MemheapRuns`). Headers are
found in a map from offsets; writing a header removes all others it overlaps, so that a header destroyed by growing in
place cannot be read again. The circular block list and the free list are two sets of links in the same headers. The
bytes of the pool are an array: writing a header changes the bytes it lies on, writing payload destroys the headers it
overlaps, and both are shown never to hit anything in use (`MemheapBytes`).

**Message queue, mailbox, event, memory pool** (`SuspendList`, `MessageList`, `MessageQueue`, `MessageRuns`,
`Mailbox`, `EventSet`, `MemPool`). Each region under a lock, and each copy in between, is one method that asks only
for a valid object, so its contract holds in every interleaving. The balance of wake-ups is kept by all of them: while
threads wait, there are no more units to be had than threads woken and not yet resumed.

**Ready queue and scheduler** (`PriorityBitmap`, `ReadyQueue`, `Scheduler`). The two-level bitmap on bit vectors, 256
lists, insertion at the front or the end, switching, slices, and nested critical sections of the single-core
scheduler.

**Worst-case-stack analysis** (`WorstCaseStack`). The memoised depth-first search of tools/WCS.py over the resolved
call graph, against a definition by chains of calls.

**Lock-less list** (`LockFreeList`). Loads, stores and compare-exchanges of any number of producers and one consumer
as atomic steps, against an abstract stack.

## Main results

- Mutexes: `Kernel.Take`, `Kernel.Release` and `Kernel.TakeTimeout` keep the whole invariant although they recompute
  priorities only where they think they must (`MutexSteps.SkipIsSound`, `MutexSteps.WakeOwners`,
  `MutexSteps.ReleaseKeeps`); the walk terminates on every graph and repairs everything
  (`Kernel.ThreadUpdatePriority`, `PriorityWalk.WalkKeeps`); in every run, the priority of every thread that is not
  itself part of a deadlock has a closed form (`WaitsFor.ClosedForm`, `MutexRuns.RunsAreFair`) and is determined by
  the graph (`WaitsFor.GraphDeterminesPriorities`); at a thread that is, the closed form can fail
  (`MutexDeadlock.DeadlockBreaksClosedForm`). In every run a mutex taken k times is given away by exactly the k-th
  release (`MutexCounts.HoldsAreCounted`, `MutexCounts.LastReleaseGivesAway`).
- Small heap: a request is served if and only if some free block has room for it, from a block cut to the least size
  that serves (`SmallMem.Alloc`, `HeapSteps.NeedIsLeast`); `SmallMem.Alloc`, `SmallMem.Free` and `SmallMem.Realloc`
  are specified down to the bytes of all other blocks; `lfree` is sound and the search complete (`SmallMem.Search`,
  `HeapSteps.NoFitBeyond`); runs keep chain, account and maximum (`HeapRuns.RunKeeps`) and end where they began
  (`HeapRuns.RunIsBackWhereItStarted`); `VarMem` refines the same chain.
- memheap: both lists and the account are exact after every operation (`Memheap.Alloc`, `Memheap.FreePtr`,
  `Memheap.Realloc`), with the new header of a growing block written over the old one (`Memheap.GrowBlock`), payload
  survives them all (`Memheap.ResizeKeepsBytes`), and runs keep the maximum and end where they began
  (`MemheapRuns.RunKeeps`, `MemheapRuns.RunIsBackWhereItStarted`).
- Message queue: every slot is in exactly one place under all interleavings (`Mq.Link`, `Mq.Copy`, `Mq.Recycle`,
  `Mq.Reset`), and runs refine a stable priority queue (`MessageRuns.RunRefines`).
- Waiting: lists with RT_IPC_FLAG_PRIO are sorted, so that the thread woken is one of the most urgent
  (`SuspendList.Enqueue`, `SuspendList.FirstIsMostUrgent`).
- Mailbox, event, pool: a bounded deque (`Mb.Send`, `Mb.Urgent`, `Mb.Receive`), one pre-clear set for all waiters
  (`Event.Send`), and no lost wake-up: `Mq.Valid`, `Mb.Valid` and `Pool.Valid`, which every method keeps, say that
  while threads wait there are no more units to be had than woken threads on their way.
- Scheduler: the bitmap lookup is the true minimum (`ReadyQueue.HighestIsMostUrgent`), and after an unlocked
  `Scheduler.Schedule` nobody ready is more urgent than the running thread, which is replaced only by a more urgent
  one, or by a peer if it yields; as many slice expiries as a group has members restore everything
  (`Scheduler.ExpireTimes`).
- Stack analysis: `CallGraph.CalcAllWcs` is exact, and its answer unique (`WorstCaseStack.CorrectIsUnique`).
- Lock-less list: the steps of producers and consumer refine an atomic stack (`List.EnqueueExchange`,
  `List.DequeueExchange`).

## Where documentation and code differ

The code was followed. An urgent message (ipc.c:3642-3702) is documented to be received first, but a later send can
overtake it, because its priority is never set; `MessageRuns.UrgentOvertaken` says exactly when, for any number of
sends in between. rt_memheap_alloc (memheap.c:204) refuses a request for all that is left;
`MemoryHeap.RefusedThoughItFits` says exactly when, and `MemoryHeap.FreshHeapRefuses` gives an instance.
rt_smem_realloc moves a block, and may fail, when it is to shrink by too little for a split (mem.c:447-479);
`SmallMem.Realloc` states this case.

## Model

| member | source | states |
|---|---|---|
| `MutexKernel.Kernel.constructor` | rt-thread/src/ipc.c:1008-1030 | Threads and mutexes as they are initialized form a valid system |
| `MutexKernel.Kernel.SuspListEnqueue` | rt-thread/src/ipc.c:241-284 | The scan puts a thread behind all threads at least as urgent, in front of the first less urgent one |
| `MutexKernel.Kernel.MutexUpdatePriority` | rt-thread/src/ipc.c:828-843 | The cached priority of a mutex becomes that of its first waiter, or 0xff |
| `MutexKernel.Kernel.GetMutexPriority` | rt-thread/src/ipc.c:846-866 | The result is the minimum, attained, of the initial priority and the cached priorities of all mutexes held, in whatever order the list is read |
| `MutexKernel.Kernel.ThreadUpdatePriority` | rt-thread/src/ipc.c:869-921 | The walk along the chain of owners terminates even on a cyclic chain and repairs everything: all suspend lists sorted, all caches and all inherited priorities right; it takes exactly the turns of `PriorityWalk.Walk`; the priorities it changes go from the old value to the new one at most, and the shape of the graph does not change |
| `MutexKernel.Kernel.UpdateOwner` | rt-thread/src/ipc.c:881-919 | One turn of the walk: the waiter is sorted in again, the cache refreshed, and either only the owner is still wrong or everything is settled |
| `PriorityWalk.WalkCarries` | rt-thread/src/ipc.c:889-909 | When a waiter becomes more urgent, an owner that has to change ends at exactly the priority of the waiter; when it becomes less urgent, an owner that has to change ran at exactly the priority given up |
| `PriorityWalk.WalkEnds` | rt-thread/src/ipc.c:881-915 | A thread that waits for no mutex ends the walk: nothing is left to repair |
| `PriorityWalk.RequeueQueues` | rt-thread/src/ipc.c:889-891 | After a waiter changed its priority, sorting it in again and refreshing the cache of the mutex repairs every list |
| `PriorityWalk.RequeueOwners` | rt-thread/src/ipc.c:889-891 | After that, only the owner of the mutex may run at a wrong priority |
| `PriorityWalk.WalkStops` | rt-thread/src/ipc.c:893-909 | When that owner already runs at what it inherits, nothing is left to repair |
| `PriorityWalk.WalkKeeps` | rt-thread/src/ipc.c:869-921 | Every walk, turn by turn as the loop takes it, that starts where only one thread runs at a wrong priority settles the whole system, also along a cycle |
| `PriorityWalk.OwnerAdjusts` | rt-thread/src/ipc.c:877-879 | Giving a thread its inherited priority leaves only the list it waits in to be repaired |
| `MutexKernel.Kernel.Take` | rt-thread/src/ipc.c:1327-1451 | A nested take adds one to `hold` and changes nothing else, or is refused when the counter is full; a free mutex is then held once; with time-out 0 nothing changes; otherwise the thread is suspended, remembers the mutex and is one of those waiting, while no mutex changes hands. The whole invariant (lists sorted and FIFO among equals, caches exact, owner priorities inherited, a mutex in exactly its owner's list, no owner then no waiters) is kept |
| `MutexKernel.Kernel.Block` | rt-thread/src/ipc.c:1404-1433 | The blocking branch, with the shortcut that the owner is told only if the waiter is more urgent than all others and than the owner, leaves every thread at its inherited priority |
| `MutexSteps.TakeFreeKeeps` | rt-thread/src/ipc.c:1369-1384 | Taking a free mutex keeps the invariant |
| `MutexSteps.SetHoldKeeps` | rt-thread/src/ipc.c:1353-1365 | A nested take or release keeps the invariant |
| `MutexSteps.SuspendOwners` | rt-thread/src/ipc.c:1407-1433 | After a thread joined a suspend list, at most the owner of that mutex is wrong, and only if the waiter became the most urgent one and beats the owner |
| `MutexKernel.Kernel.CheckAndUpdatePrio` | rt-thread/src/ipc.c:923-944 | The priority is recomputed only if it equals that of the mutex given up |
| `MutexSteps.SkipIsSound` | rt-thread/src/ipc.c:923-944 | Skipping the recomputation is sound: a thread whose priority differs from that of the mutex it gives up still runs at the priority it inherits from the rest |
| `MutexKernel.ReleaseLastMeans` | rt-thread/src/ipc.c:1633-1707 | Whether or not the priority was recomputed, the complete release keeps the invariant, and its steps compose to one change of the state |
| `MutexSteps.ReleaseKeeps` | rt-thread/src/ipc.c:1625-1707 | Giving up the last hold, with hand-over to the first waiter or without, keeps the invariant; the new owner runs at its inherited priority although nothing is recomputed for it |
| `MutexKernel.Kernel.HandOver` | rt-thread/src/ipc.c:1642-1707 | The mutex goes to the head of the list, its cache is read off the rest of the list, or it becomes free |
| `MutexKernel.Kernel.Release` | rt-thread/src/ipc.c:1591-1717 | Refused for all but the owner; of several holds one is given up and nothing else changes; with the last one the mutex becomes free, or the first waiter holds it once, waits no longer and has forgotten it, and the cache is the priority of the next waiter; the invariant is kept |
| `MutexEffects.HandOver` | rt-thread/src/ipc.c:1642-1690 | A mutex somebody waits for goes to the first waiter, which then holds it once and waits no longer; nobody else but the old owner changes |
| `MutexEffects.BlockedTake` | rt-thread/src/ipc.c:1404-1433 | When a thread has to wait, exactly it joins those waiting for the mutex, and whatever the walk of priorities does, no mutex changes hands and no count changes |
| `MutexKernel.Kernel.TakeTimeout` | rt-thread/src/ipc.c:1463-1527 | A time-out with the clean-up of the woken thread takes exactly that thread off the list and changes no owner and no count; it keeps the invariant; threads only become less urgent, and only those that ran at the priority of the thread that left |
| `MutexSteps.WakeOwners` | rt-thread/src/ipc.c:1491-1523 | When a waiter leaves, at most the owner of the mutex is wrong, and only if it ran at the priority of the waiter: the guard in front of the update is sound |
| `MutexSteps.ForgetKeeps` | rt-thread/src/ipc.c:1524-1525 | Forgetting the mutex after the time-out keeps the invariant |
| `WaitsFor.BlockerAtLeast` | rt-thread/src/ipc.c:845-921 | A thread is at least as urgent as every thread it blocks, directly or through others |
| `WaitsFor.ClosedForm` | rt-thread/src/ipc.c:845-921 | In a settled state the priority of every thread that is not itself part of a deadlock is the minimum, attained, of its own initial priority and those of all threads transitively blocked by it |
| `WaitsFor.CycleClosed` | rt-thread/src/ipc.c:881-919 | Whatever a thread on a cycle waits for, however far away, is on a cycle too, so nothing off the cycles is blocked by a deadlock from behind |
| `WaitsFor.GraphDeterminesPriorities` | rt-thread/src/ipc.c:845-921 | The waits-for graph and the initial priorities determine the current priority of every thread that is not part of a deadlock, whatever happened before |
| `MutexRuns.JoinedAcyclic` | rt-thread/src/ipc.c:1407-1414 | A new wait keeps the graph acyclic if and only if the owner does not depend on the waiter already |
| `MutexRuns.StepKeeps` | rt-thread/src/ipc.c:1327-1717 | Every call, as the source computes it, keeps the whole invariant |
| `MutexRuns.TakeKeeps` | rt-thread/src/ipc.c:1353-1433 | Every take keeps it, with the walk it starts |
| `MutexRuns.TimeoutKeeps` | rt-thread/src/ipc.c:1463-1527 | Every time-out keeps it, and only relaxes threads that ran at the priority of the one that left |
| `MutexRuns.TakeIsStep` | rt-thread/src/ipc.c:1327-1451 | What `Kernel.Take` does is a step of a run |
| `MutexRuns.ReleaseIsStep` | rt-thread/src/ipc.c:1591-1717 | What `Kernel.Release` does is a step of a run |
| `MutexRuns.TimeoutIsStep` | rt-thread/src/ipc.c:1463-1527 | What `Kernel.TakeTimeout` does is a step of a run |
| `MutexRuns.StepKeepsAcyclic` | rt-thread/src/ipc.c:1327-1717 | A call keeps the graph acyclic if and only if it is not a blocking take of a mutex whose owner depends on the caller |
| `MutexRuns.FreshIsInitial` | rt-thread/src/ipc.c:1008-1030 | Runs start from the state the constructors leave |
| `MutexRuns.RunsAreFair` | rt-thread/src/ipc.c:845-921 | In every state of every run of takes, releases and time-outs, deadlocks included, the closed form holds at every thread that is not itself part of a deadlock |
| `MutexRuns.RunStaysAcyclic` | rt-thread/src/ipc.c:1407-1414 | In a run in which no blocking take closes a cycle no thread is ever part of a deadlock |
| `MutexCounts.StepCounts` | rt-thread/src/ipc.c:1327-1717 | What one call means for one mutex and one thread: the count goes up by a take of the owner, down by its release, and is 1 for a new owner; no other call touches owner or count |
| `MutexCounts.HoldsAreCounted` | rt-thread/src/ipc.c:1353-1628 | In every run, as long as a thread has released a mutex no more often than it took it again since it got it, it owns the mutex and `hold` is one more than the difference |
| `MutexCounts.LastReleaseGivesAway` | rt-thread/src/ipc.c:1625-1707 | In every run, with k takes since a thread got the mutex, that one included, exactly its k-th release gives the mutex away: to the first waiter, or to nobody if there is none |
| `MutexDeadlock.DeadlockBreaksClosedForm` | rt-thread/src/ipc.c:881-919 | The condition is needed: a run of six calls from the state the constructors leave ends with two deadlocked threads of initial priority 10 running at 1, although the thread of priority 1 that raised them has timed out and all they block are themselves |
| `SmallMemHeap.LayoutFits` | rt-thread/src/mem.c:177-196 | The guard of the initialization is equivalent to there being room for the control object and two headers, so the size cannot wrap around; the layout lies inside the memory given, is aligned, and wastes less than a word at its end |
| `SmallMemHeap.SmallMem.constructor` | rt-thread/src/mem.c:198-231 | The new heap is one free block |
| `HeapCells.SplitLinks` | rt-thread/src/mem.c:322-340 | Writing the new header and the neighbours' fields turns headers that spell out a chain into headers that spell out the chain with the block cut |
| `HeapCells.JoinLinks` | rt-thread/src/mem.c:126-157 | Unlinking a header turns headers that spell out a chain into headers that spell out the chain with the two blocks joined |
| `HeapCells.SplitKept` | rt-thread/src/mem.c:322-340 | Cutting a block changes no byte of any other used block |
| `HeapCells.JoinKept` | rt-thread/src/mem.c:126-157 | Joining free blocks changes no byte of any used block |
| `SmallMemHeap.SmallMem.PlugHoles` | rt-thread/src/mem.c:119-157 | A freed block is joined with its free neighbours on both sides; lfree needs no adjustment when it already is the lowest free block; no used block changes |
| `HeapSteps.PlugKeeps` | rt-thread/src/mem.c:119-157 | After plug_holes the blocks tile the heap, no two neighbours are free and the bytes in use are the same |
| `HeapSteps.PlugLowest` | rt-thread/src/mem.c:119-157 | plug_holes never removes the block lfree points to |
| `HeapSteps.FitWithinBound` | rt-thread/src/mem.c:299-301 | The bound of the search loop skips no block with enough room |
| `HeapSteps.NoFitBeyond` | rt-thread/src/mem.c:299-305 | When the loop ends nothing in the heap fits |
| `SmallMemHeap.SmallMem.Search` | rt-thread/src/mem.c:299-305 | Starting at lfree finds the first fit counted from the head of the heap, and the loop terminates |
| `SmallMemHeap.SmallMem.Alloc` | rt-thread/src/mem.c:271-389 | A request is served if and only if it is not for 0 bytes and some free block has room for an aligned size that is at least the request and the minimum; RT_NULL changes nothing. The first free block with room for the least such size is taken: if what is left over can hold a block, it is cut to exactly that size, and taken whole if not; used and max are accounted, lfree is the lowest free block again, and no used block changes a byte |
| `SmallMemHeap.SmallMem.AdvanceLfree` | rt-thread/src/mem.c:364-371 | The loop moves lfree on to the next free block, or the end |
| `HeapSteps.NeedIsLeast` | rt-thread/src/mem.c:284-290 | The size looked for is the least aligned one that holds the request and is not below the minimum |
| `HeapSteps.FitIffServed` | rt-thread/src/mem.c:284-305 | The search for that size succeeds if and only if any size that serves the request has room somewhere, and then finds the first block with room for the least |
| `HeapSteps.AllocTakes` | rt-thread/src/mem.c:309-360 | A block is cut if and only if the rest is large enough for the smallest block, and a block that is cut is left with exactly the size asked for |
| `HeapSteps.AllocKeeps` | rt-thread/src/mem.c:305-360 | The chain stays a tiling with aligned offsets and no two free neighbours, and `used` grows by the span of the new block, which has room for the request |
| `HeapSteps.TakenLowest` | rt-thread/src/mem.c:364-371 | If the block taken is not the one lfree points to, lfree is still right; if it is, nothing up to it is free |
| `HeapSteps.TakenLfreeIsLowest` | rt-thread/src/mem.c:364-371 | Walking on from the block taken if lfree pointed there, and leaving lfree alone otherwise, gives the lowest free block |
| `HeapSteps.ReleasedLfreeIsLowest` | rt-thread/src/mem.c:523-538 | Moving lfree down to the freed block if it is lower, and through the joins of plug_holes, gives the lowest free block |
| `HeapSteps.CutLfreeIsLowest` | rt-thread/src/mem.c:465-471 | The same for the rest of a block that was cut |
| `SmallMemHeap.SmallMem.Free` | rt-thread/src/mem.c:497-539 | Freeing RT_NULL does nothing; freeing a block in use makes one free block of it and its free neighbours, subtracts its span, moves lfree down if needed, and changes no byte of any other used block |
| `HeapSteps.FreeKeeps` | rt-thread/src/mem.c:523-538 | The chain stays sound and `used` shrinks by the span of the block |
| `HeapSteps.FreeJoins` | rt-thread/src/mem.c:119-157 | The block freed and its free neighbours on either side become one free block, and all others stay |
| `HeapSteps.ShrinkKeeps` | rt-thread/src/mem.c:447-477 | Cutting a used block and joining the rest with a free successor keeps the chain sound and subtracts exactly the bytes given back |
| `HeapSteps.ShrinkReturns` | rt-thread/src/mem.c:447-477 | A block that shrinks keeps exactly the new size, and the rest becomes a free block, with a free successor if there was one |
| `SmallMemHeap.SmallMem.ShrinkBlock` | rt-thread/src/mem.c:447-477 | Shrinking in place keeps the bytes up to the new size and all other used blocks |
| `SmallMemHeap.SmallMem.MoveBlock` | rt-thread/src/mem.c:479-486 | Moving a block keeps the bytes up to the smaller of the two sizes and all other used blocks; if nothing fits nothing changes |
| `SmallMemHeap.SmallMem.Realloc` | rt-thread/src/mem.c:403-488 | Size 0 frees; a block whose size is that asked for stays; one with room left over for a header and more than the minimum is cut in place; any other moves to the first free block with room if and only if there is one; a failed call leaves heap and block unchanged, a successful one keeps the first min(old, new) bytes |
| `HeapSteps.FreeUndoesAlloc` | rt-thread/src/mem.c:317-389 | Freeing a block right after it was allocated restores the exact block list, whether or not it was cut |
| `HeapSteps.NothingUsed` | rt-thread/src/mem.c:119-157 | A sound heap without a used block is the single free block it started as |
| `HeapRuns.StepKeeps` | rt-thread/src/mem.c:271-539 | Every change, with lfree moved as the source moves it, keeps the chain sound, the account right and lfree the lowest free block |
| `HeapRuns.RunKeeps` | rt-thread/src/mem.c:271-539 | In every run lfree is the lowest free block, `used` the sum of the live spans, and `max` the largest `used` there ever was |
| `HeapRuns.RunIsBackWhereItStarted` | rt-thread/src/mem.c:271-539 | A run that ends with no live block ends in the initial state, up to `max` |
| `HeapRuns.FreeAfterTake` | rt-thread/src/mem.c:271-539 | Free right after a successful alloc restores block list, lfree and used |
| `SmallMemHeap.SmallMem.AllocIsStep` | rt-thread/src/mem.c:271-389 | What Alloc does is a change runs are made of |
| `SmallMemHeap.SmallMem.FreeIsStep` | rt-thread/src/mem.c:497-539 | What Free does is a change runs are made of |
| `SmallMemHeap.SmallMem.ShrinkIsStep` | rt-thread/src/mem.c:447-477 | What shrinking does is a change runs are made of |
| `SmallMemHeap.SmallMem.MoveIsTwoSteps` | rt-thread/src/mem.c:479-486 | A moving realloc is an allocation followed by a release |
| `VarMemHeap.VarMem.constructor` | applications/mem/varmem.c:109-152 | The new heap is one free block |
| `VarMemHeap.VarMem.Search` | applications/mem/varmem.c:206-216 | The scan from the head finds the first fit |
| `VarMemHeap.VarMem.Alloc` | applications/mem/varmem.c:182-242 | The reference allocator serves the same requests as rt_smem_alloc from the same blocks, cut in the same way, and fails in the same cases |
| `VarMemHeap.VarMem.PlugHoles` | applications/mem/varmem.c:162-180 | The same joins as in mem.c, though stale headers stay behind |
| `VarMemHeap.VarMem.Free` | applications/mem/varmem.c:244-266 | Refused exactly for RT_NULL and for a header that is not in use; otherwise the block and its free neighbours become one free block, as with rt_smem_free |
| `MemoryHeap.Memheap.constructor` | rt-thread/src/memheap.c:79-153 | The new heap is one free block, which is the free list, and a tail |
| `MemheapLinks.UnlinkLinks` | rt-thread/src/memheap.c:50-51 | Unlinking a block by its own two links takes exactly it off the free list |
| `MemheapLinks.PushLinks` | rt-thread/src/memheap.c:276-280 | Linking a block in behind the list header puts exactly it in front of the free list |
| `MemheapLinks.CutLinks` | rt-thread/src/memheap.c:264-268 | Cutting a block keeps the block list an exact circular tiling, even if the new header destroys others that it overlaps |
| `MemheapLinks.MergeLinks` | rt-thread/src/memheap.c:52-53 | Unlinking a header from the block list leaves an exact circular tiling |
| `MemheapLinks.CutSameFree` | rt-thread/src/memheap.c:444-467 | A header written inside a block destroys no header on the free list |
| `MemheapSteps.AllocGood` | rt-thread/src/memheap.c:235-301 | After an allocation the free list holds exactly the free blocks, no two of them adjacent, and available_size is the sum of their payloads |
| `MemheapSteps.FreeGood` | rt-thread/src/memheap.c:642-708 | The same after a release with any combination of merges, each of which gains the room of a header |
| `MemheapSteps.GrowGood` | rt-thread/src/memheap.c:431-474 | The same after growing in place |
| `MemheapSteps.ShrinkGood` | rt-thread/src/memheap.c:536-575 | The same after shrinking, with or without a merge to the right |
| `MemheapSteps.FreeLeftFirstIs` | rt-thread/src/memheap.c:647-684 | Merging to the left first gives the same chain as merging to the right first, as mem.c does |
| `MemoryHeap.Memheap.Search` | rt-thread/src/memheap.c:219-232 | The walk along the free list finds the first block on it with enough room, or there is none in the heap |
| `MemoryHeap.Memheap.Alloc` | rt-thread/src/memheap.c:187-347 | A request is served if and only if some free block has room for an aligned size that is at least the request and the minimum, and less than available_size; RT_NULL changes nothing. The first block on the free list with room for the least such size is taken, cut to exactly that size if the rest can hold a block; max_used_size is updated to the largest use; no payload byte in use changes |
| `MemheapSteps.TakenIffServed` | rt-thread/src/memheap.c:196-238 | The search for the rounded size succeeds if and only if any size that serves the request is available and has room somewhere |
| `MemoryHeap.RefusedThoughItFits` | rt-thread/src/memheap.c:204-204 | A request is refused although a block fits if and only if it asks for all of the only free memory left |
| `MemoryHeap.FreshHeapRefuses` | rt-thread/src/memheap.c:204-204 | An instance: a fresh heap refuses a request for all its memory, though its one block could hold it |
| `MemoryHeap.Memheap.MergeLeft` | rt-thread/src/memheap.c:647-664 | A free left neighbour takes the block in and keeps its place on the free list |
| `MemoryHeap.Memheap.MergeRight` | rt-thread/src/memheap.c:666-684 | A free right neighbour is taken in and leaves the free list |
| `MemoryHeap.Memheap.FreePtr` | rt-thread/src/memheap.c:594-719 | Freeing a block makes one free block of it and its free neighbours; block list, free list and account stay right, and no payload byte of another block changes |
| `MemoryHeap.Memheap.GrowBlock` | rt-thread/src/memheap.c:431-482 | Growing in place into the free successor keeps everything, also when the new header overlaps the old one: no destroyed header is read, and no payload byte changes, of this block or another |
| `MemoryHeap.Memheap.ShrinkBlock` | rt-thread/src/memheap.c:505-575 | Shrinking gives the rest back, merged with a free successor; the bytes up to the new size and those of all other blocks stay |
| `MemoryHeap.Memheap.Realloc` | rt-thread/src/memheap.c:362-585 | Size 0 frees; a block that is large enough stays, or is cut if more than a header and the minimum is left over; one that is too small grows to exactly the new size at the cost of a free successor that can spare it, and else moves to the first block on the free list with room if and only if a request of that size would be served; a failed call changes nothing |
| `MemoryHeap.Memheap.ResizeKeepsBytes` | rt-thread/src/memheap.c:362-575 | However a block is resized, its bytes up to the smaller of the two sizes come along and no payload byte of any other block changes |
| `MemoryHeap.Memheap.MoveBlock` | rt-thread/src/memheap.c:491-503 | Moving by allocating, copying and freeing takes the bytes along; if nothing fits nothing changes |
| `MemoryHeap.Memheap.CutBlock` | rt-thread/src/memheap.c:244-268 | The new header is linked in, and changes no byte of a payload in use |
| `MemheapBytes.HeadersSpare` | rt-thread/src/memheap.c:79-153 | No header on the block list or the free list lies on payload in use |
| `MemheapBytes.PayloadKeepsLinks` | rt-thread/src/memheap.c:187-347 | An owner writing its payload destroys no header of either list |
| `MemheapBytes.BytesMoved` | rt-thread/src/memheap.c:491-503 | After the three steps of a move the bytes are in the new block, and all other bytes in use are what they were |
| `MemheapBytes.BytesStay` | rt-thread/src/memheap.c:431-575 | A block resized in place keeps its first bytes, and all others theirs |
| `MemheapRuns.StepKeeps` | rt-thread/src/memheap.c:187-708 | Every change keeps block list, free list and account right |
| `MemheapRuns.RunKeeps` | rt-thread/src/memheap.c:187-708 | In every run the free list holds exactly the free blocks, no two of them adjacent, available_size is the sum of their payloads, and max_used_size is the largest use there ever was, attained |
| `MemheapRuns.RunIsBackWhereItStarted` | rt-thread/src/memheap.c:187-708 | A run that ends with no live block ends in the initial state, up to max_used_size |
| `MemheapRuns.NewIsFresh` | rt-thread/src/memheap.c:79-153 | Runs start where the initialization leaves off |
| `MemheapRuns.AllocIsStep` | rt-thread/src/memheap.c:187-347 | What Alloc does is a change runs are made of |
| `MemheapRuns.FreeIsStep` | rt-thread/src/memheap.c:594-719 | What FreePtr does is a change runs are made of |
| `MemheapRuns.GrowIsStep` | rt-thread/src/memheap.c:431-482 | What growing in place does is a change runs are made of |
| `MemheapRuns.ShrinkIsStep` | rt-thread/src/memheap.c:520-575 | What shrinking does is a change runs are made of |
| `MemheapRuns.MoveIsTwoSteps` | rt-thread/src/memheap.c:491-503 | A moving realloc is an allocation followed by a release |
| `SuspendList.Enqueue` | rt-thread/src/ipc.c:241-284 | With RT_IPC_FLAG_FIFO the thread is last; with RT_IPC_FLAG_PRIO it stands behind all threads at least as urgent and in front of all others, and the rest keeps its order; a sorted list stays sorted |
| `SuspendList.SuspendedIs` | rt-thread/src/ipc.c:241-284 | The list the contracts speak of when a thread is suspended is the one just described, for both flags |
| `SuspendList.FirstIsMostUrgent` | rt-thread/src/ipc.c:105-145 | The thread that is woken is one of the most urgent of those waiting for an object with RT_IPC_FLAG_PRIO |
| `SuspendList.WakeFair` | rt-thread/src/ipc.c:105-145 | Adding a unit and waking the first waiter keeps: as long as threads wait there are no more units than woken threads on their way |
| `SuspendList.TakeFair` | rt-thread/src/ipc.c:2664-2680 | A thread taking a unit, whether it was woken for it or steals it, keeps that balance |
| `SuspendList.SuspendFair` | rt-thread/src/ipc.c:2609-2631 | A thread that finds nothing, woken or not, and is suspended (again) keeps it |
| `SuspendList.ExpireFair` | rt-thread/src/thread.c:146-174 | A time-out keeps it |
| `MessageQueue.Mq.constructor` | rt-thread/src/ipc.c:3097-3160 | All slots are on the free list and the queue is empty |
| `MessageQueue.Mq.TryReserve` | rt-thread/src/ipc.c:3418-3492 | First region of a send: a slot leaves the free list, or the thread gives up or waits |
| `MessageQueue.Mq.Fill` | rt-thread/src/ipc.c:3495-3501 | Filling the reserved slot without the lock, with the link cleared only by an ordinary send, disturbs neither list nor any other message |
| `MessageQueue.Mq.Place` | rt-thread/src/ipc.c:3508-3531 | The insertion loop links the slot in behind all messages of at least its priority, and keeps head and tail right, also in an empty queue |
| `MessageQueue.Mq.Link` | rt-thread/src/ipc.c:3504-3571 | Second region of a send: the message is inserted by priority, behind its equals; the overflow branch is unreachable; the first waiting receiver is woken, and no other, and with RT_IPC_FLAG_PRIO no receiver is more urgent; every slot is still in exactly one place, and `entry` is the length of the queue |
| `MessageQueue.Mq.LinkUrgent` | rt-thread/src/ipc.c:3694-3728 | An urgent message goes to the front, with the priority its slot was left with; the first waiting receiver is woken |
| `MessageQueue.Mq.TryReceive` | rt-thread/src/ipc.c:3796-3885 | First region of a receive: the first message is unlinked, or the thread gives up or waits |
| `MessageQueue.Mq.Copy` | rt-thread/src/ipc.c:3889-3902 | What is copied without the lock is the message that was unlinked, whatever other senders and receivers did meanwhile |
| `MessageQueue.Mq.Recycle` | rt-thread/src/ipc.c:3903-3924 | Second region of a receive: the slot is free again and the first waiting sender is woken, and no other; with RT_IPC_FLAG_PRIO no sender is more urgent |
| `MessageQueue.Mq.Reset` | rt-thread/src/ipc.c:3999-4029 | A reset empties the queue and both lists of threads, and leaves sends and receives under way alone |
| `MessageQueue.Mq.ExpireReceiver` | rt-thread/src/thread.c:146-174 | A time-out of a waiting receiver keeps everything |
| `MessageQueue.Mq.ExpireSender` | rt-thread/src/thread.c:146-174 | A time-out of a waiting sender keeps everything |
| `MessageList.LinkIn` | rt-thread/src/ipc.c:3508-3531 | Linking a slot in anywhere keeps the list a list, with the slot at that place |
| `MessageList.Link` | rt-thread/src/ipc.c:3533-3542 | With a slot in hand, the queue is shorter than the pool: the counter cannot overflow |
| `MessageRuns.LinkIsStep` | rt-thread/src/ipc.c:3504-3571 | What `Mq.Link` does to the messages of a queue is a send of a run |
| `MessageRuns.LinkUrgentIsStep` | rt-thread/src/ipc.c:3694-3728 | What `Mq.LinkUrgent` does is an urgent send |
| `MessageRuns.ReceiveIsStep` | rt-thread/src/ipc.c:3872-3885 | What `Mq.TryReceive` does when a message is there is a receive |
| `MessageRuns.ResetIsStep` | rt-thread/src/ipc.c:3999-4029 | What `Mq.Reset` does is a reset |
| `MessageRuns.StepRefines` | rt-thread/src/ipc.c:3506-3531 | A send or receive on an ordered queue is a step of the abstract priority queue, a set of messages |
| `MessageRuns.RunRefines` | rt-thread/src/ipc.c:3506-3885 | In every run without urgent sends, what is received is the most urgent message there is and, among equals, the one linked first |
| `MessageRuns.UrgentOvertaken` | rt-thread/src/ipc.c:3685-3702 | After any number of sends that follow an urgent one, the next receive takes the urgent message if and only if none of them had a priority above the one its slot was left with; otherwise it takes one that had |
| `MessageRuns.UrgentInFront` | rt-thread/src/ipc.c:3685-3702 | The urgent message is the first of the queue for exactly as long as no such send has been made |
| `MailBox.Mb.constructor` | rt-thread/src/ipc.c:2346-2383 | The new mailbox is empty; its size is truncated to 16 bits and may be 0 |
| `MailBox.Mb.Send` | rt-thread/src/ipc.c:2566-2696 | A mail is appended if there is room, and the first waiting receiver woken, and no other, with RT_IPC_FLAG_PRIO one of the most urgent; the overflow branch is unreachable; otherwise the thread gives up or waits |
| `MailBox.Mb.Urgent` | rt-thread/src/ipc.c:2772-2830 | A mail is put in front if there is room, and the first waiting receiver woken, and no other |
| `MailBox.Mb.Receive` | rt-thread/src/ipc.c:2849-2977 | The first mail is taken and the first waiting sender woken, and no other, with RT_IPC_FLAG_PRIO one of the most urgent; otherwise the thread gives up or waits |
| `MailBox.Mb.Reset` | rt-thread/src/ipc.c:3022-3040 | The mailbox is empty again and nobody waits |
| `MailBox.Append` | rt-thread/src/ipc.c:2664-2669 | Storing at in_offset appends to the mails read around the ring from out_offset |
| `MailBox.Prepend` | rt-thread/src/ipc.c:2790-2801 | Rewinding out_offset and storing there prepends, and in_offset stays `entry` places behind |
| `MailBox.PopFront` | rt-thread/src/ipc.c:2945-2951 | Advancing out_offset drops the first mail, and in_offset stays `entry` places behind |
| `EventSet.Event.Send` | rt-thread/src/ipc.c:1966-2057 | One send wakes a thread that waits for all of its flags if and only if the flags now set include them, and one that waits for any if and only if they meet, all judged before any flag is cleared; it hands each its flags, and afterwards no waiting thread is satisfied |
| `EventSet.ClearedIs` | rt-thread/src/ipc.c:2036-2051 | A flag is cleared if and only if it was handed to a woken thread that asked for clearing |
| `EventSet.Event.Receive` | rt-thread/src/ipc.c:2098-2222 | A thread that asks for all of some flags gets them at once if and only if all are set, one that asks for any gets those that are set if and only if one is; they are cleared if it asked for it; otherwise it gives up or waits, in the order of the list; no waiting thread becomes satisfied |
| `EventSet.SatisfiedIs` | rt-thread/src/ipc.c:2003-2024 | RT_EVENT_FLAG_AND means that all flags asked for are set, RT_EVENT_FLAG_OR that one of them is |
| `EventSet.UnsatisfiedAre` | rt-thread/src/ipc.c:1997-2052 | The threads kept are exactly the unsatisfied ones, each once |
| `EventSet.UnsatisfiedMore` | rt-thread/src/ipc.c:1997-2052 | They are kept in the order of the list: the one looked at last is appended or left out |
| `MemPool.Pool.constructor` | rt-thread/src/mempool.c:84-131 | All blocks are chained in address order |
| `MemPool.Pool.Alloc` | rt-thread/src/mempool.c:281-366 | The first free block is taken and marked as the pool's; otherwise the thread gives up or waits in first-come order; the count is the length of the chain and no wake-up is lost |
| `MemPool.Pool.Free` | rt-thread/src/mempool.c:373-407 | The block is first in the chain again and the first waiter is woken |
| `PriorityBitmap.FirstByteIsFirst` | rt-thread/src/kservice.c:1131-1152 | On a word, find-first-set gives the lowest bit set |
| `PriorityBitmap.FirstBitIsFirst` | rt-thread/src/kservice.c:1131-1152 | On a byte, find-first-set gives the lowest bit set |
| `PriorityBitmap.MarkAt` | rt-thread/src/scheduler_up.c:523-528 | Setting or clearing the bit of one priority leaves those of all others alone |
| `PriorityBitmap.UnmarkGroup` | rt-thread/src/scheduler_up.c:559-567 | The bit of a byte is cleared exactly when the byte became zero |
| `PriorityBitmap.HighestIsLeast` | rt-thread/src/scheduler_up.c:105-125 | The double find-first-set computes the least priority whose bit is set |
| `PriorityBitmap.GroupIsEmpty` | rt-thread/src/scheduler_up.c:298-300 | The word is zero if and only if no priority is marked |
| `ReadyQueue.InsertAgrees` | rt-thread/src/scheduler_up.c:490-533 | Inserting a thread keeps: a bit is set if and only if the list of its priority is not empty |
| `ReadyQueue.RemoveAgrees` | rt-thread/src/scheduler_up.c:542-572 | Removing a thread keeps it, whether or not the list becomes empty |
| `ReadyQueue.HighestIsMostUrgent` | rt-thread/src/scheduler_up.c:105-125 | The lookup finds the most urgent priority at which a thread is ready |
| `ReadyQueue.FullTurn` | rt-thread/src/scheduler_comm.c:198-206 | As many turns as there are members restore the order of a group |
| `Scheduling.Scheduler.constructor` | rt-thread/src/scheduler_up.c:211-262 | The threads are started one after the other and the scheduler picks the first of the most urgent ones, taking it off its list; nobody ready is more urgent |
| `Scheduling.Scheduler.Start` | rt-thread/src/scheduler_up.c:246-262 | The bitmap lookup picks the first thread of the most urgent list, which leaves the list and runs |
| `Scheduling.Scheduler.Insert` | rt-thread/src/scheduler_up.c:490-533 | A thread goes to the end of the list of its priority if it gave up its slice and to the front if not; bitmap and lists agree |
| `Scheduling.Scheduler.Remove` | rt-thread/src/scheduler_up.c:542-572 | A thread leaves its list, and the others keep their order; bitmap and lists agree; a thread in no list is harmless |
| `Scheduling.Scheduler.Schedule` | rt-thread/src/scheduler_up.c:282-414 | Locked, the request is noted. Unlocked, a running thread goes on, with nothing changed, unless a ready thread is more urgent, or as urgent and it yields; then the first thread of the most urgent priority takes over, and the old one stands in front of its peers, or last if it yields. Afterwards no ready thread is more urgent than the running one |
| `Scheduling.Scheduler.RescheduledMeans` | rt-thread/src/scheduler_up.c:301-322 | The thread that runs is replaced if and only if it was not running, or a ready thread was more urgent, or as urgent and the running one yields |
| `Scheduling.SwitchedLists` | rt-thread/src/scheduler_up.c:324-346 | The lists after a switch, priority by priority: the new thread has left the front of its list, the old one stands first or last in its own, and no other list changed |
| `Scheduling.Scheduler.SwitchTo` | rt-thread/src/scheduler_up.c:324-346 | The old thread becomes ready in its list if it was running, loses its yield flag, and the new one leaves its list and runs |
| `Scheduling.Scheduler.Expire` | rt-thread/src/scheduler_comm.c:305-317 | When a slice ends, the first of the peers takes over, the thread that ran goes behind them, and no other list changes; without peers it goes on with its yield flag set; locked, the request is noted and the yield flag set |
| `Scheduling.Scheduler.ExpireTimes` | rt-thread/src/scheduler_comm.c:305-317 | While peers are ready and nobody more urgent, n slice expiries make n turns of the group and change nothing else; as many as the group has members restore the running thread and all lists |
| `Scheduling.Scheduler.TickIncrease` | rt-thread/src/scheduler_comm.c:291-320 | The slice is counted down; when used up it is reloaded, and the end of the slice requested or, if the scheduler is not locked, served |
| `Scheduling.Scheduler.EnterCritical` | rt-thread/src/scheduler_up.c:655-661 | Nesting is counted |
| `Scheduling.Scheduler.ExitCritical` | rt-thread/src/scheduler_up.c:681-707 | A request made while locked is pending only while the nest is positive and is served at the outermost exit: the most urgent thread runs, and a running thread is replaced only by one ahead of it |
| `Scheduling.Scheduler.ThreadReady` | rt-thread/src/scheduler_comm.c:229-272 | A suspended thread becomes ready, last of its peers if it yields and first if not; any other is refused |
| `Scheduling.Scheduler.UpdatePriority` | rt-thread/src/scheduler_comm.c:346-396 | A ready thread leaves its list, stands first in that of its new priority and loses its yield flag; the other threads keep their order; masks, bitmap and lists agree |
| `Scheduling.PeersTurn` | rt-thread/src/scheduler_up.c:324-346 | The running thread goes behind its peers and the first of them runs |
| `WorstCaseStack.CallGraph.constructor` | rt-thread/tools/WCS.py:178-198 | Functions with a given stack use start with a correct answer |
| `WorstCaseStack.CallGraph.CalcWcs` | rt-thread/tools/WCS.py:245-290 | The search terminates, and every answer it leaves behind, for whatever function, is correct |
| `WorstCaseStack.CallGraph.CalcAllWcs` | rt-thread/tools/WCS.py:292-299 | Whatever the order of visits, every function ends with its correct answer: unbounded if and only if a pointer call or a call cycle can be reached, else the maximum, attained, over all call chains; and a bounded function has collected the unresolved calls of all it can reach |
| `WorstCaseStack.Combine` | rt-thread/tools/WCS.py:270-290 | If all callees are bounded then so is the caller, and its answer is its own use plus the largest of theirs |
| `WorstCaseStack.CombineCalls` | rt-thread/tools/WCS.py:286-288 | The unresolved calls collected are those of all functions that can be reached |
| `WorstCaseStack.EndlessHasCause` | rt-thread/tools/WCS.py:258-281 | A function that can reach a pointer call or a cycle makes a pointer call or calls such a function: a cycle through the function itself shows in a callee, too |
| `WorstCaseStack.EndlessAgain` | rt-thread/tools/WCS.py:264-267 | A function found among its parents is on a cycle |
| `WorstCaseStack.EndlessCallee` | rt-thread/tools/WCS.py:278-281 | Callers inherit unboundedness |
| `WorstCaseStack.CorrectIsUnique` | rt-thread/tools/WCS.py:245-299 | Only one answer is correct, so the result cannot depend on the visiting order |
| `LockFreeList.List.EnqueueLoad` | rt-thread/include/rtatomic.h:243-246 | The first load of a producer |
| `LockFreeList.List.EnqueueStore` | rt-thread/include/rtatomic.h:247-249 | The store into the producer's own node changes nothing anyone else can see |
| `LockFreeList.List.EnqueueExchange` | rt-thread/include/rtatomic.h:250-250 | The exchange pushes the node on the abstract stack or changes nothing |
| `LockFreeList.List.DequeueLoad` | rt-thread/include/rtatomic.h:253-258 | Null at once if and only if the stack is empty |
| `LockFreeList.List.DequeueNext` | rt-thread/include/rtatomic.h:262-262 | The next field read stays valid until the exchange |
| `LockFreeList.List.DequeueExchange` | rt-thread/include/rtatomic.h:259-263 | The exchange takes the top of the abstract stack or changes nothing; with one consumer an unchanged top means an unchanged next field |
| `LockFreeList.PushConserves` | rt-thread/include/rtatomic.h:243-251 | No node is lost or duplicated by a push |
| `LockFreeList.PopConserves` | rt-thread/include/rtatomic.h:253-264 | No node is lost or duplicated by a pop |

## Left out

- Priority ceilings of mutexes: the ceiling is applied when a free mutex is taken but not on hand-over, so the closed form is stated for mutexes without a ceiling.
- Mutex delete and detach, and user changes of thread priorities, which do not propagate along the chain.
- MutexKernel.Kernel.HandOver: does not model the retry when a time-out wins the race for the first waiter; readying a thread on a suspend list is taken to succeed.
- MutexKernel.Kernel.TakeTimeout: takes the expiry of the timer and the clean-up by the woken thread as one step, because in between the cached priority is stale.
- MutexRuns.RunsAreFair: says nothing about threads that are themselves part of a deadlock, where it can fail, as `MutexDeadlock.DeadlockBreaksClosedForm` shows.
- The order of a thread's list of taken mutexes: it is a set, as only a minimum over it is read.
- The error field of threads, timers as objects, hooks, object names and the registry, tracing and command-line front ends.
- HeapChain.AlignUp: does not model the wrap-around of RT_ALIGN within a word of the top of the address space.
- The `prev` field of the end marker of the small heap, which mem.c does not keep exact and nobody reads.
- The `inited` flag of varmem.c and its command parser; applications/mem/rtmem.c, which repeats mem.c.
- The semaphore and the external lock flag of a memheap, its best-fit mode, and the alignment of its start address.
- Changes of the priority of a thread while it waits for a message queue, a mailbox or an event: the source does not sort it in again, so the order of these lists is that of the priorities at which the threads were suspended.
- MessageQueue.Mq.TryReceive: does not model interruption of a waiting thread by signals; a woken thread looks at the queue again, a timed-out or reset one returns.
- EventSet.Event.Send: models a word of flags as the set of its bits, and has no branch for a waiting thread with neither RT_EVENT_FLAG_AND nor RT_EVENT_FLAG_OR, which receiving excludes.
- MemPool.Pool.constructor: is for at least one block, since the initialization writes in front of the pool if there is none.
- PriorityBitmap.FirstBitIsFirst: the 256 entries of the lowest-bit table are given by the rule they follow, not one by one.
- Scheduling.Scheduler.ThreadReady: leaves out the suspend list and the timer of the thread; the status word is two fields, its state and its yield flag.
- The multi-core scheduler, context switches, interrupt masking, signals and stack checks.
- WorstCaseStack.CallGraph.CalcWcs: takes membership in `parents` as identity of the function, where the tool compares dictionaries; parsing of compiler output, and the unresolved calls of unbounded functions, are not modelled.
- The lock-less list with several consumers, where a node can come back between the load and the exchange.
- Semaphores, slab, device drivers, display and board code, which hold no deeper state than what is modelled here.
