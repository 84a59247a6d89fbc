# Verified model of the NUMA allocator's bookkeeping

The library hands out memory through one arena per NUMA node. A small request is rounded to a size
class; each class owns 64 KB slabs whose free blocks form a list threaded through the payload words
themselves. The same word serves in turn as slab link, thread-cache link, foreign-bin link and user data.
A block freed on another node waits in its owner's foreign bin; a byte counter, changed outside the bin's
lock, hints whether draining is worthwhile. Large requests get whole spans, cached in sixteen bins.

The model has three layers.

* **Specifications on values.** `SizeClassSpec.dfy` says what each operation of a size class does to
  `slabs_`, `current_` and the free lists; `ForeignSpec.dfy` what a detach takes; `LargeSpans.dfy` what each
  large operation does to spans and counters, for every request; `SizeClassTable.dfy`, `Layout.dfy` and
  `LargeObjectSpec.dfy` hold the rounding and placement arithmetic, for any thresholds, alignments and
  power-of-two pages.
* **The code with its mutable state.** `SlabHeap.dfy`, `SizeClassHeap.dfy`, `ForeignBins.dfy`, `NumaArena.dfy`,
  `ThreadCache.dfy` and `LargeObjects.dfy` are classes whose methods write headers, counters and payload
  words in place, with the source's loops and branches. Each method is proved to do what the
  specification says, and to leave the payloads and headers of every other block users hold alone.
  `ArenaContract.dfy` proves that the arena classes, any number of them over one memory, meet the contract
  that the thread cache assumes.
* **The concurrent protocol.** `Protocol.dfy` is a step system with any number of threads and nodes:
  mutexes are acquired and released explicitly, every shared access outside a lock is a step of its own,
  the relaxed read of the counter is an oracle, and critical sections use the same specification functions
  as the classes. `ProtocolInvariant.dfy` holds the inductive invariant, `ProtocolSteps.dfy`,
  `ProtocolTransfers.dfy` and `ProtocolClasses.dfy` prove that every step keeps it, `ProtocolTheorems.dfy`
  draws the conclusions for every run, `ProtocolProgress.dfy` shows that operations end and what an
  allocation ends with, and `ProtocolOutcomes.dfy` where each branching step leads. `ProtocolMemory.dfy`
  adds the payload words, with user writes as steps of their own;
  `WholeSystem.dfy` adds the large allocators of all nodes in the same address space, the dispatch between
  them, and the refinement of one abstract allocator by the whole; `WholeRequests.dfy` ties each range that a
  run hands out to the size and alignment of the request it answers.

Three results differ from what one might expect.

* Freeing a batch equals freeing its blocks one by one from every valid class state; it needs no limit on
  how many slabs are empty beforehand.
* The overflow guard of `LargeObjectAllocator::allocate` does not cover the page rounding that follows. A
  request past the guard is answered soundly exactly when `total + page - 1` is still a 64-bit word
  (`LargeSpans.UnwrappedIsServed`, `LargeSpans.WrappedIsNeverServed`). Otherwise the span is mapped and lost
  (`LargeSpans.LeakExample`), or the pointer's payload overruns an 8 KB span
  (`LargeSpans.OverrunningPointerExample`), or the header is written outside the span
  (`LargeSpans.StrayingHeaderExample`). The counters survive all of these, the account of spans all but the
  last.
* In `release_extra_empty_slabs_locked` the search that repairs a dangling `current_` never finds one:
  its branch is proved dead in `SizeClassHeap.SizeClass.ReleaseExtraEmptySlabsLocked`.

Check everything with `dafny verify dfyconfig.toml`.

## Model

| member | source | states |
|---|---|---|
| Arithmetic.AlignUpLeast | src/virtual_memory/virtual_memory.hpp:67-73 | rounding up gives the least multiple of the alignment that is at least the argument |
| SizeClassTable.CountDistinctSizeClasses | src/size_divide/small_object/small_object_allocator.hpp:206-218 | the counting scan finds as many classes as the table has entries |
| SizeClassTable.BuildClassSizes | src/size_divide/small_object/small_object_allocator.hpp:224-239 | the array builder fills exactly the scanned class sequence, within bounds |
| SizeClassTable.ClosedFormAgreesWithTable | src/size_divide/small_object/small_object_allocator.hpp:156-200 | for any well-formed thresholds and alignments the table is strictly increasing, and for every size up to the threshold the closed-form index is in range and finds the rounded size, which is at least the request |
| SizeClassTable.RoundingIsIdempotent | src/size_divide/small_object/small_object_allocator.hpp:156-200 | every table entry rounds to itself and its own index finds it |
| SizeClassTable.SizeClassFoundIffInTable | src/size_divide/small_object/small_object_allocator.cpp:301-308 | the lookup by stored size succeeds exactly for sizes in the table, otherwise it is the out_of_range error |
| SizeClassTable.RepositoryTable | src/size_divide/block.hpp:15-29 | the repository's constants are well formed and give 40 classes ending at 4096 |
| SizeClassTable.MaxCachedBytesForClass | src/size_divide/block.hpp:20-28 | the threshold scan computes the byte cap of a class |
| SizeClassTable.WatermarksFitClass | src/numa_arena/numa_arena.cpp:79-85 | for every class size one block fits under the low watermark and between low and high |
| SizeClassTable.RepositoryLimits | src/size_divide/block.hpp:15-29 | at the repository's constants the cap of a class is 131072 bytes up to 256, 524288 up to 1024 and 2097152 beyond, and the low watermark half of it |
| SizeClassTable.RepositoryClassAt | src/size_divide/block.hpp:17-18 | the repository's forty classes by index: steps of 16 up to 256, of 64 up to 1024, of 256 up to 4096 |
| SizeClassTable.LeastClass | src/size_divide/small_object/small_object_allocator.hpp:156-200 | the closed form gives the least entry of the table that holds the request |
| SizeClassTable.OneLeastEntry | src/size_divide/small_object/small_object_allocator.hpp:156-200 | for every size up to the threshold, 0 counting as 1, there is exactly one least entry that holds it, and the closed form finds it |
| Layout.FirstBlockOffset | src/size_divide/small_object/small_object_allocator.cpp:62-67 | from a page-aligned slab the first block starts 32 bytes in |
| Layout.CapacityPositiveIffStrideFits | src/size_divide/small_object/small_object_allocator.cpp:67-73 | a slab has a block exactly when one stride fits behind the header |
| Layout.StrideExact | src/size_divide/small_object/small_object_allocator.cpp:70-73 | the stride is the least multiple of 16 that is at least 32 plus the larger of size and 8 |
| Layout.CapacityExact | src/size_divide/small_object/small_object_allocator.cpp:67-75 | a slab has as many blocks as whole strides fit in 65536 - 32 bytes and one more would not fit; 1364 of the 16-byte class |
| Layout.BlockBounds | src/size_divide/small_object/small_object_allocator.cpp:57-85 | every block lies inside the slab behind its header, block and payload aligned |
| Layout.BlocksApart | src/size_divide/small_object/small_object_allocator.cpp:57-85 | different blocks of a slab are at least one stride apart |
| Layout.InitListProperties | src/size_divide/small_object/small_object_allocator.cpp:77-84 | the initial free list holds every block of the slab exactly once |
| Layout.InitListAt | src/size_divide/small_object/small_object_allocator.cpp:77-84 | the initial list runs from the slab's last block down to its first, each at its address |
| SizeClassSpec.AllocateExistingProperties | src/size_divide/small_object/small_object_allocator.cpp:131-145 | a block is found exactly when some slab has one; it leaves the free set and nothing else moves |
| SizeClassSpec.AllocateExistingChoice | src/size_divide/small_object/small_object_allocator.cpp:134-142 | the block is the head of current_'s list while that has one, else the head of the list of the earliest slab that has one |
| SizeClassSpec.AllocateProperties | src/size_divide/small_object/small_object_allocator.cpp:113-163 | allocation fails only when every slab is full and the OS refuses; a slab is mapped only when every slab is full; the block was free or is one of the new slab's |
| SizeClassSpec.ReleaseProperties | src/size_divide/small_object/small_object_allocator.cpp:209-242 | release keeps every non-empty slab and the first empty one and leaves free lists alone; current_ stays if it survives with a free block, else becomes the retained slab if there is one, else stays if it survives and is null if not |
| SizeClassSpec.CompactKeeps | src/size_divide/small_object/small_object_allocator.cpp:212-232 | the swap-and-pop loop keeps exactly the non-empty slabs and the earliest empty one, and the order up to it |
| SizeClassSpec.BatchEqualsEach | src/size_divide/small_object/small_object_allocator.cpp:165-242 | a batch free and the same frees in order end with the same slabs, the same free lists and the same retained slab, and no block's slab is unmapped before its turn |
| SizeClassSpec.FreeBatchProperties | src/size_divide/small_object/small_object_allocator.cpp:182-242 | a batch keeps the class invariant, unmaps a slab only when all its blocks are free, and otherwise adds exactly the batch to the free set |
| SizeClassSpec.FreeBatchExactly | src/size_divide/small_object/small_object_allocator.cpp:165-242 | the whole state after freeing one block or many: each list has its blocks of the batch in front, newest first; unless a slab was filled nothing else moves; else of the full slabs the first in order stays, the others go, and current_ stays if it survives with a free block and otherwise becomes the one that stayed |
| SizeClassSpec.SawEmptyIff | src/size_divide/small_object/small_object_allocator.cpp:182-206 | the batch releases slabs exactly when some slab it freed to ends with all its blocks free |
| SizeClassSpec.NewSlabOnlyWhenAllUsed | src/size_divide/small_object/small_object_allocator.cpp:147-163 | when a slab is added every block of all the others is in use |
| SizeClassSpec.ThreeStageWithEmptyBin | src/size_divide/small_object/small_object_allocator.cpp:260-283 | with nothing to drain the slow path gives the state and block of plain allocate |
| SizeClassSpec.ThreeStageExactly | src/size_divide/small_object/small_object_allocator.cpp:260-283 | the slow path serves what the class has without touching the bin; with every slab full, what it has once the bin is freed; with the bin empty too, the new slab's last block, or null if the OS refuses |
| SizeClassSpec.ThreeStageGrowsOnlyWhenDry | src/size_divide/small_object/small_object_allocator.cpp:260-283 | the slow path maps a slab exactly when every slab is full and the foreign bin is empty |
| ForeignSpec.DetachCountTight | src/numa_arena/numa_arena.cpp:188-209 | the overflow loop detaches the shortest prefix that reaches the low watermark, so the rest is within one block of it |
| SlabHeap.InitSlab | src/size_divide/small_object/small_object_allocator.cpp:57-85 | the loop links exactly the slab's blocks in memory, writing no word outside them, and the header names the node |
| SlabHeap.AllocateBlock | src/size_divide/small_object/small_object_allocator.cpp:19-36 | pops the head of the list memory holds, writes raw_ptr and total_size, returns null on an empty list |
| SlabHeap.FreeBlock | src/size_divide/small_object/small_object_allocator.cpp:38-46 | the block's payload word becomes the link and the block the new head; no other word changes |
| SizeClassHeap.PayloadIsPrivate | src/size_divide/small_object/small_object_allocator.cpp:57-85 | no word of the payload of a block in use is the link of a free block |
| SizeClassHeap.SizeClass.WritePayload | src/size_divide/small_object/small_object_allocator.cpp:19-46 | any user write into a block in use keeps the class valid and its lists unchanged |
| SizeClassHeap.SizeClass.ScanSlabs | src/size_divide/small_object/small_object_allocator.cpp:137-142 | the scan finds the first slab with a free block, or none |
| SizeClassHeap.SizeClass.AllocateExisting | src/size_divide/small_object/small_object_allocator.cpp:131-145 | state, block and owning slab are those of the specification, and only the block's header changed |
| SizeClassHeap.SizeClass.Allocate | src/size_divide/small_object/small_object_allocator.cpp:113-163 | as the specification says, failing exactly when every slab is full and the OS refuses; only a new slab's words change |
| SizeClassHeap.SizeClass.Deallocate | src/size_divide/small_object/small_object_allocator.cpp:165-180 | as the specification says; a null raw_ptr is the error and changes nothing |
| SizeClassHeap.SizeClass.DeallocateBatch | src/size_divide/small_object/small_object_allocator.cpp:182-207 | the loop, which reads each link before the word is reused, frees the whole chain as the specification says; at a block whose raw_ptr is null it is the error: the blocks before it are free, the rest are not, and no slab is released |
| SizeClassHeap.BatchEnds | src/size_divide/small_object/small_object_allocator.cpp:189-206 | when the batch loop stops the state is the specification's, with one release pass exactly if some slab became empty, and at most one slab stays empty |
| SizeClassHeap.ReleaseSteps | src/size_divide/small_object/small_object_allocator.cpp:212-232 | each turn of the release loop keeps its invariant in all three branches |
| SizeClassHeap.ReleaseEnds | src/size_divide/small_object/small_object_allocator.cpp:209-242 | when the loop stops, slabs_ and the retained slab are the specification's and current_ is null or a surviving slab |
| SizeClassHeap.SizeClass.ReleaseExtraEmptySlabsLocked | src/size_divide/small_object/small_object_allocator.cpp:209-242 | the loop and the repair leave the specification's state, unmap exactly the dropped slabs, and the find repair is never taken |
| SizeClassHeap.SizeClass.Destroy | src/size_divide/small_object/small_object_allocator.cpp:104-111 | every slab of the class is unmapped and no other |
| ForeignBins.ArenaClass.DetachForeignUntilLow | src/numa_arena/numa_arena.cpp:188-209 | relinks exactly the head prefix, reversed, into the batch; counts and bytes of bin and batch are right |
| ForeignBins.DetachStep | src/numa_arena/numa_arena.cpp:195-206 | moving the bin's head to the batch keeps both chains linked in memory and the totals exact |
| ForeignBins.ArenaClass.DrainForeignBin | src/numa_arena/numa_arena.cpp:132-149 | the bin is emptied, the counter gives up exactly its bytes, and the class gets the whole batch |
| ForeignBins.ArenaClass.EnqueueForeignSmall | src/numa_arena/numa_arena.cpp:103-130 | while the grown bin fits under the class's cap the block is its new head, the size class is as it was and the counter is up by class_size; past the cap a head prefix of at least one block is freed in one batch and off the counter, low - class_size < bytes <= low for low half the cap; only link words of the bin's blocks are written and the other bins' share of the counter stays |
| ForeignBins.HeldSurvives | src/numa_arena/numa_arena.cpp:172-178 | freeing other blocks never unmaps the slab of a block waiting in a bin |
| ForeignBins.HeldThroughAllocate | src/numa_arena/numa_arena.cpp:34-41 | allocating never takes a block waiting in a bin |
| ForeignBins.ArenaClass.Allocate | src/numa_arena/numa_arena.cpp:31-50 | for one size class: whatever the counter hint says, block and class state are those of the probe-drain-probe-grow path; users gain exactly this block, stamped with node and class, and every block they held keeps payload and header though slabs are mapped and bins drained |
| ForeignBins.ArenaClass.DeallocateLocal | src/numa_arena/numa_arena.cpp:68-69 | a local free is the class's deallocate and leaves the bin valid; the user loses exactly this block and every other user's payload and header are untouched |
| ForeignBins.ArenaClass.DeallocateForeign | src/numa_arena/numa_arena.cpp:91-97 | with foreign freelists the block is kept in the bin while it fits under the cap and a head prefix is freed when it does not, counter included; without, the size class frees it and bin and counter stay; either way the user loses exactly this small block and every other user's payload and header are untouched |
| ForeignBins.ArenaClass.WritePayload | src/numa_arena/numa_arena.cpp:87-89 | a user write anywhere in the payload of a block no bin holds leaves free lists and bin linked and every other user's payload as it was |
| ForeignBins.UsersAfterFree | src/numa_arena/numa_arena.cpp:115-130 | freeing part of a bin and of what users gave back costs users exactly what they gave, changes no payload or header they still hold, and writes only links of the class's own blocks |
| ForeignBins.UsersAfterAllocate | src/numa_arena/numa_arena.cpp:34-41 | the slow path takes a block no user held, and drains and maps slabs without touching a payload or header users hold |
| NumaArena.NumaArena.constructor | src/numa_arena/numa_arena.hpp:17-31 | a class per table entry over one memory and one counter, every bin empty, the counter zero |
| NumaArena.OthersStand | src/numa_arena/numa_arena.cpp:172-178 | draining the bin of one class leaves free lists, bin and slabs of every other class as they were |
| NumaArena.NumaArena.DrainAllForeign | src/numa_arena/numa_arena.cpp:151-170 | the loop empties every bin, brings the shared counter, the sum of all bins' bytes, to zero, and frees each bin's blocks to its own class in one batch |
| ArenaContract.AllocateMeetsContract | src/numa_arena/numa_arena.cpp:31-50 | for any number of classes and nodes over one memory: an allocation's block overlaps none that is out, and no block that is out has its payload or header changed, which is what ThreadCache.Arenas promises the cache |
| ArenaContract.DeallocateMeetsContract | src/numa_arena/numa_arena.cpp:91-130 | a small free, with its overflow drain, takes exactly its block out of what is out and changes no payload or header of the rest, as ThreadCache.Arenas promises |
| Protocol.FirstNonEmpty | src/thread_local/thread_local_cache.cpp:61-76 | the flush loop's next bin is the first with a block |
| ProtocolClasses.StepKeeps | src/numa_arena/numa_arena.cpp:103-149 | every step of every thread through the cache, the foreign bins and the size classes keeps the system invariant |
| ProtocolClasses.RunKeeps | src/numa_arena/numa_arena.cpp:103-149 | hence every state of every run of small allocations and frees satisfies it |
| ProtocolTheorems.RepositoryIsConfigured | src/size_divide/small_object/small_object_allocator.hpp:219-239 | the repository's table is a configuration of the step system for any number of nodes and threads |
| ProtocolTheorems.EveryBlockAtOnePlace | src/numa_arena/numa_arena.cpp:103-209 | in every reachable state each block of each mapped slab is live, free, in one cache bin, in one foreign bin or in one thread's hand, and in no two |
| ProtocolTheorems.ListsHaveNoDuplicates | src/thread_local/thread_local_cache.hpp:94-123 | free lists, cache bins, foreign bins and batches hold a block at most once |
| ProtocolTheorems.HeadersStayIntact | src/numa_arena/numa_arena.cpp:42-48 | a block outside the free lists keeps node, class and mapped slab in its header wherever it is |
| ProtocolTheorems.NoThreadFaults | src/size_divide/small_object/small_object_allocator.cpp:285-308 | no thread meets an invalid size class, an unmapped slab or a counter underflow |
| ProtocolTheorems.FreeRoutesHome | src/numa_arena/numa_arena.cpp:56-73 | a freed block's header leads to the arena, class and slab it came from |
| ProtocolTheorems.UnmappedOnlyWhenAllFree | src/size_divide/small_object/small_object_allocator.cpp:175-240 | a step that unmaps a slab has all its blocks on its free list or in the freeing thread's hand, and no block of it is anywhere afterwards |
| ProtocolTheorems.FreedReachesItsSlab | src/size_divide/small_object/small_object_allocator.cpp:165-207 | a freed block reaches the free list of the slab it came from, or goes away with that slab once all of its blocks are free |
| ProtocolTheorems.LiveBlocksDisjoint | src/thread_local/thread_local_cache.hpp:21-48 | two live allocations share no byte |
| ProtocolTheorems.LiveBlockFits | src/size_divide/small_object/small_object_allocator.cpp:57-85 | a live payload is aligned and inside its mapped slab |
| ProtocolTheorems.StepRefines | src/thread_local/thread_local_cache.hpp:30-70 | every step on small blocks is the abstract allocator's step of the same event: hand out a fresh disjoint range of the class size, take exactly the freed range back, or nothing |
| ProtocolTheorems.RunRefines | src/thread_local/thread_local_cache.hpp:30-70 | every run of the small-block machinery is a run of the abstract allocator with the same events; WholeSystem.WholeRunRefines has the runs with large objects |
| ProtocolTheorems.RequestFits | src/thread_local/thread_local_cache.hpp:30-32 | every small request has a class at least as large |
| ProtocolTheorems.ForeignBytesExact | src/numa_arena/numa_arena.cpp:112-148 | the counter is the counted bytes of all bins plus what was detached and not yet subtracted; no pending subtraction exceeds it |
| ProtocolTheorems.ZeroMeansEmpty | src/numa_arena/numa_arena.cpp:34-36 | a zero counter means a bin is empty unless a thread is between linking and counting a block |
| ProtocolTheorems.DrainsAreAmortized | src/numa_arena/numa_arena.cpp:115-123 | D overflow drains of a bin satisfy D * (high - low) < enqueues * class_size |
| ProtocolTheorems.BinsWithinHighWatermark | src/numa_arena/numa_arena.cpp:112-124 | whenever its mutex is free a bin is within the high watermark |
| ProtocolTheorems.CachesWithinCap | src/thread_local/thread_local_cache.hpp:109-123 | cache bin i holds only blocks stamped with this node and class i, within the byte cap, in every reachable state |
| ProtocolTheorems.SizeClassesStaySettled | src/size_divide/small_object/small_object_allocator.cpp:209-242 | in every reachable state each class's free lists are well formed, current_ is null or one of its slabs, and at most one slab is empty |
| ProtocolTheorems.SlabCountBounded | src/size_divide/small_object/small_object_allocator.cpp:113-163 | over any run a class has at most ceil(peak blocks in use / capacity) slabs |
| ProtocolTheorems.NoDeadlock | src/numa_arena/numa_arena.cpp:112-148 | if a thread is inside an operation, it or the holder of the mutex it waits for can step |
| ProtocolTheorems.HoldsAtMostOneLock | src/numa_arena/numa_arena.cpp:112-129 | in every reachable state no thread holds two mutexes, and a thread that waits for one holds none |
| ProtocolProgress.OwnStepsMakeProgress | src/thread_local/thread_local_cache.cpp:61-76 | each own step lowers a well-founded measure, whatever the others do, and changes no other thread: every operation, flush included, ends |
| ProtocolProgress.AllocationsServeTheirClass | src/size_divide/small_object/small_object_allocator.cpp:260-283 | an allocation stays on its class through hint, probes, drain and growth, and ends with a block of it or with the OS's refusal and every slab full |
| ProtocolProgress.ServedAlone | src/numa_arena/numa_arena.cpp:31-50 | alone on its class a thread that reads the counter as it is goes on by its own enabled steps, through probe, drain, subtraction, batch free and growth where the counter is not zero, until it has a block of the class that was not live |
| ProtocolProgress.UncontendedMissIsServed | src/numa_arena/numa_arena.cpp:31-50 | from any reachable state a cache miss whose class nobody else has locked, with the hint the code really reads, zero or not, is served by the thread's own steps with a block that was not live |
| ProtocolOutcomes.FreeOutcome | src/thread_local/thread_local_cache.hpp:50-70 | a freed block is cached exactly when the cache is on, the block is of its node and the cap leaves room; else it goes to the node its header names, through that arena's foreign bin if it is another's |
| ProtocolOutcomes.ConfigureOutcome | src/thread_local/thread_local_cache.cpp:95-113 | a first configure gives an empty cache with the flag as asked, one on the same node changes the flag and keeps what is cached, one on another node keeps the cache to be flushed with an empty one there to follow |
| ProtocolOutcomes.FlushOutcome | src/thread_local/thread_local_cache.cpp:61-76 | a turn of a flush takes the newest block of the earliest non-empty bin and sends it straight to its size class on the cache's node; with all bins empty the next cache takes over |
| ProtocolOutcomes.EnqueueOutcome | src/numa_arena/numa_arena.cpp:115-118 | an enqueued block becomes the bin's head with its class's size |
| ProtocolOutcomes.SettleOutcome | src/numa_arena/numa_arena.cpp:121-129 | a bin within its cap keeps its list; past the cap it gives up a head prefix of at least one block and is left within one block of half the cap |
| ProtocolOutcomes.HintOutcome | src/numa_arena/numa_arena.cpp:34-41 | with one node or a zero hint the plain path, else the one that probes first |
| ProtocolOutcomes.ProbeOutcome | src/size_divide/small_object/small_object_allocator.cpp:260-283 | a probe of a full class changes nothing and leads to the bin, the second time to a new slab; any search of a class with a free block ends with one of its blocks and maps nothing |
| ProtocolOutcomes.DrainOutcome | src/numa_arena/numa_arena.cpp:132-149 | the drain takes the whole bin with its bytes and leads to the second probe |
| ProtocolTheorems.QuiescentSystemIsClean | src/numa_arena/numa_arena.cpp:151-170 | with every thread idle and its cache flushed each block is live, free or in its class's bin; with nothing live, freeing each bin in one batch leaves each class at most one slab, all of it free |
| ProtocolMemory.InitialisedThreads | src/size_divide/small_object/small_object_allocator.cpp:77-84 | Slab::init's writes thread the new slab's blocks and touch no link outside them |
| ProtocolMemory.RelinkedThreads | src/numa_arena/numa_arena.cpp:195-206 | the overflow loop's writes leave the detached prefix threaded in reverse and touch no other link |
| ProtocolMemory.PushWordsThread | src/size_divide/small_object/small_object_allocator.cpp:182-207 | the batch loop's writes leave every slab's free list threaded, block by block |
| ProtocolMemory.MemoryKeeps | src/thread_local/thread_local_cache.hpp:94-123 | after any step of any thread, any user write into a live block and anything done to memory outside the slabs, every free list, cache bin, foreign bin and batch is still threaded through the payload words |
| ProtocolMemory.RunLinked | src/thread_local/thread_local_cache.hpp:94-123 | hence in every state of every run, whatever memory held at the start |
| ProtocolMemory.WalkFindsTheList | src/numa_arena/numa_arena.cpp:188-209 | following next pointers from a list's head finds exactly its blocks in order, each in a mapped slab, then null |
| ProtocolMemory.UsersReadTheirWrites | src/size_divide/small_object/small_object_allocator.cpp:19-46 | while a block is live every byte of its payload reads what users last wrote there, through any steps, mappings and unmappings |
| WholeSystem.WholeKeeps | src/numa_arena/numa_arena.cpp:26-101 | every step of the whole allocator, small or large, keeps lists threaded, spans accounted for and whole, and slabs and spans of all nodes apart, for large requests whose page rounding is a word |
| WholeSystem.SmallFreeGoesHome | src/numa_arena/numa_arena.cpp:56-69 | the header below a live small pointer has a size class that is not zero and names the node and class the block came from, and no span covers it |
| WholeSystem.LargeFreeGoesHome | src/numa_arena/numa_arena.cpp:61-72 | the header below a live large pointer has size class zero and the node of the allocator that has the span, and no slab covers it |
| WholeSystem.WholeStepRefines | src/numa_arena/numa_arena.cpp:26-73 | a request or free of any size, dispatched by size and by the header, is the abstract allocator's step: a fresh aligned range apart from all small and large ranges held, or exactly the freed range back; that the range is what was asked for is WholeRequests.AnswerFits and what follows it |
| WholeSystem.WholeRunRefines | src/numa_arena/numa_arena.cpp:26-73 | every run of the whole allocator, any mix of small and large on any nodes, is a run of the abstract allocator with the events users see; WholeRequests.EveryRangeAnswersItsRequest ties each range to its request |
| WholeSystem.HeldRangesKeepTheirBytes | src/thread_local/thread_local_cache.hpp:21-70 | while a range, small or large, is held every byte of it reads what users last wrote there |
| WholeRequests.SmallRequest | src/thread_local/thread_local_cache.hpp:21-48 | a request up to the threshold and 16-byte alignment is served in the least class that holds it: the block cached last if the cache is on and has one, at once; else the thread sets out for that class on its own node and nothing is handed out yet; the large side is not involved |
| WholeRequests.LargeRequest | src/numa_arena/numa_arena.cpp:26-54 | any other request leaves the small side alone and is the large allocator's, on the thread's node, for exactly that size, 0 counting as 1, and that alignment; the one new range has exactly that size, and there is none only if size, alignment and header do not add up to a word or the OS refuses |
| WholeRequests.AnswerFits | src/numa_arena/numa_arena.cpp:26-54 | whatever range a request is answered with at once is at least as long as asked, not empty, aligned to any power of two asked for, and apart from every range held |
| WholeRequests.OnTheWayFor | src/thread_local/thread_local_cache.hpp:33-44 | in every run a thread on its way to a block is there for its last request, which was a small one, and on the way to the least class that holds it on the node it was made from |
| WholeRequests.MissIsAnswered | src/thread_local/thread_local_cache.hpp:38-44 | after a miss the range the thread stamps has the size of the least class that holds the request and the alignment asked for |
| WholeRequests.EveryRangeAnswersItsRequest | src/numa_arena/numa_arena.cpp:26-54 | every range handed out in a run comes with a request or with the stamp of the thread whose last request it was, is as long and as aligned as that request asked, and is apart from every range held |
| WholeRequests.ReleaseTakesBack | src/numa_arena/numa_arena.cpp:56-73 | a free takes back the one range that starts at the pointer, small or large, and no other |
| ThreadCache.ThreadLocalCache.TakeCached | src/thread_local/thread_local_cache.hpp:94-107 | the head of the bin, if any, goes from the cache to the user, stamped and long enough; nothing users hold changes |
| ThreadCache.ThreadLocalCache.CacheBlock | src/thread_local/thread_local_cache.hpp:109-123 | the block is kept exactly when the bin's bytes allow it; nothing users keep changes |
| ThreadCache.ThreadLocalCache.Allocate | src/thread_local/thread_local_cache.hpp:21-48 | with the cache on, a small request whose bin has a block gets the bin's head and the arena is left alone; with the cache off, or on no hit, the pointer is the arena's and the bins stay as they are; the user holds one new block with room for the request and stamped for it, and every payload and header it held are untouched |
| ThreadCache.ClassForExactly | src/thread_local/thread_local_cache.hpp:30-44 | what a block is stamped with: the least class that holds the request, or 0 if the request is large or wants more than 16-byte alignment |
| ThreadCache.ThreadLocalCache.Deallocate | src/thread_local/thread_local_cache.hpp:50-70 | the user loses exactly this block; with the cache off, a large block or another node's it goes to the node and class its header names and the bins stay; else it becomes its bin's head if the bin's bytes and its class fit under the cap, and goes home if not; nothing else held changes |
| ThreadCache.ThreadLocalCache.Flush | src/thread_local/thread_local_cache.cpp:61-76 | every cached block is sent once, in bin order, to this node and to the class of its bin; what users hold, and what is in it, is untouched |
| ThreadCache.ThreadLocalCache.WritePayload | src/thread_local/thread_local_cache.hpp:102-119 | a user write anywhere in the payload of a held block leaves the cache valid and every other block that is out as it was |
| ThreadCache.ThreadNumaContextOwner.Configure | src/thread_local/thread_local_cache.cpp:95-113 | a cache on the current node stays as it is with the flag as asked; one on another node is flushed, each block once to its own node and class, and replaced, or stays untouched, flag and all, when there is no memory for another; users hold what they held with the payloads as they were |
| ThreadCache.ThreadNumaContextOwner.Destroy | src/thread_local/thread_local_cache.cpp:86-88 | only what users hold is still out of the arenas |
| ThreadCache.OneBinOnly | src/thread_local/thread_local_cache.hpp:64-67 | a block's header admits it to one bin only |
| ThreadCache.PopKeeps | src/thread_local/thread_local_cache.hpp:94-107 | taking from a bin keeps the cache invariant and adds exactly the block to what users hold |
| ThreadCache.PushKeeps | src/thread_local/thread_local_cache.hpp:109-123 | caching keeps the invariant, removes exactly the block from what users hold, and leaves the rest of it untouched |
| ThreadCache.Unaffected | src/thread_local/thread_local_cache.hpp:21-70 | whatever the arenas do to blocks that are not out, slabs mapped and bins drained included, and whatever uncached block comes out or goes back, leaves the cache valid |
| ThreadCache.UserWriteKeeps | src/thread_local/thread_local_cache.hpp:102-119 | no word of a held block's payload is a cache link or part of another block that is out |
| LargeObjectSpec.ClassIsLeastBin | src/size_divide/block.hpp:63-81 | the class is the least bin size that holds the request, or the request itself beyond the largest |
| LargeObjectSpec.BinsDouble | src/size_divide/block.hpp:36-59 | the sixteen bin sizes are 8 KB and 12 KB doubled again and again up to 1 MB, and 2 MB |
| LargeObjectSpec.BinIndexExact | src/size_divide/block.hpp:83-103 | the switch finds a bin exactly for the bin sizes, and the right one |
| LargeObjectSpec.ClassIsPageMultiple | src/size_divide/large_object/large_object_allocator.hpp:127-131 | for every power-of-two page the class of a page-rounded request is a page multiple already |
| LargeObjectSpec.WordAlignUpExact | src/virtual_memory/virtual_memory.hpp:67-73 | 64-bit rounding is the mathematical one exactly when the sum does not wrap |
| LargeObjectSpec.SpanForTotal | src/size_divide/large_object/large_object_allocator.hpp:127-131 | without wrap the span class covers the request in whole pages and is a bin size or larger than all |
| LargeObjectSpec.SpanCoversIff | src/size_divide/large_object/large_object_allocator.hpp:44-50 | after the guard the span covers the request exactly when total + page - 1 is a word |
| LargeObjectSpec.PlacementFits | src/size_divide/large_object/large_object_allocator.hpp:65-86 | for every size and alignment a covering span takes header and payload, adjacent and aligned, and bad_alloc is not reached |
| LargeObjectSpec.WrappedNeverFits | src/size_divide/large_object/large_object_allocator.hpp:49-70 | once rounding the total wraps, no span acquired for it takes header and payload: the header lies below the span's room or the payload runs past its end |
| LargeObjectSpec.HeaderAligned | src/size_divide/large_object/large_object_allocator.hpp:74-76 | with a power-of-two alignment of at least 8 the header is aligned for BlockHeader |
| LargeObjectSpec.ReuseWithinFour | src/size_divide/large_object/large_object_allocator.hpp:147-149 | a span from the bounded upward search is at most four times the class |
| LargeObjects.LargeObjectAllocator.AcquireSpan | src/size_divide/large_object/large_object_allocator.hpp:141-169 | the newest span of the first stocked bin in the window, else a new mapping of the class; counters follow, and regions of others in the address space stay |
| LargeObjects.LargeObjectAllocator.FindStocked | src/size_divide/large_object/large_object_allocator.hpp:145-155 | the search loop finds the first bin with a span in the window |
| LargeObjects.LargeObjectAllocator.ReleaseToCache | src/size_divide/large_object/large_object_allocator.hpp:179-199 | a span of a bin's size is cached exactly when that bin has fewer than eight and the span and byte limits leave room, any other never; a cached one is on top of its bin |
| LargeObjects.LargeObjectAllocator.Allocate | src/size_divide/large_object/large_object_allocator.hpp:39-53 | for every pair of words, memory and pointer are those of LargeSpans.AllocateStep, and every span stays accounted for unless the header was written outside its span |
| LargeObjects.LargeObjectAllocator.AllocateFromSpan | src/size_divide/large_object/large_object_allocator.hpp:65-86 | for every span and request, in machine arithmetic: the pointer and the header below it, or bad_alloc with the span dropped |
| LargeObjects.LargeObjectAllocator.Deallocate | src/size_divide/large_object/large_object_allocator.hpp:93-104 | the whole span goes to its bin or is unmapped with its mapped size, as LargeSpans.SpanKept and LargeSpans.SpanUnmapped say |
| LargeObjects.LargeObjectAllocator.Destroy | src/size_divide/large_object/large_object_allocator.cpp:3-12 | every cached span is unmapped once and nothing else |
| LargeSpans.EachSpanOnce | src/size_divide/large_object/large_object_allocator.hpp:141-199 | after every run in which no header was written outside its span, wrapped roundings included, every mapped span is live once, cached once or lost, in one of these only, with its mapped size |
| LargeSpans.CountersAgree | src/size_divide/large_object/large_object_allocator.hpp:187-198 | after every run of any requests and frees, wrapped roundings included, bins hold spans of their own size, counts and bytes sum to the totals, and all limits hold |
| LargeSpans.LiveSpansDisjoint | src/size_divide/large_object/large_object_allocator.hpp:65-86 | headers of two live allocations never overlap, nor do payloads that end inside their spans |
| LargeSpans.PopKeeps | src/size_divide/large_object/large_object_allocator.hpp:157-161 | taking a span from a bin keeps all nested counters and puts the span in transit |
| LargeSpans.PushKeeps | src/size_divide/large_object/large_object_allocator.hpp:194-198 | storing a span in its bin keeps all nested counters and limits |
| LargeSpans.AllocateKeeps | src/size_divide/large_object/large_object_allocator.hpp:39-86 | whatever the request, allocate keeps every span accounted for unless the header was written outside its span |
| LargeSpans.DeallocateKeeps | src/size_divide/large_object/large_object_allocator.hpp:93-104 | deallocate of a live pointer reads the header of its own span and takes back exactly that span |
| LargeSpans.SpanKept | src/size_divide/large_object/large_object_allocator.hpp:179-199 | a freed span of bin i's size is kept when the bin has fewer than eight and span and byte limits leave room: mapped, in slot count of bin i, count, bytes and totals raised by it |
| LargeSpans.SpanUnmapped | src/size_divide/large_object/large_object_allocator.hpp:98-103 | in every other case it is unmapped, and bins and totals are as they were |
| LargeSpans.SpanReused | src/size_divide/large_object/large_object_allocator.hpp:145-162 | a stocked bin among the class's own and the three above it is always reused: the lowest such bin, and of it the newest span |
| LargeSpans.SpanMapped | src/size_divide/large_object/large_object_allocator.hpp:166-168 | when these are empty, or the class is no bin's, a region of exactly the class is mapped and bins stay, or the OS refuses and nothing changes |
| LargeSpans.RefusedExactly | src/size_divide/large_object/large_object_allocator.hpp:40-47 | a request is refused by the guard exactly when size, alignment raised to 8 and 32 do not add up to less than 2^64 |
| LargeSpans.RequestExactly | src/size_divide/large_object/large_object_allocator.hpp:39-86 | when rounding to pages does not wrap, a request is served in the span acquired for the class of size, alignment and header in whole pages, at the first multiple of the alignment that leaves room for the header, which records size and span; or nothing changes when none was acquired |
| LargeSpans.AllocateKeepsShapes | src/size_divide/large_object/large_object_allocator.hpp:141-169 | bin sizes, counts, bytes and limits survive every allocate whatever the request |
| LargeSpans.DeallocateKeepsShapes | src/size_divide/large_object/large_object_allocator.hpp:179-199 | and every deallocate whatever the header says |
| LargeSpans.UnwrappedIsServed | src/size_divide/large_object/large_object_allocator.hpp:39-86 | past the guard, when total + page - 1 is a word: bad_alloc exactly when the OS refuses with nothing to reuse, else a new aligned pointer with header and payload inside a span of the class or at most four times it |
| LargeSpans.WrappedIsNeverServed | src/size_divide/large_object/large_object_allocator.hpp:39-86 | past the guard, when it is not a word: the span is lost, or the header is outside it, or the payload overruns it; with UnwrappedIsServed the exact condition for a sound answer |
| LargeSpans.LostExactly | src/size_divide/large_object/large_object_allocator.hpp:49-70 | a span is lost exactly when it was acquired and could not be placed in, which takes a rounding that wraps, and stays lost |
| LargeSpans.DeallocateLosesNothing | src/size_divide/large_object/large_object_allocator.hpp:93-104 | deallocate loses no span |
| LargeSpans.UnwrappedRunIsWhole | src/size_divide/large_object/large_object_allocator.hpp:39-104 | over every run whose roundings do not wrap every span is live or cached, none is lost, and every payload ends inside its span |
| LargeSpans.LeakExample | src/size_divide/large_object/large_object_allocator.hpp:49-70 | size 2^63 - 33 at alignment 2^63 passes the guard, gets an 8 KB span and is bad_alloc: the span stays mapped and nobody has it |
| LargeSpans.OverrunningPointerExample | src/size_divide/large_object/large_object_allocator.hpp:49-86 | size 2^64 - 49 at alignment 16 is answered with a pointer 32 bytes into an 8 KB span |
| LargeSpans.StrayingHeaderExample | src/size_divide/large_object/large_object_allocator.hpp:65-86 | a request whose header is written a megabyte past its span |

## Left out

- The OS calls behind `VirtualMemory` (`mmap`, `mbind`, `munmap`, `madvise`): a mapping is a parameter, any region apart from everything mapped, or a refusal.
- Topology discovery and CPU affinity: the current node is a parameter and may change between calls.
- `ArenaManager` construction and the `memory_resource` wrappers, which forward: an arena is reached by its node number.
- `numa_simple_memory_resource`: a smaller copy of the span placement.
- Weak memory order: steps are sequentially consistent; the relaxed counter read is an oracle in the step system, and exact in `ProtocolProgress.ServedAlone`.
- Exceptions in the middle of a batch other than a null raw_ptr, a throwing `slabs_.push_back`, double frees and foreign pointers: excluded by precondition.
- Unused policies, benchmarks, tests and build files.
- `SizeClass` is built only with sizes whose stride fits a slab, as all table sizes do.
- Protocol: `SizeClass::allocate` and `allocate_new_slab`, whose bodies are the same, are one operation; the arena destructor's `drain_all_foreign` runs when no thread does and is `NumaArena.NumaArena.DrainAllForeign`, not a step.
- Words: a link, a header field or a user's word is one cell at its address; that an unaligned user write might straddle two cells is not modelled, but every cell of a payload is the user's.
- WholeSystem.WholeKeeps: is for large requests whose page rounding is a word, since past that the source writes outside its spans (`LargeSpans.WrappedIsNeverServed`); a large allocate or free is one step, because between its single critical section and its end it works on a span only it has.
- ForeignBins.ArenaClass.Allocate: is one size class of an arena with non-overlapping calls; the dispatch by size and the large branch are in `WholeSystem.dfy`.
- ThreadCache.ThreadLocalCache.Allocate: the arenas behind the cache are given by their contract, which `ArenaContract.dfy` proves of the small classes; that a large allocation meets it is `WholeSystem.WholeStepRefines`.
- LargeObjects.LargeObjectAllocator.Allocate: the mutex is not modelled, each operation's critical section runs whole.
