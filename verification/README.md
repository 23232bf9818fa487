# Vam: a verified model of the allocator and its LRU simulator

Vam is a layered `malloc` replacement for a 32-bit machine, shipped with a page tracer and LRU simulators. This project
models its stateful parts in Dafny and proves what they promise. `dafny verify dfyconfig.toml` checks everything.

## What is modelled

**LRU simulation** (`LruMemory`, `LruStack`, `LruSimulator`). The simulators keep one list of pages in which an unmapped
page leaves a placeholder. The reference is the obvious definition: an LRU memory of k pages with invalidation. The
central theorem, `LruStack.StackSimulatesAllSizes`, says that the one list contains the memory of *every* size k as its
first k positions; the miss table then counts the misses of each size (`LruSimulation.MissTable`).

**Page tracer** (`MemTracer`). The page state machine of the tracer is a class whose methods carry, as an invariant, that
its output is a well-formed trace and that its byte counters are page counts. `TracedSimulation.Replay` joins the
two: every trace the tracer can write is simulated without an error.

**Boundary-tag heap** (`IntrusiveList`, `Bits`, `Bitmaps`, `ObjectHeaders`, `SegFitHeap`, `BoundaryTags`,
`SplitCoalesceHeap`). A view maps header addresses to blocks. `BoundaryTags` proves what splitting and coalescing do to
views; `HeaderTags` proves that the headers in memory describe the view; `SegFit` keeps linked lists, counters and
bitmap in step; `SplitCoalesceHeap` is the heap over all of them, and its `Valid` says that tiling, tags, lists,
counters and bitmap agree.

**Reaps** (`ReapSlots`, `ReapLayout`, `Reaps`, `FreelistReap`, `CachingReap`). `ReapSlots` is the simple allocator
(which slots were bumped, which came back). The four variants are classes that refine it; the bitmap and the bytemap
reap are interchangeable. `ReapLayout` is the arithmetic of their constructors.

**Pages and partitions** (`PageClusters`, `Partitions`, `PartitionSteps`, `PartitionOrder`, `PartitionHeap`, `PageMasks`,
`OneSizeHeap`, `TwoHeap`, `FrequencyHeap`, `AlignedMmapHeap`, `Routing`). The bookkeeping of each heap is a value with an
invariant and named steps. The classes are proved to take exactly these steps; the lemmas say what the steps keep, which
pointers are live, which subheap serves a request, when one is created or removed, and how subheaps grow
(`OneSizeHeaps.GrowthLaw`). `Routing` says where clusters lie and what type their addresses have.

**The allocator** (`Vam`, `VamRouting`, `VamSupply`, `VamHeap`). `VamStates.Composed` links the layers: every reap, every
chunk and every huge region is a live cluster of the one partition heap, of its type and size, no two are the same, and no
live cluster is anything else. Every step of every component keeps it. From it follows what `free` relies on: in every
state of every run the type of an address, then the mask or the header, lead from a live pointer to the component that
allocated it, and to nothing else (`VamRouting.RoutedOverRuns`); live objects do not overlap (`VamRouting.ObjectsApart`);
and nothing leaks (`VamRouting.NothingLive`). `VamHeaps.VamHeap` is the allocator over the objects of all these classes,
with `malloc` and `free` as `vam.h` composes them. `malloc` is characterised completely: which component serves a request,
when it returns NULL, and that it adds one object and no more.

Memory is modelled field by field: headers, list links and the links in free objects are maps from addresses. Lists whose
links are not at issue are sequences; `IntrusiveLists` proves that relinking does to rings what the sequence operations
say, and `SplitCoalesce.LinksClear` that links in free objects meet no header and no live object. Results of system
calls, and of a lower heap where only its promise matters (a fresh region is disjoint from the live ones and aligned as
asked), are parameters.

## Where the code does not meet the expectation

- A freelist reap computes its capacity before it aligns its base. It fits exactly if at least four bytes are left over
  (`ReapLayouts.FreelistLayoutFits`), so always for multiples of 8, but not for four-byte objects in a page.
- `OneSizeHeap` removes a subheap that lost its last object exactly if it has at least two slots
  (`Shelves.RemovalCondition`, `Shelves.SingleSlotStays`): the test for one free slot comes first. With the deployed
  object sizes every subheap has at least three (`Shelves.DeployedNoneIdle`).
- The size computation for huge objects wraps around within 4103 bytes of the end of the address space, and exactly there the
  region is too small (`TwoHeaps.HugeSizeSuffices`).
- A page that `mprotect` closes stays in the tracer's window of open pages. If its slot is the next to be reused, the
  fault that opens the page closes it again, and the access faults a second time (`MemTracing.OpenAfterFault`,
  `MemTracing.FaultTwice`): the trace gets the same line twice. It stays well formed.
- When the break moves up, the tracer adds whole pages to the total of allocated bytes before it sets the total to the
  exact distance of the break. The recorded maximum can therefore exceed every total between calls, by less than a page;
  `MemTracing.MemTracer.HandleNewBreak` states the value it takes.
- The miss table printed by the simulator is labelled one higher than the memory size an entry belongs to; the theorem is
  about the entries.
- The word scan in `segfitheap.h:71` reads a word before it tests the bound; the outcome does not depend on the word,
  and the model tests first. The test that guards the large-list part of `sanityCheck` (`segfitheap.h:208`) is inverted;
  the model keeps what its body says, that large-list objects are larger than every dedicated size.

## Model

| member | source | states |
|---|---|---|
| LruStack.StackSimulatesAllSizes | tools/lrusim2.cpp:28-140 | For every well-formed trace and every size k, the pages in the first k stack positions, in order, are exactly the contents of a k-page LRU memory with invalidation |
| LruStack.StepSimulates | tools/lrusim2.cpp:49-113 | One line does to the first k positions, for every k, what it does to the k-page memory |
| LruStack.InsertSimulates | tools/lrusim2.cpp:72-78 | A first touch fills the first placeholder, or pushes the last page of each full memory out |
| LruStack.PromoteSimulates | tools/lrusim2.cpp:97-113 | A repeated access trickles the placeholder down, and each memory sees a hit or a miss |
| LruStack.DropSimulates | tools/lrusim2.cpp:56-62 | A placeholder left behind by an unmap removes the page from each memory that has it |
| LruStack.StepKeepsPages | tools/lrusim2.cpp:49-113 | Any line whose page is not the placeholder value, reported or not, keeps the pages distinct and the stack pages equal to the resident ones: a touched page enters, a dropped one leaves |
| LruStack.RunKeepsPages | tools/lrusim2.cpp:28-140 | Over any well-formed trace no page is twice on the stack, and its pages are the resident pages |
| LruStack.StackLengthIsPeak | tools/lrusim2.cpp:34-113 | The stack is as long as the peak number of resident pages; placeholders make up the difference to the current number |
| LruSimulation.TailCountsMisses | tools/lrusim2.cpp:119-130 | The histogram entries from position k on add up to the misses of the k-page memory |
| LruSimulation.MissIsPosition | tools/lrusim2.cpp:132-133 | A repeated access misses in the k-page memory exactly when its stack position is k or more |
| LruSimulation.MissesShrink | tools/lrusim2.cpp:291-300 | A larger memory never misses more often |
| LruSimulation.HistogramWithinPeak | tools/lrusim2.cpp:119-130 | The histogram never outgrows the peak number of resident pages |
| LruSimulation.ReportedMeans | tools/lrusim2.cpp:50-84 | The lines reported as errors are exactly those that do not fit the resident pages |
| LruSimulation.LruSimulator.Scan | tools/lrusim2.cpp:29-46 | The position of the page and the first placeholder above it |
| LruSimulation.LruSimulator.Process | tools/lrusim2.cpp:28-140 | One line takes stack, histogram and error count to those of the specification; which tags and pages count as errors is spelled out |
| LruSimulation.LruSimulator.CountHit | tools/lrusim2.cpp:119-130 | The histogram grows with zeros to hold the position, and only this entry is incremented |
| LruSimulation.LruSimulator.Run | tools/lrusim2.cpp:250-277 | No line is reported exactly when the trace is well formed, and then stack and histogram are those of the whole trace |
| LruSimulation.LruSimulator.CalculateMisses | tools/lrusim2.cpp:289-300 | Entry m of the table is the suffix sum of the histogram from m |
| LruSimulation.MissTable | tools/lrusim2.cpp:289-300 | Entry m of the table is the number of repeated accesses that miss in an m-page LRU memory; beyond the table nothing misses |
| LruSimulation.LruSimulator.NewProcess | tools/lrusim.cpp:174-273 | Tag by tag, what happens to stack and histogram, and which pages make the simulator give up with nothing changed; both steps are those of the other simulator |
| MemTracing.MemTracer.Mmap | tools/memtrace.h:154-219 | The new pages are tracked as untouched with the given mapping and protection and one line each; byte counters, trace and page map keep agreeing, the maximum follows the totals |
| MemTracing.MemTracer.Munmap | tools/memtrace.h:221-281 | The pages leave the map and the window with one U line each; the counters keep agreeing and so stay non-negative, and the maximum stays |
| MemTracing.MemTracer.Madvise | tools/memtrace.h:283-349 | Pages in memory become discarded, others keep their residency, access to all of them is closed and they leave the window; mapping and own protection stay, and so does every other page |
| MemTracing.MemTracer.Mprotect | tools/memtrace.h:351-392 | Each tracked page of the range gets exactly the given readable and writable bits and is closed, with mapping and residency kept; every other page stays as it is |
| MemTracing.MemTracer.AddPagesSbrked | tools/memtrace.h:2094-2122 | The pages the break moved over are tracked as untouched, readable and writable sbrk pages, closed at first; every other page stays; totals and maximum grow by them |
| MemTracing.MemTracer.RemovePagesSbrked | tools/memtrace.h:2124-2170 | The pages above the new break leave the map, whatever their residency |
| MemTracing.MemTracer.HandleNewBreak | tools/memtrace.h:2172-2193 | The sbrk pages are exactly the pages between the initial and the current break; totals and maximum follow, with the value that the maximum takes while whole pages enter |
| MemTracing.MemTracer.ReprotectBuf | tools/memtrace.h:2249-2272 | The pages of the buffer are closed with everything else about them kept, and no other page changes |
| MemTracing.MemTracer.RemoveFromWindow | tools/memtrace.h:2274-2282 | Exactly the pages of the range leave the window |
| MemTracing.MemTracer.Fault | tools/memtrace.h:2355-2518 | The line is R exactly for a page that has to be brought in, r or w for one in memory, never W; a page that was readable ends up readable and writable with nothing else changed; otherwise it is opened for reading, takes the next window slot, and the page whose slot is reused is closed; every other page, the break and the allocation totals stay |
| MemTracing.OpenAfterFault | tools/memtrace.h:2459-2494 | After a first access the page is open for reading exactly if the reused slot did not hold it already; its mapping and own protection are kept, and at most one other page is closed |
| MemTracing.FaultTwice | tools/memtrace.h:2476-2491 | A page closed by mprotect while in the window can be closed again by the fault that opens it, and the next access writes the same line again |
| MemTracing.MemTracer.CountBroughtIn | tools/memtrace.h:2359-2399 | The byte counters lose what the page contributed before it was in memory |
| PageStatus.TrackedAt | tools/memtrace.h:200-209 | The mapping loop enters each page of the range once and no other |
| PageStatus.LinesAt | tools/memtrace.h:200-209 | The loops over pages write one line for each page, in address order |
| PageStatus.UntrackedAt | tools/memtrace.h:233-272 | The unmapping loop removes each page of the range and no other |
| PageStatus.ChangedAt | tools/memtrace.h:302-342 | The loops over tracked pages change the pages of the range once each and no other |
| PageStatus.CountChange | tools/memtrace.h:314-332 | A status change moves one page between the counted kinds |
| TracedSimulation.Replay | tools/lrusim2.cpp:28-140 | Every trace the tracer can produce is simulated without an error, the stack holds the pages in memory, and its length is the peak |
| IntrusiveLists.AddFront | vamcommon.h:102-105 | Relinking puts the node at the front of a ring and keeps both directions consistent |
| IntrusiveLists.DeleteNode | vamcommon.h:118-123 | Deleting a node anywhere in a ring leaves the ring of the others |
| IntrusiveLists.OtherRing | vamcommon.h:118-123 | Deleting from one ring leaves disjoint rings as they are |
| IntrusiveLists.OtherRingAdd | vamcommon.h:102-105 | Adding to one ring leaves disjoint rings as they are |
| IntrusiveLists.LinkStore.ListAdd | vamcommon.h:92-105 | The relinking in place is the one whose effect on rings AddFront proves |
| IntrusiveLists.LinkStore.ListDel | vamcommon.h:112-123 | The relinking in place is the one whose effect on rings DeleteNode proves; the node ends up unlinked |
| SegFitLists.SearchIsBestFit | segfitheap.h:32-121 | The place the search ends at is the smallest sufficient object if a dedicated list has one, else the first sufficient large one; it is nowhere only if no object is large enough |
| SegFit.SegFitHeap.SearchBitmap | segfitheap.h:50-89 | The bitmap scan, started behind an empty list, ends at the first list that is not empty |
| SegFit.SegFitHeap.SearchLarge | segfitheap.h:102-117 | The first sufficient object of the large list, unlinked |
| SegFit.SegFitHeap.Malloc | segfitheap.h:32-121 | The object at the specified place leaves its list; lists, counters and bitmap agree again |
| SegFit.SegFitHeap.Free | segfitheap.h:123-150 | The object goes to the front of the list for its size, in front of what was there; links, counters and bitmap follow |
| SegFit.SegFitHeap.Remove | segfitheap.h:152-171 | The object leaves its list wherever it is on it; lists, counters and bitmap agree again |
| Bitmaps.ScanBits | segfitheap.h:76-82 | The bit scan stops at the first set bit, inside the word |
| Bitmaps.ScanWords | bitmapcachingreap.h:52 | The word scan that tests no bound stops at the first non-zero word, inside the bitmap |
| Bitmaps.Mark | segfitheap.h:140 | Setting a bit adds exactly this mark |
| Bitmaps.Unmark | segfitheap.h:47 | Flipping a set bit removes exactly this mark |
| ObjectHeaders.HeaderStore.SetFree | objectheader.h:35-37 | The free bit is written into the next header |
| HeaderTags.HeadersInverse | objectheader.h:23-29 | On the blocks of a chunk the next and the previous header are inverse to each other |
| HeaderTags.PreviousBit | splitcoalesceheap.h:86-88 | The previous-free bit says whether there is a free block before, and the previous header is its header |
| HeaderTags.NextBit | splitcoalesceheap.h:96-97 | The next header is free exactly when it heads a free block |
| HeaderTags.SplitTagged | splitcoalesceheap.h:118-142 | Split writes headers that describe the split blocks |
| HeaderTags.CoalesceTagged | splitcoalesceheap.h:145-157 | Coalesce writes headers that describe the merged block |
| HeaderTags.ChunkTagged | splitcoalesceheap.h:26-43 | The headers of a fresh chunk describe one free block between sentinels |
| BoundaryTags.AllocateSound | splitcoalesceheap.h:49-70 | Allocating keeps the chunks tiled and no two adjacent blocks free |
| BoundaryTags.ReleaseSound | splitcoalesceheap.h:75-104 | Freeing with coalescing both ways keeps the chunks tiled and no two adjacent blocks free |
| BoundaryTags.NewChunkSound | splitcoalesceheap.h:23-46 | A fresh chunk keeps tiling and coalescing |
| BoundaryTags.ReleaseUndoesAllocate | splitcoalesceheap.h:75-104 | Freeing a block right after its allocation restores the blocks |
| BoundaryTags.EmptyChunkIsWhole | splitcoalesceheap.h:75-104 | A chunk without a live block is one free block of MAX_OBJECT_SIZE, whatever the order of the frees |
| BoundaryTags.ChunkIsFilled | splitcoalesceheap.h:23-46 | The blocks and the sentinel headers of a chunk add up to its size |
| BoundaryTags.RunSound | splitcoalesceheap.h:16-104 | Every state of every run is tiled and coalesced |
| BoundaryTags.LiveObjectKeepsSize | splitcoalesceheap.h:16-104 | Over any run a live object keeps its address and recorded size until it is freed |
| BoundaryTags.AllocatedObject | splitcoalesceheap.h:49-72 | The object has at least the requested size, less than 16 bytes of slack, lies in one chunk and overlaps no other block, the piece split off included |
| SplitCoalesce.LinksClear | splitcoalesceheap.h:60 | The links of a listed object lie inside its own free block: they meet no header, no live object and no other links |
| SplitCoalesce.PlaceIsBestFit | splitcoalesceheap.h:16-22 | The block behind the returned object is a best fit among all free blocks; without one no free block is large enough |
| SplitCoalesce.SplitCoalesceHeap.LayOutChunk | splitcoalesceheap.h:26-43 | The eight header writes amount to the tags that describe one free block between sentinels (ChunkTagged) |
| SplitCoalesce.SplitCoalesceHeap.SplitOff | splitcoalesceheap.h:118-142 | Done exactly if the remainder can hold a header and list links; the writes amount to the tags of the split blocks (SplitTagged) |
| SplitCoalesce.SplitCoalesceHeap.Coalesce | splitcoalesceheap.h:145-157 | The writes amount to the tags of the merged block (CoalesceTagged) |
| SplitCoalesce.SplitCoalesceHeap.Carve | splitcoalesceheap.h:49-70 | The taken block is allocated, the remainder split off and listed; tiling, tags, lists, counters and bitmap agree |
| SplitCoalesce.SplitCoalesceHeap.TakeFitting | splitcoalesceheap.h:17-22 | A best-fitting block leaves its list; NULL only if no free block is large enough |
| SplitCoalesce.SplitCoalesceHeap.ObtainChunk | splitcoalesceheap.h:23-46 | A fresh chunk becomes one free block that is on no list yet |
| SplitCoalesce.SplitCoalesceHeap.Malloc | splitcoalesceheap.h:16-73 | A best-fitting block is allocated; a fresh chunk is taken only if no free block fits, NULL only without a chunk; no header outside the chunks is touched |
| SplitCoalesce.SplitCoalesceHeap.Free | splitcoalesceheap.h:75-104 | The block is released and merged with its free neighbours; everything agrees again; no header outside the chunks is touched |
| SplitCoalesce.MallocThenFree | splitcoalesceheap.h:16-104 | Malloc then free leaves blocks and free blocks as they were, up to one new chunk that is all free |
| ReapSlots.FreeCount | reapbase.h:42 | The free count is the number of slots that are not live, and zero exactly if nothing can be handed out |
| ReapSlots.TakenSlot | reapbase.h:15-24 | The slot handed out was not live and is the only change; a fresh slot comes first and leaves the freed ones alone |
| ReapBases.ReapBase.Malloc | reapbase.h:15-24 | Bumping hands out the next slot address, NULL when all slots were bumped |
| BitmapReaps.BitmapReap.Search | bitmapreap.h:40-52 | Starting at the hint, the search finds the lowest mark of all |
| BitmapReaps.BitmapReap.Malloc | bitmapreap.h:36-61 | A fresh slot, then the lowest freed one; NULL exactly if no slot is free |
| BitmapReaps.BitmapReap.Free | bitmapreap.h:63-76 | The slot becomes free and nothing else changes; no mark lies below the hint |
| BitmapReaps.BitmapReap.constructor | bitmapreap.h:17-34 | Reap, bitmap and objects fit the region, with the least bitmap and no room for a further object; all slots are fresh |
| BytemapReaps.BytemapReap.Malloc | bytemapreap.h:36-55 | A fresh slot, then the lowest freed one; NULL exactly if no slot is free |
| BytemapReaps.BytemapReap.Free | bytemapreap.h:57-70 | The slot becomes free and nothing else changes; no mark lies below the hint |
| BytemapReaps.BytemapReap.constructor | bytemapreap.h:17-34 | Reap, bytemap and objects fit the region, with a byte for each object that would fit without the bytemap and no room for a further object; all slots are fresh |
| LowestFirst.InLockstep | bytemapreap.h:36-70 | With equal slot counts both reaps give the same slots for every legal history |
| LowestFirst.FreedSlotsInOrder | bitmapreap.h:36-61 | Once bumping is exhausted, allocations return the freed slots in increasing order |
| FreelistReaps.FreelistReap.Malloc | freelistreap.h:29-40 | A fresh slot, then the one freed last; NULL exactly if no slot is free |
| FreelistReaps.FreelistReap.Free | freelistreap.h:42-51 | The freed object heads the chain through the free objects |
| FreelistReaps.FreeThenMalloc | freelistreap.h:29-51 | After bumping, an allocation undoes a free |
| BitmapCachingReaps.BitmapCachingReap.constructor | bitmapcachingreap.h:17-36 | Reap, bitmap and objects fit the region, with the least bitmap and no room for a further object; all slots are fresh |
| BitmapCachingReaps.BitmapCachingReap.FillCache | bitmapcachingreap.h:54-69 | The marks of one word go to the cache from the highest down, and the cache does not overflow |
| BitmapCachingReaps.BitmapCachingReap.Refill | bitmapcachingreap.h:48-71 | The scan stops inside the bitmap; the first marked word moves to the cache, the lowest freed slot last; no slot changes hands |
| BitmapCachingReaps.BitmapCachingReap.Pop | bitmapcachingreap.h:42-46 | The slot cached last is handed out, and every other slot stays in its one place |
| BitmapCachingReaps.BitmapCachingReap.Malloc | bitmapcachingreap.h:38-83 | A fresh slot, else the one cached last, else the lowest freed one; NULL exactly if no slot is free; each slot is in one place |
| BitmapCachingReaps.BitmapCachingReap.Flush | bitmapcachingreap.h:94-108 | A full cache moves to the bitmap; no slot changes hands and no mark lies below the hint |
| BitmapCachingReaps.BitmapCachingReap.Free | bitmapcachingreap.h:85-111 | The slot goes to the cache, which is flushed when full; each slot is in one place and the cache has room again |
| BitmapCachingReaps.FreeThenMalloc | bitmapcachingreap.h:38-111 | After bumping, an allocation undoes a free that did not fill the cache |
| BitmapCachingReaps.CollectedWord | bitmapcachingreap.h:54-74 | The collected word is exactly its marks, and the lowest mark of the bitmap is last |
| BitmapCachingReaps.OffsetFits | bitmapcachingreap.h:130 | Every byte offset fits in 16 bits |
| ReapLayouts.BitmapLayoutFits | bitmapcachingreap.h:17-32 | Metadata and objects fit, the base is 8-aligned, and the bitmap has a bit for every object |
| ReapLayouts.BitmapLayoutTight | bitmapcachingreap.h:17-32 | The bitmap has the least number of words with a bit for each object that would fit without it, the base is the next multiple of 8, and no further object fits behind it |
| ReapLayouts.BytemapLayoutFits | bytemapreap.h:17-33 | Metadata and objects fit, the base is 8-aligned, and every object has a byte |
| ReapLayouts.BytemapLayoutTight | bytemapreap.h:17-33 | The same with one byte for each object that would fit without the bytemap |
| ReapLayouts.FreelistLayoutFits | freelistreap.h:17-26 | The objects fit exactly if at least the four alignment bytes are left over |
| ReapLayouts.FreelistLayoutTight | freelistreap.h:17-26 | The objects are as many as fit right behind the reap, before the base is aligned |
| ReapLayouts.EvenSizesFit | freelistreap.h:17-26 | They do for every object size that is a multiple of 8 |
| ReapLayouts.FreelistOverruns | freelistreap.h:17-26 | They do not for four-byte objects in a page |
| ReapLayouts.SlotsDisjoint | reapbase.h:17-21 | Objects of different slots overlap neither each other nor the map nor the end of the region |
| ReapLayouts.SeveralSlots | bitmapcachingreap.h:19-31 | With the sizes sent to reaps a region has at least three slots |
| PageClusterHeaps.PageClusterHeap.constructor | pageclusterheap.h:58-64 | All clusters are free and discarded, in address order, and both counters say so |
| PageClusterHeaps.PageClusterHeap.Malloc | pageclusterheap.h:81-110 | The head of the list is handed out with its DISCARDED flag kept and the rest of the list in order; flags, list and both counters agree |
| PageClusterHeaps.PageClusterHeap.Free | pageclusterheap.h:112-138 | The cluster heads the list, discarded or resident as the build mode says, with every other flag kept; flags, list and both counters agree |
| PageClusterHeaps.PageClusterHeap.SanityCheck | pageclusterheap.h:161-188 | The assertions of sanityCheck hold in every state |
| ClusterLists.ResidentBeforeDiscarded | pageclusterheap.h:175 | A discarded cluster is handed out only when no resident free one remains |
| ClusterLists.CountIsSuffix | pageclusterheap.h:175-185 | The discarded clusters of the list are its suffix, and the counter is its length |
| ClusterLists.PutBackSound | pageclusterheap.h:120-135 | Freeing keeps the discarded clusters a suffix in either build mode |
| ClusterLists.TakeHeadSound | pageclusterheap.h:91-100 | Taking the head keeps it too |
| Partitions.NewPartition | partitionheap.h:77-103 | A region disjoint from the live ones starts in a partition without an owner |
| Partitions.PoolSuffices | partitionheap.h:76 | The pool runs out only when no region is left to start a subheap on |
| Partitions.OwnerFound | partitionheap.h:286-296 | The partition of a live pointer is the one its subheap starts in, huge or not, and the address gives its cluster |
| Partitions.InteriorOwner | partitionheap.h:286-288 | The same holds for every address inside a regular cluster |
| Partitions.LiveDisjoint | partitionheap.h:46-151 | Live clusters do not overlap |
| PartitionSteps.RetireSound | partitionheap.h:70-72 | Moving a used-up subheap to the full list keeps the bookkeeping and the live pointers |
| PartitionSteps.TakeSound | partitionheap.h:61-68 | A cluster taken from a subheap is a new live pointer, the only change |
| PartitionSteps.ClaimSound | partitionheap.h:76-105 | A new subheap hands out its first cluster, is entered once in each map and list, and takes one pool instance |
| PartitionSteps.FreedSound | partitionheap.h:153-192 | Exactly the pointer stops being live; an empty subheap is destroyed unless it is the last available one, a full one becomes available |
| PartitionSteps.OthersNotEmpty | partitionheap.h:165-166 | Next to a subheap alone on its available list no other of the type is empty, so each type keeps at most one |
| PartitionSteps.Conserved | partitionheap.h:194-250 | Available, full and unused subheaps add up to the number of partitions, and unused instances to unused partitions |
| PartitionSteps.RunSound | partitionheap.h:46-192 | The bookkeeping is sound in every state of every run |
| PartitionSteps.ClusterSizesKept | partitionheap.h:194-250 | Over any run a subheap of type n > 0 is one partition cut into clusters of PAGE_SIZE << (n - 1) |
| PartitionSteps.OwnerIsKept | partitionheap.h:46-192 | Over any run a pointer finds the same owner and type from its allocation to its free |
| PartitionAllocation.SearchedFinds | partitionheap.h:60-73 | The search changes no subheap and ends at one with a free cluster exactly when the type has one |
| PartitionAllocation.AllocatedSound | partitionheap.h:46-151 | NULL exactly if a region is needed and the pool is used up; else a cluster of the size and type that was not live; a region is used only if the type has no free cluster |
| PartitionOrder.SearchedOrder | partitionheap.h:60-73 | The search drops from the available list exactly the subheaps before the first one with a free cluster |
| PartitionOrder.AllocatedOrder | partitionheap.h:46-151 | The first available subheap with a free cluster serves from the head of its free list; a new one takes the region, an instance and its type, and is the only available one, or full and first on its list if it is huge |
| PartitionOrder.FreedOrder | partitionheap.h:153-192 | The subheap is destroyed exactly if the cluster was its only one and it is not alone on the available list; otherwise it is available afterwards, in front if it was full |
| PartitionFrames.AllocatedKeeps | partitionheap.h:46-151 | An allocation leaves every other live cluster live, with its size and type |
| PartitionFrames.ReleasedKeeps | partitionheap.h:153-192 | A free takes away this one pointer and leaves every other live cluster live, with its size and type |
| PartitionFrames.AllocationRefused | partitionheap.h:46-151 | A request is refused exactly if no cluster of the type is free and no instance is left, and then every cluster stays as it was |
| PartitionHeaps.PartitionHeap.Create | partitionheap.h:75-145 | The claim of a new subheap on a fresh region, regular or huge |
| PartitionHeaps.PartitionHeap.Malloc | partitionheap.h:46-151 | State and pointer are those AllocatedSound is about; which subheap serves and where a new one goes is as AllocatedOrder says |
| PartitionHeaps.PartitionHeap.Free | partitionheap.h:153-192 | The owner is found by address; exactly the pointer stops being live, and the subheap goes, stays or becomes available as FreedOrder says; a pointer without an owner is ignored |
| Shelves.MaskFindsOwner | onesizeheap.h:164-171 | The mask leads from every address inside an object to the subheap that contains it |
| PageMasks.MaskRoundsDown | onesizeheap.h:169 | On machine words, masking out the n lowest bits rounds the value down to a multiple of 2^n |
| Shelves.MaskIsSubheapOf | onesizeheap.h:169 | The mask of getSubHeap on machine words is the rounding that finds the subheap |
| Shelves.ObjectInside | onesizeheap.h:137-152 | An object lies in its subheap behind the reap itself, and its address gives its slot |
| Shelves.NewSound | onesizeheap.h:137-152 | A new subheap is available, hands out its first object if it has a slot, and leaves the other objects live |
| Shelves.NewPlaced | onesizeheap.h:137-152 | The new subheap is of the next type and heads the available list, and the type after it is one more, up to the maximum |
| Shelves.SlotsFill | onesizeheap.h:145 | A subheap has as many slots as its region holds behind the reap and its bitmap |
| Shelves.TakenSound | onesizeheap.h:54-58 | An object taken from a subheap is a new live object, the only change |
| Shelves.ReturnedSound | onesizeheap.h:78-90 | Exactly the object stops being live, each subheap is on exactly one list, a full one has no free slot |
| Shelves.RemovalCondition | onesizeheap.h:84-87 | The subheap goes away exactly if this was its last object and it has at least two slots |
| Shelves.SingleSlotStays | onesizeheap.h:84-87 | A subheap with one slot stays although it is empty |
| Shelves.DeployedNoneIdle | onesizeheap.h:84-87 | With the deployed sizes no empty subheap is kept |
| OneSizeHeaps.SearchedFinds | onesizeheap.h:54-61 | The search changes no subheap and ends at one with a free slot exactly when there is one |
| OneSizeHeaps.SearchedOrder | onesizeheap.h:54-61 | The search drops from the available list exactly the subheaps before the first one with a free slot |
| OneSizeHeaps.ServedSound | onesizeheap.h:41-76 | NULL exactly if no slot is free and no region with a slot was given; else an object that was not live; a subheap is created only if none has a free slot |
| OneSizeHeaps.ServedOrder | onesizeheap.h:41-76 | The first available subheap with a free slot serves; a new one is of the next type and alone on the available list; the next type steps up only then |
| OneSizeHeaps.ReturnedOrder | onesizeheap.h:78-90 | A subheap is removed exactly with its last object if it has two slots or more, and the next type steps down only then; a full one goes to the front of the available list |
| OneSizeHeaps.GrowthLaw | onesizeheap.h:137-152 | Over any run without removals the i-th subheap created has PAGE_SIZE << (min(i, MAX_PAGE_ORDER) - 1) bytes |
| OneSizeHeaps.OneSizeHeap.Malloc | onesizeheap.h:41-76 | State and pointer are those ServedSound is about, for any choice of the recycled slot; the first available subheap serves; the next type steps up exactly if a subheap is created |
| OneSizeHeaps.OneSizeHeap.Free | onesizeheap.h:78-90 | The owner is found by the mask of the type; exactly the object stops being live; the removed subheap, if any, is handed back, and exactly then the next type steps down |
| OneSizeHeaps.ServedTwice | onesizeheap.h:63-70 | Asking for a cluster after an attempt without one failed gives what asking at once gives |
| TwoHeaps.HugeSizeShape | twoheap.h:27-31 | A huge region is page-aligned, larger than a partition, and holds object and header with less than a page to spare unless it is the smallest |
| TwoHeaps.HugeSizeSuffices | twoheap.h:27-31 | The region is large enough exactly up to the size at which the 32-bit arithmetic wraps around |
| TwoHeaps.HugeSizeWraps | twoheap.h:27-31 | For the largest size it is not |
| TwoHeaps.WriteOutside | twoheap.h:35 | Writing the header of a huge object leaves the regular heap intact |
| TwoHeaps.RegularSize | twoheap.h:47 | The header of a regular object never says more than MAX_OBJECT_SIZE |
| TwoHeaps.TwoHeap.MallocRegular | twoheap.h:20-22 | The blocks become what SplitCoalesceHeap.Malloc makes them, a best fit or a fresh chunk, with all huge headers left as they were |
| TwoHeaps.TwoHeap.MallocHuge | twoheap.h:25-38 | The header of the huge object records its size; the regular heap is unchanged |
| TwoHeaps.TwoHeap.Free | twoheap.h:43-53 | The size in the header sends every live pointer to the heap it came from, and only that heap changes |
| FrequencyHeaps.HotStep | frequencyheap.h:29-33 | What one request adds to the count and to the frequent classes |
| FrequencyHeaps.HotStays | frequencyheap.h:25-30 | A frequent class stays frequent |
| FrequencyHeaps.RepeatedRequests | frequencyheap.h:29-33 | Requests of one size become frequent exactly when size times count passes PAGE_SIZE |
| FrequencyHeaps.FrequencyHeap.Decide | frequencyheap.h:22-34 | A request is one for the reaps exactly if, counting it, some request of the history brought its class over the limit |
| FrequencyHeaps.FrequencyHeap.Malloc | frequencyheap.h:19-51 | The reaps are tried exactly for classes that some request of the history brought over the limit; the other heap serves the rest |
| AlignedMmap.AlignedStartIsLeast | alignedmmapheap.h:32 | The first multiple of the alignment that is not below the mapped start |
| AlignedMmap.AlignedMmapHeap.Malloc | alignedmmapheap.h:23-43 | The result is aligned, and with the two unmapped pieces makes up exactly what was mapped |
| AlignedMmap.GivesRegion | alignedmmapheap.h:23-43 | The result is a region as the partition heap needs it |
| Routing.ClusterHoldsReap | onesizeheap.h:138-141 | A live cluster of type t > 0 is aligned to PAGE_SIZE << (t - 1), as a reap needs it |
| Routing.InteriorType | partitionheap.h:286-292 | Every address inside a cluster of up to a partition has the type of the cluster |
| Routing.HeaderType | twoheap.h:33-36 | A huge object has the type of its region although the region is only page-aligned |
| Routing.NewClusterIsFresh | onesizeheap.h:137-141 | A cluster that is not among the other subheaps is apart from all of them |
| VamStates.StepLinked | vam.h:77-86 | Every malloc and free of every component keeps each reap, each chunk and each huge region in a live cluster of its own, of its type and size, and no live cluster is without one of them |
| VamRouting.RoutedToOwner | frequencyheap.h:53-62 | In every composed state the decisions of free, by type, then by header size or mask and object size, lead a live pointer to its owner, and to nothing else |
| VamRouting.OwnsStays | vam.h:77-86 | An owner keeps its object in every step of the allocator but its own free |
| VamRouting.RunLinked | vam.h:77-86 | The layers stay composed in every state of every run |
| VamRouting.RoutedOverRuns | frequencyheap.h:53-62 | Over any run, from its allocation to its own free, a pointer is routed to its owner and nowhere else |
| VamRouting.ObjectsApart | vam.h:77-86 | Live objects do not overlap, whichever components they come from; huge ones up to the size at which the arithmetic of their regions wraps around |
| VamRouting.MallocGives | vam.h:77-86 | A malloc returns NULL or an object of at least the size asked for, with less than 16 bytes to spare, at an address that nothing owned |
| VamRouting.StepGives | vam.h:77-86 | A malloc adds at most this one object, and everything that was live still is |
| VamRouting.FreeTakes | vam.h:77-86 | A free takes away exactly the object of this owner; every other one stays |
| VamRouting.NothingLive | vam.h:77-86 | When nothing is live, every cluster has gone back to the partition heap but the chunks, each of them one free block again |
| VamSupply.ReapsRefuse | onesizeheap.h:41-76 | The reaps of a class refuse a request exactly if none has a free slot and no cluster for a further one can be had |
| VamSupply.BlockRefused | splitcoalesceheap.h:16-47 | A regular request is refused exactly if no block fits and no chunk can be had |
| VamSupply.HugeRefused | twoheap.h:24-38 | A huge request is refused exactly if no further subheap can be had |
| VamHeaps.InitialComposed | vam.h:77-86 | The empty allocator is composed |
| VamHeaps.VamHeap.constructor | vam.h:77-86 | The heaps start out composed, with nothing live |
| VamHeaps.VamHeap.MallocSmall | segsizeheap.h:14-18 | The heap of the size class serves the request, with a cluster from the partition heap only if no subheap has a free slot |
| VamHeaps.VamHeap.MallocBlock | splitcoalesceheap.h:16-47 | A best fit, or a chunk from the partition heap only if no free block is large enough |
| VamHeaps.VamHeap.MallocLarge | twoheap.h:24-38 | A region of its own from the partition heap, with the size in its header |
| VamHeaps.VamHeap.MallocLow | twoheap.h:16-41 | NULL exactly if the heaps with headers have nothing: no fitting block and no chunk, or no region; else one new object, a regular or a huge one by its size, with everything that was live still live |
| VamHeaps.VamHeap.MallocFrequent | segsizeheap.h:14-18 | The reaps of the class serve the request exactly if one has a free slot or a cluster for a further one can be had |
| VamHeaps.VamHeap.Malloc | frequencyheap.h:19-51 | A size that is frequent, counting this request, gets a reap object of its class whenever the reaps can serve it; every other request, and those, get a regular or a huge object whenever these heaps can; NULL exactly if nothing can; one new object, and everything that was live still is |
| VamHeaps.VamHeap.FreeSmall | segsizeheap.h:20-24 | Type, mask and object size lead to the heap that owns the object; a removed subheap goes back to the partition heap |
| VamHeaps.VamHeap.FreeLow | twoheap.h:43-53 | The header leads to the heap that owns the object; the region of a huge one goes back to the partition heap |
| VamHeaps.VamHeap.Free | frequencyheap.h:53-62 | The type seen for the address leads every live pointer to its owner, which frees exactly this object; every other owner keeps its own; the allocator stays composed |

## Left out

- Integer widths: addresses, sizes and counters are unbounded except where wrap-around is written out (bitmap words, cached 16-bit offsets, the huge size); frequency counters that overflow, and `size * count`, are not modelled.
- SplitCoalesce.SplitCoalesceHeap.Malloc: requests are multiples of 8 between 8 and `MAX_OBJECT_SIZE`, which the class sizes and the sanity checks of the free lists rely on; larger requests never reach it.
- MemTracing.MemTracer.Fault: the window of open pages is modelled by its effect of closing the page that leaves it, not as an exact index of the open pages, because `mprotect` and `unprotectBuf` change one side only; a fault on an untracked page is passed on and not modelled.
- MemTracing.MemTracer.Mmap: a result that overlaps tracked pages is excluded, as the assertion there does; mappings of 0x801000 bytes are ignored as in the code.
- AlignedMmap.AlignedMmapHeap.Malloc: the sum of size and alignment is taken not to wrap around, which a successful mapping implies; the mapping and unmapping themselves are parameters and results.
- PartitionHeaps.PartitionHeap: subheaps are values with the steps that `PageClusterHeaps.PageClusterHeap` is proved to take, so aliasing of subheap objects is not captured; a missing region aborts in the source, so a region is always given when one is asked for. Huge requests have type 0, as `TwoHeap` makes them.
- OneSizeHeaps.OneSizeHeap: reaps are values with the steps of `ReapSlots`, for any choice of the recycled slot; the placement is that of `BitmapCachingReap`. The type of an object's partition is a parameter here and read from the partition heap in `VamHeaps.VamHeap`.
- VamHeaps.VamHeap: a heap that may need a cluster is asked first without one and again with one, where the source asks the partition heap in between; `OneSizeHeaps.ServedTwice` and the contract of `MallocRegular` say that this makes no difference. The `_object_size` of a reap is read from a map from reap addresses. Requests are multiples of 8.
- PageClusterHeaps.PageClusterHeap: the free list is a sequence of cluster indices; the links are those of `IntrusiveLists`.
- TwoHeaps.TwoHeap: `malloc` is two methods, for regular and for huge requests; regions for huge objects are parameters here and come from the partition heap in `VamHeaps.VamHeap`. `HugeSize` 0, which the lower heap aborts on, is excluded.
- Objects' own contents, except for the links and pointers that free objects hold.
- Recovery of the LRU simulators: after an error the pages stay distinct (`LruStack.StepKeepsPages`), but nothing is claimed about the miss counts of later lines.
- Reading trace files, arguments, output files and their labels, the `preset_memsize` output, and the branches that are compiled out.
- `CachingHeap`, `MapSizeHeap` and `RememberSizeHeap`: thin or unused wrappers that would add only easy members.
- The destructors, `getSize`, locks and thread safety, the singletons, `dbprintf`, and the system-call wrappers of the tracer other than those named.
- 64-bit targets: header size, masks and partition count are those of the 32-bit target.
