# ammalloc: a verified model

This project models ammalloc, a concurrent memory allocator with four layers, and
proves what the layers promise each other and the user; `dafny verify dfyconfig.toml`
checks the whole project.

| layer | files |
|---|---|
| arithmetic | `Config.dfy`, `Lists.dfy`, `SizeClass.dfy` (size classes), `SpanLayout.dfy` (bitmap and object grid of a span), `Bits.dfy` (64-bit words as natural numbers) |
| spans and chains | `Span.dfy` (bitmap with scan cursor), `FreeList.dfy` (intrusive chains in a shared memory, and the loops that build and walk them), `TransferCache.dfy` (circular transfer cache, bounded drain) |
| ThreadCache | `ThreadCache.dfy` (quota machine, trim, runs), `ThreadCacheFlow.dfy` (nothing lost, nothing handed out twice), `ThreadCacheOverrun.dfy` (when a list exceeds its quota) |
| CentralCache | `CentralStore.dfy` (where objects are), `CentralCache.dfy` (the steps of all threads), `CentralInvariant.dfy` (every step keeps the invariant), `CentralRuns.dfy`, `CentralDrain.dfy`, `CentralProgress.dfy`, `CentralMeasure.dfy` (what holds over runs), `CentralFetch.dfy`, `CentralReleases.dfy`, `CentralDrainRuns.dfy` (what whole calls achieve), `CentralFrames.dfy`, `CentralOwners.dfy` (who touches what), `CentralLinks.dfy` (the links inside free objects, under every interleaving) |
| page layer | `PageHeap.dfy` (heap updates), `PageLeaves.dfy` (leaf stores and descriptor recycling, one at a time), `PageCache.dfy` (the shard object), `PageLayer.dfy` (allocations, releases and the scavenger interleaved), `PageMap.dfy` (radix tree), `PageMapReaders.dfy` (lock-free lookups), `PageMapFlat.dfy` (the tree refines the flat map) |
| system cache | `HugePageCache.dfy` (two tagged Treiber stacks over one slot array), `HugePageRuns.dfy` (the way of a mapping from `Put` to `Get`) |
| whole allocator | `Allocator.dfy`, `AllocatorRuns.dfy` (`am_malloc` and `am_free` over all layers), `AllocatorProgress.dfy` (no guard blocks), `LiveReads.dfy` (lock-free `GetSpan` against half-finished sections) |

How concurrency is modelled. CentralCache, HugePageCache, the page map readers, the
page layer and the whole allocator are state machines. A CentralCache step is one lock
operation, one move of an object or one call into PageCache, and the two lock words of
every bucket are part of the state; a HugePageCache step is one load, store or
compare-and-swap; a page map reader loads one node per step; a page layer step is one
section under the PageCache mutex, with `madvise` between two of them. Two machines
refine these: `CentralLinks.dfy` adds to each CentralCache step the pointer writes it
does, while the user writes at will into the blocks they hold, and `LiveReads.dfy` takes
each page layer section apart into its leaf stores and descriptor deletions, with other
threads and a reader in between. Memory is sequentially consistent and mutexes exclude.
System mappings, descriptors, radix nodes, `madvise` and span requests may fail at every
attempt. States carry history fields where a statement is about the past (`places`,
`home`, `fate`, `detached`, `asked`), which no step reads.

A statement about a whole call names the step in which the call begins (`Calls`), the one
in which it returns (`CallReturns`), and moments in between.

Operations that the source writes as loops over mutable state are methods of classes
(`Span`, `FreeList`, `Ring`, `TransferCaches`, `ThreadCache`, `PageCacheShard`, `Map`),
each proved equal to a function of its old state; the lemmas are about those functions.

One finding. The plain claim that a thread list never exceeds its quota is false.
`GoesOverExactly` gives, for every step of every run, the exact condition, which a caller
could check beforehand; `EveryClassCanGoOver` gives, for every class of every new cache
with at least the default budget, a run of allocations and frees that gets there.

## Model

| member | source | states |
|---|---|---|
| SizeClass.SizeStrictlyIncreasing | include/ammalloc/size_class.h:72-89 | class sizes increase strictly, for all indices |
| SizeClass.IndexOfSize | include/ammalloc/size_class.h:34-89 | the index of a class size is that class, for all indices |
| SizeClass.IndexIsSmallest | include/ammalloc/size_class.h:34-70 | a request maps to the smallest class that holds it, for all sizes |
| SizeClass.WasteUnderQuarter | include/ammalloc/size_class.h:48-70 | above 128 bytes the class size exceeds the request by less than a quarter of it |
| SizeClass.SizeAligned | include/ammalloc/size_class.h:72-89 | every class size is a multiple of the fundamental alignment |
| SizeClass.SizeFitsWord | include/ammalloc/size_class.h:72-89 | a class size fits a 64-bit word exactly for the indices below 235 |
| SizeClass.ClassRange | include/ammalloc/size_class.h:271-271 | a size is at most 32 KiB exactly when its index is one of the 40 classes |
| SizeClass.BatchSize | include/ammalloc/size_class.h:306-322 | a transfer batch has between 2 and 512 objects |
| SizeClass.MovePages | include/ammalloc/size_class.h:324-345 | a refill span has between 8 and 128 pages |
| SizeClass.RefillHoldsTwo | include/ammalloc/size_class.h:324-345 | the refill span of every class has room for two objects and their bits |
| SpanLayout.MaxObjectsIsIdeal | include/ammalloc/span.h:179-184 | the estimate is the largest count whose objects and one bit each fit |
| SpanLayout.LayoutSound | include/ammalloc/span.h:166-209 | for every accepted input bitmap and aligned objects lie one after the other inside the span, one bit per slot |
| SpanLayout.LayoutNearIdeal | include/ammalloc/span.h:194-208 | for objects of at least 16 bytes the capacity is the ideal count or one less |
| SpanLayout.SlotsDisjoint | src/span.cpp:76-77 | two slots of a span share no byte |
| SpanLayout.EveryClassHoldsAnObject | src/span.cpp:131-140 | the refill span of every class is accepted and holds an object |
| Bits.CountrZeroIsLowest | src/span.cpp:71-73 | the trailing-zero count is the lowest set bit |
| Bits.ShiftIsDivision | src/span.cpp:93-98 | for power-of-two sizes the shift is the division |
| SpanObjects.LowestFree | src/span.cpp:65-77 | the lowest bit of the first nonzero word is the lowest free slot |
| SpanObjects.FilledBitmap | src/span.cpp:26-50 | the initial bitmap has exactly the slots below the capacity set |
| SpanObjects.Span.Init | src/span.cpp:9-54 | carving sets every slot free and establishes the span invariant |
| SpanObjects.Span.AllocObject | src/span.cpp:56-81 | returns the lowest free slot and takes exactly it; null exactly when the span is full; words below the cursor stay empty |
| SpanObjects.Span.FreeObject | src/span.cpp:83-112 | undoes an allocation: exactly the freed slot becomes free, for power-of-two and other sizes |
| SpanObjects.Span.ObjectSlotOf | src/span.cpp:114-127 | names the slot of an address, and nothing exactly when no slot has it |
| FreeLists.LinkedDistinct | include/ammalloc/free_list.h:190-208 | a terminated chain never visits a node twice |
| FreeLists.LinkedUnique | include/ammalloc/free_list.h:21-40 | a chain is determined by its head |
| FreeLists.IsCanonical | include/ammalloc/free_list.h:190-208 | true exactly for the empty descriptor or a terminated chain of `count` nodes that ends at `tail` |
| FreeLists.FreeList.Push | include/ammalloc/free_list.h:255-269 | prepends one object; null is ignored; other links are untouched |
| FreeLists.FreeList.Pop | include/ammalloc/free_list.h:408-431 | removes the newest object; null exactly for the empty list |
| FreeLists.FreeList.PushRange | include/ammalloc/free_list.h:271-309 | prepends a whole detached chain in order |
| FreeLists.FreeList.PopRange | include/ammalloc/free_list.h:311-337 | detaches exactly the newest min(n, size) objects in order, terminated |
| FreeLists.FreeList.PopRangeTail | include/ammalloc/free_list.h:339-380 | detaches exactly the oldest min(n, size) objects; the rest keeps its order |
| FreeLists.LinkUpChain | src/central_cache.cpp:66-74 | linking distinct pointers one by one gives a terminated chain of exactly them, in order, and writes no other link |
| FreeLists.LinkScratch | src/central_cache.cpp:64-74 | the loop over the popped pointers gives head, tail and count of the terminated chain of exactly them, hottest first |
| FreeLists.AddToChain | src/central_cache.cpp:113-121 | an extracted object becomes the head of the caller's chain, and its tail when the chain was empty |
| FreeLists.LinkReversed | src/central_cache.cpp:164-180 | the leftover of a prefetch, and the batch of a drain, become a terminated chain that ends at the first pointer |
| FreeLists.WalkBatch | src/central_cache.cpp:217-232 | following `count` links in groups of 512 reads exactly the batch and ends on null |
| TransferCache.IndexInjective | include/ammalloc/central_cache.h:215-224 | different logical offsets have different slots |
| TransferCache.Ring.PopHot | src/central_cache.cpp:50-57 | removes the hottest objects, hottest first |
| TransferCache.Ring.PushHot | src/central_cache.cpp:239-245 | appends in order until objects or capacity run out |
| TransferCache.Ring.DrainCold | src/central_cache.cpp:346-364 | removes a cold prefix; the rest keeps its order |
| TransferCache.TransferCaches.Drain | src/central_cache.cpp:310-391 | each ring loses a cold prefix in batches of at most 512, the result counts its bytes, a bounded drain stays within its budget and alone leaves less than one object's size of it, an unbounded one leaves nothing |
| ThreadCaches.RefillGrows | src/thread_cache.cpp:31-43 | a granted refill raises the quota, up to exactly eight batches |
| ThreadCaches.WarmUpDoubles | src/thread_cache.cpp:31-43 | slow start doubles up to exactly one batch |
| ThreadCaches.OverflowDecays | src/thread_cache.cpp:45-56 | an overflow never raises the quota nor takes it under a batch; the third in a row takes a batch off |
| ThreadCaches.DecayIsLinear | src/thread_cache.cpp:45-56 | 3k overflows in a row take exactly k batches off, down to one batch |
| ThreadCacheFlow.GrowthIsLinear | src/thread_cache.cpp:37-41 | from one batch k granted refills add exactly k eighths of a batch, at least one object each, up to eight batches |
| ThreadCacheFlow.AllocateQuota | src/thread_cache.cpp:253-272 | the quota changes only with a full refill, to the next step, and only within the budget; a partial one holds it |
| ThreadCaches.TrimKeeps | src/thread_cache.cpp:171-230 | every trim keeps the quota invariant, evicts only ends of lists and raises no quota |
| ThreadCaches.TrimReaches | src/thread_cache.cpp:171-230 | a purge ends at or below its target, a soft trim there or with at most a batch per class |
| ThreadCaches.TrimOvershoot | src/thread_cache.cpp:190-208 | a trim goes below its target by less than one object of the class evicted last |
| ThreadCacheFlow.PurgeEmpties | src/thread_cache.cpp:19-21 | a hard request empties every list and takes every quota to one object |
| ThreadCacheFlow.ReuseTrims | src/thread_cache.cpp:19-21 | a soft request ends with at most a mebibyte cached or a batch per class, evicts nothing below that, and overshoots by less than one object |
| ThreadCacheFlow.QuotaContracts | src/thread_cache.cpp:209-228 | which quota a trim of either mode leaves |
| ThreadCaches.ExtraObjectExactly | src/thread_cache.cpp:285-312 | an overflow leaves a list over its quota exactly when it is the third in a row and the quota is at least two batches |
| ThreadCacheOverrun.NewlyOverExactly | src/thread_cache.cpp:142-312 | a step takes a list over its quota exactly when it is a deallocation to a full list, after two overflows, with a quota of at least two batches and no trim pending; trims, refills and other classes never do |
| ThreadCacheOverrun.GoesOverExactly | src/thread_cache.cpp:142-312 | so in every run |
| ThreadCacheOverrun.EveryClassCanGoOver | src/thread_cache.cpp:285-312 | every class of every new cache with the default budget or more is over its quota at the end of some run, in which no cached block is handed in or freed again |
| ThreadCaches.HandleOnce | src/thread_cache.cpp:142-152 | looking at the same request a second time does nothing |
| ThreadCaches.RefillRest | src/thread_cache.cpp:232-275 | a refill keeps the invariant, granted or denied, full or partial |
| ThreadCaches.DeallocateRest | include/ammalloc/thread_cache.h:171-187 | a deallocation keeps the invariant, also from a list already one over and with a trim request pending |
| ThreadCaches.AllocateRest | include/ammalloc/thread_cache.h:144-159 | an allocation keeps the invariant |
| ThreadCacheFlow.AllocateConserves | include/ammalloc/thread_cache.h:152-159 | the object served followed by what stays is what was cached, or what was fetched; other lists change only by a pending trim |
| ThreadCacheFlow.DeallocateConserves | include/ammalloc/thread_cache.h:171-187 | the list stays the new object and what was there, less some of the oldest: none within the quota, a batch on overflow, what a pending trim takes besides; other lists change only by that trim |
| ThreadCacheFlow.HandedOutLeaves | include/ammalloc/thread_cache.h:144-187 | in every run in which no cached object is handed in again no object is cached twice, and one handed out is in no list afterwards |
| ThreadCaches.ReleaseAllResets | src/thread_cache.cpp:154-169 | draining leaves the cache as new |
| ThreadCaches.QuotasHold | src/thread_cache.cpp:83-127 | in all runs the reservation is the sum of the quotas and within the budget, quotas are between 1 and eight batches, lists hold at most one object over and then without overages, and cached bytes never exceed the budget plus one object of each class |
| ThreadCaches.ThreadCache.constructor | src/thread_cache.cpp:60-69 | a new cache satisfies the invariant and raises a budget below the floor |
| ThreadCaches.ThreadCache.CachedBytesSnapshot | src/thread_cache.cpp:83-89 | the loop computes the cached bytes |
| ThreadCaches.ThreadCache.SetQuotaOf | src/thread_cache.cpp:107-127 | the reservation moves by exactly the bytes of the quota change and stays the sum of the quotas |
| ThreadCaches.ThreadCache.TrimOne | src/thread_cache.cpp:177-229 | one class of a trim; what is released is the end of the list |
| ThreadCaches.ThreadCache.TrimTo | src/thread_cache.cpp:171-230 | the loop computes `Trim`; what stays in each list followed by what was sent is what was there; a soft trim sends to the transfer caches, a hard one to the bitmaps |
| ThreadCaches.ThreadCache.HandleGlobalTrimRequest | src/thread_cache.cpp:142-152 | computes `Handle`; the request is then used up: handling it again changes nothing; what stays in each list followed by what was sent is what was there, all sent where the mode says, nothing without a new epoch |
| ThreadCaches.ThreadCache.AllocateFrom | src/thread_cache.cpp:232-275 | computes `Allocate` and keeps the invariant; the object served and what stays are what was cached or fetched |
| ThreadCaches.ThreadCache.DeallocateTo | src/thread_cache.cpp:285-312 | computes `Deallocate` and keeps the invariant; what stays in each list followed by what was sent is what was there, the new object first |
| ThreadCaches.ThreadCache.ReleaseAll | src/thread_cache.cpp:154-169 | sends every list whole to the transfer caches and keeps the invariant |
| CentralStore.OnePlace | src/central_cache.cpp:19-391 | under the invariant a slot is in its bitmap and no sequence, or in exactly one sequence, once |
| CentralStore.MoveOk | src/central_cache.cpp:53-56 | moving objects between two sequences of one class keeps every object in one place |
| CentralStore.TakeBitOk | src/central_cache.cpp:102-125 | so does taking an object out of a bitmap |
| CentralStore.PutBitOk | src/central_cache.cpp:264-273 | so does setting an object's bit |
| CentralStore.AddSpanOk | src/central_cache.cpp:508-508 | so does carving a fresh span |
| CentralStore.DropSpanOk | src/central_cache.cpp:278-283 | so does giving up a span whose use count is zero |
| CentralInvariant.FreeOrder | src/central_cache.cpp:264-293 | freeing keeps spans with free slots before full ones, whether the span leaves, moves to the front or stays |
| CentralInvariant.RotateList | src/central_cache.cpp:103-134 | moving a full front span to the back restores the order |
| CentralInvariant.TakeObjectInv | src/central_cache.cpp:101-126 | an extraction keeps the invariant of the whole machine |
| CentralInvariant.FreeOneInv | src/central_cache.cpp:264-293 | a bitmap release keeps it |
| CentralInvariant.AskGotInv | src/central_cache.cpp:498-508 | a span request keeps it, with the lock dropped |
| CentralInvariant.RelockGotInv | src/central_cache.cpp:509-512 | so does retaking the lock and listing the fresh span, whatever happened meanwhile |
| CentralInvariant.DropEmptyInv | src/central_cache.cpp:296-302 | so does giving an empty span back after the lock is dropped |
| CentralInvariant.DoInv | src/central_cache.cpp:19-391 | every step of every thread keeps the invariant |
| CentralInvariant.RunInv | src/central_cache.cpp:19-391 | the invariant holds in every state of every run |
| CentralRuns.EverySlotInOnePlace | src/central_cache.cpp:19-391 | in every state of every run each slot of each carved span is in exactly one place, and `use_count` is the number of slots outside the bitmap |
| CentralRuns.HeldAlone | src/central_cache.cpp:19-391 | whatever a list, cache, batch or the user holds is of its class and held by no one else |
| CentralRuns.FreeListIsOrdered | src/central_cache.cpp:85-135 | whenever a span-list lock is free, non-full spans precede full ones and each listed span has 1 to all slots taken |
| CentralRuns.AsksOnlyWhenAllFull | src/central_cache.cpp:90-98 | PageCache is asked only when no listed span has a free slot |
| CentralRuns.FetchGives | src/central_cache.cpp:185-193 | a fetch returns distinct objects of its class, at most as many as asked for, and fewer only if a span request failed; which objects they are is `FetchTakesHottest` |
| CentralLinks.ChainsHold | src/central_cache.cpp:19-391 | under every interleaving, and whatever the user writes into blocks they hold, every thread list, fetch chain and batch is a terminated chain with the head, tail and count of its descriptor |
| CentralLinks.FetchReturnsChain | src/central_cache.cpp:63-193 | a finished fetch returns a terminated chain of exactly `count` nodes ending at `tail`, distinct objects of the class, the empty descriptor exactly for none |
| CentralLinks.ReleaseReadsBatch | src/central_cache.cpp:219-306 | between any two groups of a release, following the remaining count of links reads exactly the objects still to be released and ends on null; where each ends is `ReleasedObjectEnds` |
| CentralLinks.GroupIsRead | src/central_cache.cpp:228-231 | what a group's loop reads through the links is what its array then holds |
| CentralLinks.ListIsLinked | include/ammalloc/free_list.h:339-431 | a thread list is what its head leads to, and null exactly when empty |
| CentralLinks.RunHasLinks | src/central_cache.cpp:19-391 | every run of CentralCache is a run with links |
| CentralRuns.ShortOnlyAfterRefusal | src/central_cache.cpp:92-94 | the refusal that cut a fetch short is in the run, and within that same fetch |
| CentralFetch.FetchTakesHottest | src/central_cache.cpp:50-74 | over any run a fetch of n that found the transfer cache to be q adds between min(n, size of q) and n objects in front of the thread's list, the last of them the hottest of q in order, whether or not a span could be had |
| CentralFetch.FetchLeavesColder | src/central_cache.cpp:51-57 | over any run it leaves the rest of q, in order, when it gives the lock back |
| CentralFetch.FetchIsComplete | src/central_cache.cpp:85-135 | over any run a fetch that PageCache refused no span brings exactly n objects |
| CentralFetch.PrefetchesOneBatch | src/central_cache.cpp:76-81 | over any run such a fetch that found the transfer cache short has at one moment n objects for the thread and n more in hand |
| CentralReleases.PrefetchedObjectEnds | src/central_cache.cpp:153-182 | over any run each object extracted beyond the need ends in the transfer cache, or in its bitmap after a moment at which that cache was full |
| CentralReleases.ExcessOnlyWhenFull | src/central_cache.cpp:157-165 | over any run a fetch hands part of its prefetch back only after a moment at which the transfer cache was full and exactly that part was still to be published |
| CentralReleases.ReleasedObjectEnds | src/central_cache.cpp:209-307 | over any run each object given to a release to the bitmaps goes straight to its bitmap; in the other mode to the transfer cache, and to its bitmap only after a moment, within the call and with that object in hand, at which the cache was full |
| CentralReleases.BitmapReleaseFrees | src/central_cache.cpp:254-275 | over any run after a release to the bitmaps each object is in its bitmap unless carved out since or its span has gone back |
| CentralReleases.BitmapReleaseCachesNothing | src/central_cache.cpp:234-246 | over any run no step of a release to the bitmaps changes a transfer cache |
| CentralReleases.FreedStays | src/central_cache.cpp:273-273 | over any run a freed object stays in its bitmap until a fetch carves it out or its span goes back |
| CentralReleases.EmptySpansGoBack | src/central_cache.cpp:279-302 | over any run, whenever no span list is locked, an empty span is on its way from or to PageCache in one thread's hands |
| CentralOwners.DoOwn | src/central_cache.cpp:19-391 | a step touches only the boxes of its thread, the transfer cache whose lock it holds, and the user's blocks |
| CentralRuns.ArraysSuffice | src/central_cache.cpp:48-48 | the 512-entry arrays are never overrun |
| CentralRuns.TransferFits | src/central_cache.cpp:240-244 | a transfer cache never exceeds its capacity |
| CentralDrain.DrainWithinBudget | src/central_cache.cpp:310-391 | under every interleaving a bounded drain never takes more bytes than it was given |
| CentralDrainRuns.DoDeque | src/central_cache.cpp:50-57 | every step of every thread treats every transfer cache as a deque, filled at the hot end |
| CentralDrainRuns.DrainReaches | src/central_cache.cpp:310-391 | over any run an object that a drain leaves in place from beginning to end is larger than what is left of its budget |
| CentralDrainRuns.UnboundedDrainEmpties | src/central_cache.cpp:315-332 | over any run a drain without a bound lets no object stay |
| CentralDrainRuns.DrainReturnsMoved | src/central_cache.cpp:379-391 | over any run the bytes a drain returns are those of the objects it moved out |
| CentralReleases.DrainedObjectEnds | src/central_cache.cpp:366-377 | over any run what a drain took goes straight to its bitmap |
| CentralReleases.DrainCachesNothing | src/central_cache.cpp:376-377 | over any run a drain puts nothing into a transfer cache |
| CentralProgress.NeverStuck | src/central_cache.cpp:19-391 | a thread inside a call can take its next step or waits for a lock whose holder can: no loop runs out of the objects it counts on and nothing deadlocks |
| CentralMeasure.EveryCallDescends | src/central_cache.cpp:90-135 | each step of a thread inside a call descends on a lexicographic measure (`extract_target - extracted` inside `FetchBatch`) or ends the call, whatever other threads do |
| CentralFrames.WorksKept | src/central_cache.cpp:19-391 | going on with a call touches neither the user's blocks nor the set of carved spans, except where a span goes back |
| PageMap.PathHome | src/page_cache.cpp:93-137 | a node serves only the pages of its prefix |
| PageMap.StoreLeafExact | src/page_cache.cpp:199-201 | a leaf store changes the lookup of its page only |
| PageMap.MissingNode | src/page_cache.cpp:221-251 | the pages skipped at a missing node of any level are unmapped |
| PageMap.Map.EnsurePathLocked | src/page_cache.cpp:93-137 | grows the path of a page, changes no lookup, fails only out of range or without nodes |
| PageMap.Map.EnsureRange | src/page_cache.cpp:139-167 | prepares a range; a failure changes no lookup |
| PageMap.Map.SetSpan | src/page_cache.cpp:169-205 | maps exactly the pages of the range |
| PageMap.Map.ClearRange | src/page_cache.cpp:207-262 | unmaps exactly the pages of the range, skipping missing subtrees at three levels |
| PageMapFlat.MapFresh | src/page_cache.cpp:361-371 | a fresh mapping refines the flat update, or changes nothing on failure |
| PageMapFlat.Remap | src/page_cache.cpp:343-344 | pages already mapped change hands without a new path |
| PageMapFlat.Unmap | src/page_cache.cpp:381-381 | clearing refines the flat removal |
| PageMapReaders.AnswerIsCurrent | src/page_cache.cpp:47-50 | a reader's last load gives the value the map has at that moment |
| PageMapReaders.ReadIsLinearizable | src/page_cache.cpp:15-51 | every lock-free lookup returns the value the flat map had for the page at some moment during the call |
| PageHeap.LookupExact | src/page_cache.cpp:274-441 | a page maps to a span exactly when it lies in it, and live spans partition the held pages |
| PageHeap.FreeSpanInOneBucket | src/page_cache.cpp:308-346 | a free span is in exactly the bucket of its page count |
| PageHeap.SplitFrontOk | src/page_cache.cpp:316-346 | a split keeps the heap valid and adds exactly one used span |
| PageHeap.AddMappingOk | src/page_cache.cpp:348-371 | so does a fresh mapping |
| PageHeap.DropOversizedOk | src/page_cache.cpp:379-385 | releasing an oversized span removes exactly it |
| PageHeap.NeighbourFits | src/page_cache.cpp:391-423 | the neighbour found through the page map ends where the growing span begins, also across two mappings |
| PageHeap.AbsorbOk | src/page_cache.cpp:403-407 | absorbing a neighbour keeps the merge invariant while its leaves still name it |
| PageHeap.CoalescedOk | src/page_cache.cpp:425-440 | the end of a release is a valid heap without the released and the absorbed spans |
| PageHeap.DetachOneOk | src/page_heap_scavenger.cpp:77-94 | detaching a free span makes it used and keeps the heap valid |
| PageHeap.ReturnOneOk | src/page_heap_scavenger.cpp:117-127 | giving it back to the bucket of its length keeps the heap valid |
| PageLeaves.Stores | src/page_cache.cpp:199-201 | storing a live descriptor leaf by leaf names no dead one at any moment, and maps exactly the range |
| PageLeaves.Clears | src/page_cache.cpp:255-257 | so does clearing leaf by leaf |
| PageLeaves.Deletes | src/page_cache.cpp:435-439 | descriptors that no leaf names may be recycled one by one |
| PageLeaves.AfterPrefix | src/page_cache.cpp:388-389 | what holds at every store holds after every prefix of them |
| PageCache.AllocHeapOk | src/page_cache.cpp:274-373 | whatever fails, an allocation keeps the heap valid and all used spans; on success it adds one, of the asked length; pages come from the system only when no bucket serves |
| PageCache.AllocRefusedExactly | src/page_cache.cpp:274-373 | a request is refused exactly when it is no page count, nothing free is long enough and no mapping can be had, or it takes a split and no descriptor can be had |
| PageCache.AllocHoldsExactly | src/page_cache.cpp:348-371 | pages come from the system exactly when nothing free is long enough, a full bucket's worth or the request |
| PageCache.SystemServes | src/page_cache.cpp:282-371 | then the first pages of the mapping are served and the rest stays free |
| PageCache.SplitTakesSmallest | src/page_cache.cpp:308-346 | the pages are the first of the front span of the smallest sufficient bucket; an exact fit is that span, a longer one keeps its descriptor for the rest, first in its bucket; every other span is as it was |
| PageCache.ReleasesOk | src/page_cache.cpp:375-441 | a release removes exactly that used span, and afterwards neither neighbour can still be merged under the cap |
| PageCache.ReleaseAnswer | src/page_cache.cpp:387-441 | what a release of at most 128 pages leaves: the span free, committed, first in its bucket, grown over free spans only, left side first, with no free neighbour that fits; every other span as it was |
| PageCache.RewrittenNamesSurvivor | src/page_cache.cpp:433-434 | once the leaves are rewritten none names an absorbed descriptor |
| PageCache.ReleaseOrderly | src/page_cache.cpp:379-440 | after every single leaf store and every single deletion of a release each mapped page names a live descriptor, none is deleted twice, and the leaves of other used spans stand |
| PageCache.AllocOrderly | src/page_cache.cpp:274-373 | the same for every allocation, whatever fails |
| PageCache.ReleaseExists | src/page_cache.cpp:375-441 | a release of a used span can always be carried out |
| PageCache.PageCacheShard.AllocSpan | src/page_cache.cpp:274-373 | the loop computes `AllocHeap`, refuses exactly when `Refused`, refills at most once, and its stores are `AllocOps` in that order |
| PageCache.PageCacheShard.MapFromSystem | src/page_cache.cpp:349-371 | a failed mapping, descriptor or path gives everything back |
| PageCache.PageCacheShard.FindBucket | src/page_cache.cpp:308-319 | finds the smallest nonempty sufficient bucket |
| PageCache.PageCacheShard.MergeLeft | src/page_cache.cpp:391-408 | merges left until the left neighbour cannot be merged |
| PageCache.PageCacheShard.MergeRight | src/page_cache.cpp:410-423 | merges right, with the left side still closed |
| PageCache.PageCacheShard.ReleaseSpan | src/page_cache.cpp:375-441 | the whole release, leaf by leaf and descriptor by descriptor, in an order in which no leaf ever names a recycled descriptor; up to 128 pages it leaves what `ReleaseAnswer` says, and exactly that span stops being in use |
| PageCache.PageCacheShard.Finish | src/page_cache.cpp:425-440 | every leaf of the grown span is rewritten before the first absorbed descriptor is deleted |
| PageCache.PageCacheShard.DetachIdle | src/page_heap_scavenger.cpp:60-97 | the first locked section takes exactly the free, committed, idle spans of the bucket, in order, and changes no extent |
| PageCache.PageCacheShard.Decommit | src/page_heap_scavenger.cpp:99-115 | the unlocked section changes only the committed flag |
| PageCache.PageCacheShard.ReturnDetached | src/page_heap_scavenger.cpp:117-127 | the second locked section appends them to their bucket |
| PageLayer.NextInv | src/page_cache.cpp:274-441 | every step of allocations, releases and the scavenger keeps the invariant |
| PageLayer.PageMapExactInRuns | src/page_cache.cpp:274-441 | between the sections of every run with any failures lookups are exact, live spans partition the held pages, free spans are in their own bucket only, and every leaf names a live descriptor; inside a section it is `LiveReads.LeavesNameLive` |
| PageLayer.DetachedUntouched | src/page_heap_scavenger.cpp:56-127 | a detached span is neither allocated, split nor merged |
| PageLayer.AllocNeverTakesUsed | src/page_cache.cpp:308-346 | an allocation never takes a used or detached span and shares no page with any |
| PageLayer.ReturnsToItsBucket | src/page_heap_scavenger.cpp:117-127 | a detached span returns, over the same pages, to the bucket of its page count |
| HugePageCache.PackInWindow | src/page_allocator.cpp:90-107 | packed heads compare equal exactly when index and tag agree, within 2^48 updates |
| HugePageCache.NextInv | src/page_allocator.cpp:47-157 | every load, store and compare-and-swap of every thread keeps the invariant |
| HugePageCache.SlotInExactlyOnePlace | src/page_allocator.cpp:47-157 | what the two heads reach through the links are lists without repetition, and each slot index is in exactly one of them or in one thread's hands |
| HugePageCache.PopNeverABA | src/page_allocator.cpp:120-140 | a successful compare-and-swap installs the true successor |
| HugePageCache.HandedOutAtMostOnce | src/page_allocator.cpp:47-69 | each cached mapping is handed out at most once per `Put` |
| HugePageCache.NullGetWasEmpty | src/page_allocator.cpp:47-51 | a `Get` that answers null found the used stack empty at a moment within the call |
| HugePageCache.RefusedPutWasFull | src/page_allocator.cpp:60-64 | a `Put` that is refused found the free stack empty at a moment within the call |
| HugePageRuns.PutStaysCached | src/page_allocator.cpp:60-69 | a completed `Put` leaves its mapping in a slot of the used stack until a `Get` takes that slot |
| HugePageRuns.PutPopsFree | src/page_allocator.cpp:60-66 | a `Put` takes its slot off the free stack and touches no cached mapping |
| HugePageRuns.GetPopsUsed | src/page_allocator.cpp:49-55 | a `Get` takes the most recently cached mapping |
| HugePageRuns.GetReturnsAPut | src/page_allocator.cpp:47-69 | what a `Get` returns was stored by a `Put` that completed before |
| HugePageCache.FailureMeansProgress | src/page_allocator.cpp:129-157 | a compare-and-swap that meets a different word was overtaken: since the load another thread completed an update of that head, and the tag has grown |
| HugePageCache.NeverStuck | src/page_allocator.cpp:120-157 | a thread always has its next step, and its compare-and-swap whenever the word it loaded is still there |
| Allocator.InsideSpan | src/span.cpp:9-54 | the bytes of a block lie inside the pages of its span |
| Allocator.Resolves | src/ammalloc.cpp:182-219 | the address of a live block resolves to its own span, route, class and slot |
| Allocator.Disjoint | src/ammalloc.cpp:109-141 | live blocks share no byte |
| Allocator.LargeEnough | src/ammalloc.cpp:123-130 | a block has at least the bytes asked for |
| Allocator.NotTooLarge | src/ammalloc.cpp:109-141 | a small block is of the smallest class that holds the request, a large one has no page to spare |
| AllocatorRuns.DoesInv | src/ammalloc.cpp:109-219 | every step of the whole allocator keeps the invariant that joins the layers |
| AllocatorRuns.BlocksAreApart | src/ammalloc.cpp:170-219 | over any run live blocks are pairwise disjoint, as long as asked for, and no longer than they have to be |
| AllocatorRuns.FreeFindsItsBlock | src/ammalloc.cpp:182-219 | over any run `am_free` finds a live block's own span, route, class and slot, however spans were recycled, split and merged |
| AllocatorRuns.ReleaseFindsItsSpan | src/central_cache.cpp:264-273 | over any run the address of any object, wherever it is, leads to its own span, class and slot |
| AllocatorRuns.BlocksStayPut | src/page_cache.cpp:274-441 | over any stretch of a run in which a block is live its address and room do not change |
| AllocatorRuns.FreeTakesOnlyItsBlock | src/ammalloc.cpp:143-219 | a free takes exactly its own block out of the user's hands |
| AllocatorRuns.FreeGoesTo | src/ammalloc.cpp:143-164 | over any run a freed small block goes to the front of the freeing thread's list, or alone into a release when there is no thread cache; the span of a large one is in use no longer |
| AllocatorRuns.MallocGivesNewBlock | src/ammalloc.cpp:170-180 | a small allocation hands out a block that was not in use |
| AllocatorRuns.LargeGivesNewBlock | src/ammalloc.cpp:114-131 | a large allocation hands out a span no one held |
| AllocatorProgress.EveryBlockCanBeFreed | src/ammalloc.cpp:182-219 | over any run every live block can be freed by any idle thread, with a cache or without, and is then gone |
| AllocatorProgress.EveryRequestIsAnswered | src/central_cache.cpp:495-513 | over any run and whatever fails a thread asking for a span goes on, with the refusal exactly when `Refused` and otherwise with the span |
| AllocatorProgress.EveryEmptySpanGoesBack | src/central_cache.cpp:296-302 | over any run a collected empty span can go back to PageCache |
| AllocatorProgress.EveryLargeRequestIsAnswered | src/ammalloc.cpp:114-131 | over any run a large request is refused exactly when `Refused` and otherwise served |
| LiveReads.NextInv | src/page_cache.cpp:15-441 | every store, deletion, load and step of any thread keeps the invariant of half-finished sections |
| LiveReads.LeavesNameLive | src/page_cache.cpp:388-439 | after every single leaf store, creation and deletion of every run, what a lookup finds is a descriptor not in the pool |
| LiveReads.GetSpanFindsBlock | src/page_cache.cpp:15-51 | a lock-free lookup of a live block's address, its loads falling anywhere between the stores of splits, merges, refills and releases of other spans, answers with the block's own span |

## Left out

- mmap, munmap, retries, sleeps and transparent huge page hints: fallible answers over a set of pages.
- ObjectPool: a fallible source of descriptors and nodes whose deleted slots may come back at once.
- Weak memory orderings and the inside of locks: steps are sequentially consistent and locks exclude.
- The 48-bit tag: tags are unbounded and no operation is overtaken by 2^48 head updates, stated as `NotOvertaken` in the steps of HugePageCache.
- The scavenger's idle time: which committed free spans are idle is any choice, since the clock is sampled once per pass.
- `Reset` paths, the legacy non-sharded PageCache, other owner shards (only shard 0 is selected) and test hooks.
- Invalid pointers, double frees and hardened checks: the user frees live blocks.
- That every trim request is honoured: a newer request overwrites an older one; a request is a parameter of the call that observes it.
- Counters, environment parsing, scavenger thread start and stop, creation and teardown of thread-local caches.
- 64-bit overflow of byte counters (`drained_bytes`, cached and reserved bytes): counted in unbounded integers.
- Bits.SetBit: bitmap words are natural numbers below 2^64, with bit operations defined on them.
- TransferCache.TransferCaches.Drain: speaks of one thread alone and stops where the batches are handed to `ReleaseBatch`; the interleaved drain with its releases is in `CentralDrainRuns.dfy`.
- PageCache.PageCacheShard: keeps the page map as a flat map; `PageMapFlat` relates it to the radix tree.
- CentralCache.TakeObject: takes any free slot; that `AllocObject` takes the lowest is proved in `Span.dfy`.
- Allocator.Free: the thread cache's quota decisions are in `ThreadCache.dfy`; here a list may be filled, fetched for or released at any time.
