# Memnon in Dafny

Memnon is a growable shared-memory manager. A file is mapped chunk by chunk into any number of
processes; a lock-free radix trie with a small per-thread cache tells which chunk an address belongs
to; `segmented_offset_ptr` stores pointers that survive growth and mean the same in every process; a
background worker grows memory ahead of demand. This project models those four parts and proves what
they promise, over all inputs, all interleavings and all runs.

| part | files |
|---|---|
| page arithmetic, page digits, sequences | `Platform.dfy`, `Radix.dfy`, `Sequences.dfy` |
| the trie's memory and one-write effects | `TrieHeap.dfy` |
| the trie under concurrency, and its specification | `ConcurrentTrie.dfy`, `AtomicMap.dfy` |
| the trie as one thread runs it | `NcritTrie.dfy` |
| the per-thread cache | `TlsCache.dfy`, `CachedLookup.dfy` |
| the registry, sequential and concurrent | `SegmentRegistry.dfy`, `ConcurrentRegistry.dfy`, `RegistryRecovery.dfy` |
| the concurrent registry on the real trie | `RegistryOverTrie.dfy`, `RecoveryOverTrie.dfy`, `ProgressOverTrie.dfy` |
| chunks, mappings, growth and discovery | `Chunks.dfy`, `Mappings.dfy`, `GrowthProtocol.dfy`, `GrowthSafety.dfy`, `GrowthOutcomes.dfy` |
| the segment manager as one thread runs it | `SegmentManager.dfy` |
| allocation in all threads and processes | `AllocationRuns.dfy` |
| pointers | `OffsetPtr.dfy`, `PositionIndependence.dfy`, `PointerLookups.dfy` |
| the prefetch worker | `PrefetchWorker.dfy` |

## How to read it

Concurrent protocols are transition systems: a state, a function `Act` that takes one atomic step of
one thread, and `IsRun` for runs from the initial state under any schedule, with any number of threads
or processes. Each shared load, store or compare-and-swap is a step of its own; memory is sequentially
consistent. Code that changes objects in place is also given as classes whose methods keep the
source's loops and are proved against the same specification functions.

For each protocol there are three kinds of results over runs: what no run violates, what a call has achieved when it
is over (stated on the steps' labels, so that only a refused allocation, a failed system call or a refusing inner
allocator can excuse it), and how many steps of its own thread it takes at most. Instance runs show that the
interesting cases occur.

The template parameters `Stride` and `Levels` and the page shift are constants without a value, so
every result holds for all of them (page sizes from 2 bytes to 1 MiB). Divisions by these symbolic
sizes are written `Quot` and `Rem`.

The layers fit together as follows. `ConcurrentTrie.Linearizable` shows that the trie is an atomic map
from page keys to values. The concurrent registry runs over that atomic map and names slots by page key;
`RegistryOverTrie` is the same code over the real trie, with slot addresses in the caches and one atomic
access per step, and `RegistryOverTrie.Refines` shows that each of its runs is a run of the concurrent
registry; its safety and recovery results are stated over the real trie as well. `GrowthSafety` shows that
every process's chunk list is a prefix of one tiling of the file; `PositionIndependence` combines that with
the pointer encoding, and `AllocationRuns` adds allocation and deallocation to the same runs. What a registry
lookup answers is a parameter of the pointer operations: the owner of the address or, after a stale cache hit,
nothing. `PointerLookups.AnswersOwner` shows that the registry's runs give no other answer.

Assumptions, all about the environment: descriptors and managers are fresh identities, each
registered and unregistered once; one process grows, and others open the file after its creator's
constructor has finished; the initial size is a whole number of pages; a successful mapping is
page-aligned, clear of other mappings and inside a 48-bit address space, and an empty range cannot be
mapped; no segment reaches into the last page of the 64-bit range, except where that case is studied; a manager is
not hinted after its unregistration began, and its unregistration begins only once every earlier hint for it has
been pushed; a block is given back once, by its owner, in a process that has it mapped; a freshly constructed inner allocator
has at most 1 MiB of overhead.

## Where the code and its comments part

The model follows the code in each case, gives an instance of the failure and proves exactly when it occurs.

- A stale cache hit returns null at once (`ncrit_trie.hpp:287-291`); the comment there speaks of
  falling back to a full traversal. `StaleHitHidesSegment` is a run in which a registered page gets null,
  `DisagreesIffStale` the exact condition, and `ThreadRecovers` bounds the wrong answers in every run. It
  counts all of them over a whole window rather than up to a first correct one: for an address in the last,
  partly used page of a segment, widening can move the good entry away again and uncover a stale one.
- That null reaches pointers: `set` and `get` then take the branch for objects outside any segment, and
  `set` may throw. `StaleHitMisdirectsInRun` is a run in which a pointer decodes to a wrong address. `StaleRoundTrip` says for which pointers this does
  no harm: the two lookups of the object answer alike, an anonymous object sits at its segment's base, or a
  shared object's target lies in a chunk that is mapped in line with its own, such as its own chunk.
  `deallocate` returns the block to nobody in that case.
- Page numbers are looked up modulo 2^(Stride * Levels), so `find` answers for far-away addresses
  too. `FarPageAnswered` is an instance, `AliasExact` says when this differs from the list of segments.
- A byte range that ends in the last page of the 64-bit range rounds up to an empty page interval
  (`WordPagesExactIff`, `RangeSetIsExact`; `LastPageGetsNone` is an instance).
- `grow` adds sizes modulo 2^64 before resizing the file. `ResizeShrinksIff` says for which requests the
  file then shrinks below the chunks in use, `FileCanShrink` is a run in which it does, and
  `FileCoversMappings` shows that in every run the file covers everything mapped exactly when the last successful
  resize was not such a one.
- The last unregistration notifies the worker without passing through `sleep_mtx_`
  (`segmented_segment_manager.hpp:689-692`). `StopCanBeLost` is a run after which only a spurious
  wake-up can help. `StopCanBeLostIff` says from which notifications such a state can be reached: the
  worker is about to block and no hinter has pushed without having passed `sleep_mtx_`. `StopIsLostIff` says
  from which it cannot be avoided: no hinter is about to notify either. `StopMayGoEitherWay` shows that
  there is a case in between.
- The header comment of `segmented_offset_ptr` describes base-relative offsets for shared memory; the
  code stores a difference of file offsets, which is what makes pointers position independent. The
  same comment says the null sentinel is never produced; `SentinelHides` is an instance, `RoundTrip` holds
  exactly when the target does not collide with it, and `NeverNullByAccident` shows that 2-byte alignment
  suffices.

## Model

| member | source | states |
|---|---|---|
| Platform.PageShift | include/segmented_interprocess/detail/platform.hpp:83-91 | the counted shift is the floor of log2 of the page size, and its exact log2 when it is a power of two |
| Platform.AlignUpRounds | include/segmented_interprocess/detail/platform.hpp:94-96 | rounding up gives the least page multiple at or above the value, except in the last page of the 64-bit range where it wraps to zero |
| Platform.RangePagesExact | include/segmented_interprocess/ncrit_trie.hpp:241-243 | the shifted begin and rounded-up end enclose exactly the pages that share a byte with the range |
| Platform.WordPagesExactIff | include/segmented_interprocess/ncrit_trie.hpp:241-243 | in 64-bit arithmetic that interval is exact if and only if the range ends a page below 2^64; a range that ends in the last page gets none |
| Platform.LastPageGetsNone | include/segmented_interprocess/ncrit_trie.hpp:241-243 | an instance: the byte at the start of the last page |
| Radix.PathIdentifiesKey | include/segmented_interprocess/ncrit_trie.hpp:372-375 | two page numbers take the same path through the trie exactly when they are equal modulo 2^(Stride * Levels) |
| TrieHeap.WalkIsPosition | include/segmented_interprocess/ncrit_trie.hpp:341-355 | following links from the root reaches exactly the node recorded at that position, for every page and depth |
| TrieHeap.InstallKeepsShape | include/segmented_interprocess/ncrit_trie.hpp:395-408 | linking a private node into an empty slot keeps a tree of exact depth without shared nodes |
| TrieHeap.InstallKeepsWords | include/segmented_interprocess/ncrit_trie.hpp:395-408 | linking a node changes no page's leaf word |
| TrieHeap.StoreLeafContents | include/segmented_interprocess/ncrit_trie.hpp:414-431 | a leaf store maps or unmaps exactly the keys equal to the page modulo the key range |
| TrieHeap.LeafSlotsDistinct | include/segmented_interprocess/ncrit_trie.hpp:349-353 | pages share a leaf slot exactly when they have the same key |
| ConcurrentTrie.TreeStep | include/segmented_interprocess/ncrit_trie.hpp:341-432 | every atomic step of every operation keeps the tree, disturbs no other thread, and changes the mapping only when an operation completes, by exactly its effect; an insertion completes without storing exactly when the allocator refuses it memory in that step |
| ConcurrentTrie.StepKeepsInv | include/segmented_interprocess/ncrit_trie.hpp:341-432 | the invariant of the concurrent trie, including private nodes and their owners, is kept by every step |
| ConcurrentTrie.StepRefines | include/segmented_interprocess/ncrit_trie.hpp:341-432 | each concrete step is one step of the atomic map by the same thread, with memory refused in one exactly when it is in the other, or invisible |
| ConcurrentTrie.Linearizable | include/segmented_interprocess/ncrit_trie.hpp:341-432 | every run with any number of threads, read through its heap, is a run of the atomic map in which each operation takes effect once between call and return; an insertion is dropped exactly at a refusal of memory; a lookup, also one that stops at a missing link, returns the map at its last load |
| ConcurrentTrie.EffectOfCall | include/segmented_interprocess/ncrit_trie.hpp:341-432 | in every run the operation a thread was called with takes effect, once, on the map as it is at that step |
| ConcurrentTrie.InsertStores | include/segmented_interprocess/ncrit_trie.hpp:382-419 | in every run an insertion whose thread is never refused memory stores its value, also if its node lost a race on the way |
| ConcurrentTrie.WaitFree | include/segmented_interprocess/ncrit_trie.hpp:341-432 | in every run an operation takes effect within 4 * (Levels - 1) + 1 steps of its own thread, however the others run |
| ConcurrentTrie.LoserStores | include/segmented_interprocess/ncrit_trie.hpp:395-419 | a run in which a thread loses the compare-and-swap, goes on in the winner's node and stores its value |
| ConcurrentTrie.PositionsPersist | include/segmented_interprocess/ncrit_trie.hpp:69-80 | an installed node is never moved or freed in any run |
| ConcurrentTrie.LinksWriteOnce | include/segmented_interprocess/ncrit_trie.hpp:386-412 | an internal slot, once non-zero, keeps its value for ever |
| ConcurrentTrie.LeafSlotTracksKey | include/segmented_interprocess/ncrit_trie.hpp:349-354 | the slot returned by a lookup reads, at any later time, as the mapping at the page's key at that time |
| ConcurrentTrie.MemorySafe | include/segmented_interprocess/ncrit_trie.hpp:382-432 | no thread ever touches or deletes a node that is not allocated, although losers' nodes are freed and their addresses may be reused |
| ConcurrentTrie.UnlinkedUnreachable | include/segmented_interprocess/ncrit_trie.hpp:398-405 | a node brought to a compare-and-swap is unreachable from the root until installed, so a loser's node never is |
| ConcurrentTrie.QuiescentHasNoLeaks | include/segmented_interprocess/ncrit_trie.hpp:382-412 | when no operation is in progress the allocated nodes are exactly the nodes of the tree |
| NcritTrie.Trie.InsertLeaf | include/segmented_interprocess/ncrit_trie.hpp:382-419 | maps one page, unless the allocator refuses memory for a node, and then exactly; at most Levels - 1 nodes are added |
| NcritTrie.Trie.ClearLeaf | include/segmented_interprocess/ncrit_trie.hpp:422-432 | unmaps one page and frees nothing |
| NcritTrie.Trie.LookupPageWithSlot | include/segmented_interprocess/ncrit_trie.hpp:341-355 | returns the mapping at the page's key, and the page's own leaf slot when there is a value |
| NcritTrie.Trie.InsertRange | include/segmented_interprocess/ncrit_trie.hpp:238-247 | sets the page interval of the range as computed in 64-bit arithmetic: one page is missed for each refusal of memory, all others are mapped, and nothing else changes |
| NcritTrie.Trie.RemoveRange | include/segmented_interprocess/ncrit_trie.hpp:252-260 | clears exactly the page interval of the range as computed in 64-bit arithmetic, and frees nothing |
| PageRange.RangeSetIsExact | include/segmented_interprocess/ncrit_trie.hpp:238-260 | setting that interval changes the entry of a key exactly when some page that intersects the byte range has that key and the range ends a page below 2^64 |
| NcritTrie.Trie.CountNodes | include/segmented_interprocess/ncrit_trie.hpp:452-465 | the count of a subtree is the number of distinct nodes at or below its position |
| NcritTrie.Trie.NodeCount | include/segmented_interprocess/ncrit_trie.hpp:361-363 | node_count is the number of allocated nodes |
| NcritTrie.Trie.DestroySubtree | include/segmented_interprocess/ncrit_trie.hpp:439-450 | each node of the subtree is still allocated when deleted, and exactly those nodes are gone afterwards |
| NcritTrie.Trie.Destroy | include/segmented_interprocess/ncrit_trie.hpp:220-222 | teardown frees everything the trie allocated |
| TlsCache.Cache.FindCovering | include/segmented_interprocess/ncrit_trie.hpp:276-278 | finds the first entry that covers the address |
| TlsCache.Cache.ToFront | include/segmented_interprocess/ncrit_trie.hpp:281-285 | the shifting loop moves one entry to the front and keeps the order of the others |
| TlsCache.Cache.Drop | include/segmented_interprocess/ncrit_trie.hpp:288-289 | the shifting loop removes one entry, keeps the order of the others and empties the last place |
| TlsCache.Cache.Insert | include/segmented_interprocess/ncrit_trie.hpp:200-206 | pushes an entry and drops the oldest |
| TlsCache.Cache.ExpandTop | include/segmented_interprocess/ncrit_trie.hpp:317-323 | only the top entry changes, and only if it belongs to the segment |
| TlsCache.PlaceKept | include/segmented_interprocess/ncrit_trie.hpp:200-206 | after a move to the front, an eviction or a push every other entry is in its old order |
| TlsCache.RecentStays | include/segmented_interprocess/ncrit_trie.hpp:274-307 | least recently used goes first: an entry just used survives any 15 further changes that do not evict it as stale |
| CachedLookup.AnswerSound | include/segmented_interprocess/ncrit_trie.hpp:274-307 | a non-null answer, from any cache of good entries, is a segment some slot holds at the read, and the address is on its pages |
| CachedLookup.PageEntryCovers | include/segmented_interprocess/ncrit_trie.hpp:298-304 | what a traversal caches covers the addresses of that one page and no others |
| CachedLookup.DisagreesIffStale | include/segmented_interprocess/ncrit_trie.hpp:276-293 | with no change in progress the cached answer differs from the trie exactly when the first covering entry is stale and the page is mapped |
| RegistryRecovery.StaleHitHidesSegment | include/segmented_interprocess/ncrit_trie.hpp:287-291 | a run without overlap or memory shortage, at rest, in which a thread's find of a registered page returns null because the thread cached the page's former owner |
| CachedLookup.SpuriousNullsBounded | include/segmented_interprocess/ncrit_trie.hpp:274-307 | over any number of uninterrupted lookups of one address at most as many are wrong as stale entries covered it at first, so at most 16 |
| CachedLookup.AgreesWithinSeventeen | include/segmented_interprocess/ncrit_trie.hpp:274-307 | some one of 17 consecutive lookups gives the uncached answer |
| SegmentRegistry.Registry.LookupImpl | include/segmented_interprocess/ncrit_trie.hpp:274-307 | for any cache: the first covering entry decides, moved to the front if its slot still holds its segment, evicted with a null answer if not; otherwise the trie answers and its page is cached |
| SegmentRegistry.Registry.Find | include/segmented_interprocess/segment_registry.hpp:85-96 | for one thread, find is a linear scan of the registered segments for the page, through all cache movement and widening; only for a segment whose registration was refused memory it may answer null; what it finds is then cached as a whole |
| SegmentRegistry.Registry.RegisterSegment | include/segmented_interprocess/segment_registry.hpp:59-66 | appends the segment to the list the trie and cache stand for, as complete exactly when no memory was refused, and then cached as a whole; only pages of the segment change, and only to it |
| SegmentRegistry.Registry.UnregisterSegment | include/segmented_interprocess/segment_registry.hpp:70-74 | removes exactly that segment from the list and leaves nothing cached |
| SegmentList.ScanIsMapping | include/segmented_interprocess/segment_registry.hpp:80-96 | a linear scan gives the mapping's answer for every page, except that an incompletely registered segment may be missing |
| SegmentList.AliasExact | include/segmented_interprocess/ncrit_trie.hpp:372-375 | the answer for a page is the list's answer exactly when the page is in range or its residue is unowned |
| SegmentList.FarPageAnswered | include/segmented_interprocess/ncrit_trie.hpp:372-375 | an instance: a page far behind a registered one is answered with its segment |
| ConcurrentRegistry.StepKeepsInv | include/segmented_interprocess/segment_registry.hpp:59-96 | every step of registering, unregistering and finding in any thread keeps all caches good and unregistered segments out of the trie |
| ConcurrentRegistry.UnregisteredStaysGone | include/segmented_interprocess/segment_registry.hpp:70-74 | after unregister_segment(s) has returned, no find called later in any thread returns s, whatever its cache holds and however removal and lookups interleaved |
| ConcurrentRegistry.LookupSound | include/segmented_interprocess/segment_registry.hpp:85-96 | in every run a non-null answer was registered and not yet retired when read, and owns the address's page |
| ConcurrentRegistry.CallsComplete | include/segmented_interprocess/segment_registry.hpp:59-96 | in every run a call ends only when its segment is registered, or retired, or the find returns for the address it was called with |
| ConcurrentRegistry.WaitFree | include/segmented_interprocess/segment_registry.hpp:59-96 | in every run a find takes four steps of its thread after the call, a registration or removal one for each page and at most five more |
| ConcurrentRegistry.LastIsComputed | include/segmented_interprocess/ncrit_trie.hpp:241-243 | every page loop of a run ends at the page computed in 64-bit arithmetic |
| RegistryOverTrie.StepRefines | include/segmented_interprocess/ncrit_trie.hpp:274-432 | each atomic access of register, unregister and find over the real trie and real slot addresses is one step of the concurrent registry by the same thread, or invisible |
| RegistryOverTrie.Refines | include/segmented_interprocess/ncrit_trie.hpp:274-432 | every run of the registry over the real trie, with any number of threads, is a run of the registry over an atomic map, step for step |
| RegistryOverTrie.UnregisteredStaysGone | include/segmented_interprocess/segment_registry.hpp:70-74 | over the real trie, no find called after unregister_segment(s) has returned returns s |
| RegistryRecovery.QuietIsFullyInserted | include/segmented_interprocess/ncrit_trie.hpp:238-260 | in runs without overlap or memory shortage, whenever no registration is under way each segment sits on all its pages or on none |
| RegistryRecovery.OwnerOrNull | include/segmented_interprocess/ncrit_trie.hpp:274-307 | in every clean run a find for a registered segment's page answers that segment, or null exactly after a stale hit, while other segments come and go |
| RegistryRecovery.ThreadRecovers | include/segmented_interprocess/ncrit_trie.hpp:274-307 | in every run, from a quiet state on and as long as no page is inserted or cleared, at most as many of a thread's completed finds of an address return anything but what the trie holds as stale entries covered it, so at most 16, whatever it looks up in between |
| RegistryRecovery.RecoversWithinSeventeen | include/segmented_interprocess/ncrit_trie.hpp:274-307 | and one of the first 17 of these finds returns what the trie holds |
| RegistryRecovery.FindWarms | include/segmented_interprocess/segment_registry.hpp:85-96 | in every run a find that returns a segment leaves all of it cached on top, so that the next address inside it needs no traversal |
| RegistryRecovery.RegisterWarms | include/segmented_interprocess/segment_registry.hpp:59-66 | in every clean run a thread that has registered a segment has all of it cached on top |
| RegistryRecovery.RemoverIsNeverWrong | include/segmented_interprocess/segment_registry.hpp:70-74 | a thread that has just removed a segment returns no wrong answer in an undisturbed window |
| RecoveryOverTrie.LookupSound | include/segmented_interprocess/ncrit_trie.hpp:274-307 | over the real trie, a non-null answer was registered and not yet retired at the deciding read, and owns the address's page |
| RecoveryOverTrie.ThreadRecovers | include/segmented_interprocess/ncrit_trie.hpp:274-307 | over the real trie, at most 16 of a thread's finds of an address in an undisturbed window are wrong |
| RecoveryOverTrie.RecoversWithinSeventeen | include/segmented_interprocess/ncrit_trie.hpp:274-307 | over the real trie, one of the first 17 of them returns what the trie holds |
| ProgressOverTrie.CleanIff | include/segmented_interprocess/ncrit_trie.hpp:382-419 | over the real trie, a run is clean exactly when no memory was refused and no registration overlapped a live segment |
| ProgressOverTrie.RegisteredIsComplete | include/segmented_interprocess/segment_registry.hpp:59-66 | over the real trie, in a run without refusals and overlaps a registered segment is on all its pages |
| ProgressOverTrie.WaitFree | include/segmented_interprocess/segment_registry.hpp:59-96 | over the real trie, every operation of the registry ends within 4 * Levels + 2 steps of its thread for each step of the registry's code |
| ProgressOverTrie.RegistrationCompletes | include/segmented_interprocess/segment_registry.hpp:59-66 | a run over the real trie in which a registration completes without refusals and the trie maps the segment |
| Chunks.TilesCover | include/segmented_interprocess/segmented_segment_manager.hpp:639-648 | in a tiling every offset below the total lies in exactly one chunk |
| Chunks.NewChunkGrows | include/segmented_interprocess/segmented_segment_manager.hpp:318-322 | the next chunk is the least number of whole pages that holds the request and twice the last chunk, or zero exactly when rounding the request up wraps |
| Chunks.DoublingTotal | include/segmented_interprocess/segmented_segment_manager.hpp:318-322 | k chunks total at least 2^20 * (2^k - 1) bytes |
| Chunks.HugeRequestShrinksFile | include/segmented_interprocess/segmented_segment_manager.hpp:318-333 | a request for all but one page of the 64-bit range makes the computed file size one page less than what is in use |
| Mappings.TotalFits | include/segmented_interprocess/sub_segment.hpp:169-182 | pairwise disjoint mappings add up to at most the address space |
| GrowthSafety.StepKeepsInv | include/segmented_interprocess/segmented_segment_manager.hpp:311-390 | every step of growers, readers, openers and discoverers keeps the protocol invariant |
| GrowthSafety.PublishedTiles | include/segmented_interprocess/segmented_segment_manager.hpp:527-544 | in every run the published chunks tile the file from offset 0, each opener's list is a prefix of them, and they are a prefix of the grower's list, also after failed mappings |
| GrowthSafety.PublishedForGood | include/segmented_interprocess/segmented_segment_manager.hpp:538-543 | a published chunk never changes or disappears |
| GrowthSafety.SnapshotStaysExact | include/segmented_interprocess/segmented_segment_manager.hpp:311-339 | the size computed in the first critical section is still exact when the grower re-locks, for every interleaving |
| GrowthSafety.AppendsWhenMapped | include/segmented_interprocess/segmented_segment_manager.hpp:382-388 | in every run a growth that comes back appends its chunk at the end of the tiling exactly when the mapping succeeds: a background growth's second look at the size always agrees |
| GrowthSafety.TableNeverFull | include/segmented_interprocess/segmented_segment_manager.hpp:534-536 | at most 28 chunks exist in any run, so the table limit of 64 is never met |
| GrowthSafety.DiscoverExact | include/segmented_interprocess/segmented_segment_manager.hpp:610-637 | in every run lazy_discover_growth answers true exactly when the offset is covered by a mapped chunk afterwards |
| GrowthSafety.FileCoversMappings | include/segmented_interprocess/segmented_segment_manager.hpp:330-339 | in every state of every run the file covers every chunk any process has mapped exactly when the last successful resize was not for a wrapping request |
| GrowthSafety.ResizeShrinksIff | include/segmented_interprocess/segmented_segment_manager.hpp:316-333 | in every run a resize leaves the file smaller than the chunks in use exactly when the caller's request plus one page stays within 2^64 but, on top of the chunks in use, passes it; otherwise the file ends exactly behind the new chunk; a background growth never wraps |
| GrowthSafety.FileCanShrink | include/segmented_interprocess/segmented_segment_manager.hpp:311-333 | a run, from any initial state, in which the file ends up a page smaller than the chunk in use |
| GrowthOutcomes.GrowthStarts | include/segmented_interprocess/segmented_segment_manager.hpp:311-363 | in every run grow waits for its turn and looks at the list for its own request; a background growth looks if nobody else grows, and gives up otherwise |
| GrowthOutcomes.GrowthAchieves | include/segmented_interprocess/segmented_segment_manager.hpp:311-390 | in every run a growth changes nothing if enough is free when it looks; otherwise, unless a system call fails, it appends one chunk of the size wanted at the end of the file and publishes it |
| GrowthOutcomes.AppendedSize | include/segmented_interprocess/segmented_segment_manager.hpp:318-321 | that size is the least number of whole pages that holds the request and twice the last chunk |
| GrowthOutcomes.DiscoveryAchieves | include/segmented_interprocess/segmented_segment_manager.hpp:610-637 | in every run lazy_discover_growth comes back with an answer unless a mapping fails, and with true if the offset was published when it took the lock |
| GrowthOutcomes.OpeningAchieves | include/segmented_interprocess/segmented_segment_manager.hpp:556-606 | in every run a process that opens the manager has mapped exactly what was published when it read the table, unless a mapping fails |
| GrowthOutcomes.CallsEnd | include/segmented_interprocess/segmented_segment_manager.hpp:311-390 | in every run a call of growth, opening or discovery ends within 67 steps of its thread, apart from waiting for locks |
| GrowthOutcomes.NoLockLeft | include/segmented_interprocess/segmented_segment_manager.hpp:311-390 | in every run a lock that is taken has a thread in the section it guards |
| GrowthOutcomes.DiscoveryRun | include/segmented_interprocess/segmented_segment_manager.hpp:610-637 | a run in which the creator grows and an opener discovers the new chunk |
| SegmentManager.Manager.FindSegmentByFileOffset | include/segmented_interprocess/segmented_segment_manager.hpp:639-648 | finds the one chunk that contains the offset, exactly when the offset is below the total size |
| SegmentManager.Manager.LazyDiscoverGrowth | include/segmented_interprocess/segmented_segment_manager.hpp:610-637 | extends the list along the published chunks; the answer is true exactly when the offset is covered; throws exactly when a mapping fails, and otherwise everything published is mapped |
| SegmentManager.Manager.FreeMemory | include/segmented_interprocess/segmented_segment_manager.hpp:274-281 | the free bytes of all inner allocators together |
| SegmentManager.Manager.Grow | include/segmented_interprocess/segmented_segment_manager.hpp:311-340 | declines exactly when enough bytes are free in total, throws without change exactly when the resize or the mapping fails, and otherwise resizes the file to its old size plus the chunk and appends one chunk of the size wanted at its old end |
| SegmentManager.Manager.TryAllocate | include/segmented_interprocess/segmented_segment_manager.hpp:407-420 | hands out one block of enough bytes, apart from all blocks of its segment, from the first segment that does not refuse; null only after all have refused; hints the worker exactly when less than half of the last segment is free; a just added large segment cannot refuse |
| SegmentManager.Manager.Allocate | include/segmented_interprocess/segmented_segment_manager.hpp:156-170 | a handed-out block overlaps no live block of any segment and disturbs none; only after every segment has refused it grows, and only then, unless growing throws, it asks them all again; after a real append the retry succeeds unless the head room wrapped |
| SegmentManager.Manager.Deallocate | include/segmented_interprocess/segmented_segment_manager.hpp:191-203 | returns exactly the live block at the address to the inner allocator that handed it out, whatever segments were added since, and to nobody after a stale lookup |
| SegmentManager.LiveBlocksApart | include/segmented_interprocess/segmented_segment_manager.hpp:156-203 | live blocks never overlap, within or across segments |
| SegmentManager.OwnerUnique | include/segmented_interprocess/segmented_segment_manager.hpp:193-200 | an address inside one segment is on no page of another |
| AllocationRuns.StepKeepsInv | include/segmented_interprocess/segmented_segment_manager.hpp:156-203 | every step of allocating and freeing threads, interleaved with every step of growth, opening and discovery, keeps the blocks of every inner allocator in order |
| AllocationRuns.NeverOverlap | include/segmented_interprocess/segmented_segment_manager.hpp:156-203 | in every run, with any threads and processes, live blocks never overlap in the file, nor in any process that has them mapped |
| AllocationRuns.HandedOutFresh | include/segmented_interprocess/segmented_segment_manager.hpp:156-170 | in every run a block handed out lies inside its segment and overlaps nothing live |
| AllocationRuns.FreedWhereHandedOut | include/segmented_interprocess/segmented_segment_manager.hpp:191-203 | in every run a block given back reaches the inner allocator that handed it out, whatever grew in between, and only that block is released |
| AllocationRuns.StaysUntilFreed | include/segmented_interprocess/segmented_segment_manager.hpp:156-203 | in every run a live block stays live until it is itself freed |
| AllocationRuns.AllocateOutcome | include/segmented_interprocess/segmented_segment_manager.hpp:156-170 | in every run a call of allocate ends with a block that is large enough, or because its grow failed, or after every segment refused, the thread called grow, and every segment refused again |
| AllocationRuns.CallsEnd | include/segmented_interprocess/segmented_segment_manager.hpp:156-203 | in every run a call of allocate or deallocate ends within 300 steps of its thread, apart from waiting for locks |
| AllocationRuns.AllocateAndFree | include/segmented_interprocess/segmented_segment_manager.hpp:156-203 | a run in which a block is handed out and given back |
| PointerLaws.RoundTrip | include/segmented_interprocess/segmented_offset_ptr.hpp:412-457 | with no lookup stale: for stack, anonymous and shared locations, an accepted non-null pointer reads back at any later time, after any growth, exactly when it does not collide with the null sentinel |
| PointerLaws.StaleRoundTrip | include/segmented_interprocess/segmented_offset_ptr.hpp:251-292 | with any of the lookups at storing and at reading stale or not, an accepted pointer reads back exactly when it does not collide and the lookups of the object agree, or the anonymous object sits at its base, or the target's chunk is mapped in line with the object's |
| PointerLaws.SameChunkSurvives | include/segmented_interprocess/segmented_offset_ptr.hpp:251-292 | for a shared object with its target in its own chunk no stale lookup does harm |
| PointerLaws.StaleHitMisdirects | include/segmented_interprocess/segmented_offset_ptr.hpp:251-292 | an object d bytes into an anonymous segment decodes d bytes too far after a stale lookup |
| PointerLookups.AnswersOwner | include/segmented_interprocess/segmented_offset_ptr.hpp:251-258 | in every clean run, what any thread's lookup of an address in the trie's range answers is the owner's place, except after a stale hit, when it is nothing |
| PointerLookups.StaleHitMisdirectsInRun | include/segmented_interprocess/segmented_offset_ptr.hpp:251-292 | a run of the registry at whose end a thread's lookup of a pointer object is spuriously null and the pointer decodes to a wrong address |
| PointerLaws.SentinelIffCollides | include/segmented_interprocess/segmented_offset_ptr.hpp:454-456 | the stored offset is the sentinel exactly for the one target a byte past the object, the segment base or the object's file offset |
| PointerLaws.SentinelHides | include/segmented_interprocess/segmented_offset_ptr.hpp:454-456 | an instance: a pointer to the byte after the object's first byte reads back as null |
| PointerLaws.ThrowsIff | include/segmented_interprocess/segmented_offset_ptr.hpp:435-442 | set throws exactly when an object inside the mapped bytes of shared memory, found as such, gets a non-null target outside all mapped bytes of its manager or one hidden by a stale lookup |
| PointerLaws.CopiesKeepTarget | include/segmented_interprocess/segmented_offset_ptr.hpp:153-223 | any chain of re-encoding copies through locations of all three kinds, across growth and with stale lookups that do no harm, decodes to the original pointer |
| PointerLaws.ArithmeticCommutes | include/segmented_interprocess/segmented_offset_ptr.hpp:315-340 | stepping in place steps the decoded address equally: always outside shared memory and after a stale lookup, and for a shared object whose target is mapped before and after exactly when the two chunks are mapped in line, so always within a chunk |
| PointerLaws.NeverNullByAccident | include/segmented_interprocess/segmented_offset_ptr.hpp:312-340 | in every program of stores, copies and steps on 2-aligned pointers, stale lookups or not, an object holds the sentinel exactly when a null pointer was stored in it |
| SegmentedOffsetPtr.OffsetPtr.Assign | include/segmented_interprocess/segmented_offset_ptr.hpp:412-457 | stores a pointer that reads back under the same lookup answer, becomes null on a collision, or leaves the object unchanged when it throws, with the exact condition |
| SegmentedOffsetPtr.OffsetPtr.CopyFrom | include/segmented_interprocess/segmented_offset_ptr.hpp:206-209 | a copy throws exactly for a non-null pointer outside shared memory into a shared object, and then changes nothing; otherwise both decode to the same pointer unless it collides at the destination |
| SegmentedOffsetPtr.OffsetPtr.Advance | include/segmented_interprocess/segmented_offset_ptr.hpp:460-463 | the step can be undone exactly, modulo 2^64 |
| PositionIndependence.EncodesDistance | include/segmented_interprocess/segmented_offset_ptr.hpp:444-451 | the stored offset is the distance in the file, whatever the process's mapping addresses |
| PositionIndependence.DecodesDistance | include/segmented_interprocess/segmented_offset_ptr.hpp:267-291 | decoding gives the process's own image of a target, before or after discovery, exactly when the stored word is the distance in the file |
| PositionIndependence.PositionIndependent | include/segmented_interprocess/segmented_offset_ptr.hpp:251-292 | in every run, with no lookup stale, what one process stores at file offset f for target t decodes in any other process that has t mapped by then to its own image of t, exactly when t is not f + 1 |
| PositionIndependence.PositionIndependentIff | include/segmented_interprocess/segmented_offset_ptr.hpp:251-292 | in every run and with any lookups stale, in the writer or the reader, the stored pointer decodes to the reader's image of t exactly when both sides count the same distance and it is not the sentinel |
| PositionIndependence.DistancesAgree | include/segmented_interprocess/segmented_offset_ptr.hpp:251-292 | distance in the file and distance in a process's memory agree exactly when the two chunks are mapped in line there |
| PositionIndependence.DecodesAfterDiscovery | include/segmented_interprocess/segmented_offset_ptr.hpp:271-291 | in every run, get on a target that is published but not yet mapped returns the reader's own image of it once its discovery comes back, unless a mapping fails |
| PositionIndependence.DiscoverySucceeds | include/segmented_interprocess/segmented_segment_manager.hpp:610-637 | in every run, a discovery call that is not cut short by a failed mapping finds every offset published before it took the lock |
| PositionIndependence.MappedForGood | include/segmented_interprocess/segmented_segment_manager.hpp:458-500 | a process never loses or moves a mapped chunk |
| PrefetchWorker.RebuildQueue | include/segmented_interprocess/segmented_segment_manager.hpp:677-683 | the rebuilt queue is the old one without the manager, in order |
| PrefetchWorker.StepKeepsInv | include/segmented_interprocess/segmented_segment_manager.hpp:667-738 | every step of the worker, hinters, registrations and unregistrations keeps the worker's invariant |
| PrefetchWorker.NoCallOnDeadManager | include/segmented_interprocess/segmented_segment_manager.hpp:674-694 | once unregister_manager(m) has returned the worker is not inside grow_background on m and never enters it again |
| PrefetchWorker.SpawnsOnlyWhenOff | include/segmented_interprocess/segmented_segment_manager.hpp:667-673 | starting the worker never overwrites a running thread |
| PrefetchWorker.NoLostHint | include/segmented_interprocess/segmented_segment_manager.hpp:695-728 | in every reachable state with the worker blocked and the queue non-empty, some thread has pushed and will still notify |
| PrefetchWorker.HintIsQueued | include/segmented_interprocess/segmented_segment_manager.hpp:695-700 | in every run a hint is the last entry of the queue once pushed, behind all older entries in order; it is not pushed only if it was the last entry already |
| PrefetchWorker.StaysQueued | include/segmented_interprocess/segmented_segment_manager.hpp:674-718 | in every run an entry leaves the queue only because the worker takes it from the front or its manager is being unregistered |
| PrefetchWorker.TakenIsGrown | include/segmented_interprocess/segmented_segment_manager.hpp:706-718 | in every run what the worker takes from the queue it grows next, marked while it does |
| PrefetchWorker.HintIsServed | include/segmented_interprocess/segmented_segment_manager.hpp:704-738 | in every run the worker takes a live manager at place p of the queue within 12 * p + 9 steps of its own, whatever else is pushed, filtered or woken |
| PrefetchWorker.MtxReleased | include/segmented_interprocess/segmented_segment_manager.hpp:687-693 | in every run mtx_ is held only by a thread that is stopping and joining the worker |
| PrefetchWorker.UnregisterEnds | include/segmented_interprocess/segmented_segment_manager.hpp:674-694 | in every run a call of unregister_manager that returns has closed its manager; after the last one the worker is off |
| PrefetchWorker.NothingLeftAtStop | include/segmented_interprocess/segmented_segment_manager.hpp:729-736 | in every run the queue is empty once the last manager has been counted out, so the exiting worker leaves nothing behind |
| PrefetchWorker.StopCanBeLostIff | include/segmented_interprocess/segmented_segment_manager.hpp:689-736 | in every run, a state in which only a spurious wake-up is enabled can be reached during the join exactly when, at the notification, the worker had loaded stop_ as false and not yet blocked and no hinter was between its push and sleep_mtx_ |
| PrefetchWorker.StopIsLostIff | include/segmented_interprocess/segmented_segment_manager.hpp:689-736 | in every run, no continuation without a spurious wake-up completes the join exactly when, at the notification, the worker was about to block and no hinter was still to notify |
| PrefetchWorker.StopCanBeLost | include/segmented_interprocess/segmented_segment_manager.hpp:689-692 | a run of one manager after which only a spurious wake-up is possible |
| PrefetchWorker.StopMayGoEitherWay | include/segmented_interprocess/segmented_segment_manager.hpp:689-736 | a run in which a hinter's late notification decides: the join can still get stuck and can still return |

## Left out

- SegmentRegistry.Registry.Find: the sequential registry takes segments that end at least a page below 2^64 and inside the trie's key range; `WordPagesExactIff` and `AliasExact` describe the others.
- SegmentManager.Manager.Allocate: success is not promised when growing declines, because enough bytes in total may be free but fragmented.
- Weak memory orderings: steps are interleaved under sequential consistency.
- Operating-system calls (mapping, file creation and resizing, path handling): nondeterministic success or failure.
- Boost's inner segment managers and named objects: an abstract allocator contract stands for them.
- Two processes that both grow, and an opener that races the creator's constructor: the code does not coordinate them.
- An opener that runs out of room and grows: with one growing process, runs in which that happens are not considered.
- Growth of anonymous managers as a concurrent protocol: it shares the locks and sizes of the shared-memory case and publishes nothing; only its sequential form is in `SegmentManager.dfy`.
- Fair scheduling: bounds are on a thread's own steps; that a thread is scheduled, or gets a lock it waits for, is not claimed.
- Pointer-authentication and tag bits, pointer casts and traits, comparison operators, `segmented_allocator`, `segmented_managed_memory`, `shm_spinlock`: glue around the parts above; mutual exclusion of locks is taken as given.
- Pointer objects inside the shared memory of a second manager: each manager is looked at on its own, with the other's segments as foreign memory.
