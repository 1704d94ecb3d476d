# ArgoDSM: a verified model of its protocols

ArgoDSM is a page-based distributed shared memory for clusters. This project models its four
hardest parts in Dafny and proves what they are for.

**The coherence protocol of the MPI backend.** Nobody sends invalidations: at a barrier a node keeps
a cached page only if its own copy of the directory shows no other writer.
`PageProtocol` is a state machine for one page whose steps are the RMA epochs of the fault handler,
the batched loader, the write-back, the barrier and the writer upgrade (`LoadNext`, `WriteNext`,
`HomeNext`, `StoreNext`, `WriteBackNext`, `ReleaseNext`, `UpgradeNext`), so handlers of all nodes
interleave between any two epochs. `DirectorySafety` proves that every sharer knows of another
writer or is about to be told, `BarrierCoherence` that every read sees the last store,
`SharedMemory` lifts both to all pages behind a direct-mapped cache, and `PageProgress` proves that
handlers end with what they were called for and that barriers can be gone through. `NodeCache` is one node's cache
and write buffer, `PageCache` the object that updates them in place, `BufferBound` the buffer over
whole runs. `CacheRefinement` shows that its operations are steps of the protocol, `CacheHistory` and
`CacheRuns` that runs of them are histories of the whole memory, so that what the cache holds is what
was stored last. `PageDiff` is the write-back loop, `BatchedLoad` the directory work of a prefetch
range, `NodeBits` the test on a directory word.

**Placement.** `FirstTouch` is the decentralised claim protocol and `FirstTouchProgress` what its
readers wait for and how long a call takes; `PrimeMapp` is the backward walk that computes a rank; `SkewMapp`, `Placement` and
`MemorySize` prove that the policies are bijections for the memory sizes chosen at start-up. `Arith`
has the arithmetic.

**Locks.** `McsLock` is the queue lock, step by step, and `McsProgress` how it is passed on;
`CohortLock` contains one of them per node and is built on its invariant, `CohortHandover` says when
it stays with the node, `CohortTenure` that its bound is attained, and `CohortProgress` that everybody
can enter. `TasLock` is the global lock over the pages of `PageProtocol`: its
acquire goes by the directory words of its node, as `LockedPage` works out for one page, and is
skipped when the last user was the same node. `StaleKeep` and `StaleLock` are the runs that show what
its theorem needs, and `TasProgress` proves that every thread can come to hold the lock.

**Allocation.** `Allocator` gives the values, `AllocatorObjects` the objects, `AllocatorPartition`
all allocators over the shared pool, `GlobalPartition` the allocators between with requests that fail,
`FreeRecords` what `free()` does, `CollectiveReplicas` the copies
on the nodes. `Sequences` and `Options` are small helpers.

Concurrent parts are state machines: a step is one access to a shared word, and theorems are about
every sequence of enabled steps from the initial state. Fields that are not in the program (what was
stored, who claimed what, the queue of a lock, the blocks of the allocators) are said to be so where
they are declared; no step reads them.

## What turned out false

- Outside barriers the keep test of an acquire can be wrong. Node 2 registers as the first writer of
  a page and has not yet sent its notices when node 3 becomes the second writer, tells node 2 only,
  stores and writes back; node 1, which caches the page, then keeps its old copy
  (`StaleKeep.AcquireKeepsStale`), also if node 3 stored under the global lock and node 1 has
  acquired it (`StaleLock.HolderReadsStale`). `DirectorySafety.KeepTestExact` gives the exact
  condition in every reachable state: a node that passes the test misses a writer if and only if a
  handler still owes it the notice. The lock theorem holds for all runs in which no acquire meets
  that condition (`TasLock.HolderReadsLastWrite`), in particular if handlers are atomic
  (`TasLock.AtomicReadsLastWrite`).
- A range of pages is not always left as its pages loaded one by one would be: if a page of it is
  new, the words of the pages that the loader already shares are refreshed from the home.
  `BatchedLoad.BatchVersusSingle` says exactly when the two directories differ, and
  `BatchedLoad.BatchDiffers` shows them differ after three loads from an empty directory. Cache,
  buffer and home memory never differ (`NodeCache.RangeIsOneByOne`).
- `free()` goes by the size on record, which is wrong for the rest of a pool that the allocator
  parked, and missing on every allocator but the one that cut the block.
  `FreeRecords.FreeOverRuns` says in which cases of all runs `free()` keeps the partition, and
  `FreeRecords.FreedRestExample` is a run after which two live blocks overlap.
- The write buffer stays within its maximum only if the write-back size is positive
  (`BufferBound.BufferBound`).
- After a growth of the collective pool fails, its copies differ unless the pool never grew
  (`CollectiveReplicas.FailureParts`), and the next request returns null on node 0 and a block in use
  on the others (`CollectiveReplicas.CopiesDiverge`).

## Model

| member | source | states |
|---|---|---|
| `DirectorySafety.NewWriterTold` | src/backend/mpi/swdsm.cpp:645-679 | whoever else has registered before, the nodes a new writer decides to notify are enough: every sharer of the page is told of a writer other than itself or has a notice on its way |
| `DirectorySafety.TargetsExact` | src/backend/mpi/swdsm.cpp:652-679 | a new writer tells exactly the one other writer there is, or, if there is none, exactly the other sharers |
| `DirectorySafety.SoleOtherExact` | src/backend/mpi/swdsm.cpp:374-385 | a new sharer tells exactly the one other sharer there is |
| `DirectorySafety.RegistersExactly` | src/backend/mpi/swdsm.cpp:621-632 | a write miss registers its node exactly if the node's own word does not list it and lists at most one other |
| `DirectorySafety.LoadRegisterKeeps` | src/backend/mpi/swdsm.cpp:326-366 | a sharer registration that races with writers keeps the directory invariant |
| `DirectorySafety.LoadStepKeeps` | src/backend/mpi/swdsm.cpp:326-408 | so does every other epoch of a load, including merging words that are out of date by then |
| `DirectorySafety.WriteStepKeeps` | src/backend/mpi/swdsm.cpp:621-679 | so does every step of a write miss but the registration, among them the read of the sharer word, before which others may have registered |
| `DirectorySafety.RegisterKeeps` | src/backend/mpi/swdsm.cpp:636-641 | so does the accumulate that registers a writer at the home |
| `DirectorySafety.HomeStepKeeps` | src/backend/mpi/swdsm.cpp:502-576 | so does every epoch of a fault on the home node |
| `DirectorySafety.HomeClaimKeeps` | src/backend/mpi/swdsm.cpp:542-576 | so does the home becoming a writer |
| `DirectorySafety.UpgradeKeeps` | src/backend/mpi/swdsm.cpp:984-1023 | so does clearing every writer word at an upgrade barrier |
| `DirectorySafety.DirInvStep` | src/backend/mpi/swdsm.cpp:448-689 | every step of every node keeps the directory invariant |
| `DirectorySafety.DirInvRun` | src/backend/mpi/swdsm.cpp:448-689 | so does every run, whatever the interleaving |
| `DirectorySafety.DirectorySafety` | src/backend/mpi/swdsm.cpp:326-366 | in every reachable state, if the home lists node k as sharer and another writer, k's own writer word names another writer or a handler in flight will add one |
| `DirectorySafety.KeepingIsExact` | src/backend/mpi/swdsm.cpp:955-972 | with no handler in flight a node with a copy passes the keep test if and only if the home lists no other writer, and then nobody else has stored to the page |
| `DirectorySafety.MissesWriter` | src/backend/mpi/swdsm.cpp:955-972 | whatever handlers are in flight, a node with a copy that passes the keep test misses a writer if and only if a handler still owes it a notice, and if none does nobody else has stored |
| `DirectorySafety.KeepTestExact` | src/backend/mpi/swdsm.cpp:955-972 | so in every reachable state |
| `PageProgress.HandlerAdvances` | src/backend/mpi/swdsm.cpp:448-689 | every step of a handler brings it closer to its end, and the last gives the access it was called for |
| `PageProgress.HandlerCanStep` | src/backend/mpi/swdsm.cpp:448-689 | a handler in flight can always step, whatever the other nodes are doing |
| `PageProgress.HandlerServes` | src/backend/mpi/swdsm.cpp:448-689 | in every interleaving a handler takes at most nodes + 5 steps, and ends with a clean copy, a dirty copy, or read or write access at the home |
| `PageProgress.LoadNotifies` | src/backend/mpi/swdsm.cpp:374-385 | a load decides to notify exactly the one other sharer it has seen, if its node is new |
| `PageProgress.WriteNotifies` | src/backend/mpi/swdsm.cpp:652-679 | a write miss the one other writer it has found, or, if there is none, the other sharers |
| `PageProgress.JoinNotifies` | src/backend/mpi/swdsm.cpp:509-532 | the home that joins, the one sharer there is |
| `PageProgress.ClaimNotifies` | src/backend/mpi/swdsm.cpp:549-576 | the home that becomes a writer, the one other writer, or, if there is none, the other sharers |
| `PageProgress.HandlerDelivers` | src/backend/mpi/swdsm.cpp:368-408 | in every interleaving, when it ends each node it had to notify has been notified and the words it fetched are in those of its node |
| `PageProgress.ReachableAccess` | src/backend/mpi/swdsm.cpp:502-582 | in every reachable state a page is accessible exactly as its copy allows, and at the home once the home is a sharer, so that a read fault there may return |
| `PageProgress.NodeCanRead` | src/backend/mpi/swdsm.cpp:502-539 | a read fault gives read access, at the home and elsewhere |
| `PageProgress.NodeCanStore` | src/backend/mpi/swdsm.cpp:540-582 | from every reachable state every running node, the home included, comes by its own steps to where it can store to each byte no other node has stored since the barrier |
| `PageProgress.BarrierCompletes` | src/backend/mpi/swdsm.cpp:1025-1061 | from every reachable state, with handlers in flight, all nodes can go through a barrier, with or without the upgrade |
| `BarrierCoherence.StoreKeeps` | src/backend/mpi/swdsm.cpp:680-683 | a store into a dirty copy or at the home keeps every copy right where its node may read it, false sharing included |
| `BarrierCoherence.WriteBackKeeps` | src/backend/mpi/swdsm.cpp:1169-1208 | so does writing a dirty copy back at any moment, stores of an unchanged value included |
| `BarrierCoherence.ArrivedMemory` | src/backend/mpi/swdsm.cpp:1040-1044 | when all nodes have flushed and arrived, no handler is in flight and the home memory is the initial memory with all stores |
| `BarrierCoherence.ArrivedCopy` | src/backend/mpi/swdsm.cpp:955-972 | then a copy that its node keeps is the whole page as stored |
| `BarrierCoherence.ReleaseCoherent` | src/backend/mpi/swdsm.cpp:1040-1045 | the barrier hands the coherence invariant to the next phase |
| `BarrierCoherence.UpgradeCoherent` | src/backend/mpi/swdsm.cpp:1047-1051 | so does a barrier with a writer upgrade |
| `BarrierCoherence.UpgradeIsClean` | src/backend/mpi/swdsm.cpp:984-1023 | after an upgrade-writers barrier all writer words are empty, every cached page is clean, read-only and equal to the home's, and its node is still a sharer at the home |
| `BarrierCoherence.InvStep` | src/backend/mpi/swdsm.cpp:448-689 | every step keeps the directory and the data invariant together |
| `BarrierCoherence.InvRun` | src/backend/mpi/swdsm.cpp:448-689 | so does every run |
| `BarrierCoherence.TruthIsStores` | src/backend/mpi/swdsm.cpp:1025-1061 | the memory the invariant speaks of is the initial one with the stores of the run applied in order |
| `BarrierCoherence.ReadsSeeLastStore` | src/backend/mpi/swdsm.cpp:448-689 | in every run a running node that reads a byte no other node stored since the last barrier gets the last value stored to it, from its copy, from the home, or from what it would load |
| `BarrierCoherence.CoherentAfterBarrier` | src/backend/mpi/swdsm.cpp:1025-1061 | after a barrier the home memory and every node's view of the page are the sequential memory |
| `SharedMemory.EveryPageRuns` | src/backend/mpi/swdsm.cpp:191-444 | a history of all pages behind direct-mapped caches is, page by page, a run of the page protocol |
| `SharedMemory.MemoryIsCoherent` | src/backend/mpi/swdsm.cpp:1025-1061 | every read of a race-free program returns the last store, over the whole memory |
| `SharedMemory.SlotsAreExclusive` | src/backend/mpi/swdsm.cpp:275-313 | no two pages ever occupy or are handled in one cache slot of a node |
| `NodeBits.AtMostOneNode` | src/backend/mpi/swdsm.cpp:123-127 | the bit trick holds of a 64-bit word if and only if at most one node's bit is set |
| `PageDiff.PutRun` | src/backend/mpi/swdsm.cpp:1197-1203 | one put changes exactly the bytes of its run |
| `PageDiff.StorePageDiff` | src/backend/mpi/swdsm.cpp:1184-1204 | the run-coalescing loop leaves at the home the page's bytes where page and twin differ and the home's elsewhere, and puts nothing if and only if they are equal |
| `PageDiff.CompatibleCommute` | src/backend/mpi/swdsm.cpp:1169-1208 | write-backs of two nodes that changed no byte differently can be made in either order |
| `PageDiff.WriteBacksCommute` | src/backend/mpi/swdsm.cpp:1169-1208 | and for all home contents only those can |
| `PageDiff.MergeIdempotent` | src/backend/mpi/swdsm.cpp:1169-1208 | writing back twice is writing back once, and an unchanged page changes nothing |
| `NodeCache.PopWrites` | src/backend/mpi/write_buffer.hpp:131-145 | writing back the oldest slot merges its changes into the home, cleans that page alone and keeps buffer, dirty bits and protections in agreement |
| `NodeCache.FlushFrontWrites` | src/backend/mpi/write_buffer.hpp:152-158 | flushing n slots writes back exactly the pages of the n oldest |
| `NodeCache.MakeRoomWrites` | src/backend/mpi/write_buffer.hpp:181-188 | a full buffer writes back its oldest slots and nothing else before it takes another |
| `BufferBound.StaysWithin` | src/backend/mpi/write_buffer.hpp:181-194 | over every run of additions, loads, flushes and self-invalidations the buffer stays within its maximum, if the write-back size is positive |
| `BufferBound.GrowsByEach` | src/backend/mpi/write_buffer.hpp:152-158 | if it is zero, each slot that becomes dirty adds to the buffer |
| `BufferBound.BufferBound` | src/env/env.cpp:237-239 | so every run stays within the maximum if and only if the write-back size is positive |
| `BufferBound.FillsCache` | src/backend/mpi/swdsm.cpp:275-444 | loads fill every slot of a fresh cache with a clean page |
| `BufferBound.FreshBound` | src/env/env.cpp:237-239 | from a fresh cache with more slots than the buffer may list, every run stays within the maximum if and only if the write-back size is positive |
| `NodeCache.MarkDirtyKeeps` | src/backend/mpi/swdsm.cpp:680-685 | a write miss on a clean slot takes the twin, makes the page writable and lists the slot once |
| `NodeCache.EraseRemoves` | src/backend/mpi/write_buffer.hpp:210-218 | erasing a slot from the buffer removes it and only it |
| `NodeCache.EvictWrites` | src/backend/mpi/swdsm.cpp:294-313 | evicting a slot writes a dirty page back before it is dropped, and leaves the buffer without it |
| `NodeCache.InstallKeeps` | src/backend/mpi/swdsm.cpp:418-444 | installing a fetched page makes it clean and readable and changes no other page |
| `NodeCache.RangeIsOneByOne` | src/backend/mpi/swdsm.cpp:275-444 | making all slots of a range free, fetching once and installing all pages leaves cache, buffer, protection and home memory as loading the chosen pages one by one does |
| `NodeCache.SweepKeepsAgreed` | src/backend/mpi/swdsm.cpp:936-977 | dropping clean pages keeps the agreement |
| `NodeCache.SweepFlush` | src/backend/mpi/swdsm.cpp:941-974 | flushing in the middle of the sweep, as the code does at the first dirty page, is the same as flushing before it |
| `NodeCache.AllClean` | src/backend/mpi/write_buffer.hpp:181-194 | the buffer is empty if and only if no slot is dirty |
| `NodeCache.SelfInvalidationWrites` | src/backend/mpi/swdsm.cpp:936-977 | self-invalidation discards no unflushed write, whichever pages it drops, and leaves only slots of kept pages touched |
| `PageCache.Cache.constructor` | src/backend/mpi/write_buffer.hpp:255-257 | a fresh cache holds nothing |
| `PageCache.Cache.WriteBackOldest` | src/backend/mpi/write_buffer.hpp:131-145 | does in place what `Pop` says |
| `PageCache.Cache.FlushPartial` | src/backend/mpi/write_buffer.hpp:152-158 | writes back the `writeBack` oldest slots |
| `PageCache.Cache.Flush` | src/backend/mpi/write_buffer.hpp:234-240 | writes back all and leaves the buffer empty |
| `PageCache.Cache.AddDirty` | src/backend/mpi/write_buffer.hpp:181-194 | makes room first, then lists the slot; buffer and dirty bits agree afterwards, and the buffer is within its maximum |
| `PageCache.Cache.SelfInvalidation` | src/backend/mpi/swdsm.cpp:936-977 | the loop with its flush midway is flush first, then drop every page not kept |
| `PageCache.Cache.LoadPage` | src/backend/mpi/swdsm.cpp:275-444 | one page: evicts whatever occupies the slot, fetches and installs |
| `PageCache.Cache.FreeSlots` | src/backend/mpi/swdsm.cpp:275-313 | the first loop of a range load chooses exactly the pages that are not cached and whose slot is not locked, and frees their slots |
| `PageCache.Cache.InstallPages` | src/backend/mpi/swdsm.cpp:418-444 | the last loop installs exactly those |
| `PageCache.Cache.LoadRange` | src/backend/mpi/swdsm.cpp:228-444 | the range load in place is loading the chosen pages one by one |
| `CacheRefinement.PopIsWriteBack` | src/backend/mpi/write_buffer.hpp:131-145 | writing back the oldest slot is the protocol's write-back of the page in it and no step of any other page, whatever handler is in flight for that |
| `CacheRefinement.FlushIsWriteBacks` | src/backend/mpi/write_buffer.hpp:152-158 | so is flushing the oldest slots of a full buffer |
| `CacheRefinement.MarkDirtyIsWriteFinish` | src/backend/mpi/swdsm.cpp:680-685 | joining the buffer is the last step of the page's write handler |
| `CacheRefinement.EvictIsEvict` | src/backend/mpi/swdsm.cpp:294-313 | eviction is the protocol's write-back, if dirty, and eviction |
| `CacheRefinement.InstallIsLoadInstall` | src/backend/mpi/swdsm.cpp:418-444 | installing is the last step of the page's load |
| `CacheRefinement.SweepIsInvalidate` | src/backend/mpi/swdsm.cpp:936-977 | self-invalidation is the invalidate step of every page at once |
| `CacheHistory.PopHistory` | src/backend/mpi/write_buffer.hpp:131-145 | over the whole memory, writing back the oldest slot is one possible event, after which the cache shows every page again |
| `CacheHistory.FlushHistory` | src/backend/mpi/write_buffer.hpp:152-158 | flushing n slots is a history of n events, and moves no handler |
| `CacheHistory.EvictHistory` | src/backend/mpi/swdsm.cpp:294-313 | making a slot free is a history, whatever the slot held |
| `CacheHistory.LoadHandler` | src/backend/mpi/swdsm.cpp:326-414 | from every checked load a run of the page protocol, with all its notices, leads to the fetched page and changes nothing the cache shows |
| `CacheHistory.WriteHandler` | src/backend/mpi/swdsm.cpp:621-679 | from every checked write miss a run leads to its last step and changes nothing the cache shows |
| `CacheRuns.LoadHistory` | src/backend/mpi/swdsm.cpp:275-444 | a load, with eviction, directory work, fetch and installation, is a history of the whole memory |
| `CacheRuns.WriteHistory` | src/backend/mpi/swdsm.cpp:613-685 | so is a write miss, with directory work, room made in a full buffer and the twin taken |
| `CacheRuns.StoreHistory` | src/backend/mpi/swdsm.cpp:680-683 | so is a store into a dirty copy |
| `CacheRuns.OthersHistory` | src/backend/mpi/swdsm.cpp:448-689 | what the other nodes do changes only the memory under the cache |
| `CacheRuns.SweepHistory` | src/backend/mpi/swdsm.cpp:1040-1051 | with an empty buffer the sweep after a barrier, by the node's own directory words and with or without the upgrade, is one event |
| `CacheRuns.RunHistory` | src/backend/mpi/swdsm.cpp:448-689 | every run of loads, write misses and flushes of a cache is a history of the whole memory, after which the cache shows every page |
| `CacheRuns.FreshShows` | src/backend/mpi/write_buffer.hpp:255-257 | a fresh cache shows the memory at the start |
| `CacheRuns.CacheReadsLastStore` | src/backend/mpi/swdsm.cpp:1025-1061 | in every history that a cache shows, each cached byte that no other node stored since the last barrier is the last one stored |
| `CacheRuns.RunReadsLastStore` | src/backend/mpi/swdsm.cpp:1025-1061 | so after every such history followed by any run of the cache's operations |
| `BatchedLoad.RankOf` | src/backend/mpi/swdsm.cpp:379-385 | the loop over the bits of a word with one bit finds its node |
| `BatchedLoad.MarkSameOwner` | src/backend/mpi/swdsm.cpp:386-397 | marks exactly the later pages of the range that owe a notice to the same node |
| `BatchedLoad.NotifyOwners` | src/backend/mpi/swdsm.cpp:368-408 | every newly shared page with exactly one other sharer sends exactly one notice, to that sharer |
| `BatchedLoad.RegisterRange` | src/backend/mpi/swdsm.cpp:326-366 | one accumulate registers the new pages of the range and no others, and the fetched words are merged |
| `BatchedLoad.LoadRange` | src/backend/mpi/swdsm.cpp:326-408 | the whole range ends in the directory that page-wise loading prescribes, with the exact number of notices per page |
| `BatchedLoad.RangeIsProtocol` | src/backend/mpi/swdsm.cpp:326-408 | that directory is the one the split steps of the page protocol reach |
| `BatchedLoad.NoticeDelivers` | src/backend/mpi/swdsm.cpp:399-405 | delivering a notice takes one from what is owed and adds it to the owner's word |
| `BatchedLoad.OneByOneWords` | src/backend/mpi/swdsm.cpp:326-408 | what loading the pages one by one does to every word |
| `BatchedLoad.BatchVersusSingle` | src/backend/mpi/swdsm.cpp:326-366 | for every directory and range, the range leaves the directory of its pages loaded one by one if and only if none of them is new or the loader knows all that the home does about those it shares |
| `BatchedLoad.BatchDiffers` | src/backend/mpi/swdsm.cpp:326-366 | three nodes have loaded a page in turn; then the first loads it again together with a new one, and the two directories differ |
| `FirstTouch.CandidateMoves` | src/data_distribution/first_touch_distribution.hpp:275-276 | the wrapped search visits the nodes in the order the model says |
| `FirstTouch.CasKeeps` | src/data_distribution/first_touch_distribution.hpp:268-271 | winning or losing the compare-and-swap on the owner word keeps the invariant |
| `FirstTouch.ClaimWinKeeps` | src/data_distribution/first_touch_distribution.hpp:280-290 | claiming an offset keeps claims injective and equal in number to the offsets handed out |
| `FirstTouch.ClaimLossKeeps` | src/data_distribution/first_touch_distribution.hpp:280-290 | so does losing it |
| `FirstTouch.CacheOffsetKeeps` | src/data_distribution/first_touch_distribution.hpp:291-297 | caching the offset of another node never exceeds the authoritative one |
| `FirstTouch.StoreKeeps` | src/data_distribution/first_touch_distribution.hpp:305-312 | publishing leaves entries that are complete and right, or empty |
| `FirstTouch.CopyKeeps` | src/data_distribution/first_touch_distribution.hpp:239-247 | so does copying a published entry |
| `FirstTouch.InvStep` | src/data_distribution/first_touch_distribution.hpp:222-324 | every step of every node keeps the invariant |
| `FirstTouch.InvRun` | src/data_distribution/first_touch_distribution.hpp:222-324 | so does every run |
| `FirstTouch.ClaimsStay` | src/data_distribution/first_touch_distribution.hpp:268-312 | what a page has been given never changes |
| `FirstTouch.Agreement` | src/data_distribution/first_touch_distribution.hpp:137-160 | all calls that return for a page, on any node and at any time, return the same home and offset, both in range |
| `FirstTouch.Injectivity` | src/data_distribution/first_touch_distribution.hpp:193-218 | two pages never get the same home and offset |
| `FirstTouch.NeverOutOfSpace` | src/data_distribution/first_touch_distribution.hpp:299-303 | the sum of the authoritative offsets is the number of claimed pages, and no search ends without an offset |
| `FirstTouch.SearchProgress` | src/data_distribution/first_touch_distribution.hpp:280-290 | a failed compare-and-swap strictly raises the guess, which stays at or below the authoritative offset |
| `FirstTouch.Locality` | src/data_distribution/first_touch_distribution.hpp:275-297 | a page is homed away from its first toucher only if that node and every node scanned before its home is full |
| `FirstTouchProgress.WaitsRun` | src/data_distribution/first_touch_distribution.hpp:238-247 | in every run a node waits only for pages that have an owner |
| `FirstTouchProgress.WinnerCanStep` | src/data_distribution/first_touch_distribution.hpp:149-152 | in every reachable state a page somebody waits for has a winner at another node, which can step |
| `FirstTouchProgress.OnlyWaitersWait` | src/data_distribution/first_touch_distribution.hpp:149-152 | and whoever cannot step waits for such a page |
| `FirstTouchProgress.SearchAdvances` | src/data_distribution/first_touch_distribution.hpp:278-290 | each attempt of a search claims a place, raises the guess or gives the node up as full |
| `FirstTouchProgress.CallAdvances` | src/data_distribution/first_touch_distribution.hpp:222-324 | every step of a call but a wait strictly lowers a measure, so the search moves on from node to node |
| `FirstTouchProgress.CallBounded` | src/data_distribution/first_touch_distribution.hpp:222-324 | in every interleaving a call takes at most nodes * (quota + 3) + 7 steps that are not waits |
| `FirstTouchProgress.PublishesSoon` | src/data_distribution/first_touch_distribution.hpp:267-312 | in every interleaving a node that has won a page has published it after nodes * (quota + 3) + 8 of its steps |
| `FirstTouchProgress.EveryCallReturns` | src/data_distribution/first_touch_distribution.hpp:137-160 | from every reachable state every call can return, with the home and the offset claimed for its page |
| `FirstTouchProgress.KnownReturns` | src/data_distribution/first_touch_distribution.hpp:230-234 | a call for a page whose entry the node has returns by two steps of its own and writes nothing |
| `FirstTouchProgress.RemembersFull` | src/data_distribution/first_touch_distribution.hpp:275-297 | in every run cached offsets never sink, and a search has noted as full every node it has passed |
| `PrimeMapp.CountClosed` | src/data_distribution/prime_mapp_distribution.hpp:27-29 | how many of the first b blocks a node is given, in closed form |
| `PrimeMapp.DirectRank` | src/data_distribution/prime_mapp_distribution.hpp:48-49 | for the blocks where the shortcut is used, pagenum / nodes is the number of earlier blocks with the same home |
| `PrimeMapp.WalkBack` | src/data_distribution/prime_mapp_distribution.hpp:51-64 | the backward walk ends without leaving the memory and yields that number times the block size, plus the place in the block |
| `PrimeMapp.LocalOffset` | src/data_distribution/prime_mapp_distribution.hpp:42-72 | for every address and node count the offset is rank * block + offset in block, or the range check fails |
| `PrimeMapp.HomeNode` | src/data_distribution/prime_mapp_distribution.hpp:22-36 | rounding the address to a page does not change the block that decides the home |
| `PrimeMapp.RankInjective` | src/data_distribution/prime_mapp_distribution.hpp:42-72 | two blocks of one home have different ranks |
| `PrimeMapp.FullCount` | src/data_distribution/prime_mapp_distribution.hpp:27-29 | over nodes rounds every node is given the same number of blocks |
| `PrimeMapp.BlocksOneToOne` | src/data_distribution/prime_mapp_distribution.hpp:22-72 | blocks correspond one to one with places on the nodes |
| `SkewMapp.ColumnHome` | src/data_distribution/skew_mapp_distribution.hpp:22-32 | in each round exactly one block has a given home |
| `SkewMapp.LocalOffset` | src/data_distribution/skew_mapp_distribution.hpp:38-52 | the offset is round * block + offset in block, or the range check fails |
| `SkewMapp.BlocksOneToOne` | src/data_distribution/skew_mapp_distribution.hpp:22-52 | blocks correspond one to one with places on the nodes |
| `Placement.BlocksToBytes` | src/data_distribution/prime_mapp_distribution.hpp:42-72 | a correspondence of blocks is one of bytes |
| `MemorySize.AlignForwardsLeast` | src/backend/mpi/swdsm.cpp:733-735 | the least multiple of the block that is not below the offset |
| `MemorySize.ArgoSizeFits` | src/backend/mpi/swdsm.cpp:742-743 | the memory is at least what was asked for and a multiple of the unit of the policy |
| `MemorySize.ArgoSizeLeast` | src/backend/mpi/swdsm.cpp:737-743 | and no smaller multiple holds the request and a page for every node |
| `MemorySize.PrimePlacement` | src/data_distribution/data_distribution.hpp:118-122 | for every node count, block size and request, prime-mapp maps the memory one to one onto the shares, and the range check never fails |
| `MemorySize.SkewPlacement` | src/data_distribution/data_distribution.hpp:118-122 | the same for skew-mapp |
| `MemorySize.FirstTouchSizes` | src/backend/mpi/swdsm.cpp:742-743 | nodes times the share is the memory, which is what first-touch needs |
| `McsLock.InvStep` | src/synchronization/intranode/mcs_lock.cpp:16-67 | every atomic access keeps a queue that ends at `_tail`, whose links are the `next` words and whose first thread alone may hold the lock |
| `McsLock.InvRun` | src/synchronization/intranode/mcs_lock.cpp:16-67 | so does every interleaving |
| `McsLock.MutualExclusion` | src/synchronization/intranode/mcs_lock.cpp:16-67 | one thread at a time is between the return of lock() and the end of unlock(), and it is the first of the queue |
| `McsLock.FirstComeFirstServed` | src/synchronization/intranode/mcs_lock.cpp:16-30 | threads come out of lock() in the order of their exchanges, and nobody is lost |
| `McsLock.WaitsOnlyForLink` | src/synchronization/intranode/mcs_lock.cpp:60-63 | unlock() waits for `next` only while its successor is between its exchange and its link store |
| `McsLock.NeverStuck` | src/synchronization/intranode/mcs_lock.cpp:16-67 | while threads are queued, the first or the second can step |
| `McsLock.OnlyLoopsWait` | src/synchronization/intranode/mcs_lock.cpp:16-67 | threads are held up in the two spin loops only |
| `McsLock.ContendedMeansQueued` | src/synchronization/intranode/mcs_lock.cpp:72-75 | a holder told that the lock is contended has a linked, spinning successor |
| `McsLock.SuccessionStays` | src/synchronization/intranode/mcs_lock.cpp:50-67 | once the lock is on its way to another thread no step changes that |
| `McsProgress.PassedOnSoon` | src/synchronization/intranode/mcs_lock.cpp:50-67 | in every schedule, ten steps of threads that are first or second in the queue make somebody let go of the lock |
| `McsProgress.HandsOver` | src/synchronization/intranode/mcs_lock.cpp:50-67 | unlock() with a linked successor clears the successor's `locked` by at most six steps of its own |
| `McsProgress.SuccessorEnters` | src/synchronization/intranode/mcs_lock.cpp:16-67 | and the successor's next step makes it the holder |
| `McsProgress.EveryThreadEnters` | src/synchronization/intranode/mcs_lock.cpp:16-67 | from every reachable state every thread can come to its critical section |
| `CohortLock.LocalKeeps` | src/synchronization/cohort_lock.hpp:182-187 | the steps inside the MCS lock keep the node's invariant |
| `CohortLock.LockKeeps` | src/synchronization/cohort_lock.hpp:188-199 | so do the steps of lock() after it |
| `CohortLock.UnlockKeeps` | src/synchronization/cohort_lock.hpp:155-178 | so do the steps of unlock() before its release |
| `CohortLock.InvStep` | src/synchronization/cohort_lock.hpp:155-199 | every step keeps: the word is locked if and only if exactly one node holds it |
| `CohortLock.InvRun` | src/synchronization/cohort_lock.hpp:155-199 | so does every run |
| `CohortLock.MutualExclusion` | src/synchronization/cohort_lock.hpp:155-199 | over all nodes at most one thread is in the critical section |
| `CohortLock.NeverOrphaned` | src/synchronization/cohort_lock.hpp:155-159 | a global lock that a node keeps between two critical sections has a queued thread of that node inside lock() |
| `CohortLock.TenureBounded` | src/synchronization/cohort_lock.hpp:155-178 | one tenure of the global lock serves at most MAX_HANDOVER + 1 critical sections |
| `CohortTenure.BoundAttained` | src/synchronization/cohort_lock.hpp:155-178 | and every number of sections up to that bound is reached |
| `CohortTenure.Handover` | src/synchronization/cohort_lock.hpp:155-159 | two threads change roles without the global lock being given away, and one more section is served |
| `CohortHandover.KeptExactly` | src/synchronization/cohort_lock.hpp:155-178 | whatever all threads do meanwhile, unlock() leaves the global lock with its node if and only if a thread is linked behind the holder at the test and fewer than MAX_HANDOVER sections were handed over; otherwise the node has nothing left |
| `CohortHandover.KeptIsUsed` | src/synchronization/cohort_lock.hpp:182-199 | a lock that is kept is entered by the next thread without touching the word |
| `CohortLock.TicketUncontended` | src/synchronization/intranode/ticket_lock.hpp:35-56 | with one NUMA node nobody waits in the ticket lock and it is never handed over |
| `CohortLock.LockedMakesProgress` | src/synchronization/cohort_lock.hpp:155-199 | while the global lock is taken, a thread of its node can step |
| `CohortProgress.Drain` | src/synchronization/cohort_lock.hpp:155-199 | the threads queued on a node can all go through, and then the global lock is free |
| `CohortProgress.EveryThreadEnters` | src/synchronization/cohort_lock.hpp:155-199 | from every reachable state every thread of every node can come to its critical section |
| `LockedPage.StepKeeps` | src/backend/mpi/swdsm.cpp:448-689 | every epoch of a handler, write-back or eviction keeps what each node may rely on for the guarded bytes of a page, with handlers of all nodes in flight |
| `LockedPage.StoreKeepsPage` | src/backend/mpi/swdsm.cpp:680-683 | so does a store, to a guarded byte by the holder and to other bytes by anybody |
| `LockedPage.ReleaseKeepsPage` | src/backend/mpi/swdsm.cpp:1116-1125 | so does the flush of a release |
| `LockedPage.AcquireKeepsPage` | src/backend/mpi/swdsm.cpp:1104-1113 | an acquire, which decides by the directory words of its node alone, leaves the node with right bytes if no handler owes it a notice |
| `LockedPage.BarrierGivesAccess` | src/backend/mpi/swdsm.cpp:1040-1051 | after a barrier every node may rely on its copies |
| `StaleKeep.AcquireKeepsStale` | src/backend/mpi/swdsm.cpp:955-972 | a reachable state in which an acquire keeps an old copy, because a notice is owed |
| `TasLock.LockStepKeeps` | src/synchronization/global_tas_lock.hpp:53-91 | taking the lock, with or without an acquire to follow, and giving it back keep the invariant |
| `TasLock.AcquireStepKeeps` | src/synchronization/global_tas_lock.hpp:84-86 | so does the acquire of each page, if its node is owed no notice about it |
| `TasLock.ReleaseStepKeeps` | src/synchronization/global_tas_lock.hpp:96-98 | so does the release of each page |
| `TasLock.InvRun` | src/synchronization/global_tas_lock.hpp:53-108 | so does every run in which no acquire meets an owed notice |
| `TasLock.TruthIsLastWrite` | src/synchronization/global_tas_lock.hpp:53-108 | the values the invariant speaks of are the last stores under the lock |
| `TasLock.HolderReadsLastWrite` | src/synchronization/global_tas_lock.hpp:56-85 | in every such run the holder sees the last value stored under the lock, although the acquire is skipped after `init` or its own id |
| `TasLock.AtomicOwesNothing` | src/backend/mpi/swdsm.cpp:448-689 | if each handler is one atomic step, no acquire meets an owed notice |
| `TasLock.AtomicReadsLastWrite` | src/synchronization/global_tas_lock.hpp:56-85 | so then the holder always sees the last value |
| `TasLock.MutualExclusion` | src/synchronization/global_tas_lock.hpp:53-108 | at most one thread is between its successful exchange and its store, whatever handlers do |
| `TasProgress.EveryThreadHolds` | src/synchronization/global_tas_lock.hpp:53-108 | from every state of every run every thread can come to hold the lock, with handlers in flight |
| `TasProgress.SkippedExactly` | src/synchronization/global_tas_lock.hpp:56-86 | in every run the acquire is skipped if and only if the lock was never given back or was last given back by a thread of the same node |
| `StaleLock.HolderReadsStale` | src/synchronization/global_tas_lock.hpp:84-86 | a run with a handler in flight after which a holder that has acquired reads an old value |
| `StaleLock.StaleWithoutAcquire` | src/synchronization/global_tas_lock.hpp:84-86 | a run after which skipping the acquire would read an old value, and the acquire reads the new one |
| `Allocator.AlignUpLeast` | src/allocators/generic_allocator.hpp:180-182 | the next multiple of the alignment |
| `Allocator.AllocateOn` | src/allocators/generic_allocator.hpp:218-258 | an allocation throws if and only if it needs a chunk and gets none |
| `Allocator.AllocateGives` | src/allocators/generic_allocator.hpp:218-258 | the block returned is one of the free list of its size, the next bytes of the pool, or the first of a new chunk, and then the rest of the old chunk is on the free list of its size |
| `Allocator.LastBackFirst` | src/allocators/generic_allocator.hpp:229-234 | the block given back last comes back first, and then pool, sizes and lists are as before |
| `Allocator.LastFreedFirst` | src/allocators/generic_allocator.hpp:264-282 | so does one given back by free() whose size is on record |
| `Allocator.GlobalAllocateIsReserve` | src/mempools/global_mempool.hpp:111-122 | until the shared pool runs out the allocator between the pools hands out exactly what reserve() gives |
| `AllocatorObjects.GlobalPool.Reserve` | src/mempools/global_mempool.hpp:111-122 | bumps the shared offset, or fails and leaves it |
| `AllocatorObjects.GlobalAllocator.Allocate` | src/allocators/generic_allocator.hpp:218-258 | the middle allocator in place, its parked remnant included |
| `AllocatorObjects.NodeAllocator.Reserve` | src/mempools/dynamic_mempool.hpp:130-139 | gives the next bytes of the chunk, or fails and changes nothing |
| `AllocatorObjects.NodeAllocator.Grow` | src/mempools/dynamic_mempool.hpp:145-163 | starts a new chunk of whole pages, taken by the caller or heard of from node 0, and says what is left behind when there is none |
| `AllocatorObjects.NodeAllocator.Allocate` | src/allocators/generic_allocator.hpp:218-258 | allocate() in place, in both growth modes and whether it throws or not, with its effect on the shared pool |
| `AllocatorObjects.NodeAllocator.Deallocate` | src/allocators/generic_allocator.hpp:276-282 | the block goes on the list of its aligned size |
| `AllocatorObjects.NodeAllocator.Free` | src/allocators/generic_allocator.hpp:264-269 | the block goes on the list of the size on record |
| `AllocatorPartition.NewIsAllocate` | src/allocators/generic_allocator.hpp:218-258 | a step of the system is one call of allocate() with the chunk the shared pool gives |
| `AllocatorPartition.ReuseKeeps` | src/allocators/generic_allocator.hpp:229-234 | reusing a block keeps blocks, lists, pools and bytes in agreement |
| `AllocatorPartition.CarveKeeps` | src/mempools/dynamic_mempool.hpp:130-139 | so does cutting one from the pool |
| `AllocatorPartition.ParkKeeps` | src/allocators/generic_allocator.hpp:239-245 | so does parking the rest of the pool |
| `AllocatorPartition.ExtendKeeps` | src/mempools/dynamic_mempool.hpp:145-163 | so does growing it |
| `AllocatorPartition.InvStep` | src/allocators/generic_allocator.hpp:218-282 | so does every call on every node |
| `AllocatorPartition.AlignedRun` | src/allocators/generic_allocator.hpp:219-227 | every run keeps blocks and pools aligned |
| `AllocatorPartition.InvRun` | src/allocators/generic_allocator.hpp:218-282 | so does every run |
| `AllocatorPartition.Partition` | src/allocators/generic_allocator.hpp:218-282 | in every multi-node run a byte was taken from the global pool if and only if it is in a live block, a block of a free list or a pool, and it is in only one |
| `AllocatorPartition.BlockAligned` | src/allocators/generic_allocator.hpp:218-258 | in every run each block is aligned and within the memory |
| `AllocatorPartition.BlocksDisjoint` | src/allocators/generic_allocator.hpp:218-258 | and no two overlap |
| `GlobalPartition.ReuseKeeps` | src/allocators/generic_allocator.hpp:229-234 | a chunk from a free list of the middle allocator keeps blocks, lists and bytes in agreement |
| `GlobalPartition.TakeKeeps` | src/mempools/global_mempool.hpp:111-122 | so does one from the shared pool |
| `GlobalPartition.FailKeeps` | src/allocators/generic_allocator.hpp:236-253 | so does a request that fails and parks the rest of the shared pool |
| `GlobalPartition.Partition` | src/allocators/generic_allocator.hpp:218-258 | in every run, failures included, a byte was taken from the shared pool if and only if it is in a chunk handed out or in a block of a free list, and it is in only one |
| `GlobalPartition.NeverTwice` | src/allocators/generic_allocator.hpp:218-258 | no two requests of a run are given a byte in common |
| `GlobalPartition.FailsExactly` | src/allocators/generic_allocator.hpp:218-258 | a request fails if and only if its node has no block of its size and the shared pool has not enough |
| `GlobalPartition.ParkedOnce` | src/allocators/generic_allocator.hpp:229-250 | the rest that a failed request parks is handed out later once, and then not again |
| `FreeRecords.WrongRecord` | src/allocators/generic_allocator.hpp:264-269 | free() by a record that is too small leaves a byte in no place, and by one that is too large a byte in two, or a byte beyond the pool in one |
| `FreeRecords.FreeExact` | src/allocators/generic_allocator.hpp:264-269 | free() keeps every byte in exactly one place if and only if the size on record is the size of the block |
| `FreeRecords.RecordsRun` | src/allocators/generic_allocator.hpp:236-258 | in every run an allocator has on record exactly the blocks it has cut, the rests of pools with too large a size and the others with theirs |
| `FreeRecords.FreeOverRuns` | src/allocators/generic_allocator.hpp:264-269 | so in every run free() of a live block keeps the partition if and only if it is called on the allocator that cut the block, and that did not cut it as the rest of a pool |
| `FreeRecords.FreedRestOverlaps` | src/allocators/generic_allocator.hpp:240-245 | a freed remnant is given out again for a larger request and reaches into another live block |
| `FreeRecords.FreedRestFromStart` | src/allocators/generic_allocator.hpp:240-245 | five calls on a new allocator that end there |
| `FreeRecords.FreedRestExample` | src/allocators/generic_allocator.hpp:240-245 | requests of 4080, 32 and 16 bytes, free() of the last and a request of 32 are such calls |
| `CollectiveReplicas.CopyIsAllocate` | src/mempools/dynamic_mempool.hpp:81-90 | unless a growth fails, it leaves no trace of which node took the chunk |
| `CollectiveReplicas.ReplicasAgree` | src/mempools/dynamic_mempool.hpp:145-163 | for every common sequence of calls all copies return the same pointers and grow at the same calls, or fail at the same call |
| `CollectiveReplicas.PacesAgree` | src/mempools/dynamic_mempool.hpp:81-90 | however the nodes interleave, each waiting for the values of node 0, two that have made the same calls have the same copy |
| `CollectiveReplicas.NoDeadlock` | src/mempools/dynamic_mempool.hpp:81-90 | a node that waits for a chunk is not behind node 0, which can go on |
| `CollectiveReplicas.AllFinish` | src/mempools/dynamic_mempool.hpp:81-90 | however far the nodes have come they can all make all their calls, if none fails |
| `CollectiveReplicas.DeletedComesBack` | src/allocators/generic_allocator.hpp:276-282 | on every node the next allocation of its size returns the block deleted last |
| `CollectiveReplicas.FreedComesBack` | src/allocators/generic_allocator.hpp:264-269 | or freed last, if its size is on record |
| `CollectiveReplicas.FailureParts` | src/mempools/dynamic_mempool.hpp:81-90 | a growth that fails leaves the whole copies equal if and only if the pool never grew |
| `CollectiveReplicas.CopiesDiverge` | src/mempools/dynamic_mempool.hpp:81-90 | from the start: a small request, a larger one that fails, and the small one again returns null on node 0 and the first block on the others |
| `CollectiveReplicas.CopiesDiffer` | src/mempools/dynamic_mempool.hpp:81-90 | so the copies differ after every such pair of aligned requests |
| `CollectiveReplicas.CopiesDifferExample` | src/mempools/dynamic_mempool.hpp:81-90 | requests of 16 and 8192 bytes are one |

## Left out

Assumptions about the steps:

- Each RMA epoch is one atomic step, and so is an accumulate that covers several words. The epoch
  that registers a writer is two steps, the accumulate and then the read of the sharer word.
- The dirty bit, the protection and the entry in the write buffer are set in the handler's last
  step, after room has been made in the buffer; a load that goes on to write is two handlers.
- A write-back or an eviction holds the cache lock and is one step.
- A cache line is one page. Notices of one handler may be delivered in any order.
- Memory accesses of the locks are sequentially consistent.

Weaker or narrower than the code:

- TasLock.HolderReadsLastWrite: not for runs in which an acquire meets a page about which its node is
  still owed a notice, because there it is false (`StaleLock.HolderReadsStale`).
- BarrierCoherence.ReadsSeeLastStore: programs with data races between barriers are outside it, as
  they are outside what the system promises.
- DirectorySafety.DirectorySafety: directory words are sets of nodes; that one word has 64 bits
  matters in `NodeBits` only.
- BatchedLoad.LoadRange: the pages of a range have one home, as the code's selection of the range
  ensures.
- FirstTouch.Agreement: offsets are counted in pages, and the null word is a value of its own.
- CohortLock.MutualExclusion: one NUMA node, as numa_node() returns 0.
- CohortProgress.EveryThreadEnters: a run exists; a test-and-set word promises nothing about which
  node wins. The same holds of TasProgress.EveryThreadHolds.
- AllocatorPartition.Partition: up to the first growth that fails, after which the pool points
  nowhere; requests of zero bytes are outside it.
- CacheRuns.RunHistory: steps of other nodes come between two operations, not inside one
  (`CacheRuns.OthersHistory`); loads are of one page at a time.
- CollectiveReplicas.PacesAgree: the broadcast is modelled, the barrier after it is not; without it
  the nodes interleave more freely.

Not modelled:

- Selective acquire and release, upgrade-all, and the reset of the coherence state.
- `try_lock` of the MCS lock, and the untouched case of `peek_homenode`.
- Naive and plain cyclic placement, which would add easy members only.
- The single-node backend, atomics on cached pages, object construction, and the C interface.
- MPI, virtual memory, signals, environment parsing, statistics; chunk addresses, fetched pages and
  broadcasts are parameters.
