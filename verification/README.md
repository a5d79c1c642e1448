# A verified model of dm-cache

dm-cache is a write-back SSD cache in user space. It keeps 32 KB blocks of files on an
SSD: a fixed array of entries with three intrusive lists (free, clean, dirty) and a chained
hash table threaded through it, a duplicate-free ring of work items, and one migration
worker that promotes blocks from the origin, demotes clean ones and writes dirty ones back,
while any number of user threads look up, insert, discard and dirty entries. This project
models that layer in Dafny and proves that it behaves as one flat page store, under
assumptions about the order of steps that are together shown to be exact.

`dafny verify dfyconfig.toml` checks everything.

## How the model is built

- **Structure.** `Sequences`, `CacheTypes`, `Hash`, `IndexList`, `HashChains`, `WorkQueue`
  and `Mapping` are the code in its own form: classes over one shared array whose methods
  update links, chains, flags and counters in place. `Mapping.View` is the abstract state of
  the array, and each method of `Mapping` is proved to do to it what the function of the
  same name in `MappingState` does.
- **Specification of one critical section.** `MappingState` has one function per section
  under `mapping_lock` and the invariant; `MappingInvariant` proves that each keeps it,
  `MappingTable` that the chains are a finite map, `SectionLists` where the entries end up.
  `QueueSpec` is the queue as a sequence.
- **Protocol.** `Protocol` interleaves these sections for any number of users and the
  worker, whose position inside `do_migration_work` is part of the state. `Replacement` adds
  a ghost clock, `Migration` looks at whole calls without user steps.
- **Data.** `FlatStore` is the specification, `CacheStore` adds origin pages, SSD blocks, the
  worker's buffer and the users between their lookup, their device transfer and their
  `set_dirty_after_write`, each a step of its own. `RequestSteps` and `WorkerSteps` prove
  what each step keeps, `StoreRefinement` the refinement over runs; what a run has to answer
  is told by its operations alone, in `Requests`. `WholeRequests` shows that requests with
  nobody in between are sequences of steps, `ProtocolRuns` that the data layer runs the
  sections of `Protocol` and nothing else.
- **Limits.** `Exactness` proves the assumptions of the refinement exact, step by step,
  `HistoryExactness` those about discards. `StoreLimits`, `Writebacks`, `MarkedWrites` and
  `DiscardHistory` prove what becomes of a write that meets a migration and of a block that
  is discarded, `LostUpdates` gives runs of the code as written that go wrong.
- **Around it.** `Locks` has the two spinlocks as words in memory and as a machine of
  compare-exchange steps over the lock operations of every function and its work on the
  mapping and the queue, `Sgl` the
  scatter-gather cursor, `PageIo` the request chains, `Addressing` block numbers and offsets.
  `DeviceBlocks` shows that their transfers of bytes are the block transfers of `CacheStore`.

The sizes (entries, buckets, queue slots) are arbitrary throughout; the values of
`dm-cache/inc/config.h:16-26` are one instance. Outcomes of device I/O, success of memory
allocation and the bytes a trimmed block reads back as are parameters.

## What the refinement assumes

The code relies on the following without enforcing it. `CacheStore.Safe` states it step by
step, about the control state only. `Exactness.SafeIsExact` proves it exact with respect to
the refinement's invariant, `CacheStore.StoreInv`, which says which blocks on the devices
are current: a step is outside `Safe` iff for some contents of the devices it takes a state
that represents the flat store to one that does not, or reads something that is not
current. The theorems named below say what that means for whole migrations and runs.

- No write hits a block while it is being demoted, and none hits a block whose image a
  promotion has already read: `StoreLimits.WriteDuringDemotionIsKeptIff`,
  `StoreLimits.WriteDuringPromotionIsKeptIff`, `LostUpdates.WriteLostByDemotion`,
  `LostUpdates.WriteLostByPromotion`.
- The trim of a demotion always names block 0 (`dm-cache/lib/ssd_cache_mapping.c:541`, `:497`).
  It must hit the victim, an entry nobody can look up or one whose data is still to come:
  `StoreLimits.TrimHurtsNobodyIff`, `LostUpdates.BlockLostByTrim`. Where the victim's own block
  is trimmed, as is surely meant, this holds by itself.
- No read is for the victim once its own block is trimmed (`StoreLimits.ReadAfterTrimIff`),
  nor for an inserted block before its data is there (`LostUpdates.ReadBeforeData`).
- A write-back that fails was overtaken by another write to its block, or its image has
  reached the origin: `Writebacks.FailedWritebackKeepsInvIff`,
  `LostUpdates.WriteLostByFailedWriteback`.
- No block is picked for demotion between a write to it and its being marked dirty, nor
  before its data is there: `StoreLimits.DemotionIsHarmlessIff`, `LostUpdates.WriteLostUnmarked`.
- When the device transfer of a request comes, its block is still where its lookup saw it,
  or as good: `CacheStore.SafeTransfer`, `LostUpdates.WriteLostBehindCache`.

Discards expose what is at the origin. That this is a block of the past
(`DiscardHistory.DiscardGoesBack`) needs two things more, which `CacheStore.KeepsOrigin`
states and `HistoryExactness.KeepsOriginIsExact` proves exact; the refinement does not.

- A write-back does not read an inserted block before its data is there:
  `Writebacks.WritebackReadsCurrentIff`.
- The origin is not written in part under a block that is still to be written in full.

`CacheStore.CanDo` has two more, which are about well-defined steps rather than lost data.

- A discard does not hit an entry in flight, which is on no list
  (`dm-cache/lib/ssd_cache_mapping.c:643`): `IndexList.DeleteIsExactIffListed`.
- Page indexes are below 2^20, where 32-bit byte offsets are exact:
  `Addressing.OffsetIsExactIff`, `Addressing.OffsetsCollideIff`.

None of these assumptions is used below the data layer, except that a discard does not hit
an entry in flight.

## Where the code and its comments differ

- `dm-cache/inc/mapping.h` describes `set_dirty_after_write` as setting dirty or clean; the
  code ignores its last argument and always sets dirty. The model follows the code.
- The same header says that `lookup_mapping_with_insert` returns false if no entry is free;
  the code also returns false if the key is found queued. The model follows the code.

## Model

| member | source | states |
|---|---|---|
| `StoreRefinement.RunRefinesFlatStore` | dm-cache/lib/ssd_cache_target.c:133-168 | the design the code is meant to have, with each demotion trimming its victim's own block: over every run of whole requests, requests in steps, discards and worker steps whose other steps are `Safe`, cache plus origin stand for the flat page store obtained by replaying the writes and discards, and every operation gives the flat store's answer to the request it is for: all pages of a read as they are at that point, all pages of a write taken; a transfer answers what its user has started last |
| `StoreRefinement.RunAsWrittenRefinesFlatStore` | dm-cache/lib/ssd_cache_mapping.c:541-541 | the same for the code as written, which trims block 0, over runs in which each such trim is harmless |
| `StoreRefinement.RunFromGoodState` | dm-cache/lib/ssd_cache_target.c:133-168 | both from any state that represents a flat store, not only from an empty cache |
| `StoreRefinement.RunAnswers` | dm-cache/lib/ssd_cache_target.c:141-159 | the answers also from any good state whose users are idle; what is asked is told by the operations of the run alone |
| `StoreRefinement.ReadReturnsLatestWrite` | dm-cache/lib/ssd_cache_target.c:141-159 | in every such run a read returns, page by page, the data of the latest write to that page if no discard touched it since |
| `StoreRefinement.OpKeepsInv` | dm-cache/lib/ssd_cache_mapping.c:472-555 | each step of a request and each begin, transfer and complete step of a migration takes a store that represents flat store `f` to one that represents `f` with what the step shows applied |
| `Exactness.SafeIsExact` | dm-cache/lib/ssd_cache_mapping.c:472-555 | in any good state a step keeps the picture of the flat store and reads only current pages, whatever the devices hold, iff it is `Safe` |
| `Exactness.SafeIsControl` | dm-cache/lib/ssd_cache_target.c:141-159 | `Safe` and the order of steps depend on table, flags, worker and users, not on any page contents |
| `DiscardHistory.DiscardGoesBack` | dm-cache/lib/ssd_cache_target.c:133-139 | in every run whose steps also satisfy `KeepsOrigin` each origin block is one that its key held earlier in the run, so a discard takes its block back to such an earlier state |
| `HistoryExactness.KeepsOriginIsExact` | dm-cache/lib/ssd_cache_mapping.c:500-518 | a safe step leaves only blocks of the past at the origin and in hand for it, whatever the devices hold and whatever has happened so far, iff it satisfies `KeepsOrigin` |
| `DiscardHistory.DiscardLosesNothingIff` | dm-cache/lib/ssd_cache_mapping.c:637-649 | a discard leaves the flat store as it was, in the state and in what the discard shows, whatever the origin holds, iff the block is uncached or cached clean with no write to it unmarked |
| `RequestSteps.VisibleIsCurrent` | dm-cache/lib/ssd_cache_target.c:141-159 | whatever a key is served from, SSD block or origin, holds its current pages, unless it is the victim with its own block trimmed or its inserted data is still to come |
| `RequestSteps.InsertLookup` | dm-cache/lib/ssd_cache_mapping.c:612-631 | the insertion of a full write, whose data is still to come, changes nothing that can be seen |
| `RequestSteps.TransferStep` | dm-cache/lib/ssd_cache_target.c:17-34 | the device transfer of a request, long after its lookup, has the effect of the whole request on the flat store |
| `RequestSteps.TransferReadsFlat` | dm-cache/lib/ssd_cache_target.c:36-52 | the transfer of a read, whatever has happened since its lookup, returns for its path and page as many pages as asked for, and what the flat store holds in them at that moment |
| `RequestSteps.OriginWritten` | dm-cache/lib/ssd_cache_target.c:54-77 | a write to the origin under an uncached key, a trimmed victim or a block still to be written in full has the effect of the write on the flat store |
| `RequestSteps.MarkStep` | dm-cache/lib/ssd_cache_mapping.c:651-668 | marking a block after its write, possibly freed or reused since, changes nothing that can be seen |
| `WholeRequests.ReadIsItsSteps` | dm-cache/lib/ssd_cache_target.c:36-52 | lookup and transfer of a read with nobody in between are the whole read, with the same result |
| `WholeRequests.WriteIsItsSteps` | dm-cache/lib/ssd_cache_target.c:17-34 | lookup, transfer and mark of a write that hits or inserts, with nobody in between, are the whole write |
| `WholeRequests.MissedWriteIsItsSteps` | dm-cache/lib/ssd_cache_target.c:54-77 | lookup and transfer of a write that goes to the origin are the whole write |
| `ProtocolRuns.OpRunsItsSections` | dm-cache/lib/ssd_cache_target.c:141-159 | every operation of the data layer does to mapping, queue and worker what the sections of the protocol it stands for do, in order: a request its lookup, with or without insertion, a write to the SSD then its mark |
| `ProtocolRuns.RunIsProtocolRun` | dm-cache/lib/ssd_cache_mapping.c:528-555 | every run of the data layer, safe or not, is a run of the protocol, so all that holds in its reachable states holds there |
| `ProtocolRuns.WriteLookupIsSection` | dm-cache/lib/ssd_cache_target.c:148-154 | the lookup of a write is the protocol's lookup with insertion if it covers its block and the plain one otherwise; the block it is sent to is the one found under its key afterwards |
| `ProtocolRuns.ReadIsToldWhatIsFound` | dm-cache/lib/ssd_cache_target.c:152-158 | the lookup of a read sends it to the block found under its key, before and after, or to the origin |
| `ProtocolRuns.WriteIsToldWhatIsFound` | dm-cache/lib/ssd_cache_target.c:148-158 | the lookup of a write sends it to the block found under its key afterwards, or to the origin |
| `ProtocolRuns.MissedRequestIsQueued` | dm-cache/lib/ssd_cache_mapping.c:588-592 | a read or a partial write that misses leaves its block queued, last if it was not queued before, unless the ring is full |
| `ProtocolRuns.TransferIgnoresMapping` | dm-cache/lib/ssd_cache_target.c:17-102 | a device transfer does and shows the same whatever mapping, queue, worker and migration it finds |
| `ProtocolRuns.UserCanStep` | dm-cache/lib/ssd_cache_target.c:141-159 | a user in the middle of a request can always go on, and an idle one start any request |
| `ProtocolRuns.WorkerCanStep` | dm-cache/lib/ssd_cache_mapping.c:528-555 | in every good state the worker has a next step |
| `ProtocolRuns.WorkerMayFail` | dm-cache/lib/ssd_cache_mapping.c:472-526 | the transfers of a migration may fail at any point, and a trim may return any contents |
| `ProtocolRuns.RequestsAreTaken` | dm-cache/lib/ssd_cache_target.c:163-168 | whole requests are taken at any moment, a discard unless its block is in flight |
| `WorkerSteps.EndDemotionStep` | dm-cache/lib/ssd_cache_mapping.c:413-429 | dropping the clean victim leaves the logical store unchanged, because its origin pages equal its SSD block |
| `WorkerSteps.TrimStep` | dm-cache/lib/ssd_cache_mapping.c:495-499 | a trim that satisfies `TrimIsHarmless` keeps the data invariant whatever the device returns for the block afterwards |
| `StoreLimits.TrimHurtsNobodyIff` | dm-cache/lib/ssd_cache_mapping.c:541 | trimming a given block during a demotion leaves every key but the victim's readable iff the block is the victim's own, one that no lookup reaches or one whose data is still to come |
| `StoreLimits.ReadAfterTrimIff` | dm-cache/lib/ssd_cache_mapping.c:495-499 | a read between the trim and the end of a demotion is current, whatever the device returns, iff the trimmed block does not hold its key; for a harmless trim: unless it is for the victim and the trim hit the victim's block |
| `StoreLimits.DemotionIsHarmlessIff` | dm-cache/lib/ssd_cache_mapping.c:397-429 | a demotion with the trim of its own block, from begin to end, leaves every key readable and current, whatever the origin holds under the victim's key and the trimmed block returns, iff no write to the victim is still to come or to be marked when it is picked |
| `StoreLimits.LateTrimIsHarmlessIff` | dm-cache/lib/spdk.c:184-199 | a trim is submitted and not waited for: it may land at a given moment, whatever the device returns for the block, iff the block is then neither the current one of a key nor just filled by a promotion |
| `StoreLimits.WriteDuringDemotionIsKeptIff` | dm-cache/lib/ssd_cache_mapping.c:413-422 | a write that lands during a demotion survives it, for all data and all contents of the trimmed block, iff it is for another block and the trim, unless it is over, spares what is hashed and what the write hashes |
| `StoreLimits.WriteDuringPromotionIsKeptIff` | dm-cache/lib/ssd_cache_mapping.c:472-494 | once the image of a promotion has been read, a write survives the promotion, for all data, iff it is for another block |
| `Writebacks.WriteDuringWritebackIsKept` | dm-cache/lib/ssd_cache_mapping.c:431-468 | a write to a block at any moment of its write-back is not lost: after any further steps and the end, successful or not, the entry is on the dirty list and its SSD block, which is what is served, is current |
| `MarkedWrites.TransferredWriteIsKept` | dm-cache/lib/ssd_cache_mapping.c:651-668 | between the device transfer of a write and its mark any number of write-backs of the block may begin and end: unless the block is discarded it stays cached, and after the mark it is dirty, listed so when not in flight, and holds what the write and the steps after it made of it |
| `Writebacks.WritebackReadsCurrentIff` | dm-cache/lib/ssd_cache_mapping.c:500-506 | what a write-back reads is the current block of its key, whatever the device holds, iff no inserted data is still to come |
| `Writebacks.FailedWritebackKeepsInvIff` | dm-cache/lib/ssd_cache_mapping.c:463-465 | a write-back may fail without harm, whatever the origin holds, iff its entry was written again meanwhile, marked or not, or its image has reached the origin |
| `LostUpdates.WriteLostByPromotion` | dm-cache/lib/ssd_cache_mapping.c:472-494 | a run from an empty cache in which a write inside the promotion window is followed by a stale read |
| `LostUpdates.WriteLostByDemotion` | dm-cache/lib/ssd_cache_mapping.c:413-422 | a run from an empty cache in which a write that hits the entry being demoted is lost |
| `LostUpdates.WriteLostByFailedWriteback` | dm-cache/lib/ssd_cache_mapping.c:446 | a run from an empty cache in which a failed write-back, its dirty bit cleared beforehand, ends in the loss of the only copy |
| `LostUpdates.BlockLostByTrim` | dm-cache/lib/ssd_cache_mapping.c:541 | a run from an empty cache in which the demotion of one block trims another one that is still served |
| `LostUpdates.ReadBeforeData` | dm-cache/lib/ssd_cache_mapping.c:624-634 | a run from an empty cache in which a read hits an inserted block before its data is there |
| `LostUpdates.WriteLostUnmarked` | dm-cache/lib/ssd_cache_target.c:25-31 | a run from an empty cache in which a block is demoted between a write to it and its being marked dirty, and the write is lost |
| `LostUpdates.WriteLostBehindCache` | dm-cache/lib/ssd_cache_target.c:141-159 | a run from an empty cache in which a write to the origin is overtaken by the promotion of its block and a stale read follows |
| `Protocol.StepKeepsInv` | dm-cache/lib/ssd_cache_mapping.c:362-668 | every critical section of every user and of the worker keeps the joint invariant of table, lists, flags, queue and worker position |
| `Protocol.RunKeepsInv` | dm-cache/lib/ssd_cache_mapping.c:362-668 | so does every interleaving of any length |
| `Protocol.ReachableInv` | dm-cache/lib/ssd_cache_mapping.c:321-343 | every state reachable from zeroed memory, for any number of entries, buckets and queue slots, satisfies it |
| `Protocol.NoKeyIsHashedTwice` | dm-cache/lib/ssd_cache_mapping.c:528-555 | in every reachable state hashed entries have pairwise different (path, block) keys |
| `Protocol.QueuedKeyIsAbsent` | dm-cache/lib/ssd_cache_mapping.c:611-631 | a queued key is not hashed unless it is the front item whose migration is complete but not yet removed; the queue holds no duplicates and leaves a slot unused |
| `Protocol.PromotedKeyIsUnhashed` | dm-cache/lib/ssd_cache_mapping.c:380-395 | during the whole promotion window nobody can insert the key under promotion |
| `Protocol.EntriesArePartitioned` | dm-cache/lib/ssd_cache_mapping.c:362-468 | in every reachable state each entry is on exactly one of the three lists or is the one in flight; the flag bits say which; the hashed entries are the allocated ones except the one being promoted |
| `Protocol.EntriesAreConserved` | dm-cache/lib/ssd_cache_mapping.c:185-202 | `nr_allocated` plus the free count, and the three list counts plus the entry in flight, both equal the number of entries |
| `Protocol.ChainsReachNoFreeEntry` | dm-cache/lib/ssd_cache_mapping.c:303-315 | no chain of any reachable state reaches a free entry |
| `Protocol.DemotionUnlinksItsVictim` | dm-cache/lib/ssd_cache_mapping.c:413-422 | completing a demotion removes from the table exactly the victim and its key, although removal searches by key |
| `Protocol.QueueStepsInsideInsert` | dm-cache/lib/ssd_cache_mapping.c:613-623 | any steps of the worker under the queue lock alone, such as a removal and a peek, between the scan and the insertion have the outcome of the section before or after all of them, so the section may be taken as one step |
| `Protocol.MissIsQueued` | dm-cache/lib/ssd_cache_mapping.c:588-592 | after a missed lookup the key is queued, as the youngest item unless it was before, or the ring is full; nothing else changes |
| `Protocol.FullMissInserts` | dm-cache/lib/ssd_cache_mapping.c:612-631 | a full write that misses gets the oldest free entry exactly if one is free and every queued key differs from its own in the index or, as far as the queued name goes, in the name; the key is then found there |
| `Protocol.FullMissIsQueued` | dm-cache/lib/ssd_cache_mapping.c:614-623 | a full write that misses and gets no entry leaves a key like its own queued, or the ring is full |
| `Protocol.HitIsFoundAgain` | dm-cache/lib/ssd_cache_mapping.c:578-587 | a hit changes neither the queue nor where any key is found |
| `Protocol.KeyInFlightStays` | dm-cache/lib/ssd_cache_mapping.c:545-547 | the key that the worker reads without a lock, that of the entry it is writing back, is changed by no section until the write-back ends |
| `Replacement.VictimsAreOldest` | dm-cache/lib/ssd_cache_mapping.c:397-452 | over every run without a failed write-back the demotion victim was used before every other clean entry and the write-back victim before every other dirty one |
| `Replacement.TimedRunKeepsOrder` | dm-cache/lib/ssd_cache_mapping.c:575-668 | both lists stay strictly ordered by the time of last joining, clean hit or dirtying outside a migration |
| `Replacement.FailedWritebackKeepsOrderIff` | dm-cache/lib/ssd_cache_mapping.c:463-465 | a failed write-back keeps that order iff the list the entry is put in front of was empty |
| `Migration.CallIsItsSteps` | dm-cache/lib/ssd_cache_mapping.c:528-555 | a whole call of `do_migration_work` is the run of its critical sections with nobody in between |
| `Migration.MigrationKeepsInv` | dm-cache/lib/ssd_cache_mapping.c:528-555 | a call keeps the invariant and leaves nothing in flight |
| `Migration.CallMakesProgress` | dm-cache/lib/ssd_cache_mapping.c:528-555 | on a full cache a call demotes or writes back and brings the next free entry one call closer, whether or not the I/O succeeds |
| `Migration.CallCachesKey` | dm-cache/lib/ssd_cache_mapping.c:535-539 | with an entry free and working I/O a call caches the key it is for in the oldest free entry, clean and last to be demoted, and changes no other entry |
| `Migration.FailedCallCachesNothing` | dm-cache/lib/ssd_cache_mapping.c:535-539 | if the I/O fails the entry is free again, as the youngest one, and the key is not cached |
| `Migration.CallEvictsOldest` | dm-cache/lib/ssd_cache_mapping.c:540-543 | on a full cache that is more than half clean a call frees the oldest clean entry and its key is found no more |
| `Migration.CallCleansOldest` | dm-cache/lib/ssd_cache_mapping.c:544-549 | otherwise it cleans the oldest dirty entry, which goes to the end of the clean list or, after a failure, to its head |
| `Migration.WorkerFreesAnEntry` | dm-cache/lib/ssd_cache_mapping.c:400-400 | without user steps an entry is free after exactly `CallsToFree` calls and not before, which is at most half the entries plus 2 |
| `MappingInvariant.InitInv` | dm-cache/lib/ssd_cache_mapping.c:321-343 | the initial mapping satisfies the structural invariant |
| `MappingInvariant.LookupKeepsInv` | dm-cache/lib/ssd_cache_mapping.c:575-595 | a lookup keeps the invariant, changes no cell, no free or dirty list and nothing that is hashed |
| `MappingInvariant.InsertDirtyKeepsInv` | dm-cache/lib/ssd_cache_mapping.c:624-631 | inserting under an absent key allocates the free head as dirty and hashes exactly that entry |
| `MappingInvariant.RemoveHitKeepsInv` | dm-cache/lib/ssd_cache_mapping.c:637-649 | removing a hit that is not in flight frees and unhashes exactly that entry |
| `MappingInvariant.SetDirtyKeepsInv` | dm-cache/lib/ssd_cache_mapping.c:651-668 | setting dirty late, even for a block freed meanwhile, keeps the invariant and the table |
| `MappingInvariant.PromotionBeginKeepsInv` | dm-cache/lib/ssd_cache_mapping.c:362-378 | the entry of a begun promotion is allocated and pending but in no chain |
| `MappingInvariant.PromotionCompleteKeepsInv` | dm-cache/lib/ssd_cache_mapping.c:380-395 | completion hashes exactly the promoted entry, or frees it |
| `MappingInvariant.DemotionBeginKeepsInv` | dm-cache/lib/ssd_cache_mapping.c:397-411 | the head of the clean list goes into flight and stays hashed |
| `MappingInvariant.DemotionCompleteKeepsInv` | dm-cache/lib/ssd_cache_mapping.c:413-429 | completion frees and unhashes exactly the victim, or puts it back |
| `MappingInvariant.DemotionUpdatesMap` | dm-cache/lib/ssd_cache_mapping.c:413-422 | a completed demotion removes the victim's key from the map the table stands for, and no other |
| `MappingInvariant.WritebackBeginKeepsInv` | dm-cache/lib/ssd_cache_mapping.c:431-452 | the head of the dirty list goes into flight, marked clean, and stays hashed |
| `MappingInvariant.WritebackCompleteKeepsInv` | dm-cache/lib/ssd_cache_mapping.c:454-468 | completion puts the entry on the list its dirty bit names, at the tail or, after a failure, at the head |
| `SectionLists.LookupMakesLatest` | dm-cache/lib/ssd_cache_mapping.c:575-595 | a hit comes first in its chain, and a clean one is the last to be demoted |
| `SectionLists.InsertionMakesLatest` | dm-cache/lib/ssd_cache_mapping.c:624-631 | an insertion takes the oldest free entry, which comes first in its chain and last on the dirty list |
| `SectionLists.RemovalFrees` | dm-cache/lib/ssd_cache_mapping.c:637-649 | a removed entry leaves its list, is the youngest free one, and its key is found no more |
| `SectionLists.MarkMakesLatest` | dm-cache/lib/ssd_cache_mapping.c:651-668 | a mark moves a listed block to the end of the dirty list and leaves all lists alone for a freed one or one in flight |
| `SectionLists.PromotionEndLists` | dm-cache/lib/ssd_cache_mapping.c:380-395 | a completed promotion ends at the tail of the list its dirty bit names, an abandoned one at the tail of the free list |
| `SectionLists.PromotionLists` | dm-cache/lib/ssd_cache_mapping.c:362-378 | a promotion takes the oldest free entry and leaves the other lists alone |
| `SectionLists.PromotedIsFirst` | dm-cache/lib/ssd_cache_mapping.c:380-395 | a promoted entry comes first in its chain |
| `SectionLists.DemotionEndLists` | dm-cache/lib/ssd_cache_mapping.c:413-429 | a completed demotion ends at the tail of the free list, an abandoned one at the tail of the list its dirty bit names |
| `MappingTable.FindIsMapLookup` | dm-cache/lib/ssd_cache_mapping.c:261-275 | lookup in the chains is lookup in a finite map |
| `MappingTable.FindIsExact` | dm-cache/lib/ssd_cache_mapping.c:261-275 | a lookup finds an entry iff one is hashed under the key, and then that one |
| `MappingTable.HLookupKeepsMap` | dm-cache/lib/ssd_cache_mapping.c:285-301 | move-to-front changes the order of a chain but not the map |
| `MappingTable.HInsertUpdatesMap` | dm-cache/lib/ssd_cache_mapping.c:250-259 | inserting under an absent key adds that one binding |
| `MappingTable.HRemoveUpdatesMap` | dm-cache/lib/ssd_cache_mapping.c:303-315 | removal by key of a hashed entry deletes exactly its binding |
| `MappingTable.HashedKeysAreUnique` | dm-cache/lib/ssd_cache_mapping.c:261-275 | hashed entries with equal keys are the same entry |
| `Hash.Hash32` | dm-cache/lib/ssd_cache_mapping.c:217-232 | the 32-bit loop with its shift pair returns the unbounded djb2 value modulo 2^bits, for every name and index |
| `Hash.BucketIsDjb2Modulo` | dm-cache/lib/ssd_cache_mapping.c:234-240 | with a power of two of buckets the bucket of a key is its djb2 value modulo the bucket count |
| `Hash.Djb2IsPolynomial` | dm-cache/lib/ssd_cache_mapping.c:217-232 | djb2 in closed form: the start value 5381, the index and the characters as digits to base 33 |
| `Hash.ShiftPairKeepsLowBits` | dm-cache/lib/ssd_cache_mapping.c:230-230 | shifting left then right by 32 - bits in a word keeps the low bits |
| `Hash.Log2Bounds` | dm-cache/lib/ssd_cache_mapping.c:319-319 | LOG2 is the floor of the binary logarithm |
| `Hash.Log2OfPow2` | dm-cache/lib/ssd_cache_mapping.c:319-319 | LOG2 inverts powers of two |
| `IndexList.AddHeadPrepends` | dm-cache/lib/ssd_cache_mapping.c:57-68 | the header and links spell out the list with the entry in front, in both directions, and no other entry is touched |
| `IndexList.AddTailAppends` | dm-cache/lib/ssd_cache_mapping.c:70-82 | the same for adding at the end |
| `IndexList.DeleteCuts` | dm-cache/lib/ssd_cache_mapping.c:84-100 | deleting a listed entry from anywhere cuts out exactly that entry |
| `IndexList.DeleteIsExactIffListed` | dm-cache/lib/ssd_cache_mapping.c:84-100 | `l_del` yields the other entries in order iff the entry is on the list, which is why a discard must not hit an entry in flight |
| `IndexList.DeletingUnlistedLosesAnEntry` | dm-cache/lib/ssd_cache_mapping.c:643-643 | deleting an entry from a list it is not on drops some other entry from whatever list results |
| `IndexList.LinkedFrame` | dm-cache/lib/ssd_cache_mapping.c:34-109 | an operation on one list leaves the other lists of the shared array as they were |
| `IndexList.IList.Init` | dm-cache/lib/ssd_cache_mapping.c:34-37 | empties the list |
| `IndexList.IList.Empty` | dm-cache/lib/ssd_cache_mapping.c:55-55 | true iff the list is empty |
| `IndexList.IList.AddHead` | dm-cache/lib/ssd_cache_mapping.c:57-68 | prepends in place |
| `IndexList.IList.AddTail` | dm-cache/lib/ssd_cache_mapping.c:70-82 | appends in place |
| `IndexList.IList.Delete` | dm-cache/lib/ssd_cache_mapping.c:84-100 | removes a listed entry in place, keeping the order of the rest |
| `IndexList.IList.PopHead` | dm-cache/lib/ssd_cache_mapping.c:102-109 | removes and returns the first entry, or nothing of an empty list |
| `HashChains.InsertPrepends` | dm-cache/lib/ssd_cache_mapping.c:250-254 | following `hash_next` visits the new entry and then the old chain |
| `HashChains.UnlinkCuts` | dm-cache/lib/ssd_cache_mapping.c:277-283 | unlinking with the predecessor in hand cuts out exactly one entry, first or later |
| `HashChains.Rewire` | dm-cache/lib/ssd_cache_mapping.c:242-301 | rewiring one chain keeps every other chain acyclic, complete and apart |
| `HashChains.HashTable.Init` | dm-cache/lib/ssd_cache_mapping.c:234-240 | every bucket is empty and the bit count is the logarithm of the bucket count |
| `HashChains.HashTable.HashOf` | dm-cache/lib/ssd_cache_mapping.c:256-259 | the hash is a valid bucket for every key |
| `HashChains.HashTable.LookupIn` | dm-cache/lib/ssd_cache_mapping.c:261-275 | the scan ends and returns the first entry under the key with its predecessor, or neither |
| `HashChains.HashTable.InsertAt` | dm-cache/lib/ssd_cache_mapping.c:250-254 | prepends to one chain in place |
| `HashChains.HashTable.Insert` | dm-cache/lib/ssd_cache_mapping.c:256-259 | prepends to the chain of the entry's own key |
| `HashChains.HashTable.Unlink` | dm-cache/lib/ssd_cache_mapping.c:277-283 | removes one entry of a chain in place |
| `HashChains.HashTable.Lookup` | dm-cache/lib/ssd_cache_mapping.c:285-301 | returns the first hit and moves it to the front of its chain; a miss changes nothing |
| `HashChains.HashTable.Remove` | dm-cache/lib/ssd_cache_mapping.c:303-315 | unlinks the first entry found under the key of the given one, or nothing |
| `Mapping.Mapping.constructor` | dm-cache/inc/config.h:16-26 | zeroed memory for any number of entries, buckets and queue slots |
| `Mapping.Mapping.InitMapping` | dm-cache/lib/ssd_cache_mapping.c:321-343 | fails iff a size is 0; otherwise the structural invariant holds with the free list 0..N-1 and empty chains |
| `Mapping.Mapping.InitFreeList` | dm-cache/lib/ssd_cache_mapping.c:113-124 | the free list is every entry in order |
| `Mapping.Mapping.InitEntry` | dm-cache/lib/ssd_cache_mapping.c:126-133 | blanks links, flags and key of one entry that is on no list, and nothing else |
| `Mapping.Mapping.AllocEntry` | dm-cache/lib/ssd_cache_mapping.c:185-196 | takes the head of the free list, blanks it and marks it allocated; no entry and no change if none is free |
| `Mapping.Mapping.FreeEntry` | dm-cache/lib/ssd_cache_mapping.c:198-202 | clears the allocation bit, counts down and appends to the free list |
| `Mapping.Mapping.AllocatorEmpty` | dm-cache/lib/ssd_cache_mapping.c:204-204 | true iff no entry is free |
| `Mapping.Mapping.HashLookup` | dm-cache/lib/ssd_cache_mapping.c:285-301 | hash lookup in the shared array: entry found and new chains are those of the specification, the lists are untouched |
| `Mapping.Mapping.HashInsert` | dm-cache/lib/ssd_cache_mapping.c:256-259 | hash insertion in the shared array leaves the lists untouched |
| `Mapping.Mapping.HashRemove` | dm-cache/lib/ssd_cache_mapping.c:303-315 | hash removal in the shared array leaves the lists untouched |
| `Mapping.Mapping.PromotionFreeToClean` | dm-cache/lib/ssd_cache_mapping.c:362-378 | succeeds iff an entry is free; the new abstract state is that of the begun promotion |
| `Mapping.Mapping.PromotionComplete` | dm-cache/lib/ssd_cache_mapping.c:380-395 | the array reaches the abstract state of the completed or abandoned promotion |
| `Mapping.Mapping.DemotionCleanToFree` | dm-cache/lib/ssd_cache_mapping.c:397-411 | succeeds iff more than half of the entries are clean; takes the clean head |
| `Mapping.Mapping.DemotionComplete` | dm-cache/lib/ssd_cache_mapping.c:413-429 | the array reaches the abstract state of the completed or abandoned demotion |
| `Mapping.Mapping.WritebackDirtyToClean` | dm-cache/lib/ssd_cache_mapping.c:431-452 | succeeds iff there is a dirty head that is not in flight; takes it and marks it clean |
| `Mapping.Mapping.WritebackComplete` | dm-cache/lib/ssd_cache_mapping.c:454-468 | the array reaches the abstract state of the completed or failed write-back |
| `Mapping.Mapping.LookupMapping` | dm-cache/lib/ssd_cache_mapping.c:575-595 | a hit returns the entry of the key, moved to the recent end if clean; a miss queues the key; the invariant is kept |
| `Mapping.Mapping.LookupMappingWithInsert` | dm-cache/lib/ssd_cache_mapping.c:597-635 | table, lists, queue, result and block number are those of the protocol's full-write lookup, in all four branches |
| `Mapping.Mapping.InsertFresh` | dm-cache/lib/ssd_cache_mapping.c:624-631 | a fresh dirty entry under an absent key, at the dirty tail |
| `Mapping.Mapping.InsertMissed` | dm-cache/lib/ssd_cache_mapping.c:612-631 | after a miss inserts iff the key is not found queued and an entry is free |
| `Mapping.Mapping.RemoveMapping` | dm-cache/lib/ssd_cache_mapping.c:637-649 | removes the hit from its list and its chain and frees it; true iff there was one |
| `Mapping.Mapping.SetDirtyAfterWrite` | dm-cache/lib/ssd_cache_mapping.c:651-668 | ignores a freed block, only marks one in flight, and otherwise moves the entry to the dirty tail |
| `Mapping.Mapping.DoMigrationWork` | dm-cache/lib/ssd_cache_mapping.c:528-555 | one round of the worker on the arrays is one migration call of the specification and removes the front item, whatever was done |
| `WorkQueue.Ring.constructor` | dm-cache/lib/work_queue.c:3-8 | zeroed memory is an empty queue |
| `WorkQueue.Ring.InitWorkQueue` | dm-cache/lib/work_queue.c:3-8 | empties the queue |
| `WorkQueue.Ring.IsEmpty` | dm-cache/lib/work_queue.c:17-22 | true iff nothing is queued |
| `WorkQueue.Ring.ContainsWork` | dm-cache/lib/work_queue.c:24-36 | the scan ends across the wrap-around and is true iff a queued name with that index is a prefix of the asked one, character by character; false implies that the exact key is not queued |
| `WorkQueue.Ring.InsertWork` | dm-cache/lib/work_queue.c:38-60 | true iff fewer than MAX-1 items are queued and the key is not among them; then it is the last item, otherwise nothing changes |
| `WorkQueue.Ring.RemoveWork` | dm-cache/lib/work_queue.c:62-73 | drops the oldest item; false and no change iff there is none |
| `WorkQueue.Ring.PeakWork` | dm-cache/lib/work_queue.c:75-87 | returns the oldest item iff there is one |
| `WorkQueue.Ring.SizeIsDistance` | dm-cache/lib/work_queue.c:54-71 | `size` is the distance from `front` to `rear` modulo the ring length |
| `QueueSpec.QueuedIsContained` | dm-cache/lib/work_queue.c:24-36 | the prefix scan never misses a queued key |
| `QueueSpec.InsertAppends` | dm-cache/lib/work_queue.c:38-60 | a key not queued becomes the last item while a slot is left, and is queued afterwards unless the ring is full |
| `QueueSpec.ContainsIff` | dm-cache/lib/work_queue.c:27-29 | the scan is positive exactly if some queued item has the same index and a name that the asked one begins with, character by character |
| `QueueSpec.NotContainedIff` | dm-cache/lib/work_queue.c:27-29 | it is negative exactly if every queued item has another index, a longer name or another character somewhere |
| `QueueSpec.PopKeepsNotContained` | dm-cache/lib/work_queue.c:62-73 | what the scan did not find is not found after a removal either |
| `QueueSpec.InsertKeepsDistinct` | dm-cache/lib/work_queue.c:38-60 | the queue stays duplicate-free, shorter than the ring, and keeps what it had in order |
| `Locks.Spinlock.Lock` | dm-cache/lib/atomic.c:16-19 | whatever the other threads leave in the word, the loop takes the lock at the first turn that finds it free |
| `Locks.Process.constructor` | dm-cache/lib/atomic.c:12-14 | two fresh locks and any number of idle threads are the initial machine |
| `Locks.Process.Turn` | dm-cache/lib/atomic.c:3-23 | a turn of a thread on the lock words in memory, a strong compare-exchange or a store, is the step of the machine that the theorems below are about |
| `Locks.TraceOfOrderedCode` | dm-cache/lib/work_queue.c:24-87 | what is checked once on the branches and calls of a function body holds of every way through it |
| `Locks.EveryPathIsOrdered` | dm-cache/lib/ssd_cache_mapping.c:575-634 | every way through every function, with its unlocks where its return statements have them, releases what it took, takes no lock twice, takes nothing under the queue lock, and works on the mapping and the queue only under the lock of each |
| `Locks.MutualExclusion` | dm-cache/lib/atomic.c:16-23 | in every run of any number of threads each lock has at most one holder, the lock word tells whether it has one, and a thread outside a function holds none |
| `Locks.AccessIsExclusive` | dm-cache/lib/ssd_cache_mapping.c:575-668 | in every run a thread that works on the mapping or on the queue holds the lock of it and no other thread does, so no two threads ever work on the same one |
| `Locks.FunctionsAreSections` | dm-cache/lib/ssd_cache_mapping.c:362-668 | every function but `do_migration_work` is one critical section: on every path it takes the lock of what it works on first, gives it back last and keeps it between, so it counts as one step |
| `Locks.NoDeadlock` | dm-cache/lib/work_queue.c:24-87 | in every reachable state with a thread inside a function some thread can take a step that is not a failed compare-exchange |
| `Locks.EveryoneCanLeave` | dm-cache/lib/atomic.c:16-23 | from every reachable state all threads can leave with both locks free, in exactly as many steps as there are lock operations left |
| `Sgl.IoReq.constructor` | dm-cache/lib/spdk.c:210-215 | a new request starts at element 0; its offset is whatever was in memory |
| `Sgl.IoReq.ResetSgl` | dm-cache/lib/spdk.c:222-233 | the cursor stands where exactly the bytes from the given offset on lie ahead; behind the end the excess stays in the offset |
| `Sgl.IoReq.NextSge` | dm-cache/lib/spdk.c:234-255 | hands out the rest of the current element and moves to the next; what lay ahead is that segment followed by what lies ahead now |
| `Sgl.IoReq.Gather` | dm-cache/lib/spdk.c:222-255 | reset followed by repeated next yields, for every offset and length inside the array and any zero-length elements, exactly those bytes of the concatenated buffers |
| `PageIo.Pio.constructor` | dm-cache/lib/pio.c:3-17 | a new request ends its chain |
| `PageIo.CreatePio` | dm-cache/lib/pio.c:3-17 | there is a request iff there was memory for it |
| `PageIo.AppendPio` | dm-cache/lib/pio.c:19-26 | the walk ends; the chain is one node longer with the next page index and the buffer, or unchanged if there was no memory |
| `PageIo.AdjacentPages` | dm-cache/lib/pio.c:24-24 | each request of a chain is for the page after that of the one before it, modulo 2^32, and like it otherwise |
| `PageIo.BuildChain` | dm-cache/lib/pio.c:3-26 | one creation and k-1 appends give an acyclic chain of k nodes with the buffers in order on consecutive pages |
| `PageIo.PioToIovec` | dm-cache/lib/ssd_cache_target.c:8-15 | the first `pio_cnt` buffers in order, each a whole page |
| `PageIo.RequestAddresses` | dm-cache/lib/ssd_cache_target.c:23-26 | chain, iovec array and cursor together reach the first `count` bytes of the caller's buffers in order, for any count they hold |
| `PageIo.PageVecAt` | dm-cache/lib/ssd_cache_target.c:8-15 | byte o of a transfer is byte o mod 4096 of buffer o / 4096 |
| `Addressing.PageFitsIff` | dm-cache/lib/ssd_cache_mapping.c:327-328 | the derived shift gives a page exactly its 4096 bytes iff the block size is a power of two up to 4096 |
| `Addressing.TargetIsExact` | dm-cache/lib/ssd_cache_target.c:17-20 | for such block sizes an accepted request stays inside its cache block, with no wrap-around of the 32-bit block number |
| `Addressing.TransfersExactlyItsPages` | dm-cache/lib/ssd_cache_target.c:17-26 | a device block is transferred iff it belongs to that cache block and to a page of the request |
| `Addressing.RequestsDoNotOverlap` | dm-cache/lib/ssd_cache_target.c:36-45 | requests to different cache blocks or disjoint page ranges share no device block |
| `Addressing.MigrationCoversTheBlock` | dm-cache/lib/ssd_cache_mapping.c:489-490 | the worker's transfer covers the same blocks as the full request for that cache block |
| `Addressing.OffsetsAgree` | dm-cache/lib/ssd_cache_mapping.c:483-483 | request path and worker compute the same origin offset for a page, even where it wraps |
| `Addressing.OffsetIsExactIff` | dm-cache/lib/ssd_cache_target.c:69-72 | the 32-bit offset of a page is its real one iff the page index is below 2^20 |
| `Addressing.OffsetsCollideIff` | dm-cache/lib/ssd_cache_target.c:94-97 | two pages share an offset iff their indexes are equal modulo 2^20 |
| `Addressing.CheckPioIff` | dm-cache/lib/ssd_cache_target.c:124-124 | a request is accepted iff all its pages lie in the block of the first one |
| `Addressing.OverwritableIff` | dm-cache/lib/ssd_cache_target.c:126-129 | an accepted request counts as overwriting iff it covers every page of its block |
| `Addressing.GatherTransfer` | dm-cache/lib/spdk.c:222-255 | for the byte count of a request the driver gathers exactly the addresses that the transfer theorems speak of |
| `DeviceBlocks.WriteIsPatch` | dm-cache/lib/ssd_cache_target.c:17-34 | under any reading of the bytes of a page as its contents an accepted vectored write to the device is a patch of its cache block with the pages of the buffers and leaves every other block as it was |
| `DeviceBlocks.ReadIsSlice` | dm-cache/lib/ssd_cache_target.c:36-52 | an accepted vectored read fills the buffers with the slice of the cache block that the request names |
| `Addressing.WriteThenRead` | dm-cache/lib/ssd_cache_target.c:17-52 | for a block size that is a power of two up to 4096: an accepted vectored write and then a vectored read of any subrange of its pages, each moving the block count it asks the device for, give every byte of every page back, for readers' buffers that do not overlap |
| `Addressing.OtherPagesAreUntouched` | dm-cache/lib/ssd_cache_target.c:17-34 | a write changes no byte of any other cache block or page |

## Left out

- Mapping.Mapping.RemoveMapping: requires that a hit is not in flight; the code does not check it, and `IndexList.DeleteIsExactIffListed` shows that this is exactly when the list operation is correct.
- Mapping.Mapping.InitMapping: the array has exactly the requested number of entries, at most 2^28 - 1; array elements behind that number are never used.
- Mapping.Mapping.PromotionComplete: requires that the entry is pending and its key absent, which `Protocol.PromotedKeyIsUnhashed` proves at every call; the same holds for the other two completions.
- Mapping.Mapping.DoMigrationWork: the outcome of all device transfers of a call is one parameter; the transfers themselves are steps of `CacheStore`.
- A device transfer of a user that fails, after which nothing is marked (`dm-cache/lib/ssd_cache_target.c:27-30`), is not a step of the data layer; nor is a transfer that other steps can see half done.
- Protocol.QueueStepsInsideInsert: covers the one section that uses the queue lock twice; peeking and popping commute with every other section because they touch the queue and the worker only.
- CacheStore.Trim: in the runs a trim takes effect where it is submitted. `trim_spdk` (`dm-cache/lib/spdk.c:184-199`) does not wait for the device, so it can land after its block is in use again, even the victim's own; `StoreLimits.LateTrimIsHarmlessIff` says exactly when that does harm.
- Sgl.IoReq.Gather: the driver that calls the cursor is foreign code; the loop stands for its contract, which is to ask for elements until it has enough.
- The statistics counters, `info_mapping` and all printing.
- The flag bits of `param` as a bit field: they are three booleans of an entry.
- Locks.Spinlock.Lock: the other threads appear as the values they leave in the word, one of which is 0; without that the loop need not end. In the machine each turn of the loop is a step.
- Relaxed memory orders: the lock operations are sequentially consistent in the code.
- Opening, closing and creating files, file descriptors, short reads and `errno`: the origin is a total map from blocks to pages.
- The return codes of the origin and discard paths (`dm-cache/lib/ssd_cache_target.c:76`, `:101`, `:138`), which are nonzero on success.
- NVMe probing, queue pairs, buffers and completion polling in `dm-cache/lib/spdk.c`.
- Shared memory, process and thread life cycle in `dm-cache/lib/shm.c` and `dm-cache/lib/ssd_cache_api.c`.
- `is_full`, which compares with a size that is never reached and which the core does not call.
- Names of 32 characters and more, which overflow the fixed buffers they are copied into.
- The commented-out write-back worker: there is one worker.
- The page-cache layer under `page-cache/`.
