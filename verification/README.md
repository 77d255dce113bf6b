# Satchel replica: a verified model

Satchel is a replicated block device. One writer at a time holds a lease on a
volume. Block writes are collected into generations, made durable in a local
journal and published as deltas and checkpoints under a head document in an
object store. This project models `internal/replica` in Dafny and proves what
its parts promise to each other, up to crash durability of the whole.

Check everything with `dafny verify dfyconfig.toml`.

## Layers

| layer | modules | main results |
|---|---|---|
| extents and restore plans | `Extents`, `RestorePlans`, `Restores` | extent operations are exact set operations; a plan applied to a zero image is the fold of all deltas; the plan a lease maintains incrementally agrees with the recomputed one |
| lease and head | `ObjectStores`, `LeaseProtocol`, `LeaseRuns` | single-writer history, fencing, publication exactly once although acknowledgements get lost, soundness of journal recovery |
| manifest placement and garbage | `ManifestStore`, `GarbageCollection`, `VolumeSteps`, `VolumeInvariants`, `CachedPlans`, `VolumeRuns`, `VolumeHazards` | every committed manifest stays readable while bodies move; collection, cut short anywhere, changes no retained image; over whole runs the plan a lease caches stays a fetchable plan of the committed chain, and the head and every retained generation restore to the fold of the published deltas exactly while the restore is short enough |
| local durability | `Generations`, `JournalFormat`, `Journals`, `Syncing`, `BlockBuffers`, `Durability`, `CrashRecovery`, `LocalRefinement` | torn tails, group commit, FIFO publication, immutability of sealed data, exactly when a mount recovers its journal, that crashes alone lose no acknowledged flush, and that the journal and the syncer refine the positions this is stated on |
| device | `LazyImages`, `Devices`, `Segments` | the lazy device reads like an eagerly restored one, dirty accounting is exact, a generation encoded into segments and restored is the generation |
| append head | `HeadKeys`, `HeadClaims` | at most one owner per epoch in every interleaving; names parse back and list newest first |

`Options`, `Bytes` and `Images` hold shared types and functions.

## How to read the model

- Protocols (`LeaseProtocol` with `LeaseRuns`, `ManifestStore` with `VolumeRuns`,
  `Durability` with `CrashRecovery`, `HeadClaims`, `BlockBuffers`) are state
  machines. `Enabled` says when a step may happen, `Apply` what it does, `Inv` is
  kept by every step, and the theorems quantify over every run.
- Objects that the source updates in place (`Journal`, `Syncer`, `Device`,
  `Memory`, the plan of a `Lease`) are classes; each method is one critical
  section. Loops of the source are loops here, proved against a specification.
- An ETag is a fresh version number (`ObjectStores`), and in `LeaseProtocol` the
  position of a version in the log of the head. A conditional write is a request
  that may land long after its sender gave up.
- Hashes, JSON and gzip are taken as injective and deterministic: a manifest or
  bundle key stands for one content. Clocks, expiry, failing fetches, failing
  syncs and interrupted collections are parameters or nondeterministic steps.
- A crash keeps any prefix of the journal file that reaches at least its last
  synced length.

## What the proofs found

- `CrashRecovery.MountRecoversIff`: an acknowledged flush is not always
  recovered. A mount with records recovers them exactly when the head it inspects
  is still in the epoch the journal was written in, or carries a lease of this
  node and is the very head the journal was based on. A mount that dies between
  acquiring the lease and rebasing the journal strands it if the head has moved
  since the journal's base: the next mount rejects it and the ones after refuse it
  (`CrashRecovery.InterruptedMountStrandsTheJournal`). A mount that fails there and
  releases the lease, an operator's break and any other node's lease strand it even
  if nothing was published. Without such events every crash is recovered from
  (`CrashRecovery.UndisturbedRecovers`).
- `VolumeRuns.HeadIsRestorable`: `restoreManifests` gives up after 1,000,000
  deltas, so the head is not always restorable. It is exactly when it has at most
  1,000,000 generations or a checkpoint is among its newest 1,000,001 manifests.
  A volume that only ever publishes deltas loses its head with number 1,000,001
  (`VolumeHazards.FirstTooLong`); a checkpoint from a cached plan repairs it, one
  from a plan that has to be read back fails the same way.
- `VolumeHazards.ReadyBundleGuard`: garbage collection keeps what the history from
  the head needs. A manifest bundle that the background worker has uploaded but
  no commit has installed is never part of that, and the collector marks it
  (`VolumeHazards.MarksReadyBundle`). Marks are by name, so a bundle that is packed
  again from the same manifests is deleted at once when the mark has expired, and
  installing it afterwards makes its manifests unreadable
  (`VolumeHazards.ReadyBundleIsLost`). `VolumeRuns` states its results for
  collections that spare such a bundle, whether the lease has already recorded it
  as ready or its upload is just under way or done.
- `Devices.MarkingConserves`: `captureNonZero` counts a block that is already
  active a second time (`Devices.MarkingTwiceMiscounts`). The account is right
  exactly when it captures no active block, as in its one use right after
  formatting.
- `HeadKeys.ParseInvertsKey`: a claim time of fourteen digits or more yields a
  key that `parseHeadKey` refuses (`HeadKeys.LateClaimIsRefused`); below that it
  inverts `key`.
- `ManifestStore.LastBranchIff`: the branch added after the defect described in
  docs/production-readiness.md matters exactly when a ready bundle leaves the
  inline area too full; without it a reachable commit names a manifest that is
  stored nowhere (`VolumeHazards.LastBranchIsNeeded`).
- `HeadClaims.SameVerdict`: `liveEntries` overwrites the slice that `deadClaim`
  still reads; that is sound because committed versions are never dropped.
- `Journals.Journal.TakeBatch`: the sync worker never finds an empty queue, so the
  early stop of `syncPending` is unreachable.

## Model

| member | source | states |
|---|---|---|
| `Extents.Validate` | internal/replica/extents.go:9-27 | accepts exactly the lists of non-empty, ascending, non-overlapping extents inside the volume, and then returns their total; 64-bit wrap-around of an end is written out and rejected |
| `Extents.WrappedEndIsEnd` | internal/replica/extents.go:9-27 | the "end below start" test detects overflow exactly, and a wrapped end that passes it is the true end |
| `Extents.Contains` | internal/replica/extents.go:29-44 | true if and only if every block of the inner list is in the outer list (neighbouring extents may touch) |
| `Extents.FirstEndingAfter` | internal/replica/extents.go:49-52 | the binary search returns the boundary between extents that end at or before a block and those that end after it |
| `Extents.Carve` | internal/replica/extents.go:53-74 | one extent minus the removed list, cursor by cursor: exactly the blocks not removed are appended, in order |
| `Extents.Subtract` | internal/replica/extents.go:46-76 | exact set difference with an ordered, disjoint result |
| `Extents.AppendMerged` | internal/replica/extents.go:84-98 | appending and merging an extent keeps the list canonical (ordered, with gaps) |
| `Extents.AppendMergedCovers` | internal/replica/extents.go:84-98 | appending an extent with merging adds exactly its blocks |
| `Extents.Compact` | internal/replica/extents.go:111-137 | the in-place compaction of a sorted array leaves the canonical list of the same blocks in its prefix |
| `Extents.Normalize` | internal/replica/extents.go:111-137 | any list, sorted or not, becomes the canonical list of the same blocks |
| `Extents.Union` | internal/replica/extents.go:80-109 | exact union, canonical, for an ordered left and an arbitrary right list |
| `Extents.SeparatedUnique` | internal/replica/extents.go:80-137 | canonical lists are unique: two that denote the same blocks are the same list, so union and normalise have one possible result |
| `Extents.Intersect` | internal/replica/segment.go:325-341 | exact intersection of an extent with an ordered list |
| `Extents.ByteRange` | internal/replica/extents.go:139-149 | the blocks of a byte range clamped to the image, empty for a range that starts outside it |
| `Extents.TotalIsSize` | internal/replica/remote.go:542-562 | the summed lengths of an ordered list count its blocks |
| `Extents.CountTestIsDisjointness` | internal/replica/remote.go:1501-1517 | the "covered count equals summed count" test holds if and only if the segments are pairwise disjoint |
| `Extents.ValidateDisjoint` | internal/replica/remote.go:1501-1517 | validating each list, adding the counts and counting their union accepts exactly the families of valid, pairwise disjoint lists |
| `Extents.ValidateDeclared` | internal/replica/remote.go:545-551 | one segment: its extents are valid and as many blocks as declared (at most as many in a checkpoint), and its zero extents are valid and among them; both directions |
| `Extents.ValidateSegments` | internal/replica/remote.go:542-562 | all segments of Publish or of a manifest: accepted exactly when each is well declared and they are pairwise disjoint |
| `RestorePlans.VisibleRefs` | internal/replica/remote.go:1731-1750 | of one manifest, a plan keeps exactly the blocks nothing newer covers, without its zero blocks, with the sources it names |
| `RestorePlans.RestorePlan` | internal/replica/remote.go:1725-1753 | the walk with a growing covered set gives disjoint references that name, for every block, the source of the newest manifest touching it (none for a zero block), each located where its manifest was read |
| `RestorePlans.NewestExtend` | internal/replica/remote.go:1725-1753 | reading one manifest further back decides only blocks nothing newer touched |
| `RestorePlans.ApplyDeltaToPlan` | internal/replica/remote.go:1124-1148 | the incremental plan: a block the delta touches has the delta's source (none if zero), any other the source it had, and every reference is stored where the delta or the old plan said |
| `Restores.DeltaExtends` | internal/replica/remote.go:1124-1148 | applying a delta to a plan of a chain gives a plan of the chain with that delta on top |
| `RestorePlans.CheckpointReady` | internal/replica/remote.go:1114-1122 | dropping carried bytes keeps extents and sources |
| `RestorePlans.AttachBundle` | internal/replica/remote.go:888-896 | recording a bundle changes only the location hint of the manifests that moved |
| `RestorePlans.RelocatedPlan` | internal/replica/remote.go:888-896 | rewriting location hints or carried bytes leaves the block-to-source map of a plan unchanged |
| `RestorePlans.CarriedIsIrrelevant` | internal/replica/remote.go:1101-1112 | a reference names the same source whether or not it carries the inline bytes and whichever bundle was recorded |
| `Restores.RestoreMeansFold` | internal/replica/remote.go:1695-1753 | for every history built by deltas and checkpoints, the source the restore chain names for a block holds what folding all deltas leaves there |
| `Restores.PlanIsTruthful` | internal/replica/remote.go:1725-1753 | whatever a plan names was published with that content and lies inside the volume |
| `Restores.AppliedAt` | internal/replica/remote.go:1958-1995 | applying disjoint references writes each block once, with its own reference's content |
| `Restores.ReorderedPlan` | internal/replica/remote.go:1958-1995 | any order of the references is the same plan |
| `Restores.RestoreCorrect` | internal/replica/remote.go:1233-1253 | for every history and every generation g, applying the plan to a zero image in any worker order equals folding deltas 1..g |
| `Restores.BuiltExtend` | internal/replica/remote.go:456-468 | publishing a delta writes it over the meaning of the history; publishing a checkpoint changes nothing and cuts the restore chain |
| `Restores.LeasePlan.constructor` | internal/replica/remote.go:249-315 | a fresh lease knows the plan only of an empty volume |
| `Restores.LeasePlan.CommitDelta` | internal/replica/remote.go:445-468 | while the plan is known it stays a plan of the committed chain across a delta, with or without a bundle installed by the same commit |
| `Restores.LeasePlan.InstallBundle` | internal/replica/remote.go:445-454 | installing a bundle keeps the cached plan a plan of the same chain |
| `Restores.LeasePlan.PublishCheckpoint` | internal/replica/remote.go:683-719 | a checkpoint restates the cached or recomputed plan: the image does not change and the plan is known afterwards |
| `Restores.LeasePlan.SeedFromLazyRestore` | internal/replica/lazy.go:63-76 | a plan computed from a snapshot seeds the cache only when the head is still at that generation |
| `ObjectStores.Memory.Put` | internal/objectstore/memory.go:36-40 | one more version under a tag no version of any key ever had |
| `ObjectStores.Memory.Get` | internal/objectstore/memory.go:26-34 | returns the newest version unless the key is absent |
| `ObjectStores.Memory.PutIfAbsent` | internal/objectstore/memory.go:42-49 | takes effect exactly when the key is absent (or the store ignores conditions) |
| `ObjectStores.Memory.PutIfMatch` | internal/objectstore/memory.go:51-59 | a write on top of version p takes effect exactly when p is the newest version and was not deleted; an unknown tag never matches |
| `ObjectStores.Memory.Commit` | internal/replica/head.go:96-105 | takes effect exactly when the version it was based on is the newest and not deleted, or there is no head of either mode; without deletions, exactly when no other commit did since: the guard of LeaseProtocol's landing step |
| `LeaseRuns.BeginAcquireKeeps` | internal/replica/remote.go:249-315 | drawing a token and sending the acquiring write keeps the protocol invariant |
| `LeaseRuns.AcquireDoneKeeps` | internal/replica/remote.go:296-315 | an acquisition learned by acknowledgement or by reading back puts the lease at a version of its own |
| `LeaseRuns.BeginBreakKeeps` | internal/replica/remote.go:1205-1227 | a break raises the epoch and clears the lease without touching the manifest |
| `LeaseRuns.RenewKeeps` | internal/replica/remote.go:381-415 | renewal and release keep the invariant, with an outcome of unknown fate pending |
| `LeaseRuns.PublishKeeps` | internal/replica/remote.go:1035-1099 | sending a delta on top of the lease's state keeps the invariant |
| `LeaseRuns.CheckpointKeeps` | internal/replica/remote.go:683-719 | sending a checkpoint keeps the invariant |
| `LeaseRuns.CommitDoneKeeps` | internal/replica/remote.go:476-486 | a commit learned by acknowledgement or read-back advances the lease to the version that really is in the log |
| `LeaseRuns.CommitErrorKeeps` | internal/replica/remote.go:1042-1098 | an error leaves the outcome open, remembered or not, and everything that may still land is accounted for |
| `LeaseRuns.ResolvePendingKeeps` | internal/replica/remote.go:417-443 | adopting or dropping a remembered commit after looking at a head that was read earlier and may be replaced by now keeps the invariant |
| `LeaseRuns.RunKeepsBreakers` | internal/replica/remote.go:1205-1227 | in every run a token that broke a lease never holds one |
| `LeaseRuns.ConsumeKeeps` | internal/replica/remote.go:580-594 | returning nil for an adopted publication of the same segments counts it once |
| `LeaseRuns.LandKeeps` | internal/replica/head.go:96-105 | a conditional write that lands late extends the log by a legal transition |
| `LeaseRuns.StepKeeps` | internal/replica/remote.go:249-1227 | every step of every node keeps the protocol invariant |
| `LeaseRuns.RunKeeps` | internal/replica/remote.go:249-1227 | the invariant holds in every state of every run |
| `LeaseRuns.SingleWriterHistory` | internal/replica/remote.go:381-415 | in every run committed heads form one chain: epochs never decrease, the generation moves by at most one onto the old manifest, and no commit discards a manifest |
| `LeaseRuns.OneLeasePerEpoch` | internal/replica/remote.go:249-315 | each epoch is acquired by at most one lease and each lease acquires one epoch |
| `LeaseRuns.FencedForever` | internal/replica/remote.go:476-486 | after a higher epoch is committed, the token of a lower epoch's lease writes no version again, as its holder, by acquiring or otherwise |
| `LeaseRuns.PublishedOnce` | internal/replica/syncer.go:222-247 | when publishing with retries returns nil, exactly its segments were added once on top of what the head held at the start, all versions in between being this lease's own |
| `LeaseRuns.PublishNeverTears` | internal/replica/remote.go:516-578 | at every moment of a publish call, failed and retried attempts included, the head holds the old content, or that plus exactly the call's segments, or a higher epoch |
| `LeaseRuns.RecoverySound` | internal/replica/journal.go:141-167 | in every run, if recovery is accepted for a head just acquired, everything published since the journal's base was published by the journal's own writer epoch |
| `ManifestStore.WalkMonotone` | internal/replica/remote.go:1336-1376 | additional objects never change where the bundle walk finds a manifest |
| `ManifestStore.ReadMonotone` | internal/replica/remote.go:1336-1376 | a manifest that can be read is read from the same place in a larger store |
| `ManifestStore.PlacementStoresTheBody` | internal/replica/remote.go:728-820 | for every inline area, body size and ready bundle, the body is embedded or archived, and embedding stays within 64 KiB |
| `ManifestStore.LastBranchIff` | internal/replica/remote.go:728-762 | the decision without its last branch differs from the real one, and stores the body nowhere, if and only if a ready bundle leaves the inline area too full for a body small enough to embed |
| `ManifestStore.PackContent` | internal/replica/remote.go:843-886 | packing the inline area gives a bundle of committed manifests whose range is strictly above its parent's |
| `ManifestStore.AppliesOnTop` | internal/replica/remote.go:929-954 | a bundle that passes the check was packed on the head's current bundle from strictly newer generations |
| `ManifestStore.InstallReads` | internal/replica/remote.go:956-965 | installing a stored bundle that was packed earlier loses no manifest, whatever was published since |
| `ManifestStore.StartArchiveKeeps` | internal/replica/remote.go:967-1004 | packing in the background keeps the placement invariant |
| `ManifestStore.ArchiveDoneKeeps` | internal/replica/remote.go:967-1004 | a bundle that reaches the store, and recording it as ready or as failed, keep it |
| `ManifestStore.UpdateKeeps` | internal/replica/remote.go:381-415 | a renewal that installs the ready bundle, also during a publication, keeps it |
| `ManifestStore.BeginPublishKeeps` | internal/replica/remote.go:728-820 | taking the snapshot and deciding the placement keeps it |
| `ManifestStore.UploadKeeps` | internal/replica/remote.go:764-815 | uploading segments, bodies and bundles before the commit keeps it |
| `ManifestStore.CommitCore` | internal/replica/remote.go:1035-1099 | after the commit the new manifest and every older uncollected one can be read and the inline budget holds, also when a renewal moved manifests since the snapshot |
| `ManifestStore.CommitKeeps` | internal/replica/remote.go:1035-1099 | a commit keeps the placement invariant |
| `ManifestStore.StepKeeps` | internal/replica/remote.go:728-1099 | every step keeps it |
| `GarbageCollection.RestoreManifests` | internal/replica/remote.go:1695-1720 | returns the manifests from a generation back to its nearest checkpoint, newest first; fails exactly when one of them cannot be read or more than 1,000,000 of them are deltas |
| `GarbageCollection.LimitIff` | internal/replica/remote.go:1712-1714 | the limit is respected if and only if the generation is at most 1,000,000 or a checkpoint is among its newest 1,000,001 manifests |
| `GarbageCollection.LoadHistory` | internal/replica/remote.go:1280-1320 | returns the longest readable stretch below the head; fails exactly when the first unreadable manifest has no checkpoint above it or more than 1,000,000 manifests are read |
| `GarbageCollection.FindBundlePath` | internal/replica/remote.go:1849-1884 | the bundles a later search passes through; nothing for an inline or standalone body; an error when the chain is broken |
| `GarbageCollection.KeepRef` | internal/replica/remote.go:1575-1592 | what one reference keeps, and an error exactly when its source cannot be located |
| `GarbageCollection.KeepSegments` | internal/replica/remote.go:1575-1592 | the union over the segments of a manifest |
| `GarbageCollection.KeepSet` | internal/replica/remote.go:1568-1594 | the objects the retained entries need, and no others |
| `GarbageCollection.KeepThrough` | internal/replica/remote.go:1559-1567 | retention ends at the newest checkpoint that is old enough, or covers everything |
| `GarbageCollection.WalkSurvives` | internal/replica/remote.go:1336-1376 | the bundle walk ends in the same place when none of the bundles on its path is gone |
| `GarbageCollection.PathIsKept` | internal/replica/remote.go:1547-1598 | keeping each retained manifest's own bundle is enough to keep every bundle the reads pass through |
| `GarbageCollection.ReadSurvives` | internal/replica/remote.go:1336-1376 | a retained manifest is found where it was |
| `GarbageCollection.SearchSurvives` | internal/replica/remote.go:1864-1884 | the search for an inline source succeeds along the same bundles |
| `GarbageCollection.FetchSurvives` | internal/replica/remote.go:1886-1956 | a segment that could be fetched still can be |
| `GarbageCollection.RestoreStaysAbove` | internal/replica/remote.go:1695-1720 | a restore of a retained generation never looks below the retained part of the history, and ends the same way |
| `GarbageCollection.CollectPreservesImages` | internal/replica/remote.go:1547-1688 | whatever part of the objects outside the keep set is gone, every retained generation that was restorable, within the length limit, restores to the same image |
| `GarbageCollection.Mark` | internal/replica/remote.go:1551-1594 | fails exactly when the history or a source cannot be read; otherwise keeps exactly what the manifests from the floor on need, the floor being the newest old-enough checkpoint or the end of what can be read behind a checkpoint, and always at or below the head |
| `GarbageCollection.Sweep` | internal/replica/remote.go:1609-1645 | deletes exactly the first expired unkept objects in record order, as many as it gets to, and all of them if it finishes; expired records it got through are gone, the one it stopped in and all later ones stay, as do records that are not expired |
| `GarbageCollection.NewRecords` | internal/replica/remote.go:1646-1688 | the new garbage, split into records of at most 1000 objects that together list exactly it |
| `GarbageCollection.CollectGarbage` | internal/replica/remote.go:1547-1688 | a failed mark changes nothing; otherwise exactly the manifests from the floor on, the head among them, are retained, exactly the first expired unneeded objects go, the processed records go and the others stay, new garbage is recorded if and only if the sweep finishes, and every retained generation keeps its image |
| `GarbageCollection.FloorUnique` | internal/replica/remote.go:1555-1567 | history, cutoff and what can be read determine the floor |
| `GarbageCollection.UnneededMayGo` | internal/replica/remote.go:1568-1594 | deleting any objects that no manifest from the floor on needs keeps all of them readable and bounded |
| `VolumeRuns.CollectKeeps` | internal/replica/remote.go:1524-1536 | a collection between publications keeps the placement invariant above the retained floor |
| `VolumeSteps.StepCarries` | internal/replica/remote.go:728-1099 | no step of publishing, packing or renewing makes a readable manifest or fetchable segment unavailable |
| `VolumeSteps.ImagesCarryOver` | internal/replica/remote.go:1695-1753 | then every restorable generation restores to the same image |
| `VolumeRuns.RunKeeps` | internal/replica/remote.go:728-1688 | in every state of every run of publishing, packing, renewing, taking over, preparing and seeding plans and collecting: the placement invariant holds, every segment named above the floor can be fetched, recorded locations are installed bundles, the history is what publishing builds, and the cached plan is a plan of it that can be fetched |
| `VolumeRuns.PlacementInvariant` | internal/replica/remote.go:1035-1099 | in every reachable state inline bytes are at most 64 KiB, inline generations are newer than the head bundle's last, bundle ranges decrease strictly along parents, and every uncollected generation is readable |
| `VolumeRuns.ImagesAreStable` | internal/replica/remote.go:1547-1688 | over any run a restorable generation keeps its image until a collection drops it |
| `VolumeRuns.CachedPlanAgrees` | internal/replica/remote.go:445-468 | in every run, while the lease knows a plan, it is a plan of the committed chain and every reference in it can be fetched |
| `CachedPlans.RecomputedIsOk` | internal/replica/remote.go:683-697 | a plan read back from the manifests, made ready for a checkpoint, is a plan of the chain whose locations are bundles of the head |
| `CachedPlans.PlanIsThere` | internal/replica/remote.go:683-719 | what such a plan names can be fetched, and its locations are installed |
| `CachedPlans.AttachKeeps` | internal/replica/remote.go:888-896 | rewriting the location hints when a bundle is installed keeps the plan a plan of the chain with locations in the new head |
| `CachedPlans.DeltaCommitted` | internal/replica/remote.go:456-468 | a committed delta laid over such a plan gives one of the longer chain |
| `CachedPlans.CheckpointCommitted` | internal/replica/remote.go:456-468 | the references of a committed checkpoint are such a plan |
| `CachedPlans.CollectKeepsPlan` | internal/replica/remote.go:1547-1688 | a collection deletes nothing such a plan points at |
| `VolumeRuns.BeginCheckpoint` | internal/replica/remote.go:683-719 | a checkpoint that restates the cached plan, or one read back, restates the chain, and each reference in it can be fetched now or once the bundle of its own commit is stored |
| `VolumeRuns.CommitPlan` | internal/replica/remote.go:445-468 | after a commit, of a delta or of a checkpoint, the plan the lease keeps is a plan of the new chain with locations in the new head |
| `VolumeRuns.CommitSound` | internal/replica/remote.go:1035-1099 | a commit leaves every segment of the new manifest fetchable and extends the history by a valid delta or a plan-restating checkpoint |
| `VolumeRuns.CollectSound` | internal/replica/remote.go:1547-1688 | a collection leaves every segment named above the floor, and every reference of the cached plan, fetchable |
| `VolumeRuns.Restorable` | internal/replica/remote.go:1233-1253 | in every run a generation whose restore stays above the floor restores, to the fold of the deltas published up to it, if and only if a checkpoint is among its newest 1,000,001 manifests or it is at most generation 1,000,000 |
| `VolumeRuns.HeadIsRestorable` | internal/replica/remote.go:1233-1253 | in every run the head restores, to the fold of all published deltas, under exactly that condition |
| `VolumeHazards.ReadyIsNeverKept` | internal/replica/remote.go:1568-1594 | no keep set covers a bundle that is ready to be installed |
| `VolumeHazards.ReadyBundleGuard` | internal/replica/remote.go:1547-1688 | for every collection and the renewal after it: all retained manifests can be read if and only if the ready bundle is not among the first victims, or holds nothing retained; an uninterrupted collection deletes it exactly when an expired record lists it |
| `VolumeHazards.MarksReadyBundle` | internal/replica/remote.go:1646-1688 | the collector itself marks a bundle that is ready, and a lease that takes over packs the same manifest under the same name again |
| `VolumeHazards.ReadyBundleIsLost` | cmd/satchel/vol.go:55-85 | a run of publishing, packing, taking over and packing again after which a collection with the expired mark and the release that follows leave the only generation unreadable |
| `VolumeHazards.LostWithoutLast` | docs/production-readiness.md:69-98 | whenever the last branch of the placement decision is needed and missing, the commit leaves a head whose own manifest cannot be read |
| `VolumeHazards.LastBranchIsNeeded` | docs/production-readiness.md:69-98 | a run that reaches such a publication: bodies of 16384, 40000 and 30000 bytes |
| `VolumeHazards.FirstTooLong` | internal/replica/remote.go:1712-1714 | runs that publish 1,000,000 and 1,000,001 deltas: the head of the first restores, the head of the second does not |
| `VolumeSteps.RestoredIsFold` | internal/replica/remote.go:1233-1253 | wherever the bodies lie, a restore that succeeds on a history of valid deltas and plan-restating checkpoints is the fold of the deltas up to its generation |
| `Generations.MergeGenerations` | internal/replica/syncer.go:249-257 | the loop computes the merge in which later generations win |
| `Generations.MergedIsFold` | internal/replica/syncer.go:249-257 | publishing the merged blocks equals applying every generation in order |
| `Generations.FoldAt` | internal/replica/device.go:175-198 | a touched block forgets the image below, an untouched one shows it |
| `Generations.PublishShows` | internal/replica/syncer.go:185-214 | publishing the next generations advances the prefix the head shows, even if the head already held some of them |
| `Generations.ReplayRestores` | internal/replica/device.go:175-198 | replaying a suffix that reaches back to what the head shows gives every generation, although the head may already hold some of the replayed ones |
| `CrashRecovery.SealKeeps` | internal/replica/journal.go:199-265 | sealing into log and journal keeps the durability invariant |
| `CrashRecovery.LandKeeps` | internal/replica/syncer.go:185-214 | a publication that takes effect keeps it |
| `CrashRecovery.AckKeeps` | internal/replica/journal.go:314-350 | acknowledging, with or without compaction under the new base, keeps it |
| `CrashRecovery.CrashKeeps` | internal/replica/journal.go:100-139 | losing any unsynced tail loses no acknowledged and no published generation |
| `CrashRecovery.LateLandKeeps` | internal/replica/remote.go:417-443 | a publication of the dead process that lands after the crash keeps it |
| `CrashRecovery.AcquireKeeps` | internal/plugin/driver.go:391-410 | inspecting the head and acquiring the lease, with a late publication still possible, keep it |
| `CrashRecovery.RejectKeeps` | internal/plugin/driver.go:418-436 | rejecting the journal, or failing before or after the rebase, and releasing the lease keep it |
| `CrashRecovery.AcceptedIsOwn` | internal/replica/journal.go:141-167 | a journal that validates against the acquired head belongs to a head nobody else has written since |
| `CrashRecovery.RecoverKeeps` | internal/plugin/driver.go:431-480 | acquire, validate, rebase, restore and replay yield the base overlaid by the whole surviving log |
| `CrashRecovery.StepKeeps` | internal/plugin/driver.go:368-549 | every step of this node, of other nodes and of an operator keeps the invariant |
| `CrashRecovery.RunKeeps` | internal/plugin/driver.go:368-549 | the invariant holds in every state of every run |
| `CrashRecovery.RecoveryRestores` | internal/plugin/driver.go:431-480 | in every run, a mount that replays its journal shows the base overlaid by the surviving generations in order, which include every flush-acknowledged one; when a mount does so is MountRecoversIff |
| `CrashRecovery.MountRecoversIff` | internal/replica/journal.go:141-167 | in every run a mount with records that inspects, acquires and validates recovers them if and only if the inspected head is still in the journal's writer epoch, or carries a lease of this node and is exactly the journal's base; it then shows every surviving generation |
| `CrashRecovery.AcquiredRecoversIff` | internal/plugin/driver.go:431-438 | if others act between inspection and acquisition: the validation after it accepts if and only if the acquired epoch is the one after the journal's, or the head is unchanged |
| `CrashRecovery.UndisturbedRecovers` | internal/plugin/driver.go:368-549 | in every run in which no other node and no operator takes the lease and no mount is interrupted between acquiring and rebasing, every mount after every crash recovers every acknowledged generation |
| `CrashRecovery.InterruptedMountStrandsTheJournal` | internal/plugin/driver.go:405-436 | a run of this node alone in which a mount dies between acquiring and rebasing: the next one rejects the journal, and from then on it is refused, with an acknowledged generation only in it |
| `CrashRecovery.EmptyJournalMeansPublished` | internal/plugin/driver.go:383-390 | a mount without records: everything sealed before is in the head this node last wrote |
| `CrashRecovery.AcknowledgedSurvive` | internal/replica/journal.go:199-350 | acknowledged generations stay, in order, across any number of crashes, late commits and mounts |
| `CrashRecovery.PublishedIsDurable` | internal/replica/syncer.go:120-214 | nothing is published before its record is synced, only published entries are dropped, and a remote flush that returned nil covers only generations the head was given |
| `LocalRefinement.EmptyMatches` | internal/plugin/driver.go:383-390 | a new journal and an empty syncer stand for the positions of a mount without records |
| `LocalRefinement.RecoveredMatches` | internal/plugin/driver.go:431-480 | a journal opened with its records and a syncer started on them stand for the positions of a mount that recovers |
| `LocalRefinement.SealMatches` | internal/replica/journal.go:244-257 | a record appended to the journal and sealed for the syncer is a seal in the durability state |
| `LocalRefinement.SyncMatches` | internal/replica/journal.go:286-311 | a sync of the journal that returns moves the synced position to what it covered |
| `LocalRefinement.NextIsNext` | internal/replica/syncer.go:134-155 | by the order the syncer keeps, the next queued generation is the next sealed one that is not pending |
| `LocalRefinement.CollectMatches` | internal/replica/syncer.go:134-155 | a generation becomes pending exactly at the taken position, and only when it is durable |
| `LocalRefinement.PendingIsStretch` | internal/replica/syncer.go:185-214 | the pending generations are the stretch of the log between the first and the taken position |
| `LocalRefinement.AcknowledgeMatches` | internal/replica/journal.go:314-350 | acknowledging the last pending sequence number leaves exactly the entries behind the taken position, in the file too if it compacts |
| `LocalRefinement.PublishMatches` | internal/replica/syncer.go:185-214 | publishing everything pending and acknowledging it is sending, landing and acknowledging in the durability state, with the merged generation in the head and compaction by the byte thresholds |
| `Journals.EnqueueEmptyKeeps` | internal/replica/journal.go:206-228 | an empty flush joins the sync in flight only when that sync covers every record before it |
| `Journals.EnqueueRecordKeeps` | internal/replica/journal.go:230-265 | a flush with data waits for a sync that starts later; a failed append answers at once |
| `Journals.BatchTakenKeeps` | internal/replica/journal.go:270-284 | the worker takes every waiter, or stops with nobody waiting |
| `Journals.BatchSyncedKeeps` | internal/replica/journal.go:286-311 | a sync answers its batch and those who joined; a failed one also answers those behind it |
| `Journals.NilMeansDurable` | internal/replica/journal.go:199-312 | a nil answer covers every record appended before its flush; when the worker has stopped nobody waits |
| `Journals.GroupCommit` | internal/replica/journal.go:199-312 | the same over every interleaving of flushes, worker steps, compactions and close |
| `Journals.AcknowledgeSplits` | internal/replica/journal.go:333-340 | in a journal with growing sequence numbers the acknowledged entries are a prefix |
| `Journals.AcknowledgeDropsPublished` | internal/replica/journal.go:333-340 | acknowledging the last published sequence number drops exactly the published entries |
| `Journals.AppendedOk` | internal/replica/journal.go:244-257 | appending keeps sequence numbers growing and the byte accounts exact |
| `Journals.AcknowledgedOk` | internal/replica/journal.go:314-350 | the file holds what it held or, after compaction, exactly the remaining entries; the reclaim account is exact and afterwards below the threshold |
| `Journals.Partition` | internal/replica/journal.go:333-340 | the loop keeps the newer entries in order and counts the bytes of the others |
| `Journals.Journal.constructor` | internal/replica/journal.go:85-139 | records in order, the next sequence number above all of them, exact byte counts, nobody waiting |
| `Journals.Journal.EnqueueGeneration` | internal/replica/journal.go:230-265 | the record stands behind all others and its flush waits for a sync covering it, with a worker on its way; or the flush is told of the error and no record is added; the invariant is kept |
| `Journals.Journal.EnqueueNothing` | internal/replica/journal.go:206-228 | told nil at once only if every record is on stable storage, told of an error exactly when the journal is broken or closed, and waits only while a worker runs |
| `Journals.Journal.TakeBatch` | internal/replica/journal.go:270-284 | a running worker always finds somebody waiting, takes all of them and starts a sync that covers every record |
| `Journals.Journal.SyncReturned` | internal/replica/journal.go:286-311 | everybody in the batch and those who joined are told the outcome; whoever is told nil has every earlier record on stable storage; after a failure nobody is left waiting |
| `Journals.Journal.Rewrite` | internal/replica/journal.go:386-450 | on success the file holds exactly the entries, synced, with nothing to reclaim; wherever it fails, no entry is lost and nothing durable stops being so |
| `Journals.Journal.Acknowledge` | internal/replica/journal.go:314-350 | exactly the newer entries remain, the file holds them or what it held, an error exactly for an unusable journal or a failing compaction, which breaks it; the invariant is kept |
| `Journals.Journal.Close` | internal/replica/journal.go:352-364 | later flushes are told of an error; nobody is forgotten |
| `Journals.Journal.Rebase` | internal/replica/journal.go:177-194 | succeeds exactly on a usable journal whose rewrite succeeds, and then every record is durable |
| `Syncing.EnqueueKeeps` | internal/replica/syncer.go:272-317 | published, pending and queued generations stay the seal order, and a remote flush waits for exactly the generations before it |
| `Syncing.CollectKeeps` | internal/replica/syncer.go:134-155 | making the next request pending keeps the order |
| `Syncing.PublishKeeps` | internal/replica/syncer.go:185-214 | what the head was given stays a prefix of what was sealed |
| `Syncing.Collected` | internal/replica/syncer.go:120-172 | the waiting loop: everything pending is durable, a failed wait stops it before its generation |
| `Syncing.Syncer.constructor` | internal/replica/syncer.go:43-59 | recovered generations are at the front of the queue |
| `Syncing.Syncer.Enqueue` | internal/replica/syncer.go:272-317 | a sealed generation is queued behind all earlier ones |
| `Syncing.Syncer.Dequeue` | internal/replica/syncer.go:332-342 | the oldest request |
| `Syncing.Syncer.BackgroundRequest` | internal/replica/syncer.go:102-109 | a background seal overtakes no queued flush |
| `Syncing.Syncer.Drain` | internal/replica/syncer.go:120-131 | up to 128 requests in queue order, stopping early only when the queue is empty |
| `Syncing.Syncer.Collect` | internal/replica/syncer.go:120-172 | pending generations grow by exactly the handled requests |
| `Syncing.Syncer.TakeUp` | internal/replica/syncer.go:120-155 | the two loops: the requests before the first failed wait become pending, in order |
| `Syncing.Syncer.Sync` | internal/replica/syncer.go:185-214 | on success everything pending is in the head as one merged generation; a publication that did not land leaves it pending; one the journal could not acknowledge is in the head |
| `Syncing.Syncer.Process` | internal/replica/syncer.go:120-161 | nil exactly when every wait returned nil and the publication landed, and then every generation sealed up to each remote flush is in the head, in seal order, and durable; after a failed publication all of it stays pending in order for the next call; after a failed wait nothing was published |
| `Syncing.Syncer.Finish` | internal/replica/syncer.go:156-172 | a requested checkpoint that fails is the waiters' error; one that was not requested is not, and either way everything is in the head |
| `BlockBuffers.CaptureKeeps` | internal/replica/device.go:391-426 | captured bytes go into a buffer that no sealed generation and no journal entry has |
| `BlockBuffers.AcknowledgeKeeps` | internal/replica/journal.go:314-350 | after an acknowledgement no remaining entry is among the generations about to be released |
| `BlockBuffers.ReleaseKeeps` | internal/replica/device.go:493-512 | returning a generation's buffers to the pool takes none from anybody else |
| `BlockBuffers.StepKeeps` | internal/replica/syncer.go:200-213 | every step keeps buffers exclusive |
| `BlockBuffers.RunKeeps` | internal/replica/syncer.go:200-213 | in every state of every run |
| `BlockBuffers.SealedIsImmutable` | internal/replica/device.go:358-363 | in every run each unreleased generation and each journal entry still has the bytes it was sealed with, and none of its buffers is pooled or active |
| `JournalFormat.RecordRoundTrip` | internal/replica/journal.go:471-504 | reading inverts encoding of a record, whatever follows |
| `JournalFormat.RecordTears` | internal/replica/journal.go:543-603 | a record cut at any byte is torn, never another record and never damage |
| `JournalFormat.TornTail` | internal/replica/journal.go:506-607 | for any generations and any cut, exactly the records wholly before the cut and their end are returned |
| `JournalFormat.WholeIsMaximal` | internal/replica/journal.go:506-607 | the surviving records fit before the cut and one more would not |
| `JournalFormat.JournalRoundTrip` | internal/replica/journal.go:506-607 | with no cut, reading inverts encoding |
| `JournalFormat.ReadRecords` | internal/replica/journal.go:540-606 | the offset-driven loop computes the recursive reader |
| `JournalFormat.CutJournalOpens` | internal/replica/journal.go:100-139 | a journal cut anywhere behind its header opens with exactly the whole records |
| `JournalFormat.RepairKeepsWholeRecords` | internal/replica/journal.go:116-127 | truncating to the valid length leaves the journal of the surviving records |
| `JournalFormat.AppendedRecordReadsBack` | internal/replica/journal.go:239-257 | a record appended to it reads back behind them |
| `HeadKeys.ParseInvertsKey` | internal/replica/head.go:124-152 | parsing inverts naming if and only if the claim time has at most thirteen digits; otherwise the name is refused |
| `HeadKeys.LateClaimIsRefused` | internal/replica/head.go:124-152 | a claim time of 10,000,000,000,000 gives a name that is refused; one less is read back |
| `HeadKeys.PaddedOrder` | internal/replica/head.go:124-126 | zero-padded numbers are ordered like the numbers |
| `HeadKeys.NewestFirst` | internal/replica/head.go:124-190 | string order lists newer epochs first, then groups by token, newest version first |
| `HeadClaims.ClaimWins` | internal/replica/head.go:290-301 | looking at the first entries of a listing decides that there is no newer epoch, no committed rival and no smaller token |
| `HeadClaims.BaseUnchanged` | internal/replica/head.go:303-313 | true exactly when the base is still the newest version of its owner |
| `HeadClaims.OwnerStillCurrent` | internal/replica/head.go:337-348 | true exactly when nobody is newer, no other owner committed in the epoch and nothing newer of the same owner exists |
| `HeadClaims.DeadClaim` | internal/replica/head.go:377-387 | an expired claim without a committed version |
| `HeadClaims.SameVerdict` | internal/replica/head.go:359-387 | while the slice is overwritten in place, the search for a committed version answers as in the untouched listing |
| `HeadClaims.LiveEntries` | internal/replica/head.go:359-375 | the in-place filter keeps exactly the entries that are not abandoned, in order, and every committed one |
| `HeadClaims.ConfirmedIsLater` | internal/replica/head.go:325-335 | a successful confirmation is newer than every earlier one |
| `HeadClaims.PruneKeeps` | internal/replica/head.go:391-414 | a late prune never removes the newest confirmed version or one that may still be confirmed |
| `HeadClaims.ConfirmKeeps` | internal/replica/head.go:325-335 | a confirmation keeps the election invariant |
| `HeadClaims.StepKeeps` | internal/replica/head.go:245-414 | every put, list, delete, reap, prune and late landing keeps it |
| `HeadClaims.RunKeeps` | internal/replica/head.go:245-414 | in every state of every run |
| `HeadClaims.OneOwnerPerEpoch` | internal/replica/head.go:245-288 | in every interleaving at most one token is ever confirmed per epoch, and confirmations never go back to an older epoch |
| `HeadClaims.ConfirmedHeadStays` | internal/replica/head.go:391-414 | the newest confirmed version stays in the store |
| `LazyImages.WantedRefs` | internal/replica/lazy.go:115-137 | the scan finds exactly the unloaded references that a requested, not locally written block needs |
| `LazyImages.ApplySegment` | internal/replica/remote.go:1917-1956 | exactly the selected blocks are written |
| `LazyImages.LoadKeeps` | internal/replica/lazy.go:138-156 | loading a reference fills in its blocks and no block written locally |
| `LazyImages.Hydrated` | internal/replica/lazy.go:138-156 | it succeeds exactly when every wanted reference with a block left to fill was fetched; with any fetch failing the image still stands for the same content and local writes are untouched |
| `LazyImages.Hydrate` | internal/replica/lazy.go:115-156 | it succeeds exactly when every reference a requested block needs was fetched, and then every requested block is in the local file |
| `LazyImages.SortedSources` | internal/replica/lazy.go:52-57 | the extents of all references, each with its reference, in block order |
| `Devices.WriteMeansBytes` | internal/replica/device.go:226-271 | a write changes exactly its bytes |
| `Devices.Boundaries` | internal/replica/lazy.go:84-105 | exactly the blocks a write covers only in part |
| `Devices.WriteKeeps` | internal/replica/lazy.go:84-113 | once those are fetched, a write to the file is a write to what the lazy image stands for |
| `Devices.NewBlockCount` | internal/replica/device.go:373-381 | the number of blocks of the range that are not active |
| `Devices.CaptureWrite` | internal/replica/device.go:406-426 | copying only the written bytes, into a recycled buffer with any content, captures exactly the device's blocks |
| `Devices.Capture` | internal/replica/device.go:391-404 | reading back captures exactly the device's blocks |
| `Devices.CapturedOk` | internal/replica/device.go:391-426 | every active block equals the device's block |
| `Devices.Stored` | internal/replica/device.go:226-323 | file, capture and override set together stay consistent with the view |
| `Devices.ReplayOne` | internal/replica/device.go:175-198 | a replayed generation is laid over the lazy image, in any block order |
| `Devices.CaptureNonZero` | internal/replica/device.go:463-476 | captures the non-zero blocks and counts each as new |
| `Devices.MarkingConserves` | internal/replica/device.go:430-476 | the dirty account stays exact if and only if no block it captures was active before |
| `Devices.MarkingTwiceMiscounts` | internal/replica/device.go:463-476 | marking an image of one non-zero block twice accounts for two |
| `Devices.Device.constructor` | internal/replica/device.go:71-95 | an opened device stands for the restored image with nothing dirty |
| `Devices.Device.Fetch` | internal/replica/lazy.go:78-82 | hydration never changes what the device stands for and succeeds exactly when what the request needs was fetched |
| `Devices.Device.ReadAt` | internal/replica/device.go:206-224 | a read succeeds exactly when it starts inside the device and what its blocks need was fetched; it returns the bytes of the restored image overlaid by all local writes |
| `Devices.Device.MustWait` | internal/replica/device.go:234-245 | the backpressure guard |
| `Devices.Device.Write` | internal/replica/device.go:226-323 | out of range, waiting and failing exactly when the bounds, the backpressure guard and the fetches of partly covered blocks say so; otherwise applied to the view, with dirty at most max(limit, its own blocks) |
| `Devices.Device.PrepareWrite` | internal/replica/lazy.go:84-105 | succeeds exactly when what the partly covered blocks need was fetched, and then they are settled |
| `Devices.Device.Store` | internal/replica/device.go:252-262 | the view gets the bytes and dirty grows by the newly active blocks |
| `Devices.Device.Seal` | internal/replica/device.go:484-491 | the active blocks become a generation equal to the device's blocks and stay accounted for |
| `Devices.Device.Release` | internal/replica/device.go:493-512 | dirty falls by the generation's bytes and the clamp at zero never fires |
| `Devices.Device.Replay` | internal/replica/device.go:175-198 | all generations in order are laid over the view and accounted for as unpublished; an error exactly when a block has the wrong length or lies outside the volume |
| `Segments.Partition` | internal/replica/segment.go:49-96 | the chunks concatenate to the blocks of the generation, each non-empty and at most the given size, or the default for a size that is not positive |
| `Segments.BuildRuns` | internal/replica/segment.go:105-116 | runs of at most 256 blocks that carry exactly the chunk's blocks with their content; an error exactly when a block has the wrong length |
| `Segments.RunExtentsAreTheBlocks` | internal/replica/segment.go:139-150 | the extents a segment records are ordered, denote exactly its blocks and add up to its block count |
| `Segments.BlocksToExtents` | internal/replica/segment.go:185-198 | the canonical extents of exactly these blocks |
| `Segments.ZeroExtents` | internal/replica/segment.go:175-183 | exactly the blocks whose content is zero |
| `Segments.BuiltIsEncodable` | internal/replica/segment.go:105-173 | what the encoder builds satisfies everything the decoder checks |
| `Segments.SegmentRoundTrip` | internal/replica/segment.go:205-276 | decoding inverts encoding |
| `Segments.ApplyRun` | internal/replica/segment.go:291-323 | one run: exactly its selected blocks; an error exactly when one lies outside the image |
| `Segments.ApplyRuns` | internal/replica/segment.go:291-323 | all runs: exactly the selected blocks change; an error exactly when one lies outside the image |
| `Segments.AppliedIsContent` | internal/replica/segment.go:291-323 | a selected block gets the generation's content whichever run carries it |
| `Segments.SegmentRestoresItsBlocks` | internal/replica/segment.go:49-341 | from blocks to segment and back: decoding gives the runs and applying them writes exactly the selected blocks of the generation |
| `Segments.SortedBlocks` | internal/replica/device.go:538-545 | the blocks of a generation, each once, in ascending order |
| `Segments.EncodeChunk` | internal/replica/segment.go:105-173 | a segment that decodes to exactly its blocks, with truthful extents and zero extents; an error exactly when a block has the wrong length |
| `Segments.EncodeSegments` | internal/replica/segment.go:49-96 | an error exactly for an empty generation or a block of the wrong length; otherwise segments that hold every block of the generation, each in one of them, provided that the segment size or the generation is below 2^32 blocks |
| `Segments.RestoreSegments` | internal/replica/segment.go:205-323 | decoding and applying all segments of a generation overlays an image by exactly the generation; an error exactly when a block lies outside the image |

## Left out

- S3 client, NBD server, ext4 formatting and mounting, seeding, metrics, CLI, option and size parsing: plumbing around the modelled core.
- SHA-256, JSON and gzip internals, and the sizes they give: parameters, or names that stand for one content.
- Time: lease expiry, heartbeats and the settle window are nondeterministic guards; nothing is said about progress.
- Append head beyond the election: fencing of a stale writer against a concurrent takeover and the read-back of `commitState` in append mode depend on the settle window.
- Deleting and recreating a volume, and detecting a head of the other mode: single-volume histories up to deletion are modelled.
- Local disk errors and short writes of the image file: file operations of the device succeed; failing journal appends and syncs are modelled.
- Parallel upload, encode and restore workers: independent uploads finished before the commit; `Restores.RestoreCorrect` covers any order of the restore workers.
- Intermediate heads while recovered generations are published again: only restore plus replay is claimed.
- The mount window between starting the syncer and queueing recovered generations: recovered generations are queued first.
- Wake-up channels, the dirty-threshold callback and backpressure callbacks: they decide when the worker runs, not what it does.
- Hole seeking in `MarkAllocated`: the scan it stands for is modelled.
- CrashRecovery.RunKeeps: queue, pending list and journal entries are positions in the log of sealed generations, and compaction happens nondeterministically; `LocalRefinement` shows that the lists and the byte thresholds of `Syncing` and `Journals` are an instance, step by step and for one device.
- Devices.Device.Write: waiting for released data is the outcome `WouldBlock`; the caller tries again, and each try is judged on the state it finds.
- `List` and `DeletePrefix` of the memory store.
- The first mount of a volume (formatting, marking, the initial publication): `Durability` starts from a formatted volume.
- A mount that fails while it creates a new journal: a mount without records goes straight to running.
- CrashRecovery.RecoverKeeps: one step stands for validate, rebase, restore and replay; a crash or failure inside it is one right before it (the lease is held, the journal unchanged) or right after it (the journal is rebased).
- VolumeRuns.RunKeeps: a collection is one action that deletes any part of what it may, runs while no publication is under way and spares a bundle that is being uploaded, uploaded or ready but not installed; without the last the property is false, see `VolumeHazards.ReadyBundleGuard`.
- Segments.EncodeSegments: nothing is said about the content of a segment of 2^32 blocks or more, whose run count may not fit the 32 bits of the format; the program uses 1024.
- Journals.Journal.Rebase: what a failed rewrite leaves in memory is not described, because the mount then closes the journal.
- Devices.Device.Replay: what a failed replay leaves in the image is not described, because the mount then closes the device.
