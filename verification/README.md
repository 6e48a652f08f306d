# Landslide: a verified model of the event log and what is built on it

Landslide keeps everything in one event log. Three systems share it: filesystem volumes, SQLite replication and the
event store itself. Each has a fast form (sealed segments, range pushdown, an incremental cursor, snapshots) that must
agree with a simple one: replay every event from version 0. This project models those state machines in Dafny and proves
the agreement, over every run of each machine. Where the code does not keep a promise, the project says exactly when it
does.

`dafny verify dfyconfig.toml` checks the whole project.

## How it is laid out

| modules | what they model |
|---|---|
| `Prelude`, `KeyOrder`, `NatOrder` | optional values, lexicographic key order, ordered maps and prefix scans |
| `FsImage`, `FsRename`, `FsSegment`, `FsTangled` | the volume image, subtree renames, checkpoint folds with tombstones |
| `FsMeaning` | what each delta and the upgrade of a batch do, field by field |
| `FsBlocks`, `FsUpgrade`, `FsCommit`, `FsRetry`, `FsReads` | the block upgrade of large files, what it preserves, refused commits; range reads through the block cache |
| `FsVolume`, `FsPublication`, `FsReplica`, `FsClock`, `FsTimed` | mount, commit, checkpoint and retention; checkpoints that readers do not find; read-only replicas; the clock |
| `SqliteTypes`, `Wal`, `WalFormat`, `WalCapture` | the write-ahead log (section 4.1 of the SQLite Database File Format document), its encoder and its cursor |
| `SqliteImage`, `SqliteMeaning`, `SqliteFile`, `SqliteStore` | page images, LTX segments, the database file, what is durable |
| `SqliteCheckpoint`, `SqliteRuns`, `SqliteRestore` | checkpoints step by step with crashes, restores |
| `SqliteFence`, `SqliteTorn` | handles that race to open, sync and checkpoint; a restore torn between two of them |
| `SqliteLoss`, `SqliteFailure`, `SqliteRanges`, `SqliteWitness` | images with transactions missing, failed checkpoints, manifest ranges, and runs that show each shortcoming |
| `Keys`, `Retention`, `PurgeForks`, `TimeIndex` | zero-padded keys, the chunked purge and what forks keep from it, the search by timestamp and its index over runs |
| `Transactions`, `Effects`, `Interleaving`, `Payloads`, `Sequences`, `Publication` | optimistic transactions, what each operation writes, their interleavings and what the records carry, the sequence counter, snapshots published under it |
| `ForkHistory`, `ForkReads`, `ForkIsolation`, `ForkRefinement`, `ForkRemoval`, `Rehydrate` | fork chains, which events are read, the store as a fork model, pins, purge and deletion; snapshots of aggregates |

Code that edits objects in place is a class or a method with loops (`Image`, `DeltaImage`, `Volume`, `Replica`, `DbImage`,
`LtxBuilder`, `DbTransaction`, `Store`, `Render`, `Capture`, `ResolveHistory` and others), each proved equal to a function of its
inputs; the properties are proved about those functions. Protocols whose steps interleave (checkpoints with crashes, racing
openers, open transactions, overlapping compactions) are machines with a `Run` function, and the theorems hold in every state
of every run.

## Assumptions

- Stream names contain no `/`; versions and timestamps are below 10^16 (where this is used, it is a hypothesis, and
  `Keys.OrderedBelowIff` shows that it cannot be dropped).
- Object paths made from ULIDs are fresh, block hashes are collision-free, and serialisers invert their parsers.
- The key-value store is a committed map plus open transactions: a transaction works on the snapshot it began with, sees its
  own writes, and commits only if no tracked key it read or wrote was written since it began.
- A snapshot is published under one more than the global counter, and readers take the greatest key. The counter can move back, so the
  newest publication need not be the one they find: `Publication.NewestIsLatestIff` says when it is. `FsVolume.MountEqualsReplay`,
  `FsTimed.MountEqualsReplayTimed` and `SqliteRuns.RestoreEqualsReplay` hold for publications under any keys. What they assume
  instead is that a purge never passes the manifest readers find and, on the SQLite side, that a handle whose checkpoint failed or
  stayed hidden is reopened before its next one. `FsPublication.PurgeBehindCheckpointIff`, `SqliteFailure.PublishAndPurgeIff` and
  `SqliteFailure.FailedCheckpointHealsIff` show exactly what happens otherwise.
- The clock is a parameter. `FsTimed` gives every operation its own; replays at different times agree on everything but
  modification times (`FsClock.ReplayUntimed`).

## Where the code falls short of a promise

Each of these keeps the code as it is, proves exactly when the promise does hold, and shows an input or a run for which it
does not.

- A rename whose source lies below its target, or the other way round, does not survive a checkpoint: `FsTangled.RenameSealsIff`.
- A volume mounted right after a checkpoint that covers the whole stream remembers no tail and refuses every commit:
  `FsVolume.MountedCanCommitIff`. The SQLite side keeps the tail.
- The block upgrade drops the later writes of a large file wherever a removal, a link or a rename has left it, so truncating one that was
  written in the same batch loses it; and it keeps the metadata that an inline write over a block-backed file, a directory or a link
  resets: `FsCommit.UpgradePreservesIff`, `FsVolume.TruncateAfterWriteLosesFile`, `FsCommit.OverwriteMetaIff`, `FsCommit.WriteBehindSaveIff`.
- After a commit that was refused, further writes to a large file start over from an empty one: `FsRetry.ImageAfterFailureIff`. The next
  commit repairs the stream if nothing is left to chunk and otherwise writes the wrong content to it: `FsRetry.StreamAfterFailureIff`,
  `FsRetry.WriteAfterFailureLosesBytes`. Trying the same commit again is safe: `FsVolume.RetriedCommitSafe`.
- A checkpoint under a smaller key than an earlier one is never found: `Publication.NewestIsLatestIff`, `Publication.HiddenPublicationInRun`.
  Purging what it covers loses events: `FsPublication.PurgeBehindCheckpointIff`, `FsPublication.HiddenCheckpointLosesInRun`,
  `SqliteFailure.PublishAndPurgeIff`. A SQLite handle then drops that window from its next checkpoint even without a purge:
  `SqliteFailure.FailedCheckpointHealsIff`, `SqliteWitness.HiddenCheckpointLosesInRun`.
- A replica looks for a gap only at the first version it reads; a purge that kept a pinned prefix leaves a hole it does not see:
  `FsReplica.FastPathCorrectIff`.
- A database that grows must write every page it exposes, or a coalesced restore differs from replay: `SqliteFile.SurvivesTruncationIff`.
- A point-in-time restore checks only the transaction it ends on, and can answer with the wrong image: `SqliteRestore.RestoreAtWrongIff`,
  `SqliteWitness.RestoreAtWrongInRun`.
- A failed checkpoint on a handle that stays open drops its window from the next one: `SqliteFailure.FailedCheckpointHealsIff`,
  `SqliteFailure.FailedCheckpointLosesInRun`.
- `landslide-sqlite/src/lib.rs:146-156` says retired segments are deleted once a newer manifest is durable. A checkpoint deletes
  them before it publishes: `SqliteRuns.PredecessorSurvives`, `SqliteRuns.RetiredGoneBeforeSuccessor`, `SqliteWitness.RetiredGoneInRun`.
- A handle that restored before its predecessor's last checkpoint, and then fences it out, publishes its own builder on top of that newer
  manifest: an image that is no replay. Folding the events behind it repairs it; a purge that already took them makes it permanent:
  `SqliteFence.PublishGoodIff`, `SqliteFence.PurgedRestoreIff`, `SqliteTorn.TornRestoreInRun`.
- `landslide-sqlite/src/lib.rs:152` calls manifest ranges contiguous from transaction 1. They are if and only if no segment begins
  with a batch that a coalesced sync folded: `SqliteRanges.ContiguousIff`, `SqliteWitness.FoldedFirstLeavesGap`.
- The global sequence counter can move back, and sequence numbers need not be monotone within a stream although
  `src/envelope.rs:48-49` says so: `Sequences.CounterMovesBackIff`, `Sequences.SequenceContinuesIff`, `Sequences.SequenceMovesBackInRun`.
- Pins look only at direct children, so a deletion or a purge can take events from a live grandchild:
  `ForkRemoval.RemovalUnnoticedIff`, `ForkRemoval.GrandchildLosesInRun`. A fork created under a running purge loses what
  the purge still deletes at or below its fork point: `ForkRemoval.ForkUnderPurgeIff`, `ForkRemoval.ForkLosesInRun`.
- A compaction after a purge folds only what is left: `Rehydrate.CompactAfterPurgeKeepsIff`, `Rehydrate.CompactAfterPurgeForgets`.
- Keys of 16 digits are in numeric order only below 10^16: `Keys.OrderedBelowIff`.

## Model

| member | source | states |
|---|---|---|
| `FsImage.Splice` | landslide-fuse/src/lib.rs:191-199 | byte by byte: the extent comes from the write, the rest from the old content, a gap reads zero, and the length is the larger of both ends |
| `FsImage.RemoveSubtree` | landslide-fuse/src/lib.rs:210-214 | exactly the path and everything below it disappears, all else is untouched |
| `FsImage.Image.Apply` | landslide-fuse/src/lib.rs:158-266 | the in-place interpretation of every delta equals its value on the path map, whose meaning the `FsMeaning` rows, `FsImage.RemoveSubtree` and `FsRename.RenameIsSimultaneous` give for each kind of delta |
| `FsMeaning.SetAttrMeans` | landslide-fuse/src/lib.rs:237-252 | on a present path each given field has the given value, every other field and the extended attributes stay, the node keeps its kind, content and target, and no other path changes; on an absent path nothing happens |
| `FsMeaning.SetXattrMeans` | landslide-fuse/src/lib.rs:253-264 | the named attribute has the given value or is gone; other names, fields, content and paths stay; on an absent path nothing happens |
| `FsMeaning.MkdirMeans` | landslide-fuse/src/lib.rs:205-209 | a directory of mode 0o755 owned by root comes up only where nothing was |
| `FsMeaning.MakeSymlinkMeans` | landslide-fuse/src/lib.rs:231-236 | the path becomes a link to the given target with mode 0o777, whatever was there; no other path changes |
| `FsMeaning.WriteInlineMeans` | landslide-fuse/src/lib.rs:176-203 | the bytes and length of the written file and whose metadata it has, over an inline file and over anything else; no other path changes |
| `FsMeaning.WriteBlocksMeans` | landslide-fuse/src/lib.rs:163-173 | the content becomes the given blocks with the sum of their lengths as size, the metadata of whatever was there stays; no other path changes |
| `FsImage.Image.RenameInPlace` | landslide-fuse/src/lib.rs:215-230 | the rename loop equals the sequential move of the node and of a snapshot of its descendants; each of them is present when its turn comes |
| `FsImage.ReplayConcat` | landslide-fuse/src/store.rs:27-33 | replaying two stretches of events in turn is replaying their concatenation |
| `KeyOrder.TakePrefix` | landslide-fuse/src/lib.rs:219-225 | an ordered range cut off by take-while finds exactly the keys with the prefix, in order |
| `FsRename.RenameIsSimultaneous` | landslide-fuse/src/lib.rs:215-230 | for untangled paths the in-place loop is the simultaneous rename: moved nodes win collisions, moved-away paths are empty, unrelated nodes stay |
| `FsRename.RenameRoundTrip` | landslide-fuse/src/lib.rs:215-230 | renaming there and back restores the image when nothing was at or below the target |
| `FsSegment.MergeInPlace` | landslide-fuse/src/lib.rs:280-293 | the merge loop equals merging entries in key order |
| `FsSegment.MergeSegmentAt` | landslide-fuse/src/lib.rs:280-293 | what a merge leaves at a path: its own entry, else nothing below a tombstone, else the base; a tombstone never hides an entry below it |
| `FsSegment.DeltaImage.Apply` | landslide-fuse/src/store.rs:228-265 | the in-place checkpoint fold equals the fold function, entries and running image alike |
| `FsSegment.AgreesStep` | landslide-fuse/src/store.rs:228-265 | every untangled event keeps the fold invariant: entries say what the running image holds, other paths are as in the base, and no base node without an entry sits below a tombstone |
| `FsSegment.SegmentSound` | landslide-fuse/src/store.rs:164-175 | segment soundness: for every base and every window of untangled deltas, merging the sealed entries onto the base gives the image of applying the deltas one by one |
| `FsTangled.RenameSealsIff` | landslide-fuse/src/store.rs:237-249 | a rename seals correctly over every base image if and only if neither path lies strictly below the other |
| `FsTangled.DownwardFails` | landslide-fuse/src/store.rs:237-249 | witness: moving a directory below itself |
| `FsTangled.UpwardFails` | landslide-fuse/src/store.rs:237-249 | witness: lifting a directory above itself, with two descendants whose moves collide |
| `FsBlocks.ChunksFlatten` | landslide-fuse/src/store.rs:117-125 | a file's chunks concatenate to the file |
| `FsBlocks.ChunkFile` | landslide-fuse/src/store.rs:117-125 | the references of a file's chunks, each of them in the bucket or queued for upload, queued blocks sitting under their own hash |
| `FsMeaning.ChunkSizes` | landslide-fuse/src/store.rs:118 | every chunk but the last has exactly 1048576 bytes, and the last at most that |
| `FsMeaning.UpgradeMeans` | landslide-fuse/src/store.rs:94-127 | a file that is written in the batch and ends up inline with more than 1048576 bytes gets exactly one write, of the chunks of its whole final content; all other deltas stay, in order |
| `FsBlocks.UpgradeBatch` | landslide-fuse/src/store.rs:94-130 | the commit loop gives the upgraded batch and a bucket that keeps every old block and holds every block the batch refers to |
| `FsUpgrade.BatchTracks` | landslide-fuse/src/store.rs:94-136 | part-way through any mild batch, whatever image the commit looks at, both replays agree outside chunked files; at these the upgraded one shows that image's content under the metadata carried along, or what a removal, a link or a move onto the path has left there |
| `FsUpgrade.LostStays` | landslide-fuse/src/store.rs:103-105 | a chunked file renamed away after its first write is no file in the upgraded replay from then on |
| `FsUpgrade.UpgradeShowsIff` | landslide-fuse/src/store.rs:94-127 | for every image the commit may look at, replaying the upgraded batch shows the same files as the batch if and only if each chunked path stands right: content seen and metadata carried, the same node shown, or settled by a move onto it |
| `FsCommit.UpgradePreserves` | landslide-fuse/src/store.rs:94-127 | the block upgrade preserves meaning: when the first write of every large file finds nothing or an inline file, and from there on it is only written and its attributes changed, the upgraded batch gives the same files, bytes and metadata |
| `FsCommit.CarriedIs` | landslide-fuse/src/lib.rs:158-266 | by the batch alone, for a chunked file that stays in place: the metadata the upgraded replay ends with is what the first write finds with the later attribute changes on top, and the original replay's is what the writes leave, each resetting it unless it finds an inline file |
| `FsCommit.MetaKeptInlineIff` | landslide-fuse/src/lib.rs:163-189 | for inline writes the two come to the same if and only if the attribute changes make the same of the metadata the first write finds and of the metadata it leaves |
| `FsCommit.UpgradePreservesIff` | landslide-fuse/src/store.rs:94-127 | replaying the upgraded batch gives the same files, bytes and metadata if and only if each chunked file is preserved: it stays in place from its first write on and its metadata, by the batch, comes to the same; or something was moved onto it, and the writes behind that change nothing |
| `FsCommit.OverwriteMetaIff` | landslide-fuse/src/lib.rs:163-189 | one large write over a block-backed file, a directory or a link: the metadata comes to the same if and only if it was that of a new file |
| `FsCommit.SavedByRename` | landslide-fuse/src/store.rs:94-127 | saving by rename, old and new version in one batch, is preserved |
| `FsCommit.WriteBehindSaveIff` | landslide-fuse/src/store.rs:103-105 | a further write behind such a save is dropped: preserved if and only if it changes nothing |
| `FsCommit.CommitImageIsReplayIff` | landslide-fuse/src/store.rs:131-136 | the image the handle keeps after a commit is exactly the replay of the upgraded batch if and only if every chunked file stays in place with its metadata coming to the same, or the block file itself was moved there |
| `FsRetry.RetryIsPlain` | landslide-fuse/src/store.rs:106-115 | after a refused commit there is nothing left to chunk: a retry appends the batch as it is and changes the image no further |
| `FsRetry.ImageAfterFailureIff` | landslide-fuse/src/lib.rs:176-199 | after any further inline changes that rename none of the files a refused commit re-blocked, the image shows what the batch means if and only if each of these is removed or replaced by a link, or not written, or its old content reaches no further than the writes and is zero where none of them is, and the metadata comes to the same |
| `FsRetry.StreamAfterFailureIff` | landslide-fuse/src/store.rs:94-147 | what the next commit then puts on the stream: the batch as it is, hence right, if nothing is left to chunk; otherwise right if and only if every chunked file is preserved and, if it was re-blocked, nothing of its old content shows through the further writes |
| `FsRetry.WriteAfterFailureLosesBytes` | landslide-fuse/src/lib.rs:176-199 | witness: a large file, a refused commit and a shorter write; the image is wrong, and the stream too once that write exceeds a chunk |
| `FsReads.FetchBlock` | landslide-fuse/src/store.rs:336-353 | a cached read gives the bucket's bytes and keeps the cache a part of the bucket |
| `FsReads.ReadBlocks` | landslide-fuse/src/store.rs:311-332 | the read succeeds exactly when the overlapping blocks exist, and caches exactly those |
| `FsReads.ReadContent` | landslide-fuse/src/store.rs:298-334 | for every content, offset and length: exactly that slice of the file, clipped to its end, whatever was read before |
| `FsReads.NeededMeaning` | landslide-fuse/src/store.rs:315-324 | the fetched blocks are those whose window overlaps the read, and no others |
| `FsReads.WholeRange` | landslide-fuse/src/store.rs:271-282 | reading the recorded size returns the whole file |
| `FsVolume.LoadSegments` | landslide-fuse/src/store.rs:356-375 | loads the manifest's segments in order, failing exactly when one is missing |
| `FsVolume.Store.AppendWithToken` | src/store.rs:930-996 | accepted exactly for a non-empty batch within the limits, under the fence and at the expected tail, and then the events are behind the log; which error says which check failed; a refused append changes nothing |
| `FsVolume.AcceptanceMeans` | src/store.rs:940-967 | these checks written out: at most 1000 events of at most 1048576 bytes, no other token in the fence, and the last version or none |
| `FsVolume.Volume.Mount` | landslide-fuse/src/store.rs:16-44 | takes the fence, rebuilds the image from manifest and backlog, remembers the last folded version |
| `FsVolume.Volume.Mutate` | landslide-fuse/src/store.rs:47-50 | image and pending batch move together |
| `FsVolume.Volume.Commit` | landslide-fuse/src/store.rs:90-149 | appends the upgraded batch exactly when accepted, with all its blocks stored first; a refused append keeps batch and tail, a failed upload keeps the image too |
| `FsVolume.Volume.Seal` | landslide-fuse/src/store.rs:155-196 | seals everything behind the manifest readers find into one segment and publishes it under the given key, which readers find unless a greater one exists; a failed upload changes nothing, a failed publication leaves an object no manifest names |
| `FsVolume.StepFaithful` | landslide-fuse/src/store.rs:153-196 | commits, checkpoints under any key, failed publications and purges below the manifest readers find keep: that manifest loads to the replay of the versions it covers, and nothing it does not cover is purged |
| `FsVolume.MountEqualsReplay` | landslide-fuse/src/store.rs:16-44 | mount equals replay: after every run of commits, checkpoints under any keys, failed publications and such purges, mounting gives the replay of every event ever committed |
| `FsTimed.MountEqualsReplayTimed` | landslide-fuse/src/store.rs:16-44 | the same with a clock of its own for every operation, for the mount and for the replay, up to modification times |
| `FsVolume.MountedCanCommitIff` | landslide-fuse/src/store.rs:27-40 | a fresh mount can commit if and only if the checkpoint does not cover a whole non-empty stream |
| `FsVolume.CheckpointedVolumeRejectsCommits` | landslide-fuse/src/store.rs:27-40 | the shortest run that ends in a volume refusing commits |
| `FsVolume.CommitKeepsImageIff` | landslide-fuse/src/store.rs:131-147 | committing keeps the image equal to the replay of the stream if and only if every chunked file stays in place with its metadata coming to the same, or the block file itself was moved there |
| `FsVolume.CommitShowsImageIff` | landslide-fuse/src/store.rs:131-147 | after a commit the image shows the same files as the replay of the stream if and only if every chunked file is preserved |
| `FsVolume.RetriedCommitSafe` | landslide-fuse/src/store.rs:131-147 | a commit tried again after any number of refusals appends the batch as it is, and the image shows the same files as the replay of the stream |
| `FsVolume.TruncateAfterWriteLosesFile` | landslide-fuse/src/store.rs:58-67 | witness: write and truncate a large file in one batch, and its replay has no file |
| `FsPublication.PurgeSafeIff` | src/store.rs:370-400 | a purge is harmless for every stream whose manifest covers the first k of n versions if and only if it stays below k or k is n |
| `FsPublication.PurgeBehindCheckpointIff` | landslide-fuse/src/store.rs:153-196 | checkpointing and then purging what was checkpointed is harmless for every such stream if and only if the new key is not below the earlier one |
| `FsPublication.HiddenCheckpointLosesInRun` | landslide-fuse/src/store.rs:153-196 | a run with two checkpoints in the wrong key order: the mount is right, and after the purge a directory is gone |
| `FsReplica.Replica.Sync` | landslide-fuse/src/replica.rs:65-118 | catches up or reloads; an error leaves image and cursor as they were |
| `FsReplica.SyncSafe` | landslide-fuse/src/replica.rs:65-118 | replica safety: whatever the writer does between the reads, image equals the replay of exactly the versions up to the cursor |
| `FsReplica.CursorNeverMovesBack` | landslide-fuse/src/replica.rs:65-118 | if retention never passes the newest checkpoint the cursor never moves back |
| `FsReplica.SyncConverges` | landslide-fuse/src/replica.rs:65-118 | on a settled stream one sync reaches the tail |
| `FsReplica.ReplicaFollowsRun` | landslide-fuse/src/replica.rs:65-118 | with its reads at any four moments of a run of the volume, a sync that does not fail ends on a replayed prefix and never moves back |
| `FsReplica.FastPathCorrectIff` | landslide-fuse/src/replica.rs:68-71 | with a pinned prefix and a purged hole, the fast path is right for every log if and only if the replica is past the prefix, nothing was purged, or nothing follows the hole |
| `FsClock.ReplayUntimed` | landslide-fuse/src/lib.rs:41-50 | two replays at different times differ in modification times only |
| `Wal.FrameAtIsNth` | landslide-sqlite/src/wal.rs:59-68 | indexing into the file finds exactly the frames of the valid run, then nothing; what a frame is on disk is `WalFormat.FrameReadsBack` |
| `WalFormat.Be32Value` | landslide-sqlite/src/wal.rs:34-36 | four bytes are read most significant first |
| `WalFormat.HeaderReadsBack` | landslide-sqlite/src/wal.rs:38-53 | a header encoded field by field from the file format is read with its page size (1 standing for 65536) and its salts exactly if it has one of the two magic numbers |
| `WalFormat.FrameReadsBack` | landslide-sqlite/src/wal.rs:59-68 | an encoded frame is found exactly if its salts are the header's, with its page number, database size and page |
| `WalFormat.FileReadsBack` | landslide-sqlite/src/wal.rs:38-68 | round trip: parsing an encoded file, with a torn frame or frames of another generation at its end, gives the header and exactly the encoded frames |
| `WalFormat.LogReadsBack` | landslide-sqlite/src/store.rs:100-122 | the frames of a sequence of transactions, with any uncommitted frames behind, parse to exactly these transactions, numbered onwards, each with its own pages and size |
| `WalFormat.CaptureReadsBack` | landslide-sqlite/src/store.rs:83-126 | capturing an encoded file from its beginning gives the deltas of exactly its committed transactions and a cursor behind them |
| `Wal.ShiftedFrame` | landslide-sqlite/src/store.rs:93-105 | the tail-only buffer with shifted indices yields the same frames as the whole file |
| `Wal.ParseConcat` | landslide-sqlite/src/store.rs:100-117 | parsing on from a commit boundary completes one parse of the whole |
| `Wal.CommittedPrefix` | landslide-sqlite/src/store.rs:118-122 | the consumed prefix ends on a commit frame and leaves no commit frame behind |
| `Wal.ReadCommitted` | landslide-sqlite/src/store.rs:100-122 | the frame loop gives the transactions of the valid frames and stops before the uncommitted tail |
| `Wal.Capture` | landslide-sqlite/src/store.rs:83-126 | one capture: resets on a new generation, reads the tail, gives the transactions behind the cursor and the next boundary |
| `WalCapture.StepTracks` | landslide-sqlite/src/store.rs:83-145 | growth, overwritten tails, restarts and syncs keep the cursor on a commit boundary with exactly the transactions before it shipped |
| `WalCapture.CaptureIsOneParse` | landslide-sqlite/src/store.rs:83-145 | incremental capture: over every run, failed syncs included, what was shipped is a prefix of one parse of everything, all of it after a durable sync, numbered without a gap |
| `SqliteImage.SealMerges` | landslide-sqlite/src/lib.rs:256-277 | merging a sealed builder equals applying its deltas |
| `SqliteImage.Fold` | landslide-sqlite/src/store.rs:353-367 | the fold loop computes the newest-wins batch |
| `SqliteImage.FoldBatchApplies` | landslide-sqlite/src/store.rs:353-367 | applying a folded batch equals applying its deltas one by one |
| `SqliteImage.FoldBatchWritesExposed` | landslide-sqlite/src/store.rs:353-367 | folding keeps that growth writes every exposed page |
| `SqliteImage.ApplyAllSameView` | landslide-sqlite/src/lib.rs:192-199 | images that agree within the database stay so under deltas that write the pages they expose |
| `SqliteMeaning.ApplyMeans` | landslide-sqlite/src/lib.rs:192-199 | page by page: the last frame of the delta that holds the page, or what was there; sizes and id are the delta's |
| `SqliteMeaning.MergeMeans` | landslide-sqlite/src/lib.rs:201-208 | the same for a segment, with its last transaction id |
| `SqliteMeaning.SealMeans` | landslide-sqlite/src/lib.rs:256-277 | a sealed segment runs from the first transaction to the last, has the sizes of the last, and lists in ascending order every page written, once, with the content the transactions leave |
| `SqliteMeaning.CoalesceMeans` | landslide-sqlite/src/store.rs:186-205 | a coalesced segment runs from the manifest's first transaction to the new segment's last, has its sizes, and lists exactly the pages up to the database size, the new segment's over the manifest's |
| `SqliteMeaning.ManifestDescribes` | landslide-sqlite/src/lib.rs:124-144 | in every state of every run each manifest entry carries the ids and sizes of the object it names |
| `SqliteFile.DbImage.Apply` | landslide-sqlite/src/lib.rs:192-199 | the page loop equals applying the delta |
| `SqliteFile.DbImage.MergeLtx` | landslide-sqlite/src/lib.rs:201-208 | the page loop equals merging the segment |
| `SqliteFile.DbImage.ToBytes` | landslide-sqlite/src/lib.rs:227-240 | the filled buffer is the database file, and the method stops short exactly where the code panics |
| `SqliteFile.Render` | landslide-sqlite/src/lib.rs:231-239 | for pages of any length, copying in key order equals copying pages 1 to the size in turn; it stops exactly when a page reaches past the buffer |
| `SqliteFile.FileIsLayout` | landslide-sqlite/src/lib.rs:224-240 | when pages fit their place the file is page after page, zeros where one is missing or short, nothing beyond the size |
| `SqliteFile.LayoutAt` | landslide-sqlite/src/lib.rs:224-240 | page p sits at offset (p-1) * page size |
| `SqliteFile.SameViewSameFile` | landslide-sqlite/src/lib.rs:227-240 | images that agree within the database serialise to the same bytes, or both panic |
| `SqliteFile.SurvivesTruncationIff` | landslide-sqlite/src/store.rs:197-198 | dropping pages beyond the database is invisible to the next delta, over every image, if and only if that delta writes every page it exposes |
| `SqliteFile.LtxBuilder.Apply` | landslide-sqlite/src/lib.rs:257-265 | the builder step |
| `SqliteFile.LtxBuilder.IntoLtx` | landslide-sqlite/src/lib.rs:268-276 | the sealed pages ascend strictly, and putting them back gives the builder's map |
| `SqliteFile.EncodeDeltas` | landslide-sqlite/src/lib.rs:93-110 | the batches concatenate to the deltas, none is empty, each is a single delta or at most 524288 bytes, and none is closed while the next delta would have fitted |
| `SqliteLoss.DroppedIff` | landslide-sqlite/src/lib.rs:192-199 | leaving a stretch of transactions out is invisible if and only if every page they wrote within the final size is rewritten behind them or was the same before |
| `SqliteStore.ConsistentRestores` | landslide-sqlite/src/store.rs:255-287 | from a consistent state a restore agrees with replay within the database, keeps the tail and rebuilds the builder |
| `SqliteCheckpoint.StepKeeps` | landslide-sqlite/src/store.rs:161-233 | every single effect of syncing, checkpointing, crashing and reopening keeps the replication invariant |
| `SqliteRuns.RestoreEqualsReplay` | landslide-sqlite/src/store.rs:255-287 | restore equals replay byte for byte in every state of every run, the middle of a checkpoint included, whatever keys the checkpoints were published under |
| `SqliteRuns.CollectionSafe` | landslide-sqlite/src/store.rs:175-221 | at every step, crashes included, all segments of the published manifest exist, there are at most max(coalesce_at, 1), ranges are ordered and disjoint; in crash-free runs the bucket holds exactly segments and retire list |
| `SqliteRuns.PredecessorSurvives` | landslide-sqlite/src/store.rs:211-221 | from a publication until the first deletion that succeeds, through syncs, failures, crashes and reopenings, every segment of the replaced manifest is there |
| `SqliteRuns.RetiredGoneBeforeSuccessor` | landslide-sqlite/src/store.rs:211-221 | in every run without failures, just before a publication everything the published manifest retired is gone, although it has no successor yet |
| `SqliteWitness.RetiredGoneInRun` | landslide-sqlite/src/store.rs:203-221 | a run without failures whose published manifest retires two objects that are gone, with no successor published |
| `SqliteFailure.RunBuilder` | landslide-sqlite/src/store.rs:175 | in every run, a handle that lost its builder in a checkpoint that failed or stayed hidden holds exactly a last part of the window |
| `SqliteFailure.FailedCheckpointHealsIff` | landslide-sqlite/src/store.rs:175-221 | after the next checkpoint of such a handle, extending or coalescing, a restore is right if and only if readers do not find that checkpoint, or every page of the lost part is rewritten by the rest or was the same in the old manifest |
| `SqliteFailure.PublishAndPurgeIff` | landslide-sqlite/src/store.rs:213-227 | a checkpoint that purges what it sealed leaves a right restore if and only if readers find it |
| `SqliteFailure.FailedCheckpointLosesInRun` | landslide-sqlite/src/store.rs:175-176 | a run from the start: sync, failed checkpoint, sync, checkpoint; the restore is wrong |
| `SqliteWitness.HiddenCheckpointLosesInRun` | landslide-sqlite/src/store.rs:161-221 | a run from the start: a checkpoint, another under a smaller key, and the next one that readers find restores without the transaction in between |
| `SqliteRestore.Restore` | landslide-sqlite/src/store.rs:255-287 | succeeds exactly when every segment object is there, with the restored image, builder and tail |
| `SqliteRestore.RestoreAt` | landslide-sqlite/src/store.rs:295-338 | succeeds exactly when every used segment object is there and the candidate image passes the final check, and gives that image, whatever the objects hold |
| `SqliteRestore.UsableMeans` | landslide-sqlite/src/store.rs:303-314 | with ordered ranges, the segments a restore to t merges are exactly those that end at or before t |
| `SqliteRestore.RestoreAtExact` | landslide-sqlite/src/store.rs:295-338 | without a purged transaction above the last usable segment, a restore to t succeeds exactly when a transaction carries that id, and shows exactly the transactions up to it |
| `SqliteRestore.RestoreAtWrongIff` | landslide-sqlite/src/store.rs:331-337 | an answer shows the wrong image if and only if the purge reached above the last usable segment but not past t, a transaction carries the id t, and some page of the purged ones is neither rewritten by the retained ones nor the same in the segments |
| `SqliteRestore.CoalescedAfterPurgeMisleads` | landslide-sqlite/src/store.rs:303-314 | how it arises: one coalesced segment past t over a purged front gives a wrong image |
| `SqliteWitness.RestoreAtWrongInRun` | landslide-sqlite/src/store.rs:295-338 | a run from the start that ends in such a state |
| `SqliteRanges.StepRanges` | landslide-sqlite/src/store.rs:175-209 | every step keeps each segment starting at the transaction that follows the end of the one before in the log |
| `SqliteRanges.ContiguousIff` | landslide-sqlite/src/lib.rs:151-153 | over every run the ranges are contiguous from transaction 1 if and only if no segment begins with a batch folded by a coalesced sync |
| `SqliteRanges.ContiguousWithoutFolding` | landslide-sqlite/src/lib.rs:151-153 | they always are when no sync folds several transactions |
| `SqliteWitness.FoldedFirstLeavesGap` | landslide-sqlite/src/store.rs:129-131 | one coalesced sync of two transactions and a checkpoint: the first segment starts at 2 |
| `SqliteWitness.FoldedLaterLeavesNone` | landslide-sqlite/src/store.rs:129-131 | the same fold behind another transaction leaves no gap |
| `SqliteFence.NoSplitBrain` | landslide-sqlite/src/store.rs:22-57 | over every run of handles racing to open, sync, checkpoint onto each other's manifests and purge, as long as each checkpoint builds on a manifest that reaches its handle's base, none publishes a purged position and no purge passes the latest snapshot or one being folded: each open handle has the view of the replay up to its own tail, ids strictly increase, and a restore has the view of the whole replay |
| `SqliteFence.PublishGoodIff` | landslide-sqlite/src/store.rs:167-221 | what a handle publishes restores right, with the events behind it folded on top, if and only if the manifest it read reaches the handle's base, or every page written in between is rewritten later or was the same all along |
| `SqliteFence.PurgedRestoreIff` | landslide-sqlite/src/store.rs:223-227 | with the events below a floor gone, a restore from such a snapshot is right if and only if no transaction is lost, or some follow and every page of the lost ones is rewritten by them or was the same all along |
| `SqliteTorn.TornRestoreInRun` | landslide-sqlite/src/store.rs:161-233 | a run of two handles and a purge after which everyone restores one page of transaction 3 and one of transaction 2, an image no prefix of the stream replays to |
| `SqliteFence.OnlyTheFenceHolderAppends` | landslide-sqlite/src/store.rs:133-138 | between two fence writes only the holder's syncs reach the stream |
| `SqliteFence.GapFreeStream` | landslide-sqlite/src/store.rs:103-116 | without coalesced syncs, transaction ids along the stream are 1, 2, 3 and so on |
| `Keys.PadParses` | src/kv.rs:172-177 | a padded key parses back to its number |
| `Keys.PadDigit` | src/kv.rs:28-38 | each character of a key is the decimal digit of its place |
| `Keys.PadOrder` | src/kv.rs:28-38 | key order is numeric order |
| `Keys.OrderedBelowIff` | src/kv.rs:28-38 | the keys of the numbers below a bound are in numeric order if and only if the bound is at most 10000000000000000 |
| `Retention.ScanIsWindow` | src/kv.rs:121-128 | a scan with a pushed-down key range returns exactly the versions of the numeric range |
| `Retention.PurgeChunk` | src/store.rs:375-397 | one transaction deletes a gap-free front of the window: 1024 records, or all if there are fewer |
| `Retention.BuiltIsWellKeyed` | src/kv.rs:24-30 | with slash-free names, whatever lies under a stream's record prefix is a record of that stream |
| `Retention.Store.PurgeBelow` | src/store.rs:370-400 | the chunked loop ends; gone is exactly every existing record of the stream below the floor that lies above the fork point of each live fork, everything else keeps its value, and the result is the number of records gone |
| `Retention.PinFloorMeans` | src/store.rs:372 | a version is below the pin floor if and only if some fork that is not deleted was made at or above it |
| `PurgeForks.PurgeIsAllowed` | src/store.rs:370-400 | what such a purge takes lies above every live pin: it is one of the purges that fork isolation allows |
| `PurgeForks.PurgeMirrors` | src/store.rs:370-400 | and it does to the stored records what the fork model's purge does to the stream |
| `Retention.IndexOrder` | src/kv.rs:36-38 | index keys compare by timestamp, then by version |
| `Retention.SeekTimestamp` | src/store.rs:493-503 | with timestamps that never move back and exactly one index key per event: the least version at or after the target, or none when there is none |
| `TimeIndex.IndexFollowsRecords` | src/store.rs:972-984 | over every interleaving, a stream whose appends ask for the index has exactly one index entry per record, under that record's timestamp |
| `TimeIndex.SeekAfterRun` | src/store.rs:491-503 | searching the store after any such run finds the first of the stream's own records at or after the target, or none when there is none |
| `Transactions.ExecuteAllIsLocal` | src/store.rs:764-790 | a transaction depends on its snapshot only through the keys it reads under conflict detection |
| `Transactions.DbTransaction.Check` | src/store.rs:940-967 | the append checks in the order of the code, with the error each gives |
| `Transactions.DbTransaction.ReplayAppend` | src/store.rs:930-996 | the append buffered in a transaction, behind the tail or at an explicit version, or an error and no writes; `Effects.AcceptedIff` says which, `Effects.AppendMeans` and `Effects.ReplayMeans` what is written |
| `Effects.AcceptedIff` | src/store.rs:940-967 | an append is accepted exactly with 1 to 1000 events of at most 1048576 bytes each, with no other token in the fence, and at the expected version; and which check gives which error |
| `Effects.AppendMeans` | src/store.rs:968-996 | after an accepted append, record next + i has that version, the sequence number counter + 1 + i, the payload of event i and the latest of the timestamps so far; the tail is the last of them, the counter moves by the number of events, and nothing else changes but, if asked for, the index |
| `Effects.ReplayMeans` | src/store.rs:968-996 | the same for an append at an explicit version; the tail never moves back |
| `Effects.ForkMeans` | src/store.rs:292-331 | a fork is accepted exactly at a version the parent has and for a child that does not exist; then the child's fork edge is (parent, at), its tail is at that version with the parent's timestamp, the parent's pin for the child is that version, and nothing else changes |
| `Effects.DeleteMeans` | src/store.rs:406-413 | an existing stream is marked deleted, a missing one is not, and nothing else changes |
| `Effects.SetFenceMeans` | src/store.rs:1041-1048 | a non-empty token becomes the fence, anything else clears it, and nothing else changes |
| `Effects.FenceDecides` | src/store.rs:1041-1048 | after a fence is set to a token, exactly the appends under other tokens are fenced out |
| `Effects.PublishMeans` | src/store.rs:615-644 | a publication stores the given version and state under one more than the counter, takes that number, and changes nothing else |
| `Interleaving.CommitIsAtomic` | src/store.rs:764-790 | a committed transaction has the effect of running whole at the moment of its commit |
| `Interleaving.AbortLeavesNothing` | src/store.rs:840-866 | erasing the begin and the end of an aborted transaction from any run gives a run to the very same state |
| `Interleaving.StreamsStayContiguous` | src/store.rs:819-866 | over every interleaving, each stream holds exactly the versions from its start to its tail in timestamp order, and none is ever rewritten |
| `Effects.FirstCommitterWins` | src/store.rs:840-866 | once a transaction commits a write to a key, every other open one that read or wrote that key cannot commit any more |
| `Payloads.RecordsCarryPayloads` | src/store.rs:972-988 | over every interleaving: the records of a stream from its start to its tail carry, in order, exactly the payloads of its committed appends |
| `ForkRefinement.OpRefines` | src/store.rs:292-331 | seen through the abstraction from the store to the fork model, an accepted append, fork or deletion is the operation of that name there, allowed by it, and every other operation changes nothing |
| `ForkRefinement.RunRefines` | src/store.rs:819-866 | over every interleaving of transactions the abstraction of the store is the state of a run of the fork model |
| `ForkRefinement.HistoryAfterRun` | src/fork.rs:30-57 | so after every interleaving any range of any stream, through all its forks, resolves to its full history cut to that range, with strictly increasing versions |
| `Interleaving.TailMoves` | src/store.rs:764-790 | a committed transaction of any operations moves an existing tail by exactly the events it appends to that stream |
| `Interleaving.ExactCommitExtendsTail` | src/store.rs:940-964 | in a committed transaction of any number of operations, each conditional append found at commit the tail it expected, moved on by the same transaction's earlier appends, under its fence, and the tail ends behind exactly the events appended |
| `Sequences.CounterMovesBackIff` | src/store.rs:915-925 | a commit moves the global counter back exactly when its snapshot's counter plus the numbers it draws, one per event and one per publication, is below the counter now |
| `Sequences.CounterMovesBackInRun` | src/store.rs:915-925 | a run in which two appends overlap and the counter moves back |
| `Sequences.SerialSequencesIncrease` | src/store.rs:972-988 | in every serial run sequence numbers strictly increase along each stream and none is above the counter |
| `Sequences.SequenceContinuesIff` | src/store.rs:972-988 | the first record that a transaction of any operations appends to a stream continues above its last sequence number exactly when the counter of its snapshot, moved on by the operations before, had not fallen below it |
| `Sequences.SequenceMovesBackInRun` | src/store.rs:972-988 | a run in which record v + 1 of a stream has a smaller sequence number than record v |
| `Publication.NewestIsLatestIff` | src/kv.rs:183-191 | a committed publication is the one readers find if and only if no earlier key of its stream is above one more than the counter of its snapshot; otherwise they keep finding what they found before |
| `Publication.SerialPublicationIsFound` | src/store.rs:615-644 | in every serial run the newest publication is the one readers find |
| `Publication.HiddenPublicationInRun` | src/store.rs:615-644 | a run in which an overlapping append takes the counter back and a second checkpoint stays hidden behind the first |
| `ForkHistory.CeilingIsMax` | src/kv.rs:146-156 | the ceiling is the greatest pin of a child that is not deleted |
| `ForkHistory.HighestPin` | src/kv.rs:146-156 | the pin scan computes the ceiling |
| `ForkHistory.ScanEvents` | src/kv.rs:103-143 | the pushed-down scan reads exactly the readable events of the range |
| `ForkReads.VisibleMeans` | src/kv.rs:103-156 | a record is read if and only if it is not trimmed, every rollback window starts behind it or is not older than its sequence number, and, once the stream is deleted, a live fork was made at or above it |
| `ForkReads.ReadEventsMeans` | src/kv.rs:103-143 | a range read returns, in order of version, exactly the records in the range that are readable in this sense |
| `ForkReads.HistoryMeans` | src/fork.rs:30-57 | a history holds exactly the readable records of the stream and, of the parent's history, the versions up to and including the fork point |
| `ForkHistory.ReadIsCut` | src/kv.rs:103-143 | a pushed-down read is the full read cut to the range |
| `ForkHistory.ResolveHistory` | src/fork.rs:30-57 | the recursive resolver ends on every input, circular fork data included, and computes the range-resolved history |
| `ForkHistory.ResolveIsCutHistory` | src/fork.rs:30-57 | range pushdown equals the full history cut to the range, and the cycle error never fires when forks point to older streams |
| `ForkIsolation.ApplyWellFormed` | src/store.rs:292-331 | appends, forks, purges and deletions keep fork edges acyclic, fork points pinned within the parent, and records behind the fork point |
| `ForkIsolation.ReachableHistory` | src/fork.rs:30-57 | in every reachable state any range of any stream resolves to its full history cut to the range, versions strictly increasing along the chain |
| `ForkIsolation.Isolation` | src/store.rs:370-413 | fork isolation: a live stream's history is unchanged by appends, forks, purges and deletions elsewhere, ancestors included, while the next stream down from each purged or deleted one stays live |
| `ForkIsolation.IsolatedThroughout` | src/store.rs:370-413 | the same over every run of such operations |
| `ForkIsolation.RunningPurgeStaysAllowed` | src/store.rs:370-400 | what is left of a running purge stays above every live pin, whatever happens in between, except a fork of that stream |
| `ForkRemoval.RemovalUnnoticedIff` | src/kv.rs:146-156 | for every purge or deletion and a fork chain of any length, the history at its end is unchanged if and only if nothing the chain reads is lost: doomed, or pinned by no other live direct child |
| `ForkRemoval.ForkUnderPurgeIff` | src/store.rs:366-400 | a purge that goes on after a fork leaves the new stream its history if and only if none of the versions still deleted holds an event readable at or below the fork point |
| `ForkRemoval.ForkLosesInRun` | src/store.rs:366-400 | a run: a purge of the only event may begin, a fork at that event comes in between, and the new stream loses it |
| `ForkRemoval.GrandchildLosesInRun` | src/kv.rs:146-156 | a run after which deleting, or purging, the first of three streams takes its event from the live third |
| `Rehydrate.FoldEvents` | src/store.rs:508-523 | the fold loop gives the folded state and the last version |
| `Rehydrate.RehydrateFrom` | src/store.rs:528-538 | rehydration from a given snapshot, with its errors |
| `Rehydrate.Compact` | src/store.rs:569-602 | a compaction folds the full readable history, failing on an empty one or without a snapshot |
| `Rehydrate.NextKeeps` | src/store.rs:580-644 | every step of appends, other changes and overlapping compactions keeps each snapshot, published or not, the fold of the history up to its version |
| `Rehydrate.RehydrateIsFold` | src/store.rs:528-538 | rehydration: after every run, with compactions overlapping and published in any order, rehydrating from any published snapshot, hence the latest, equals the fold of the full history and returns its last version |
| `Rehydrate.Latest` | src/kv.rs:183-191 | the snapshot of the greatest key, if there is one |
| `Rehydrate.PurgeBelowSnapshot` | src/store.rs:528-538 | purging only what a snapshot covers loses nothing for rehydration from that snapshot |
| `Rehydrate.CompactAfterPurgeKeepsIff` | src/store.rs:580-602 | an aggregate that keeps every event gets its state back from a compaction after a purge if and only if the purge took no event |
| `Rehydrate.CompactAfterPurgeForgets` | src/store.rs:580-602 | witness: the first of two events purged, the compaction succeeds, and what it restores is not the history |

## Left out

- `landslide-fuse/src/fs.rs`: the kernel protocol and its staged extents.
- `landslide-fuse/src/mirror.rs`: local filesystem I/O and its change fingerprints.
- `src/reader.rs`, tasks, channels and durability waits: a durable append is one step, and a sync that does not become durable is a failed one.
- Codecs (serde, bincode, base64, zstd) and SHA-256: parameters or assumed inverses; a payload that does not decode as a delta is `Foreign` in the volume model, and undecodable SQLite batches, which make a restore fail, are not modelled.
- rusqlite, WAL truncation pragmas, file materialisation, object-store clients, CLIs, examples: I/O only. Failed uploads, publications and deletes are flags or separate steps.
- `src/jobs.rs`, `read_page`, `list_streams` and compaction records: bookkeeping over the scans modelled here; claim exclusivity also rests on the order of ULIDs within a millisecond.
- `append_at`, `trim` and `trim_below`: not among the operations of any run. Reads do apply trim floors and rollback windows, and the
  append method takes an explicit start version.
- Event ids, types and metadata of an envelope: carried in the record as one payload, `data`, which nothing here looks into.
- Integer widths: versions, sizes and counters are unbounded, so overflow at 2^64 and `usize` truncation are not captured.
- The retry loop of `commit_appends`: an aborted attempt and the next one are two transactions of a run.
- Batch checks of a cross-stream commit: done per append instead of up front, so the error may differ when several apply; nothing is written either way.
- `fence`: reads the tail under conflict detection in the code and does not in the model, which therefore allows more commits.
- SqliteFence.NoSplitBrain: uploads, deletions and crashes inside a checkpoint are taken apart in `SqliteCheckpoint` instead, for one handle.
- FsVolume.Volume.Commit: which blocks arrive before a failed upload is a parameter, as is whether one fails.
- FsVolume.MountEqualsReplay: one writer, untangled renames, and purges below the manifest readers find.
- FsCommit.UpgradePreservesIff: batches that move something onto a chunked path which the same batch moved away before, or onto it as part of a renamed directory, are not covered.
- FsRetry.StreamAfterFailureIff: the same batches are not covered, nor further renames that touch a re-blocked file.
- FsRetry.ImageAfterFailureIff: further renames that touch a re-blocked file are not covered.
- TimeIndex.SeekAfterRun: a fork's inherited events are in the index of their own stream only, and the search does not look there; purges, which leave index entries behind, are not among the operations of these runs.
- ForkIsolation.Isolation: a purge is one step over any set of versions above the live pins; `ForkIsolation.RunningPurgeStaysAllowed` covers the chunks of a longer one.
