# JanusFS: content layer, metadata store and sync

JanusFS keeps a content-addressed file tree in local SQLite tables and syncs it to remote object
storage. This project models four connected parts of `janus-vfs` and proves what they promise.

* **Content layer.** `ChunkMap` is an interval map from file offsets to chunk places; `BlobIo` is a
  buffered copy-on-write writer over it, and a reader. Specification: a flat byte array.
  (`ChunkEntries`, `ChunkMaps`, `Blobs`, `WriterSteps`, `WriterHistory`, `BlobIo`)
* **Metadata store.** The `vfs` table with its triggers (tree shape, derived paths, dirty marks, change
  log), commits with the bottom-up Merkle pass, checkout of a pulled configuration, and the
  reference-counted tables with cascading collection.
  (`Trees`, `Marks`, `PathIndex`, `Entities`, `Merkle`, `TableSteps`, `ChangeLog`, `Statements`,
  `VfsTable`, `DirtyPass`, `Checkout`, `Heads`, `Transactions`, `Bags`, `RefTables`, `RefStore`, `Twins`)
* **Sync.** The retrying push queue, the order in which a pull registers objects, the memoised, budgeted
  sort it depends on, the first sync of a new volume, and one volume's tree arriving in another.
  (`Push`, `SortEntities`, `Pull`, `FirstSync`, `Sharing`)
* **Write locks.** The table of weak mutex references under any interleaving of clients. (`Locks`)

What the program changes in place is a class whose methods are its statements, triggers or polls, proved
against functions and predicates on values; the lemmas are about those. `Wrappers`, `Chunks`, `Bags` and
`Distinct` hold small common definitions.

## How the program is read

* Hashes (chunk, blob, revision and commit ids, and `InodeId::from_entity_id`) are injective functions of
  their listed inputs, so they are written as terms over those inputs; the hash of an inode number never
  hits the root's. `SortEntities` alone does not use this: there a directory may list anything.
* Timestamps, remote locations, estimated sizes, the uploader's remaining space, the failures of uploads and
  transactions and the local transactions in between are arbitrary. A chunk store is a map from id to bytes; a `Vec` has exactly the
  requested capacity; file positions stay within 64 bits.
* Every wait of the writer's polls may answer "pending" and be polled again.
* A statement that aborts leaves its table as it was. A transaction that fails is rolled back; where a
  failure can hit any step of a transaction it is modelled before the transaction. Which of several equally
  large queue items comes first is arbitrary, but fixed.
* Every caller passes an inode the name of its entity, so statements take the name from the entity key.
* The vfs table appears twice: as `VfsTable.Table`, and in `RefStore` as rows that each hold one entity.
  Blobs, chunks, commits and entities are numbered in `RefTables`; the entities and commits of the file tree
  are full keys in `Entities` and `Heads`. `Twins` runs the statements of both side by side: directory
  entries and heads are the holders of the counted tables, the same rows are stored in both, and what the
  counts collect goes from both.
* `Transactions` leaves open which unreferenced local rows are gone when a transaction ends; everything said
  there holds whatever has been collected (`Heads.Collected`), and `RefStore` says what is.

## Where the code falls short of the plain claim

Each case is kept as the code has it. The exact condition, which a caller can check before the call, is
proved for each, and a family of failing inputs or a state reached from an empty start is shown.

* `set_len` keeps every later non-empty write right exactly when the new end is a block boundary or lies
  behind the bytes of a mapped block (`WriterHistory.SetLenExact`; failing families `CutBlockFails`,
  `ShortHoleFails`).
* An empty write keeps every later non-empty write right exactly when its position is not past the end of
  the array, or at most one byte behind a block boundary: elsewhere it leaves zeros up to the position in the
  buffer, which the next write to the block submits (`WriterHistory.EmptyWriteExact`, `EmptyWriteFails`,
  `EmptyWriteWitness`).
* A read between flushes is right exactly unless it starts before the unflushed buffer and either lies past
  the mapped end or its chunk or hole runs over a non-zero byte of the buffer (`WriterHistory.ReadExact`,
  `ReadWitness`).
* The writer measures `SeekFrom::End` against the flushed length (`WriterHistory.SeekFromEndExact`,
  `SeekFromEndWitness`).
* Updating a directory with a body other than the stored one leaves an out-of-date directory unmarked, and
  the commit behind it does not repair it (`Transactions.StaleBodyExact`, `Transactions.Volume.Update`,
  `EmptiedBodyFails`, `FirstSync.StaleBodyReached`, `DirtyPass.PassKeepsStale`).
* A read-only volume refuses every edit but `create_file`, which has no such check
  (janus-vfs/src/vfs/file.rs:297-309): it succeeds exactly where it does on a writable volume
  (`Transactions.Volume.CreateFile`), and on a mounted tag the tree then is no longer the tag's
  (`FirstSync.ReadOnlyFileMade`).

`_process_queue` returns `Ok` with items left exactly when both takes of an empty upload, the largest item
that fits and then the largest of all, find synced items and something else waits (`Push.PushTask.Fill`,
`Push.LargerSyncedItemsHide`). No run of the push gets there: `create_sync_job` queues local items, local
transactions and failed attempts leave them local (`Push.LocalStays`), and only a sync makes an item synced,
of which `SYNC_SEMAPHORE` admits one at a time (janus-vfs/src/sync/mod.rs:22). So on success everything that
was queued is synced (`Push.PushTask.Run`).

## Model

| member | source | states |
|---|---|---|
| ChunkEntries.RemoveRangeMeaning | janus-vfs/src/chunk/chunk_map.rs:148-200 | removing [start, end) punches exactly that hole into the meaning of the map, which stays sorted, disjoint, within the length and coalesced |
| ChunkEntries.MergeAtMeaning | janus-vfs/src/chunk/chunk_map.rs:202-222 | merging a range with its successor never changes the place of any offset |
| ChunkEntries.InsertMeaning | janus-vfs/src/chunk/chunk_map.rs:70-95 | insert is the pointwise update clamped to the length, for any offset and size, and the result is coalesced |
| ChunkEntries.RemoveMeaning | janus-vfs/src/chunk/chunk_map.rs:98-107 | remove is the pointwise removal clamped to the length, and the result is coalesced |
| ChunkEntries.ResizeMeaning | janus-vfs/src/chunk/chunk_map.rs:109-114 | set_len forgets exactly what lies past the new end; growing adds a hole |
| ChunkEntries.GetMeaning | janus-vfs/src/chunk/chunk_map.rs:116-146 | get answers exactly for offsets below the length, with the right place or hole and its whole remaining length |
| ChunkEntries.CanonicalForm | janus-vfs/src/chunk/chunk_map.rs:34 | two coalesced maps of one length with the same pointwise meaning have identical entries |
| ChunkEntries.RangesListFrom | janus-vfs/src/chunk/chunk_map.rs:61-68 | iteration lists every range from a key on, once, in order |
| ChunkEntries.ReloadRestores | janus-vfs/src/blob/mod.rs:80-92 | re-inserting the listed ranges in any order into an empty map of the stored length gives back the map |
| ChunkMaps.ChunkMap.WithLen | janus-vfs/src/chunk/chunk_map.rs:46-51 | an empty map of the given length |
| ChunkMaps.ChunkMap.Iter | janus-vfs/src/chunk/chunk_map.rs:61-68 | the ranges in ascending order |
| ChunkMaps.ChunkMap.Insert | janus-vfs/src/chunk/chunk_map.rs:70-95 | the entries become the specified insert of the old ones; the length stays |
| ChunkMaps.ChunkMap.Remove | janus-vfs/src/chunk/chunk_map.rs:98-107 | the entries become the specified removal of the old ones |
| ChunkMaps.ChunkMap.SetLen | janus-vfs/src/chunk/chunk_map.rs:109-114 | length and entries become the specified resize |
| ChunkMaps.ChunkMap.Get | janus-vfs/src/chunk/chunk_map.rs:116-146 | the entry or hole the specification gives, also at the last range and past the end |
| ChunkMaps.ChunkMap.RemoveRange | janus-vfs/src/chunk/chunk_map.rs:148-200 | scan, then edit, comes to the specified removal |
| ChunkMaps.ChunkMap.CollectEdits | janus-vfs/src/chunk/chunk_map.rs:153-193 | the scan collects just the keys to remove and the pieces to put back, so that editing gives the specified removal |
| ChunkMaps.ChunkMap.Replace | janus-vfs/src/chunk/chunk_map.rs:194-199 | the collected keys go and the collected pieces come |
| ChunkMaps.ChunkMap.TryMergeAt | janus-vfs/src/chunk/chunk_map.rs:202-222 | the entries become the specified merge |
| Blobs.IdDeterminesBlob | janus-vfs/src/chunk/chunk_map.rs:224-242 | equal blob ids mean equal lengths and maps |
| Blobs.Load | janus-vfs/src/blob/mod.rs:331-385 | loading the stored ranges of a blob gives back its map |
| Blobs.ResizeKeepsBacked | janus-vfs/src/chunk/chunk_map.rs:109-114 | after set_len every range still lies inside its chunk |
| WriterSteps.SubmittedIsUpdate | janus-vfs/src/blob/io.rs:164-205 | a finished submission replaces one block's entry and nothing else |
| WriterSteps.FlushKeepsContent | janus-vfs/src/blob/io.rs:363-376 | a flush keeps the byte array and leaves all of it in the map, in whole blocks |
| WriterSteps.OpenIsGood | janus-vfs/src/blob/io.rs:455-482 | on blocked blobs the buffer covers the whole block of the position, loaded if mapped; the mid-chunk error is unreachable |
| WriterSteps.PrepareIsGood | janus-vfs/src/blob/io.rs:431-482 | preparing a buffer elsewhere first flushes, and keeps the byte array |
| WriterSteps.WriteRefines | janus-vfs/src/blob/io.rs:431-498 | every non-empty write takes at least one byte, overlays what it took at the position with zeros in the gap, and keeps the writer ready |
| WriterHistory.SetLenRefines | janus-vfs/src/blob/io.rs:534-538 | a safe set_len cuts or zero-extends the byte array and keeps the writer ready |
| WriterHistory.CutBlockFails | janus-vfs/src/blob/io.rs:460-472 | cutting a mapped block brings the cut bytes back with the next write to it |
| WriterHistory.ShortHoleFails | janus-vfs/src/blob/io.rs:476-478 | a length ending inside an unmapped block caps the buffer there, so a write behind it takes nothing |
| WriterHistory.SetLenExact | janus-vfs/src/blob/io.rs:460-482 | after set_len every later non-empty write is right if and only if the new end is safe |
| WriterHistory.EmptyWriteExact | janus-vfs/src/blob/io.rs:646-669 | after an empty write every later non-empty write gives the flat array if and only if the position was not past the array or at most one byte behind a block boundary; then the array is unchanged |
| WriterHistory.EmptyWriteRefines | janus-vfs/src/blob/io.rs:431-498 | a safe empty write leaves the array alone and the writer ready for everything else |
| WriterHistory.EmptyWriteFails | janus-vfs/src/blob/io.rs:646-669 | after any other empty write, one byte written to the front of the block grows the array to the old position |
| WriterHistory.EmptyWriteWitness | janus-vfs/src/blob/io.rs:571-599 | from an empty writer: seek to 5, an empty write, one byte at 0, and the blob is five bytes long |
| WriterHistory.SeekFromEndWitness | janus-vfs/src/blob/io.rs:571-585 | from an empty writer: after one unflushed byte a seek to the end lands in front of it |
| WriterHistory.ReadWitness | janus-vfs/src/blob/io.rs:391-429 | from an empty writer: with one unflushed byte in the second block a read of the first finds nothing |
| WriterHistory.EmptyWriteKeepsFilled | janus-vfs/src/blob/io.rs:431-498 | an empty write between appends changes nothing that a flush would map |
| WriterHistory.SeekFromEndExact | janus-vfs/src/blob/io.rs:571-585 | seeks from the end miss exactly an unflushed growth |
| WriterHistory.SeekBack | janus-vfs/src/blob/io.rs:621-644 | in the flat file a relative seek moves by its offset, and the opposite one comes back |
| WriterHistory.ReadMappedReads | janus-vfs/src/blob/io.rs:291-326 | what the map alone answers is a non-empty true slice of the array unless the end is reached |
| WriterHistory.ReadExact | janus-vfs/src/blob/io.rs:391-429 | a read between flushes is a true slice of the array if and only if it does not start before the unflushed buffer and lie past the mapped end or in a chunk or hole that runs over a non-zero byte of the buffer |
| WriterHistory.FeedRefines | janus-vfs/src/blob/io.rs:431-498 | write_all terminates and overlays all of its data |
| WriterHistory.StepRefines | janus-vfs/src/blob/io.rs:431-549 | each legal step of the writer does to the flat array what the flat specification does |
| WriterHistory.HistoryRefines | janus-vfs/src/blob/io.rs:363-376 | after any legal history of seeks, writes, safe empty writes, flushes and safe truncations the flushed blob reads as the flat array of the same history |
| WriterHistory.FilledIsCanonical | janus-vfs/src/chunk/chunk_map.rs:224-242 | two blobs filled block by block that read the same are equal, and so are their ids |
| WriterHistory.AppendKeepsFilled | janus-vfs/src/blob/io.rs:431-498 | appending keeps every block below the end mapped, and full but for the last |
| WriterHistory.RunAppends | janus-vfs/src/blob/io.rs:883-919 | any run of appends, empty writes and flushes leaves the writer filled and holding the concatenated data |
| WriterHistory.HistoryIndependence | janus-vfs/src/blob/io.rs:883-919 | any two ways of splitting a byte string into sequential writes, with empty writes and flushes anywhere, end in the same map and blob id |
| BlobIo.WriteIntoVec | janus-vfs/src/blob/io.rs:646-669 | in place, the array becomes itself with the data overlaid and the gap zero-filled, clamped to the capacity |
| BlobIo.WriteBuffer.FromData | janus-vfs/src/blob/io.rs:96-108 | a clean buffer that holds the loaded bytes |
| BlobIo.WriteBuffer.ReadAt | janus-vfs/src/blob/io.rs:122-131 | the buffered bytes from a position, as many as fit |
| BlobIo.WriteBuffer.WriteAt | janus-vfs/src/blob/io.rs:133-141 | the buffer becomes the specified write, and dirty |
| BlobIo.BlobWriter.constructor | janus-vfs/src/blob/io.rs:504-517 | a writer at position 0 over the blob |
| BlobIo.BlobWriter.PollSubmitComplete | janus-vfs/src/blob/io.rs:164-177 | completing a submission in flight does not change the state the writer stands for; it adds exactly its chunk to the store |
| BlobIo.BlobWriter.MapChunk | janus-vfs/src/blob/io.rs:164-177 | the blob grows if needed and the chunk is mapped at its start |
| BlobIo.BlobWriter.PollFlushPipeline | janus-vfs/src/blob/io.rs:363-376 | whether it finishes or is pending, the writer stands for the flushed state, without a buffer; no stored chunk goes |
| BlobIo.BlobWriter.PollFetch | janus-vfs/src/blob/io.rs:31-79 | the bytes of the chunk, from the cache or the store |
| BlobIo.BlobWriter.PollOpen | janus-vfs/src/blob/io.rs:455-488 | the buffer for the position as specified, with the same error cases |
| BlobIo.BlobWriter.PollPrepare | janus-vfs/src/blob/io.rs:431-488 | a poll that is pending and polled again arrives at the specified prepared writer |
| BlobIo.BlobWriter.WriteBuffered | janus-vfs/src/blob/io.rs:489-498 | from the prepared state, what the specified write returns and leaves |
| BlobIo.BlobWriter.PollWrite | janus-vfs/src/blob/io.rs:587-599 | a finished poll returns what the specified write returns and leaves its state, the mid-chunk error included; a pending one has changed nothing that a write depends on |
| BlobIo.BlobWriter.PollRead | janus-vfs/src/blob/io.rs:552-567 | returns what the specified read returns and moves the position by it; a closed writer refuses, or answers nothing where the end is reached and nothing is left to flush |
| BlobIo.BlobWriter.PollReadSettled | janus-vfs/src/blob/io.rs:391-417 | the read with no submission in flight |
| BlobIo.BlobWriter.PollReadMapped | janus-vfs/src/blob/io.rs:225-251 | the read from the map |
| BlobIo.BlobWriter.WriteSome | janus-vfs/src/blob/io.rs:587-599 | polling until ready takes a non-empty part of the data |
| BlobIo.BlobWriter.WriteAll | janus-vfs/src/blob/io.rs:587-599 | all data is taken, as the specified feed |
| BlobIo.BlobWriter.PollFlush | janus-vfs/src/blob/io.rs:601-607 | a flush that is done leaves nothing buffered or in flight |
| BlobIo.BlobWriter.PollClose | janus-vfs/src/blob/io.rs:609-618 | a closed writer is flushed first |
| BlobIo.BlobWriter.SetLen | janus-vfs/src/blob/io.rs:534-538 | flush, then resize; a closed writer refuses |
| BlobIo.BlobWriter.Finalize | janus-vfs/src/blob/io.rs:545-549 | the blob that comes out reads as the writer's array, and its id is the hash of its map |
| BlobIo.BlobWriter.Seek | janus-vfs/src/blob/io.rs:571-585 | `Start(n)` moves to n, `Current(d)` by d from the position, `End(d)` by d from the flushed length: exactly when that lies between 0 and the 64-bit maximum, beyond the end too; otherwise an underflow is reported and the position stays |
| BlobIo.BlobReader.Read | janus-vfs/src/blob/io.rs:291-326 | a true slice of the blob's bytes at the position |
| BlobIo.BlobReader.ReadHere | janus-vfs/src/blob/io.rs:225-251 | what the map answers at the position |
| BlobIo.BlobReader.ReadToEnd | janus-vfs/src/blob/io.rs:291-326 | reading on to the end, with any buffer size, returns all bytes from the position |
| BlobIo.BlobReader.Seek | janus-vfs/src/blob/io.rs:621-644 | the same moves, exactly when the target lies between 0 and the length; otherwise the error says whether it lay behind the end or outside of 64 bits, and the position stays |
| Trees.BelowStep | janus-vfs/migrations/202605201500_initial.sql:694-704 | an inode's ancestors are its parent and the parent's ancestors |
| Trees.BelowTransitive | janus-vfs/migrations/202605201500_initial.sql:694-704 | ancestors of ancestors are ancestors |
| Trees.ParentNotBelow | janus-vfs/migrations/202605201500_initial.sql:706-718 | in one tree no inode is its own proper ancestor |
| Trees.InsertKeepsTree | janus-vfs/migrations/202605201500_initial.sql:643-655 | a new inode under a directory keeps one tree, and no ancestry between old inodes changes |
| Trees.MoveKeepsTree | janus-vfs/migrations/202605201500_initial.sql:706-718 | an accepted move keeps every inode reachable from the root |
| Trees.PruneKeepsTree | janus-vfs/migrations/202605201500_initial.sql:571-590 | removing a subtree other than the whole leaves a tree |
| Trees.PathIsJoin | janus-vfs/migrations/202605201500_initial.sql:803-821 | the recursively computed path is the slash-join of the names from the root |
| Trees.PathInjective | janus-vfs/migrations/202605201500_initial.sql:588 | distinct inodes have distinct paths |
| Trees.WalkArrives | janus-vfs/src/vfs/path.rs:152-169 | walking the tree name by name arrives at an inode exactly along that inode's names |
| Marks.MarkedIsUpward | janus-vfs/migrations/202605201500_initial.sql:761-772 | with closed marks the recursive trigger, though it stops at the first marked inode, marks the inode and exactly all its ancestors |
| Marks.MarkingCloses | janus-vfs/migrations/202605201500_initial.sql:721-772 | marking the new parent closes the marks again |
| Marks.DeepestDirty | janus-vfs/src/db.rs:196-213 | while anything is dirty, some dirty inode has no dirty child |
| PathIndex.SamePath | janus-vfs/migrations/202605201500_initial.sql:803-821 | a path depends on the names and parents above alone, and not on the root's name |
| PathIndex.RelocationNeverClashes | janus-vfs/migrations/202605201500_initial.sql:588 | when an inode is renamed or moved, no new path of any inode equals the old path of another, so the unique path index rejects nothing even halfway through the recursion |
| PathIndex.RelocateDone | janus-vfs/migrations/202605201500_initial.sql:788-821 | recomputing the relocated subtree makes every stored path right |
| PathIndex.LookupIsWalk | janus-vfs/src/vfs/path.rs:152-169 | lookup in the path column finds an inode exactly where walking the tree by names arrives |
| Entities.SortedEntries | janus-vfs/src/vfs/directory.rs:35-37 | lists each of the keys once |
| Entities.SortedAscends | janus-vfs/src/vfs/directory.rs:35-37 | the listing ascends by entity id |
| Entities.SortedUnique | janus-vfs/src/vfs/directory.rs:94-96 | any ascending listing of the same keys is the same listing, so a directory's revision does not depend on row order |
| Entities.SortedInjective | janus-vfs/src/vfs/directory.rs:115-128 | equal listings mean equal sets of children |
| Merkle.SnapshotUnique | janus-vfs/src/db.rs:192-266 | the bottom-up pass has one result, whatever order it takes directories in |
| Merkle.SnapshotOfHashed | janus-vfs/src/db.rs:244-266 | a pass over directories that are up to date changes no key |
| Merkle.SnapshotRebodies | janus-vfs/src/db.rs:244-266 | the pass replaces bodies alone: ids and metadata, the created time included, stay, a marked directory lists exactly the keys of its children after the pass, ascending, and no other key changes |
| Merkle.ListingListsChildren | janus-vfs/src/vfs/directory.rs:94-96 | the sorted listing of the child keys holds exactly the children's keys, in ascending order |
| Merkle.CommittedIsUnfolded | janus-vfs/src/vfs/config.rs:747-834 | a table with every directory up to date is the unfolding of its root entity |
| Merkle.RootKeyDetermines | janus-vfs/src/vfs/directory.rs:94-128 | equal root keys mean equal trees, inode by inode and entity by entity |
| TableSteps.InsertConsistent | janus-vfs/migrations/202605201500_initial.sql:721-730 | an insert keeps marks closed and every stale directory marked if and only if the new body is empty |
| TableSteps.UpdateConsistent | janus-vfs/src/vfs/mod.rs:1048-1078 | an update, which clears the mark, keeps that if and only if the inode has no dirty child and a directory's new body lists its children |
| TableSteps.MoveConsistent | janus-vfs/migrations/202605201500_initial.sql:744-758 | a move keeps it, marking both parents and all above |
| TableSteps.DeleteConsistent | janus-vfs/migrations/202605201500_initial.sql:733-741 | a delete keeps it, marking the parent and all above |
| ChangeLog.InvalidationSound | janus-vfs/src/db.rs:168-187 | if whatever changed is logged, caches that agreed with the tables before a transaction agree with them after its commit |
| ChangeLog.InodeLoaded | janus-vfs/src/vfs/mod.rs:853-863 | remembering a right answer, also that there is nothing, keeps the inode cache in agreement |
| ChangeLog.PathLoaded | janus-vfs/src/vfs/path.rs:106-121 | the same for the path cache |
| VfsTable.Table.constructor | janus-vfs/migrations/202605201500_initial.sql:571-590 | an empty table is well formed |
| VfsTable.Table.MarkDirty | janus-vfs/migrations/202605201500_initial.sql:761-772 | terminates with the specified marks |
| VfsTable.Table.ClearPath | janus-vfs/migrations/202605201500_initial.sql:803-821 | terminates with right paths in the whole subtree, other paths untouched, and exactly the subtree logged; every written path is free in the unique index |
| VfsTable.Table.ClearChildren | janus-vfs/migrations/202605201500_initial.sql:815-821 | the children's subtrees are recomputed and logged |
| VfsTable.Table.Cascade | janus-vfs/migrations/202605201500_initial.sql:585-586 | a cascading delete removes and logs exactly the subtree |
| VfsTable.Table.InsertInode | janus-vfs/src/vfs/mod.rs:1019-1046 | succeeds exactly when checks, keys and triggers allow; then one row is new, its ancestors are marked, it is logged, and the table stays well formed |
| VfsTable.Table.AddInode | janus-vfs/migrations/202605201500_initial.sql:721-821 | the accepted insert with its triggers |
| VfsTable.Table.AddRow | janus-vfs/migrations/202605201500_initial.sql:721-821 | the row, its ancestors' marks and its path are in |
| VfsTable.Table.UpdateInode | janus-vfs/src/vfs/mod.rs:1048-1078 | succeeds exactly when allowed; then name and key are new, the log has every inode whose path or key changed, and the marks are the specified ones |
| VfsTable.Table.ApplyUpdate | janus-vfs/migrations/202605201500_initial.sql:744-821 | the accepted update with its triggers |
| VfsTable.Table.MoveInode | janus-vfs/src/vfs/mod.rs:893-904 | succeeds exactly when the parent is a directory outside the subtree with a free slot; the root never moves; then the tree, marks and log are the specified ones |
| VfsTable.Table.IsBelow | janus-vfs/migrations/202605201500_initial.sql:694-718 | decides ancestry by following parents |
| VfsTable.Table.ApplyMove | janus-vfs/migrations/202605201500_initial.sql:744-821 | the accepted move with its triggers |
| VfsTable.Table.DeleteInode | janus-vfs/src/vfs/mod.rs:880-891 | succeeds exactly when it is not the root and no open write handle is in the subtree; then exactly the subtree is gone and logged, and else nothing changed |
| VfsTable.Table.DeleteRow | janus-vfs/migrations/202605201500_initial.sql:733-741 | a deleted row takes its subtree and marks its parent and all above |
| VfsTable.Table.DeleteAll | janus-vfs/src/vfs/config.rs:777 | empties the table and logs every inode exactly when no write handle is open |
| VfsTable.Table.InsertRoot | janus-vfs/src/vfs/config.rs:779-793 | the root row alone, with path "/" |
| VfsTable.Table.RegisterEntity | janus-vfs/src/vfs/entity.rs:1011-1104 | accepted exactly when the entity is known, or its name is valid and a directory's entries or a file's blob are there |
| VfsTable.Table.RegisterBlob | janus-vfs/src/blob/mod.rs:414-455 | one blob more, and every file entity's blob is there |
| VfsTable.Table.RegisterRemoteBlob | janus-vfs/src/blob/mod.rs:414-455 | a pulled blob is accepted exactly when it is not synced yet, and is synced then |
| VfsTable.Table.MarkEntitySynced | janus-vfs/migrations/202605201500_initial.sql:1194-1207 | a local entity becomes synced once, which logs exactly the inodes that show it; a synced one stays as it is |
| VfsTable.Table.FindPath | janus-vfs/src/vfs/path.rs:152-169 | the inode stored under the path, or none if there is none |
| VfsTable.Table.OpenHandle | janus-vfs/src/vfs/file.rs:591-600 | a handle needs an existing inode |
| VfsTable.Table.CloseHandle | janus-vfs/src/vfs/file.rs:602-608 | the handle is gone |
| VfsTable.Table.ClearLog | janus-vfs/src/db.rs:280-285 | the next transaction starts from the present tables |
| DirtyPass.ProcessDirtyInode | janus-vfs/src/db.rs:225-266 | never fails: one dirty directory without dirty children keeps its id and metadata, lists exactly its present children's keys, is clean, and nothing else changes |
| DirtyPass.ProcessBatch | janus-vfs/src/db.rs:194-214 | each round leaves strictly fewer dirty inodes |
| DirtyPass.ProcessDirtyInodes | janus-vfs/src/db.rs:192-217 | terminates without error (a file is never dirty); the dirty directories keep id and metadata and list their children's new keys, no other key changes, and exactly the rewritten entities are registered; every directory lists its children afterwards if and only if the marks named all that did not |
| DirtyPass.RehashedRebodies | janus-vfs/src/db.rs:244-264 | rewriting one directory replaces its body and nothing else |
| DirtyPass.PassKeepsStale | janus-vfs/src/db.rs:192-217 | if all is up to date after the pass, the marks had named every directory that was not |
| DirtyPass.ChangeRises | janus-vfs/src/db.rs:225-266 | under closed marks a changed key changes the keys of all its ancestors, up to the root's |
| Checkout.NextChildFits | janus-vfs/src/vfs/config.rs:796-832 | while the wanted tree exists, each next child of the breadth-first rebuild is accepted by the table |
| Checkout.CreateChildren | janus-vfs/src/vfs/config.rs:799-832 | the children of one inode become rows and wait in the queue |
| Checkout.Rebuild | janus-vfs/src/vfs/config.rs:775-834 | terminates; succeeds if and only if no write handle is open and the root entity unfolds into a tree with valid, distinct names and ids, and then the table is that tree |
| Transactions.Volume.constructor | janus-vfs/src/db.rs:363-375 | an empty volume is settled |
| Transactions.Volume.UpdateCommit | janus-vfs/src/vfs/commit.rs:508-570 | a new commit, one count higher and after the old one, exactly when the root key differs from the head's; afterwards the head names the root key |
| Transactions.Volume.UpdateConfig | janus-vfs/src/vfs/config.rs:513-573 | exactly if the heads changed, the configuration lists them, its time is now and it is not synced |
| Transactions.Volume.Commit | janus-vfs/src/db.rs:159-190 | succeeds exactly when the branch has a root and a head; marked directories keep id and metadata and list their children, no other key changes, nothing is dirty; the head names exactly the root's key and moved exactly if it had to, and exactly then the configuration lists the new heads, of time now and not synced; the rows are those before, the rewritten keys and the new commit, less what nothing refers to; the caches agree with the tables, and the volume is settled if and only if the marks named every stale directory |
| Transactions.Volume.Collect | janus-vfs/migrations/202605201500_initial.sql:152-160 | whatever unreferenced local rows go, the volume stays sound |
| Transactions.Volume.Publish | janus-vfs/src/db.rs:168-188 | the caches agree with the new tables, the log is clear, and only unreferenced local rows have gone |
| Transactions.Volume.UpdateHead | janus-vfs/src/vfs/config.rs:551-578 | the head changes exactly if the root's key is another than the head commit's, and then by one commit; exactly then the configuration changes: it lists the heads, its time is now, and it is no longer synced |
| Transactions.Volume.UpsertHeads | janus-vfs/src/vfs/config.rs:662-683 | succeeds exactly when all commits exist and no head changes its type; then every listed head has its commit and no other head changes |
| Transactions.Volume.SetConfig | janus-vfs/src/vfs/config.rs:650-837 | succeeds if and only if the head is listed, heads and commits fit, and the commit's tree is shown or can be rebuilt; then the heads become exactly those of the configuration, and the table unfolds the head's commit unless it was there already |
| Transactions.Volume.ShowTree | janus-vfs/src/vfs/config.rs:747-834 | succeeds exactly when the tree is shown already or can be rebuilt, and then the table unfolds it |
| Transactions.Volume.PullConfig | janus-vfs/src/vfs/config.rs:633-837 | a configured volume ignores a configuration that is not later or not synced: nothing changes; any other, and any at all where there is none, is taken over exactly if it can be set: heads and configuration become the pulled ones and the table its commit's tree, entity for entity, without a new commit where this code committed the tree; otherwise but for what the pass behind it lists anew and the head commit of that, which makes the configuration's time now; the time does not fall otherwise; an error changes nothing; the volume is settled in any case |
| Transactions.Volume.ApplyConfig | janus-vfs/src/vfs/config.rs:650-837 | the same for a configuration that is taken over |
| Transactions.Volume.DropHeads | janus-vfs/src/vfs/config.rs:725-740 | exactly the heads that are not listed go |
| Heads.SameListing | janus-vfs/src/vfs/config.rs:662-740 | two sets of heads that one configuration lists are the same |
| Heads.HeadsAfterTaking | janus-vfs/src/vfs/config.rs:633-837 | after a configuration is taken over, every head but a moved branch head is as it lists it; it stays as pulled unless the branch head moved, and then it is of time now and not synced |
| Transactions.Volume.InodeById | janus-vfs/src/vfs/mod.rs:853-863 | an answer exactly for an inode of the table: its parent, its path in the tree, its entity and whether that is stored remotely, from the cache or not; the answer is remembered |
| Transactions.Volume.InodeIdByPath | janus-vfs/src/vfs/path.rs:106-121 | answers what walking the tree along the path's names finds, from the cache or not, and remembers the answer |
| Transactions.ViewShows | janus-vfs/src/vfs/mod.rs:853-863 | every right answer shows an inode's parent, path, entity and mode as the tree has them |
| Transactions.AnswerIsWalk | janus-vfs/src/vfs/path.rs:152-169 | every right answer from the path column is the walk along the path's names |
| Transactions.CheckedOut | janus-vfs/src/db.rs:192-266 | the pass over a checked-out committed tree recomputes every key to what it was |
| Heads.KeptHeads | janus-vfs/src/vfs/config.rs:725-740 | dropping obsolete heads leaves exactly the listed ones |
| Transactions.RootKeyTells | janus-vfs/src/vfs/commit.rs:532-535 | comparing root keys is comparing whole trees |
| Transactions.Volume.CommitEdit | janus-vfs/src/db.rs:159-190 | after an edit the head moves if and only if the root's key is another one, which between up-to-date trees means another tree; only bodies of marked directories change |
| Transactions.Volume.Mv | janus-vfs/src/vfs/mod.rs:893-904 | refused on a read-only volume; otherwise success exactly when the move is allowed: then that inode alone has its new parent, the directories above its old and new place list their children again, and nothing else changes; a settled volume is settled again, and the head moves to the next commit exactly if the tree is another one; an error changes nothing |
| Transactions.Volume.Delete | janus-vfs/src/vfs/mod.rs:880-891 | refused on a read-only volume; otherwise success exactly when nothing pins the subtree: then exactly the subtree is gone and the directories above it list their children again; a settled volume is settled again; an error changes nothing |
| Transactions.Volume.CreateDir | janus-vfs/src/vfs/directory.rs:196-232 | refused on a read-only volume; otherwise a settled volume is settled again, with one directory more of the given metadata and without entries, the directories above it listing their children again and no other key changed, and the head at the next commit; an error changes nothing |
| Transactions.Volume.CreateFile | janus-vfs/src/vfs/file.rs:297-309 | read-only or not, a settled volume is settled again, with one file more of the given metadata over the empty blob, its blob's row, the directories above it listing their children again, and the branch head at the next commit; an error changes nothing |
| Transactions.Volume.CreateInode | janus-vfs/src/vfs/entity.rs:1011-1104 | success exactly when the table accepts the new entity at its place; nothing changes otherwise |
| Transactions.Volume.Fsync | janus-vfs/src/vfs/file.rs:576-589 | success exactly on a writable volume for an accepted entity; then the row holds the file's given metadata, blob and length, the blob and the entity are stored, the directories above list their children again, no other key changes, and a settled volume is settled again; a new commit exactly when the tree is another one; an error changes nothing |
| Transactions.Volume.RecordSynced | janus-vfs/src/vfs/entity.rs:886-908 | recording uploads changes no key, head or commit, and drops the views that showed the entities as local from the caches |
| Transactions.Volume.RecordBlob | janus-vfs/src/blob/mod.rs:278-300 | an uploaded local blob becomes synced, and nothing else changes |
| Transactions.Volume.RecordCommit | janus-vfs/src/vfs/commit.rs:307-330 | an uploaded local commit becomes synced, and nothing else changes |
| Transactions.Volume.RecordConfig | janus-vfs/src/vfs/config.rs:397-418 | the uploaded configuration becomes synced if it is still the present one |
| Transactions.Volume.ReceiveBlob | janus-vfs/src/blob/mod.rs:226-250 | a pulled blob is registered exactly when it is not synced yet and its row or its chunks are there; tree, heads and configuration stay, rows only grow |
| Transactions.Volume.ReceiveEntity | janus-vfs/src/vfs/entity.rs:818-856 | a pulled entity is registered, and synced, exactly when it is known or its references are there; tree, heads and configuration stay, rows only grow |
| Transactions.Volume.ReceiveCommit | janus-vfs/src/vfs/commit.rs:257-281 | a pulled commit is registered exactly when its entity is a registered directory and it is not synced yet; tree, heads and configuration stay, rows only grow |
| Transactions.Volume.CommitRows | janus-vfs/src/db.rs:159-190 | the commit of a transaction that touches rows alone moves no head and collects nothing |
| Transactions.Volume.Transact | janus-vfs/src/db.rs:159-190 | each kind of transaction succeeds exactly when its inputs allow it and then has exactly its effect; a refused one changes nothing; a settled volume is settled again |
| Transactions.Volume.Run | janus-vfs/src/db.rs:159-190 | after any run of edits, recorded uploads and pulled blobs, entities, commits and configurations every directory lists its children, the branch's commit is of the root shown, the configuration lists exactly the heads, and the caches answer as the tables do |
| Transactions.Volume.Update | janus-vfs/src/vfs/mod.rs:866-878 | refused on a read-only volume; otherwise success exactly when entity and table allow it: then the row holds exactly the given key, but for the body that the pass gives a marked directory, the directories above list their children again and no other key changes; the head moves if and only if the tree is another one; the volume is settled again if and only if a directory came with its stored body; an error changes nothing |
| Transactions.Volume.UpdateStatements | janus-vfs/src/vfs/entity.rs:1112-1125 | the same before the commit, with the marks that the update leaves |
| Transactions.Volume.InsertStatements | janus-vfs/src/vfs/mod.rs:1019-1046 | the new row and the marks above it, before the commit |
| Transactions.UpdateRises | janus-vfs/src/db.rs:192-266 | an update and the pass behind it change the root's key exactly if they change anything |
| Transactions.StaleBodyExact | janus-vfs/src/vfs/mod.rs:1060 | starting clean, an update leaves no directory out of date and unmarked if and only if a directory comes with its stored body |
| Transactions.EmptiedBodyFails | janus-vfs/src/vfs/mod.rs:1060 | emptying the body of any directory with children is accepted and leaves it out of date and unmarked |
| FirstSync.Open | janus-vfs/src/vfs/mod.rs:690-755 | a new volume that pulls what `create_new` uploads shows the empty root and nothing else, has exactly that configuration and its one head at the first commit, and is settled |
| FirstSync.OnlyRootCommitted | janus-vfs/src/vfs/config.rs:747-834 | no other tree has the empty root's key |
| FirstSync.FirstEdit | janus-vfs/src/vfs/commit.rs:508-570 | a directory made there is the root's one entry, and the root keeps its id and metadata; the head moves to a commit of count 1 with the pulled commit before it, and the configuration lists it, of time now and not synced; the volume is settled |
| FirstSync.StaleBodyReached | janus-vfs/src/vfs/mod.rs:866-878 | an update of that root without entries is accepted, and the configured volume is no longer settled although its head is at the root's key |
| FirstSync.ReadOnlyFileMade | janus-vfs/src/vfs/file.rs:297-309 | on a mounted tag a file is made: the root's key is no longer that of the tag's commit |
| RefTables.CountedIsClosed | janus-vfs/migrations/202605201500_initial.sql:311-327 | exact counts mean that no reference dangles |
| RefTables.RowsAreReachable | janus-vfs/migrations/202605201500_initial.sql:300-308 | with exact counts every row is reachable from a held, synced or never-referred-to row |
| RefTables.CollectionExact | janus-vfs/migrations/202605201500_initial.sql:152-160 | after a collecting statement a row is there if and only if it is reachable without what was deleted |
| RefTables.SweptCollectsExactly | janus-vfs/migrations/202605201500_initial.sql:522-530 | the same for all rows of all tables |
| RefTables.ChunkCacheStaysRight | janus-vfs/src/db.rs:182-187 | dropping the logged chunks keeps the chunk cache right when the log covers every change since the last commit |
| RefTables.OneMoreAtHome | janus-vfs/src/object/mod.rs:116-140 | one more item synced at its own location keeps object rows and synced items in step |
| RefStore.Store.constructor | janus-vfs/migrations/202605201500_initial.sql:217-244 | empty tables have exact counts and nothing to log |
| RefStore.Store.Increment | janus-vfs/migrations/202605201500_initial.sql:338-344 | one count more, with one reference more to come |
| RefStore.Store.Decrement | janus-vfs/migrations/202605201500_initial.sql:347-354 | never below zero, terminates, and the cascade keeps the counts exact, deletes no synced row and leaves no referred-to row at zero |
| RefStore.Store.CollectRow | janus-vfs/migrations/202605201500_initial.sql:300-308 | a local row at zero goes and gives its references back |
| RefStore.Store.GiveBack | janus-vfs/migrations/202605201500_initial.sql:563-569 | every reference of a deleted row is given back |
| RefStore.Store.InsertHolder | janus-vfs/migrations/202605201500_initial.sql:824-833 | a referring row is accepted exactly when it is new and its target exists |
| RefStore.Store.DeleteHolder | janus-vfs/migrations/202605201500_initial.sql:836-845 | what is left is exactly what is still reachable, and every chunk that went is logged |
| RefStore.Store.DeleteHolders | janus-vfs/migrations/202605201500_initial.sql:951-960 | the same for several referring rows at once |
| RefStore.Store.RepointHolder | janus-vfs/migrations/202605201500_initial.sql:848-863 | counting the new target before the old one is given back keeps the counts exact and the new target alive, and what is left is exactly what is still reachable |
| RefStore.Store.InsertRow | janus-vfs/src/vfs/entity.rs:1055-1104 | a row is accepted exactly when it is new and all it refers to exists; no other row but for its count changes |
| RefStore.Store.LinkAll | janus-vfs/src/blob/mod.rs:452-472 | the reference rows, each counted |
| RefStore.Store.Link | janus-vfs/migrations/202605201500_initial.sql:357-363 | one reference more, counted |
| RefStore.Store.MarkSynced | janus-vfs/migrations/202605201500_initial.sql:246-268 | only a local row changes its mode, only to synced, and its object is counted |
| RefStore.Store.CreateObject | janus-vfs/src/object/mod.rs:116-140 | a known location gives its object, a new one a new row |
| RefStore.Store.ClearLog | janus-vfs/src/db.rs:280-285 | the next transaction logs its chunks from the present rows on |
| RefStore.Store.CommitCache | janus-vfs/src/db.rs:182-187 | at a commit every chunk changed since the last one is in the log, so what is kept of the cache fits the rows |
| SortEntities.LongestRises | janus-vfs/src/vfs/entity.rs:781-802 | the depth of a directory is above the depths of the listed directories in its body |
| SortEntities.CycleHasNoDepth | janus-vfs/src/vfs/entity.rs:781-802 | a directory on a cycle has no depth |
| SortEntities.Depths.Depth | janus-vfs/src/vfs/entity.rs:782-802 | terminates within the budget; every memoised depth is the length of the longest chain below; an error means that a chain longer than the budget starts here |
| SortEntities.Depths.Precompute | janus-vfs/src/vfs/entity.rs:804-807 | in any key order, success gives every directory its depth |
| SortEntities.SortByRank | janus-vfs/src/vfs/entity.rs:809-814 | a stable, ascending reordering |
| SortEntities.DepthsMeanNoCycle | janus-vfs/src/vfs/entity.rs:781-807 | depths for all directories rule out cycles |
| SortEntities.SortEntities | janus-vfs/src/vfs/entity.rs:737-817 | success gives a permutation with files first and each directory after the listed directories it contains, and only without a cycle; an error only with a chain above 1024 |
| Push.SweepKeepsModes | janus-vfs/migrations/202605201500_initial.sql:1024-1119 | the queue's rows pin their items: no collection takes one away |
| Push.PushTask.constructor | janus-vfs/src/sync/push.rs:53-59 | no job yet |
| Push.PushTask.LocalActivity | janus-vfs/src/sync/push.rs:158-183 | any local transactions have exactly their statements' effect; through them what is queued stays queued, present and stored as it was, and no item becomes or stops being synced |
| Push.PushTask.LocalStatement | janus-vfs/src/sync/push.rs:158-183 | one statement does what the tables allow, collects exactly what it leaves unreachable, or changes nothing; what is queued stays as it was |
| Push.PushTask.NextQueueItem | janus-vfs/src/sync/push.rs:125-150 | the largest waiting item that fits, marked pending and local; or nothing, exactly because nothing fits or because that item was synced already and left the queue with its queue row |
| Push.PushTask.RemoveQueued | janus-vfs/src/chunk/mod.rs:458-475 | the item leaves the queue with its queue row and stays in its table |
| Push.PushTask.Fill | janus-vfs/src/sync/push.rs:162-181 | exactly the pending items are in the upload; it stays empty over a queue that is not if and only if both takes, the largest fitting item and then the largest of all, find synced items and something else waits; only queue rows of synced items go |
| Push.SecondTake | janus-vfs/src/sync/push.rs:162-187 | for any queue with nothing pending the two takes come to nothing with items left if and only if the queue is given up |
| Push.LargerSyncedItemsHide | janus-vfs/src/sync/push.rs:162-187 | two synced items larger than all others end an attempt if and only if anything else is waiting |
| Push.LocalNeverGivesUp | janus-vfs/src/sync/push.rs:162-187 | a queue that is given up has a synced item |
| Push.LocalStays | janus-vfs/src/sync/mod.rs:20-117 | what is local stays local while nothing but local transactions and this push runs |
| Push.PushTask.ProcessItem | janus-vfs/src/chunk/mod.rs:230-251 | in one step the item becomes synced with the object of its remote location, a known location giving its object and a new one a new row, and leaves the queue; no other mode or reference changes, and exactly what is unreachable then is collected |
| Push.PushTask.ProcessAll | janus-vfs/src/sync/push.rs:190-215 | exactly the uploaded items leave the queue, each synced with the object of its own location; no other item becomes or stops being synced, and object rows and synced items stay in step |
| Push.PushTask.Upload | janus-vfs/src/sync/push.rs:189-216 | fails exactly if the storage does, and then loses nothing; otherwise exactly the uploaded items leave the queue, synced where the upload has put them |
| Push.PushTask.Round | janus-vfs/src/sync/push.rs:158-217 | a round fails only by a fault of its own; it ends the attempt only with an empty queue or what both takes left behind synced items; otherwise the queue has shrunk |
| Push.PushTask.ResetPending | janus-vfs/src/sync/push.rs:326-332 | no item is pending and none is lost |
| Push.PushTask.ProcessQueueOnce | janus-vfs/src/sync/push.rs:152-218 | terminates; an error is a fault of the round it ends in, after rounds without any; over any faults and local transactions no item is lost, and what has left the queue is synced where the attempt's uploads put it; a normal return means an empty queue, or what both takes of the last upload left behind synced items; it means an empty queue if all items were local |
| Push.PushTask.ProcessQueue | janus-vfs/src/sync/push.rs:102-123 | success means an empty queue; it gives up only if something has gone wrong in each of the allowed attempts |
| Push.PushTask.ClearJob | janus-vfs/migrations/202605201500_initial.sql:951-960 | the job and its whole queue go, and nothing but what only they held is collected |
| Push.PushTask.CreateJob | janus-vfs/src/sync/push.rs:220-237 | exactly the local rows that are referred to are queued, none pending; the job holds the head's commit; without the head nothing changes |
| Push.PushTask.Enqueue | janus-vfs/src/sync/push.rs:351-404 | one more queued, waiting and pinned item, and nothing else |
| Push.PushTask.Run | janus-vfs/src/sync/push.rs:67-100 | on success everything that was queued, all local rows referred to, is synced; it fails only without the head entry or if something went wrong in every attempt; the job is cleared in any case; if every item has a location of its own, object rows and synced items stay in step |
| Pull.Register | janus-vfs/src/blob/mod.rs:414-473 | registering succeeds exactly when the references exist, or the row is there and may become synced, and a commit names a directory; then a new row has the listed references, a local one becomes synced with the object, and no other row changes but for its count; otherwise nothing changes |
| Pull.SyncObject | janus-vfs/src/sync/pull.rs:114-198 | a known location or a refused item changes nothing; a new location brings exactly its object row and the item's row, synced with it and with the listed references if it is new |
| Pull.NextIsAccepted | janus-vfs/src/sync/pull.rs:69-85 | with references first and one location per item the next item is accepted |
| Pull.ProcessObjects | janus-vfs/src/sync/pull.rs:95-112 | in any order the tables stay closed, and object rows in step with synced items; nothing but the listed items comes or becomes synced, what could be registered at the start is, and exactly the missing ones are counted as failed; with references first nothing fails and every item is registered |
| Pull.StillRegistrable | janus-vfs/src/sync/pull.rs:95-112 | what can be registered at the start can be registered when its turn comes, whatever has failed before |
| Pull.AtHomeIsRecorded | janus-vfs/src/object/mod.rs:116-140 | in step with the synced items, the object rows fit any listing of items at their own locations |
| Pull.StillAtHome | janus-vfs/src/sync/pull.rs:114-198 | registering one object, or failing to, keeps object rows and synced items in step |
| Pull.OrderPutsRefsFirst | janus-vfs/src/sync/pull.rs:29-71 | in a closed set, groups in dependency order with sorted entities put every reference first |
| Pull.SortItems | janus-vfs/src/vfs/entity.rs:737-817 | the sorted entities are the same items with each directory after what it contains; an error only if 1025 listed directories lie in each other |
| Pull.ChainOfItems | janus-vfs/src/vfs/entity.rs:781-802 | a chain of keys that the sort runs into is one of listed directories, each in the body of the one before |
| Pull.CompleteInOrder | janus-vfs/src/sync/pull.rs:29-78 | the order of a run has every item once, and references first |
| Pull.Run | janus-vfs/src/sync/pull.rs:28-93 | from a closed remote set that lists each item once, at its own location, every chunk, blob, entity and commit is registered and none fails; from any other exactly the missing items are counted as failed, what could be registered is, and nothing else changes; it gives up, with nothing changed, only if 1025 listed directories lie in each other; the tables stay closed and in step for the next run |
| Sharing.PushedIsClosed | janus-vfs/src/sync/push.rs:220-237 | when everything in use is synced, what is synced refers to nothing outside of it |
| Sharing.Push | janus-vfs/src/sync/push.rs:67-100 | after a full push tree and heads are as before, everything in use and the configuration are synced, and what the remote holds is closed |
| Sharing.Pull | janus-vfs/src/sync/pull.rs:28-93 | from a closed remote set, entities in any order with entries first, a new volume shows exactly the head commit's tree under exactly the listed heads and the pulled configuration |
| Sharing.SomeFirst | janus-vfs/src/vfs/entity.rs:737-817 | among entities one always lists none of the others |
| Sharing.Ordered | janus-vfs/src/vfs/entity.rs:737-817 | every closed set of entities has an order that puts entries first |
| Sharing.Share | janus-vfs/src/sync/mod.rs:120-128 | end to end: what one volume pushes a new one pulls, and shows the same inodes with the same keys under the same heads and the same configuration |
| Sharing.LaterStands | janus-vfs/src/vfs/config.rs:633-647 | of two configurations of different time, pulled in either order, the later one stands, and the stored time never falls |
| Sharing.PullTwo | janus-vfs/src/vfs/config.rs:633-647 | two pulls leave the later of what the volume had and what it took |
| Twins.CountsFit | janus-vfs/migrations/202605201500_initial.sql:180-365 | exact counts imply the foreign keys of the tree: entries' entities, their entries and blobs, heads' commits and commits' entities are there |
| Twins.SweptIsCollected | janus-vfs/migrations/202605201500_initial.sql:300-308 | what the counts collect are local rows that nothing left refers to, and both views lose the same |
| Twins.RefsThere | janus-vfs/migrations/202605201500_initial.sql:338-365 | an entity's references are there in one view exactly if they are in the other |
| Twins.Twin.constructor | janus-vfs/migrations/202605201500_initial.sql:217-244 | two empty views agree |
| Twins.Twin.Insert | janus-vfs/migrations/202605201500_initial.sql:824-833 | an insert succeeds exactly where the tree's table allows it; then the one row is new and its entity is counted |
| Twins.Twin.Update | janus-vfs/migrations/202605201500_initial.sql:848-863 | an update gives the entry its new name and key and repoints it, and what has no reference then goes from both views |
| Twins.Twin.Delete | janus-vfs/migrations/202605201500_initial.sql:836-845 | a cascading delete takes exactly the subtree, gives every entry's entity back, and what has no reference then goes from both views |
| Twins.Twin.Register | janus-vfs/src/vfs/entity.rs:1011-1104 | both views accept the same entities |
| Twins.Twin.RegisterCommit | janus-vfs/src/vfs/commit.rs:473-505 | both views accept the same commits |
| Twins.Twin.SetHead | janus-vfs/migrations/202605201500_initial.sql:180-215 | a head counts its commit, and what has no reference then goes from both views |
| Twins.Twin.DropHead | janus-vfs/migrations/202605201500_initial.sql:191-199 | a dropped head gives its commit back, and what has no reference then goes from both views |
| Twins.Twin.MarkSynced | janus-vfs/migrations/202605201500_initial.sql:246-268 | a synced entity is synced in both views |
| Twins.Twin.Shrink | janus-vfs/migrations/202605201500_initial.sql:300-308 | the tree's tables lose exactly what the counts collect, and stay well formed |
| Locks.NextKeeps | janus-vfs/src/vfs/file.rs:194-233 | every event keeps: live references of an inode are to the mutex in the table, and a mutex has one holder |
| Locks.Reachable | janus-vfs/src/vfs/file.rs:194-233 | this holds after any events of any number of clients |
| Locks.Exclusive | janus-vfs/src/vfs/file.rs:183-234 | at most one client holds the lock of an inode |
| Locks.LiveEntriesStay | janus-vfs/src/vfs/file.rs:194-226 | no clean-up or acquisition drops or replaces an entry that a client still refers to |
| Locks.WaitersAreBlockedExactly | janus-vfs/src/vfs/file.rs:226-229 | a waiter is blocked if and only if another client holds the lock of the same inode |
| Locks.CleanUpForgets | janus-vfs/src/vfs/file.rs:194-202 | after a clean-up the table has exactly the inodes in use |
| Locks.RefinesService | janus-vfs/src/vfs/file.rs:183-234 | after any run, exactly the events happen that a plain lock service without a table allows, and with its effect: an idle client can always acquire, a waiter always time out, a lock is granted exactly while nobody holds it, a holder can always drop its guard and then clean up, and no event touches another client |
| Locks.DropReleases | janus-vfs/src/vfs/file.rs:194-202 | after any run, once a guard is dropped nobody holds that inode's lock, whoever waits for it can be granted at once, and the clean-up can happen |
| Locks.LastOneForgets | janus-vfs/src/vfs/file.rs:194-202 | after the drop and the clean-up the table has an entry for the inode if and only if another client waits for or holds it |
| Locks.TableChanges | janus-vfs/src/vfs/file.rs:194-226 | only acquiring enters an inode, and only its own; only a clean-up removes entries, and none is replaced |

## Left out

- BlobIo.BlobWriter.PollSubmitComplete: a submission that fails, because the chunk sink does, is not modelled; submissions end well or are pending.
- BlobIo.BlobWriter.PollFlushPipeline: failing submissions, as for `PollSubmitComplete`.
- BlobIo.BlobWriter.PollFetch: a chunk source that fails, and the fetch in flight between two polls, are not modelled.
- BlobIo.BlobWriter.PollWrite: a write behind the buffer's capacity, where the source panics, is the error `Panicked` here; what the writer is worth after it is not said.
- Transactions.Volume.UpdateConfig: descriptions of heads and the configuration's object row are not modelled.
- Transactions.Volume.Commit: the state after a failed commit is not described; `PullConfig` rolls it back, and no edit of a settled volume fails in its commit.
- Transactions.Volume.UpsertHeads: head names are compared exactly, while the table compares them without regard to case.
- Transactions.Volume.SetConfig: head names as for `UpsertHeads`; no volume id and no descriptions; a commit that loses its last head halfway through the listed heads is collected only when all of them are set.
- Transactions.Volume.PullConfig: loading the configuration from the backend is not modelled.
- Transactions.Volume.Collect: which of the unreferenced local rows go is left open here, and rows that a sync job or an open file handle keeps may be among them; that exactly the right ones go is said of `RefStore`, which counts those holders, and of `Twins`.
- Transactions.Volume.ReceiveBlob: whether the blob's chunks are there is an input; chunk rows are in `RefStore`.
- Sharing.Push: uploads do not fail here; failures and retries are in `Push`.
- RefTables.ChunkCacheStaysRight: takes the log's coverage as given; `RefStore.Store.CommitCache` has it from what every statement keeps.
- SortEntities.Depths.Precompute: whether a chain above the budget is found depends on the key order and on what is memoised first, so the error is characterised in one direction.
- SortEntities.SortEntities: asks that equal keys come with equal bodies, which ideal revisions give.
- Push.PushTask.CreateJob: the queued configuration row, which is not reference counted, is not part of the queue here.
- Push.PushTask.ProcessQueue: the queued configuration row, as for `CreateJob`.
- Push.PushTask.Run: the queued configuration row, as for `CreateJob`; the refusal on a read-only volume is with the volume's transactions in `Transactions`.
- Pull.Run: configurations are taken over by `Transactions.Volume.PullConfig`, not in this run; error counters of objects are not modelled.
- Config rows: `object_id` of the config table is not counted by the code and not modelled; nor are volume id, chunk size and descriptions.
- Failing chunk sinks and sources of the writer, wakers and poll scheduling beyond "pending".
- Predecessors of a commit may be collected, so chains of commits are not resolved.
- Flatbuffer layouts, compression, hash internals, the backends, `janus-fs`, cache capacities and time-to-live, backoff delays and the limit of SQLite's trigger recursion.
- The chunk reader of `janus-io`, deletion of vanished objects, and the wrappers and validators that only check a format, `check_valid_filename` beyond the table's own check of names included.
