# A verified model of a deduplicating backup tool

The program backs up directory trees into a storage shared by many hosts. Files are packed into one byte stream, the
stream is cut into content-defined chunks, chunks are named by their hashes, and snapshots are lists of entries over
lists of chunks. Old snapshots are pruned without locks while other hosts go on backing up. This project models the
parts whose correctness is not visible in any single function, and proves what they promise together.

| part | files | main results |
|---|---|---|
| Lock-free pruning | `Snapshots`, `PruneProtocol`, `PruneSafety`, `PruneLimits`, `FossilCollection` | in every run of backups, prune steps and crashes that keeps to four stated conditions no chunk that is needed is lost; for each condition a run that keeps to the other three and loses a chunk |
| Chunking | `ByteStreams`, `Buzhash`, `Splitting`, `ChunkMaker` | a ring buffer with a rolling hash, fed by short reads from many files, emits exactly the pure split of the concatenated stream |
| Index pipeline | `Positions`, `Entries`, `EntryLists`, `SnapshotCodec`, `RoundTrip`, `BackupRoundTrip`, `BackupPlan`, `WholeBackup`, `BackupRun` | comparing, packing, uploading, back-annotation, compaction, delta encoding, decoding and retrieval give every file back byte for byte, and every hash check passes |
| Order of listings | `Paths`, `DirectoryWalk`, `RestoreMerge` | path comparison is a strict total order, the stack walk lists a tree in that order and completely, merges pair equal paths only, and deleting extras removes exactly what can go |
| Restore | `RestoreInPlace`, `ChunkDownloader`, `HardLinks`, `ListedEntries` | in-place update leaves the file equal to the snapshot; the download scheduler never waits for a chunk it gave back; links come back exactly, also from the decoded entries of a snapshot |
| Uploading, retention, chunk files, filters | `UploadSession`, `Retention`, `ChunkFrame`, `ChunkFile`, `Wildcard` | what an interrupted backup may reuse; which snapshots a policy deletes; chunk files come back through compression, encryption and erasure coding, also damaged or cut short ones; the greedy wildcard matcher against its specification |

`Wrappers` holds the option and result types. Hashes, ciphers, compressors, Reed-Solomon coding, file contents, directory
reads, clocks and pattern filters are parameters. Where a proof needs something of them it is stated as a predicate:
`RestoreInPlace.Injective`, `ChunkFile.IsLawful`, `ChunkFrame.IsCoder`, `Retention.IsCalendar`, `PruneProtocol.Allowed`.

Findings about the code as it is:

- The prune protocol is safe under four conditions, and under no three of them (`PruneLimits.EveryConditionIsNeeded`). When
  fossils are about to be deleted, every host whose backup was running since before the collection was saved has a stored
  snapshot (`PruneProtocol.HostsKnown`) and is not written off as inactive (`PruneProtocol.HostsAwake`). Each host uses one
  snapshot id (`PruneProtocol.OneIdPerHost`), because ids are listed one after another while hosts are judged across ids.
  With several workers, no chunk is made a fossil again while its old fossil waits to be resurrected or deleted
  (`PruneProtocol.TasksApart`); one worker always meets this (`PruneLimits.OneWorkerIsApart`).
- A flush that sends a tail shorter than the minimum size does not start a new chunk, so a maker is fresh after a flush
  exactly when nothing was sent or the last chunk has at least the minimum size (`ChunkMaker.Maker.AddData`).
- Hard-link ids count first links at listing time and are not renumbered when an emptied or unreadable first link is
  left out. A further link survives exactly when no first link up to its own is left out
  (`BackupRoundTrip.LinkSurvives`); otherwise it comes back as a link to another file
  (`BackupRoundTrip.LeftOutFirstLinkMisdirects`).
- The wildcard matcher agrees with the glob relation for file names without `*` and patterns without `**`. For every
  pattern with `**` and for every name with `*` there is an input on which it is wrong.
- A repeated chunk counts as uploaded while its first copy is still on its way; only truncation at the first empty slot
  makes the recorded list trustworthy (`UploadSession.DoneIsNotStored`, `UploadSession.KeptPrefixIsStored`).
- Data that the Zstandard compressor turns into nothing leaves a bare tag of four bytes, which the reader takes for zlib
  data and refuses (`ChunkFile.CompressionRoundTrip`).
- In-place restore reads `chunkLength - StartOffset` bytes for a file within one chunk, and its break at end of file
  never fires because the error variable is shadowed; neither affects the result. Path comparison cannot tell names apart that
  differ by a trailing NUL (`Paths.NulIsConfused`). The rewriting of absolute top-level symlinks in the lister is
  unreachable, because the path it tests is shadowed by the entry's own.

## Model

| member | source | states |
|---|---|---|
| PruneSafety.NoChunkIsEverLost | src/duplicacy_snapshotmanager.go:1958-2316 | in every run of backups and one pruner that keeps to the four conditions, with ids listed one by one, workers that lag behind and crashes anywhere, each chunk of a stored snapshot or of a running backup stays in the storage as a chunk or a fossil |
| PruneSafety.StepKeeps | src/duplicacy_snapshotmanager.go:1958-2316 | each of the twenty-two protocol steps keeps the invariant |
| PruneSafety.BeginKeeps | src/duplicacy_backupmanager.go:195-221 | a backup that takes the latest revision's chunks into its cache relies on nothing that may be deleted |
| PruneSafety.AdvanceKeeps | src/duplicacy_backupmanager.go:493-514 | coming upon a live chunk in a first backup, claiming a cached chunk, uploading an unknown one and marking the end keep the invariant |
| PruneSafety.FinishKeeps | src/duplicacy_backupmanager.go:1318-1326 | storing a snapshot keeps the invariant, whenever its backup began |
| PruneSafety.ListIdKeeps | src/duplicacy_snapshotmanager.go:1966-1986 | reading the revisions of one id between steps of backups keeps what deletion will rely on, when that id is the only one of its host |
| PruneSafety.StartProcessingKeeps | src/duplicacy_snapshotmanager.go:2064-2136 | every fossil handed over for deletion is needed by nobody unless it is also live |
| PruneSafety.ForgetCollectionKeeps | src/duplicacy_snapshotmanager.go:2124-2129 | the collection may be forgotten while its fossils are still being resurrected and deleted |
| PruneSafety.FossilizeKeeps | src/duplicacy_chunkoperator.go:191-217 | a target that is a chunk becomes a fossil, one that is a fossil already is only recorded, and nothing needed is lost |
| PruneSafety.ResurrectKeeps | src/duplicacy_chunkoperator.go:262-280 | turning a fossil back into a chunk, or dropping it when the chunk exists, loses nothing |
| PruneSafety.DeleteFossilKeeps | src/duplicacy_chunkoperator.go:228-238 | deleting a fossil of a deletable collection loses nothing |
| PruneSafety.DropGhostsKeeps | src/duplicacy_snapshotmanager.go:2041-2062 | a collection whose deleted revisions still exist is dropped without touching its fossils |
| PruneSafety.SaveCollectionKeeps | src/duplicacy_snapshotmanager.go:2252-2288 | saving a collection establishes what its later processing relies on |
| PruneSafety.DeleteSnapshotKeeps | src/duplicacy_snapshotmanager.go:2290-2316 | deleting snapshot files one by one keeps the invariant, so stopping in between is safe |
| PruneSafety.DeletableMeansOver | src/duplicacy_snapshotmanager.go:70-161 | a collection judged deletable has no backup running that began before it was saved |
| PruneSafety.EarlyNewIsNew | src/duplicacy_snapshotmanager.go:107-131 | every snapshot whose backup was running when the collection ended is among the reported new ones, although only one qualifying revision per id is looked for |
| PruneLimits.NewHostCanLoseAChunk | src/duplicacy_snapshotmanager.go:147-150 | a reachable state has lost a needed chunk when an early host had no snapshot |
| PruneLimits.InactiveHostCanLoseAChunk | src/duplicacy_snapshotmanager.go:133-160 | a reachable state has lost a needed chunk when an early host was written off as inactive |
| PruneLimits.SharedHostCanLoseAChunk | src/duplicacy_snapshotmanager.go:1966-1986 | a reachable state has lost a chunk of a stored snapshot when two ids share a host and are listed at different times |
| PruneLimits.OverlappingTasksCanLoseAChunk | src/duplicacy_snapshotmanager.go:2087-2252 | a reachable state has lost a needed chunk when one worker deletes the old fossil of a chunk that another has just made a fossil again |
| PruneLimits.EveryConditionIsNeeded | src/duplicacy_snapshotmanager.go:1958-2316 | for each of the four conditions, runs that keep to the other three can lose a chunk |
| PruneLimits.FinishedCollectionIsReclaimed | src/duplicacy_snapshotmanager.go:2064-2136 | once the workers are done with a collection none of its fossils is left that was not made again, and what is still needed of the others is live |
| PruneProtocol.BackupIsFree | src/duplicacy_backupmanager.go:493-514 | nothing holds a running backup up: it uploads any chunk, claims any chunk of its cache unchecked, ends or stops at any point |
| PruneProtocol.BackupMayBegin | src/duplicacy_backupmanager.go:195-221 | a host without a running backup may begin one from the latest revision of its id, or from nothing |
| PruneProtocol.PrunerIsFree | src/duplicacy_snapshotmanager.go:1958-2136 | the pruner may stop at any point, lists ids and works off its tasks in any order |
| PruneProtocol.PrunerMayGoOn | src/duplicacy_snapshotmanager.go:2041-2136 | after the listing a collection is dropped, processed or forgotten, and a new one is begun, whenever the code does so |
| PruneProtocol.CollectingMayGoOn | src/duplicacy_snapshotmanager.go:2235-2316 | chunks that are live or fossils are made fossils in any order, then the collection is saved and the snapshots go |
| Snapshots.HostIs | src/duplicacy_snapshotmanager.go:97-100 | an id belongs to a host exactly when it is that host behind the first `@`, or has no `@` and is the host |
| FossilCollection.IsDeletable | src/duplicacy_snapshotmanager.go:70-161 | deletable exactly when every considered host is active or inactive by its definition; never while some host, by the text of its ids, has nothing that ended after the collection and a last revision not older than 604800 seconds; the new snapshots are, by id and position, those after the recorded revision with none before them that ended late enough |
| FossilCollection.AwaitedBlocks | src/duplicacy_snapshotmanager.go:143-160 | one host that may still be running an early backup keeps all fossils, whatever other hosts did |
| FossilCollection.ScanRevisions | src/duplicacy_snapshotmanager.go:107-131 | the scan of one id reports the revisions after the last known one up to the first that qualifies |
| FossilCollection.AllHostsDone | src/duplicacy_snapshotmanager.go:143-160 | accepts exactly when each host has a new snapshot or is inactive |
| FossilCollection.CollectTargets | src/duplicacy_snapshotmanager.go:2340-2408 | refuses exactly when a latest revision would be deleted in non-exclusive mode; otherwise the targets are the chunks of deleted snapshots that no other snapshot refers to |
| Buzhash.Rolling | src/duplicacy_chunkmaker.go:121-123 | updating the sum by an outgoing and an incoming byte gives the from-scratch sum of the moved window, for every window length including multiples of 64 |
| Buzhash.BuzhashSum | src/duplicacy_chunkmaker.go:106-119 | the loop computes the sum of the data onto a start value |
| Buzhash.SumOfOne | src/duplicacy_chunkmaker.go:114-119 | the sum of nothing is zero and that of one byte is its table entry |
| Buzhash.XorBits | src/duplicacy_chunkmaker.go:116 | a bit is set in the exclusive or exactly when it is set in one of the two words |
| Splitting.CutLength | src/duplicacy_chunkmaker.go:243-287 | the first length of at least the minimum whose last window hashes to zero, or the maximum, or the end |
| Splitting.SplitByBits | src/duplicacy_chunkmaker.go:243-287 | a chunk shorter than the maximum that is not the last has no bit of the mask in the sum of its last `min` bytes, and no chunk has such a place before its end |
| Splitting.SplitConcat | src/duplicacy_chunkmaker.go:138-306 | the chunks concatenate to the stream |
| Splitting.SplitLengths | src/duplicacy_chunkmaker.go:138-306 | no chunk is empty or above the maximum, and only the last may be below the minimum |
| ChunkMaker.Maker.Fill | src/duplicacy_chunkmaker.go:144-157 | moves bytes from the ring into the chunk, within bounds and across the wrap |
| ChunkMaker.Maker.ReadOnce | src/duplicacy_chunkmaker.go:200-225 | one read extends the ring by what it returned and nothing else |
| ChunkMaker.Maker.Advance | src/duplicacy_chunkmaker.go:243-287 | after each turn no untested position is passed and a cut is the first one |
| ChunkMaker.RollOver | src/duplicacy_chunkmaker.go:266-287 | at every tested position the rolling sum is the from-scratch sum of the last window |
| ChunkMaker.Maker.AddData | src/duplicacy_chunkmaker.go:138-306 | adding a file appends its data to the stream; a flush has sent exactly the split of the stream, and leaves a fresh maker exactly when the last chunk is not short |
| ChunkMaker.PackFiles | src/duplicacy_backupmanager.go:522-541 | packing any list of files with any short reads emits the split of their concatenation and reports their sizes; it fails only if a file cannot be read |
| EntryLists.CheckEntry | src/duplicacy_entrylist.go:200-258 | accepts exactly the entries whose range lies in the chunks and spans their size |
| EntryLists.PlacedFits | src/duplicacy_entrylist.go:262-318 | the check never fails on a back-annotated entry |
| EntryLists.EntryList.AddEntry | src/duplicacy_entrylist.go:112-144 | pending files and modified files stay aligned, other pending entries get size zero |
| EntryLists.EntryList.AddUploadedChunk | src/duplicacy_entrylist.go:153-167 | a completion fills its slot, missing slots are padded, no other slot changes |
| EntryLists.EntryList.Place | src/duplicacy_entrylist.go:287-310 | a file runs from the chunk holding its first byte to the chunk holding its last; it is refused exactly when the uploaded chunks do not cover it |
| EntryLists.EntryList.ReadEntries | src/duplicacy_entrylist.go:321-369 | the entries sent are the specified listing of all entries |
| EntryLists.BackAnnotation | src/duplicacy_entrylist.go:262-369 | succeeds exactly when the uploaded chunks hold all modified files; each file lies right after those before it; a failing listing stops at the first file not fully covered |
| SnapshotCodec.LinkIdRoundTrip | src/duplicacy_entry.go:540-550 | a link id in hexadecimal is parsed back, for every 64-bit id |
| SnapshotCodec.ParsesIfSpelt | src/duplicacy_entry.go:540-550 | a link id is accepted exactly when it spells a 64-bit number in hexadecimal digits of either case |
| SnapshotCodec.SnapshotEncoder.Compact | src/duplicacy_backupmanager.go:1222-1238 | appends exactly the chunks not already last in the compacted list and moves the range to them |
| SnapshotCodec.SnapshotEncoder.Add | src/duplicacy_backupmanager.go:1221-1277 | one entry is encoded as specified, with first links recorded and further links resolved, or refused without effect |
| SnapshotCodec.Decode | src/duplicacy_snapshot.go:217-248 | reads absolute ranges back, and accepts exactly the streams whose entries all fit the chunk list |
| SnapshotCodec.DecodeInvertsEncode | src/duplicacy_backupmanager.go:1209-1277 | decoding accepts what was encoded and gives each entry back with all its fields over the same hashes and lengths; further links get the range of their first link, also with negative differences |
| SnapshotCodec.NothingUnused | src/duplicacy_backupmanager.go:1222-1238 | the compacted list has no chunk that no file uses |
| RoundTrip.Retrieve | src/duplicacy_snapshotmanager.go:1371-1435 | with the file's own chunks stored, whatever else is missing, the output is its content, with or without the cached last chunk, and it succeeds exactly when the file hash agrees; with one of them missing it fails |
| RoundTrip.EncodedContent | src/duplicacy_snapshot.go:217-248 | content survives compaction, encoding and decoding |
| BackupPlan.Cursor.Find | src/duplicacy_backupmanager.go:333-355 | a local entry is paired with the remote entry of its own path, if there is one, and no other |
| BackupPlan.Preserve | src/duplicacy_backupmanager.go:362-379 | appends the chunks of an unchanged file unless the first was added last, and renumbers its range |
| BackupPlan.UnchangedIsTwin | src/duplicacy_entry.go:569-571 | a file counts as unchanged exactly when the previous snapshot has an entry of its path and size whose time differs by at most a second |
| BackupPlan.PlanBackup | src/duplicacy_backupmanager.go:327-398 | every unchanged file keeps the chunks of its partner; a path is among those packed again exactly when it is a file with content without an entry of its path, size and time, up to a second, in the previous snapshot |
| BackupRoundTrip.PlacedContent | src/duplicacy_entrylist.go:262-318 | the range given to a modified file holds the bytes that were read from it |
| BackupRoundTrip.LinkSurvives | src/duplicacy_entrylist.go:283-285 | a further link names its own first link after empty files are left out exactly when no first link up to it is left out |
| BackupRoundTrip.LeftOutFirstLinkMisdirects | src/duplicacy_entrylist.go:283-285 | an input on which a further link comes back with another file's content |
| BackupRoundTrip.BackupThenRetrieve | src/duplicacy_backupmanager.go:522-575 | every file that is sent comes back under its path, with its link marks, its hash and byte for byte |
| WholeBackup.WholeRoundTrip | src/duplicacy_backupmanager.go:327-575 | with the comparison included: unchanged files have the previous snapshot's content, packed files what was read, further links content, time and attributes of their first link; the hash that comes back is the hash of that content |
| BackupRun.EncodeBackup | src/duplicacy_backupmanager.go:1209-1320 | the entries read out of the entry list are encoded, and this succeeds exactly when every link among them can be resolved |
| BackupRun.RunBackup | src/duplicacy_backupmanager.go:327-575 | the imperative pieces composed produce the encoding the theorem speaks of, adding to the storage only; when all files can be read it succeeds exactly when the listing can be encoded, hence when no link is cut off |
| BackupRun.BackupAndRetrieve | src/duplicacy_backupmanager.go:327-575 | backup, decoding and retrieval composed: when all files can be read and no link is cut off it succeeds, and every entry comes back under its path with its time, attributes and a right hash; a file has the bytes that opening it gave unless the previous snapshot has an entry of its path, size and time, up to a second; only files found empty are left out |
| WholeBackup.SmallBackup | src/duplicacy_backupmanager.go:522-575 | the first backup of one file meets every assumption of the round trip |
| Paths.ComparePaths | src/duplicacy_entry.go:649-723 | the scanning loops compute the comparison used below |
| Paths.CompareIsKeyOrder | src/duplicacy_entry.go:649-723 | on well-formed paths the comparison is the lexicographic order of components, files before directories before their contents, and zero only for equal paths |
| Paths.CompareOrder | src/duplicacy_entry.go:649-723 | antisymmetric, transitive, zero only for equal paths |
| Paths.NulIsConfused | src/duplicacy_entry.go:655-663 | with a NUL in a name two different paths compare as equal |
| DirectoryWalk.FindName | src/duplicacy_entry.go:834-841 | the binary search over a directory read in name order finds the marker file exactly when it is there |
| DirectoryWalk.SortedSorts | src/duplicacy_entry.go:749-771 | sorting a directory puts files first and names in order |
| DirectoryWalk.SortIsUnique | src/duplicacy_entry.go:853 | there is one such order, so which sort is used does not matter |
| DirectoryWalk.ListDir | src/duplicacy_entry.go:818-981 | sorts a directory as it was read, sends its kept entries in order and returns its subdirectories last one first |
| DirectoryWalk.ListLocalFiles | src/duplicacy_snapshot.go:128-155 | the stack walk terminates, lists what the recursion over the tree lists and reports the directories it could not read |
| DirectoryWalk.UnreadExact | src/duplicacy_snapshot.go:141-150 | the reported directories are exactly those that are reached and cannot be read |
| DirectoryWalk.WalkIncreasing | src/duplicacy_snapshot.go:128-155 | the paths of a walk strictly increase in the path order |
| DirectoryWalk.WalkComplete | src/duplicacy_snapshot.go:128-155 | a path is listed exactly when it is reached through kept and readable directories |
| RestoreMerge.CollectExtras | src/duplicacy_backupmanager.go:811-850 | the merge collects exactly the local entries that no selected snapshot entry has, in order |
| RestoreMerge.ExtrasExact | src/duplicacy_backupmanager.go:811-850 | membership in the collected list, both ways |
| RestoreMerge.DirectoryFirst | src/duplicacy_backupmanager.go:1113-1121 | a directory comes before everything inside it |
| RestoreMerge.DeleteExtras | src/duplicacy_backupmanager.go:1113-1121 | deleting in reverse order leaves exactly what is not extra and the extra directories that hold something not extra |
| RestoreMerge.EverythingExtraGoes | src/duplicacy_backupmanager.go:811-850 | when the local listing left nothing out and the snapshot has the directories of its entries, every extra path can be removed |
| RestoreInPlace.CutExisting | src/duplicacy_backupmanager.go:1427-1500 | a full piece carries the hash of the bytes at its place, an overrunning one of an old file the hash of fewer bytes, and no chunk that the file reaches past is without its piece; what is read is the file up to one byte past the content |
| RestoreInPlace.MatchHolds | src/duplicacy_backupmanager.go:1610-1618 | a piece that matches a chunk's hash, length and offset holds that chunk |
| RestoreInPlace.MatchesIfHeld | src/duplicacy_backupmanager.go:1593-1618 | a piece matches a chunk exactly when all of the chunk belongs to the file and the old file holds it at its place |
| RestoreInPlace.Update | src/duplicacy_backupmanager.go:1586-1650 | the file ends up equal to the content, unless a chunk is broken that the old file does not hold whole at its place |
| RestoreInPlace.RestoreFile | src/duplicacy_backupmanager.go:1338-1650 | for every prior file, also a new sparse one, the result is the snapshot content; skipped exactly when it was equal already, refused exactly when it differs and may not be overwritten, corrupted exactly when a broken chunk of it is not held whole at its place by the old file |
| ChunkDownloaders.AddFiles | src/duplicacy_chunkdownloader.go:67-99 | each file's new range names its own chunks, ranges never go back, and a task is needed from the start exactly when two files share it |
| ChunkDownloaders.ChunkDownloader.Reclaim | src/duplicacy_chunkdownloader.go:132-155 | gives back exactly the completed chunks before an index, and counters stay right |
| ChunkDownloaders.ChunkDownloader.Prefetch | src/duplicacy_chunkdownloader.go:102-129 | fetches needed tasks of the file only, all of them unless the number of threads is reached, and never exceeds it |
| ChunkDownloaders.ChunkDownloader.WaitForChunk | src/duplicacy_chunkdownloader.go:168-215 | waits only for what is in flight or completed, so it ends; the needed tasks that follow are on their way up to the limit; at most one chunk beyond the number of threads is active |
| ChunkDownloaders.RestoreAll | src/duplicacy_backupmanager.go:986-1057 | over a whole restore, with any files passed over as unchanged, every wait is legal, every chunk waited for is fetched, none twice, and none that no file waits for, misses or shares |
| ChunkDownloaders.PushCannotBlock | src/duplicacy_chunkoperator.go:66-100 | with at most `threads` downloads in flight a full queue leaves every worker idle |
| HardLinks.LinkLister.Visit | src/duplicacy_entry.go:873-961 | first links are numbered in order, further links get the number of their inode's first link, links to a lost inode are left out |
| HardLinks.ListAll | src/duplicacy_entry.go:866-961 | a whole listing is numbered right and leaves out exactly the lost files and the links to them |
| HardLinks.GroupsAreInodes | src/duplicacy_entry.go:873-961 | two listed files have one id exactly when they have one inode |
| HardLinks.RestoreLinks | src/duplicacy_backupmanager.go:788-814 | every selected file is restored on its own or linked to the first selected file of its group |
| HardLinks.LinksComeBack | src/duplicacy_backupmanager.go:876-955 | under any filter two selected files are links to one file exactly when the lister saw one inode |
| HardLinks.LinksAllComeBack | src/duplicacy_backupmanager.go:876-955 | the same for all pairs of a listing, as `HardLinks.ListAndRestore` composes it |
| ListedEntries.MarkedIsListing | src/duplicacy_entry.go:873-897 | the entries made from numbered links are a listing as the index pipeline expects it, ids being read back from their hexadecimal or marker form |
| ListedEntries.NumbersComeBack | src/duplicacy_backupmanager.go:1209-1277 | what a restore reads off the decoded entries of a backup without cut-off links is numbered right for the inodes the lister saw |
| ListedEntries.RestoreDecoded | src/duplicacy_backupmanager.go:788-955 | under any filter two selected entries of a decoded snapshot are restored as links to one file exactly when the lister saw one inode |
| UploadSession.StepKeeps | src/duplicacy_backupmanager.go:493-514 | emitting, writing and completing keep every chunk on its way or done, and every done chunk covered |
| UploadSession.Truncate | src/duplicacy_entrylist.go:544-551 | keeps everything up to the first empty slot |
| UploadSession.KeptPrefixIsStored | src/duplicacy_entrylist.go:544-551 | the kept prefix is the longest completed one, and each of its chunks is in the storage |
| UploadSession.DoneIsNotStored | src/duplicacy_backupmanager.go:493-507 | beyond the prefix a chunk may be recorded as done and be missing |
| Retention.FlagSnapshots | src/duplicacy_snapshotmanager.go:2173-2222 | a snapshot is flagged exactly when it may go, falls under a policy by its age in calendar days, and the policy's interval is zero or an earlier kept one under it is less than the interval away |
| Retention.RuleByFields | src/duplicacy_snapshotmanager.go:2173-2222 | the rule by position, tag and dates that the loop's own terms amount to |
| Retention.KeptApart | src/duplicacy_snapshotmanager.go:2200-2217 | read off the rule that `Retention.FlagSnapshots` computes: snapshots kept under one policy are at least its interval apart |
| Retention.DeletedIsClose | src/duplicacy_snapshotmanager.go:2200-2217 | read off the rule that `Retention.FlagSnapshots` computes: a deleted snapshot is closer than the interval to an earlier one kept under the same policy, unless the interval is zero |
| Retention.Survivors | src/duplicacy_snapshotmanager.go:2180-2197 | the latest snapshot of a non-exclusive prune, any snapshot younger than every age and any without a given tag survive |
| Retention.FirstIsKept | src/duplicacy_snapshotmanager.go:2193-2217 | the first considered snapshot of each policy with an interval is kept |
| ChunkFrame.PaddingRoundTrip | src/duplicacy_chunk.go:322-330 | padding of 1 to 256 bytes is always found again |
| ChunkFrame.RemovePadding | src/duplicacy_chunk.go:633-649 | accepts exactly the buffers that end in a padding stating its own length, and removes exactly it |
| ChunkFrame.HeaderRoundTrip | src/duplicacy_chunk.go:367-374 | size and shard numbers are read back from the header |
| ChunkFrame.WriteFrame | src/duplicacy_chunk.go:343-397 | banner, header, shard hashes, shards and header in this order |
| ChunkFrame.FrameLength | src/duplicacy_chunk.go:444-447 | a written frame has the length a reader expects |
| ChunkFrame.HeaderFields | src/duplicacy_chunk.go:433-442 | the header is accepted exactly with its checksum, and its fields are the numbers at their positions |
| ChunkFrame.XorIs | src/duplicacy_chunk.go:372-373 | the exclusive or that the checksum is made of is that of the machine's bytes |
| ChunkFrame.Unframe | src/duplicacy_chunk.go:426-560 | gives the payload of every readable frame; a file without the banner is returned as it is; a framed one is refused when its header is cut off or damaged, when no more than the minimum length is left, and when a data shard is bad and fewer shards have their stored hash than there are data shards |
| ChunkFrame.DamagedIsReadable | src/duplicacy_chunk.go:426-560 | a written frame of which at most as many shards are lost or changed as there are parity shards is readable, also when it was cut short or grew |
| ChunkFrame.TruncatedIsReadable | src/duplicacy_chunk.go:446-457 | a frame that was only cut short is readable down to the minimum length |
| ChunkFile.CompressedFormat | src/duplicacy_chunk.go:267-320 | which format and tag each compression level writes |
| ChunkFile.CompressionRoundTrip | src/duplicacy_chunk.go:654-697 | data compressed at any level is found again by its tag, exactly when something follows the tag |
| ChunkFile.EncryptedFormat | src/duplicacy_chunk.go:209-337 | name, version, wrapped key, nonce and sealed text stand at their positions, sealed under the derived or the wrapped key with the padding of 1 to 256 bytes |
| ChunkFile.EncryptionRoundTrip | src/duplicacy_chunk.go:322-337 | what was padded and sealed is opened again, under a derived key or under one wrapped with RSA |
| ChunkFile.WrappedNeedsKey | src/duplicacy_chunk.go:591-595 | a chunk whose key was wrapped is refused without the private key |
| ChunkFile.ReadChunk | src/duplicacy_chunk.go:412-703 | the data that was written comes back from every file of which enough is left, exactly when the compressed data is not a bare tag; for any file, a frame of which too little is left and a file that is not encrypted when it should be are refused |
| ChunkFile.DamagedIsStored | src/duplicacy_chunk.go:426-560 | enough is left of a framed file when at most as many shards are lost or changed as there are parity shards |
| ChunkFile.WriteAndRead | src/duplicacy_chunk.go:196-703 | writing and reading composed, with and without encryption and framing |
| ChunkFile.SimpleToolsAreLawful | src/duplicacy_chunk.go:196-703 | what is assumed of compressors, cipher and coder can be met |
| ChunkFrame.MirrorIsCoder | src/duplicacy_chunk.go:344-361 | what is assumed of the coder can be met, shown by mirroring one data shard |
| Wildcard.MatchPattern | src/duplicacy_utils.go:279-337 | terminates, and agrees with the glob relation for names without `*` and patterns without `**` |
| Wildcard.RunIsGlob | src/duplicacy_utils.go:279-337 | backtracking to the last `*` only loses no match |
| Wildcard.DoubleStarDefeats | src/duplicacy_utils.go:305-332 | for every pattern with `**` the matcher is wrong on a text built from it |
| Wildcard.StarInTextDefeats | src/duplicacy_utils.go:305-332 | for every name with `*` the matcher is wrong on a pattern built from it |

## Left out

- Storage backends, HTTP clients, the command line, preferences, logging, statistics, shadow copies, extended attributes and file flags: I/O and foreign calls.
- Ciphers, compressors, hashing, Reed-Solomon coding and msgpack or JSON encoding are opaque; an encoded entry is its fields.
- Exclusive and exhaustive prune, several outstanding collections, ignored ids in the safety theorem, and resuming from an incomplete snapshot as a protocol step: the code gives no guarantee to state there.
- PruneSafety.NoChunkIsEverLost: holds under the four conditions of `PruneProtocol.Allowed`, because the code does not ensure them; each is shown to be needed. Reading the revisions of a single id is one step.
- Saving an incomplete snapshot and loading it again as an identity: only the truncation and the prefix it keeps are modelled.
- ChunkMaker.Maker.AddData: fixed-size chunks (minimum equal to maximum) and hash-only chunks are not modelled; after a read error nothing is promised about what was sent.
- EntryLists.EntryList.ReadEntries: the entry list is kept in memory, the on-disk form is not modelled, and the callback that receives entries does not fail.
- EntryLists.EntryList.ReadEntries: states its result for uploaded chunks of positive length, which is what the chunk maker emits.
- BackupRun.RunBackup: chunks complete in order; any order of completions is the subject of UploadSession.
- DirectoryWalk.ListDir: device and attribute checks are part of the keep predicate, and symbolic links at the top level are not followed.
- RestoreInPlace.RestoreFile: assumes the entry's hash is the hash of its content, which excludes the alternative hashes that start with `#`.
- The restore path that writes a temporary file first: it uses a local copy of a chunk whole, without slicing it to the file's range.
- ChunkDownloaders.ChunkDownloader.WaitForChunk: failed downloads under the option to allow failures are not modelled, because a failed chunk is then both delivered and returned to the pool.
- HardLinks.RestoreLinks: the destination is empty, and quick mode, which skips unchanged files before links are looked at, is not modelled.
- Prune by revision numbers or by tags alone, without policies: a single test per snapshot.
- Retention.FlagSnapshots: the calendar is any monotone function from times to day numbers; start times are positive and do not decrease.
- ChunkFile.ReadChunk: whether a file should be rewritten is not reported; the check of the chunk's own id is not modelled.
- ChunkFrame.Unframe: the configured number of data shards must be the one in the header, because the code computes the shard size from the configuration; the extra check for a wrong hash version on one architecture is left out.
- MatchPath with regular expressions and include or exclude rules, copying between storages, and the check, diff and history commands: they would add easy members only.
