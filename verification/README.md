# Verified model of a content-addressed backup engine

The engine splits files into content-defined chunks, uploads new chunks and directory trees in packs,
records the root of the tree as a snapshot, and restores snapshots from their roots. This project
models it in Dafny as one connected system over an abstract object store, and proves what holds of
whole backups, whole restores and any sequence of them.

`dafny verify dfyconfig.toml` verifies everything.

## How the model is laid out

- Vocabulary: `Base`, `Words` (powers of two, masks), `Sorting`, `Utf8`, `Paths`, `Primitives` (hash,
  compressor, cipher and key derivation as functions of a `World`, with the laws they obey).
- Chunking: `Chunking` (the recursive definition), `Chunker` (the streaming class).
- Objects: `Codec`, `Encrypt`, `PackStore` (packs, regions, what a store stands for), `Rotation`.
- Trees: `Trees`, `Json`, `JsonRoundTrip`, `TreeRoundTrip`, `TreeText` (which members are printed, in which order),
  `Printer` (the printer as it runs), `Merkle`.
- The graph of trees: `Graph`, `Search` and `Descent` (any graph of hashes), `Closure` and `Snapshots` (the graph of a
  stored backup), `PrevIndex`, `Transfer` (what servers answer), `Agreement`.
- Backups: `Uploads` (server and pack buffer), `Backup` (first phase), `TreePhase` (second phase),
  `Runs` (whole backups and sequences), `Clients` (several at once), `Incremental`, `Histories` (chains of incremental backups).
- Restores: `Pool` (the worker pool as an interleaved machine), `Download`, `Disks`, `Metadata` (the last pass),
  `Restore`.
- Both: `EndToEnd` (a restore from a store), `OwnKey` (what a backup can be read back of under its own key),
  `RoundTrip` (backup, rotation, restore), `Parents` (when a parent can be read, and backups on top of it), `Limits` with inputs on which the engine falls short, and `Consistency`
  with a world in which all that is assumed holds at once.

A store is described together with the data key each of its objects was stored under, so backups may be
encrypted or not, each under a key of its own, on one and the same server. The reader of trees is a
parameter: the theorems hold for every reader that reads back what the engine prints and takes no
compressed frame for a tree (`FormatLaw`), the strict one of `Trees` (`Closure.CanonicalIsLawful`) and more
tolerant ones alike.

Where the engine updates state step by step, the model does too: the chunker, the pack buffer, the
server, the printer's buffer, the search, the index and the file system are classes, and their methods
are proved against functions and predicates of which the theorems then speak. Scheduling, map
iteration order, the splitting of reads, lost answers and failing requests are left open, so that the
theorems hold for all of them.  Servers and disks have a constant `reliable`, and the settings of a client one that
says whether its files can be read (`readable`): where these are true nothing fails for a reason of its own, and the
theorems say that backups and restores then succeed.

## What turned out not to hold

Four promises one might expect do not hold of the code, and each is replaced by its exact condition. That
keys are kept apart (`Transfer.KeysApart`) means that what was stored under one key and for one use does not
open under another.

- A restore brings back every non-empty file: only if no two directories, one of them around such a
  file, have the same tree. The search skips a tree it has met before, and with it the paths of
  its files (`Snapshots.SearchOfBackup`, `EndToEnd.RestoreOfBackup`; fails on `Limits.SomeTwins`, by
  `Limits.TwinsAreLost`).
- What was backed up without complaint can be restored: only if no file, link or occupied directory has a
  backslash in its name, which a backup records and a restore refuses, together with all the rest
  (`Snapshots.SearchOfBackup`; fails on `Limits.SomeBackslash`, by `Limits.BackslashStops`).
- Compressing and decompressing are inverse: only if the content shrinks or is not taken for a compressed
  frame itself (`Codec.CompressionInverts`; fails on every compressed file that does not shrink any
  further, `Limits.FramesAreMisread`). Trees are never misread.
- An encrypted snapshot can be restored with its own data key. Every backup draws a new key, and with a key that
  is new on the server, exactly if (`OwnKey.OwnKeyExactly`, `OwnKey.SelfContained`, all of it known before the
  backup begins) the filter claims none of the trees and none of the data; for each data hash the first regular file
  of the scan that has it is read, and not skipped on account of the parent's index; and no data is the text of
  one of the scan's own trees. It fails for a second backup of an unchanged scan, with the first as its parent and an
  empty filter (`Limits.BackUpUnchanged`); for one without a parent and with an exact filter (`Limits.BackUpTwice`);
  and for the scan of `Limits.SomeTreeText` (`Limits.TreeTextIsLost`).

Empty files and directories without entries are never restored: an empty content list is not printed,
and a directory without entries gets no tree.

## Model

| member | source | states |
|---|---|---|
| RoundTrip.BackupAndRestore | pipeline/backup.go:257-303 | One backup by any client, encrypted under any key or not, with any parent, to a server that may hold anything, followed by its restore: if the filter and the index were right and keys are kept apart, the restore yields nothing but files of the scan with their bytes, and all non-empty ones exactly if the names have no backslash, no files hide behind equal trees, all trees and chunks were stored under the key of the backup for their use, and no chunk is misread; on a server that answers every request the backup succeeds whenever there is anything to back up, with the index that can be had of its parent |
| RoundTrip.BackUpFirst | pipeline/backup.go:257-303 | A scan backed up to a new server that answers every request, and restored to a reliable disk: the backup always succeeds, with the closed root of the scan and a wrapping that gives up its key; and the restore brings all non-empty files back, and nothing else, exactly if the scan is such that names have no backslash, directories around files differ, compression keeps its chunks and, if it is encrypted, none of them is the text of a tree |
| RoundTrip.RecordedIsDescribed | pipeline/backup.go:71-106 | Every file, link and occupied directory of a recorded scan has, in the tree that its directory's names lead to, just one node of its name; this has its type, the mode of a file or directory, the size, time and hashes of a file, the tree hash of a directory, the target of a link, and nothing else |
| RoundTrip.OwnParentKey | pipeline/backup.go:372-378 | As a parent, what a run has recorded is read under the run's own data key; under none if it is not encrypted |
| RoundTrip.RotatedParentKey | pipeline/backup.go:372-378 | After its rotation, by those with the new tenant key, and by those with the old one under none |
| Parents.ParentIsReadExactly | pipeline/backup.go:359-390 | What can be had of the index of a parent, the backup of some scan: all its non-empty files with times, sizes and hashes, if all its trees were stored under the key that it is read with, and otherwise nothing |
| Parents.OpenParentIsRead | pipeline/backup.go:359-390 | The first half of it needs no keys to be kept apart |
| Parents.WellOnParent | pipeline/backup.go:359-390 | A backup on top of a parent that can be read uses its index, and is as good as a full one exactly if its filter is right and what looks unchanged since the parent is unchanged |
| Parents.OwnParentIsRead | pipeline/backup.go:372-390 | What a run has recorded can be read as a parent by every client with its tenant key, if all trees of it were stored under the key of the run |
| Parents.BackUpOnTop | pipeline/backup.go:257-303 | Two backups to a new server that answers every request, encrypted under a key of their own each or not, the second on top of the first: both succeed, the second uses the index of the first, and records the closed root of a full backup if what looks unchanged is |
| RoundTrip.FirstIsRestored | pipeline/backup.go:257-303 | Restoring the first backup to a server, from any honest server: right, and complete as the scan alone decides: by backslashes in names, equal trees around files, chunks that neither shrink nor can be told from a frame, and, if it is encrypted, chunks that are the text of one of its trees |
| RoundTrip.OwnKeyIsRestored | pipeline/backup.go:305-328 | An encrypted snapshot with a new key, restored with it: complete exactly if its scan, its parent's index and its filter meet the condition of OwnKeyExactly |
| RoundTrip.RotatedIsRestored | pipeline/rotation.go:12-36 | Backed up under the old tenant key, rotated in any interleaving until a run has completed for the snapshot, and restored under the new tenant key at any later time: restored exactly as without rotation |
| RoundTrip.RotatedKeyLoads | pipeline/restore.go:202-231 | At every moment of a rotation exactly one of the two tenant keys loads the data key of the backup; once a run has completed, the new one |
| RoundTrip.RestoreSnapshot | pipeline/restore.go:145-231 | Loads the key of a snapshot, and restores with it; if its key cannot be loaded, nothing is touched |
| RoundTrip.RunIsRestored | pipeline/restore.go:145-181 | The snapshot of a run that went well, restored from whatever the server holds then or later: right, and complete exactly if it can be restored from there |
| RoundTrip.ClaimedTreeStops | pipeline/backup.go:541-543 | If the filter has claimed a tree of an encrypted backup, the restore fails and writes nothing, though everything reachable is there |
| OwnKey.OwnKeyExactly | pipeline/backup.go:427-458 | A recorded backup with a new key can be restored under it exactly if names have no backslash, directories around files differ, compression keeps every chunk, the filter claims none of the scan's trees and data, no data is the text of a tree, and for all data the first file to have them is read and not skipped |
| OwnKey.FullBackupExactly | pipeline/backup.go:452-483 | Without a parent, exactly if besides the filter claimed nothing that was asked and no chunk is the text of a tree |
| OwnKey.FirstBackupExactly | pipeline/backup.go:452-483 | The same for the first backup to a server, encrypted or not, in terms of the scan alone |
| OwnKey.PlainExactly | pipeline/restore.go:330-361 | On a server where nothing is encrypted: exactly if directories around files differ and no chunk is misread |
| OwnKey.OwnKeyOpens | pipeline/backup.go:465-471 | Under a new key exactly what the run has uploaded opens, and as a tree only, if it was uploaded as both |
| OwnKey.UploadedExactly | pipeline/backup.go:427-564 | A hash is uploaded as a tree exactly if it is one of the scan's and not claimed by the filter, and as data exactly if it is not claimed and the first regular file whose hash list has it is read, not skipped |
| OwnKey.LastUpload | pipeline/backup.go:212-228 | The index describes an object as its last upload was, so as a tree if it was ever uploaded as one |
| EndToEnd.RestoreOfBackup | pipeline/restore.go:145-181 | The restore half on its own, from any store that holds what the root reaches, under any keys, and from any honest server however it groups regions by packs: the same two-way condition |
| EndToEnd.ShutTreeStops | pipeline/restore.go:26-84 | If one tree was not stored under the key of the reader, or one name has a backslash, the restore fails and nothing is written |
| EndToEnd.FilesApart | pipeline/restore.go:408-444 | No file of a scan lands on the way to another of its entries, so there is room for all of them |
| EndToEnd.DirsAreRestored | pipeline/restore.go:102-129 | A restore of a backup that succeeds on a reliable disk has made every directory in which something lies, those that share a tree included |
| EndToEnd.BackupFits | pipeline/restore.go:102-129 | The last pass over a backup ends on any stack that is deeper than the longest path of the scan |
| EndToEnd.BackupHasNoLoops | pipeline/restore.go:102-129 | No tree of a stored backup reaches itself |
| Metadata.RestoreMeta | pipeline/restore.go:102-129 | The last pass, along every path and without memory: with good names it ends well exactly if the stack is deep enough for the longest path; it makes no directory but those of the snapshot and on the way to them, and on a reliable disk all of them where no file is in the way |
| Descent.EndsExactly | pipeline/restore.go:102-129 | A recursion without memory over a finite graph of trees ends, given stack enough, exactly if no reachable tree reaches itself |
| Descent.FitsExactly | pipeline/restore.go:102-129 | The depth it takes is the length of the longest chain |
| EndToEnd.AssembledIsContent | pipeline/restore.go:429-438 | Chunks with the hashes of some content, written one after the other, are that content |
| EndToEnd.WhatIsWrittenIsRight | pipeline/restore.go:408-444 | Every file a restore of a backup leaves behind was there before or is a file of the scan with exactly its bytes |
| EndToEnd.RestoredIfFound | pipeline/restore.go:408-444 | All non-empty files are restored exactly if the search found all of them |
| EndToEnd.HonestSearch | pipeline/restore.go:26-100 | Searching from a closed root on an honest server finds what searching the stored contents finds, if it succeeds; and it does exactly if every reachable tree was stored under the reader's key |
| EndToEnd.HonestServes | pipeline/restore.go:284-325 | An honest server answers every batch of readable data completely and decodably |
| EndToEnd.CachedIsReadable | pipeline/restore.go:330-361 | What a verified download has cached from an honest server was stored under its key, as data, and is not misread |
| Histories.BackUpHistory | pipeline/backup.go:257-303 | Any number of backups to a new server, by any clients, with any parents, filters and keys, each failing anywhere: if all goes right, every snapshot has the root of a full backup of its scan, and everything reachable from it is stored; if the server answers every request, each backup has the parent it names, or else the latest, and the index that can be had of it, and succeeds if it has anything to back up and its client is able to |
| Histories.HistoryIsBackedUp | pipeline/backup.go:257-303 | In a history whose filters, parents and times can be trusted, encrypted or not, every run has the file table of a full backup, and its snapshot, however old, is backed up in what the server holds at the end |
| Histories.HistoryIsRestored | pipeline/restore.go:145-181 | So each snapshot of the history, restored with its own key from the final store, comes back exactly if it can be restored from there |
| Histories.PlainHistoryRestores | pipeline/restore.go:145-181 | In a history without encryption each snapshot comes back exactly if names have no backslash, directories around files differ and no chunk is misread in the final store |
| Histories.PlainReadsRight | pipeline/backup.go:372-378 | Without encryption the index of a parent is always read right, so only the filters matter |
| Histories.HistoryIsFull | pipeline/backup.go:359-390 | Every snapshot of such a history has the root of a full backup of one of its scans, so chains of incremental backups never drift |
| Histories.TrueWithParent | pipeline/backup.go:359-390 | With a closed full parent and trustworthy times and sizes, the incremental table is the full one |
| Runs.PerformBackup | pipeline/backup.go:257-303 | A whole backup, encrypted or not, with any parent, whatever the server holds and whatever fails: the store stays meaningful and loses nothing, what is new is under the key of the run, and a snapshot is recorded only with the root of the scan and its wrapped key, after just those data were uploaded that are not claimed and first held by a file that is read, and then all trees that are not claimed; if the server answers every request, files can be read and the tenant key is a key, it succeeds and records the snapshot exactly if there is anything to back up, and uses the index that can be had of its parent |
| Runs.RunBackups | pipeline/backup.go:257-303 | Any number of such backups one after the other, each by any client, on top of the snapshot it names or else the latest, make a history; what PerformBackup says of reliable servers holds for each |
| Runs.HistoryCloses | pipeline/backup.go:257-303 | Referential closure over all runs: after any runs, full and incremental, plain and encrypted under any keys, whose filters were right on what they were asked and whose parents were read right, everything reachable from any snapshot is in the store, and stays there whatever runs follow |
| Runs.RunKeepsClosed | pipeline/backup.go:257-303 | One run that went right keeps everything reachable from every snapshot, its own included |
| Runs.RecordedExactly | pipeline/backup.go:452-458 | Everything reachable from what a run has recorded is in the store exactly if its filter gave no false positive on the hashes it was asked |
| Runs.IndexIsHere | pipeline/backup.go:359-390 | The index read from a closed parent, under whatever keys its trees were stored, is that of the stored contents, and all it lists is in the store |
| Runs.ClosedIffFilterRight | pipeline/backup.go:452-458 | After the uploads, the root is closed if and only if every hash that was asked and claimed by the filter was there before |
| Runs.RootClosedExactly | pipeline/backup.go:588-607 | A root is closed exactly if the trees of all its directories and the contents of all its files are stored |
| Runs.AnyBackup | pipeline/backup.go:257-303 | One more backup with any filter and any key continues the history |
| Runs.LoadPreviousIndex | pipeline/backup.go:359-390 | The walk of the parent's trees under the parent's own key; or, if the server does not answer some request, under no key, or no index at all; on a server that answers every request, just the index that can be had under the parent's own key |
| Runs.UploadAll | pipeline/backup.go:286-299 | Both phases: afterwards all that was asked is there, or claimed by the filter, or listed by the parent; nothing claimed is new; the store is the old one with the flushed packs; it succeeds if the server answers every request and files can be read |
| Runs.AskedIsReadOrListed | pipeline/backup.go:432-458 | Data that are asked are first held by a file that is read, or else the parent's index lists them |
| Clients.InterleavedCloses | pipeline/backup.go:257-303 | Several clients at once, plain or encrypted, their packs and snapshots in any order: everything reachable from any snapshot is in the store, provided each filter and index was right when its client began, whatever others have put since |
| Clients.RecordExactly | pipeline/backup.go:567-572 | Whatever else has come in between: once the packs of a backup are on the server, its root is closed exactly if all that its filter claimed of what was asked is there |
| Backup.ProcessFileChunks | pipeline/backup.go:404-491 | The file table is that of the recursive definition, and what is known and uploaded afterwards is exactly what the files, taken in order, say; each new hash is appended once |
| Backup.UploadsAfterIs | pipeline/backup.go:432-458 | After any number of files a hash has been uploaded exactly if the filter does not claim it and the first file that has it is read |
| Backup.ProcessFile | pipeline/backup.go:427-487 | One file: its recorded hashes if the parent lists it with the same time and size, else the hashes of its chunks; all of them known afterwards, and uploaded exactly those that were neither known nor claimed, if the file is read |
| Backup.UploadChunk | pipeline/backup.go:452-483 | One chunk: uploaded exactly if it is neither known nor claimed; in every case known afterwards |
| Backup.FileTableHas | pipeline/backup.go:417-488 | The table has just the regular files of the scan, each with its hash list |
| Backup.SortedDirs | pipeline/backup.go:505-517 | The depth-then-reverse-name sort puts every directory that has entries before the one that holds it, top-level ones before the root included |
| Backup.DirsDescend | pipeline/backup.go:514-517 | The sort puts deeper directories first, and among those of one depth the later in the order of bytes |
| Backup.GroupChildren | pipeline/backup.go:505-509 | Each directory that has entries is listed with all of them, in scan order |
| TreePhase.BuildAndUploadTrees | pipeline/backup.go:493-575 | The table of tree hashes has just the directories with entries, each with its recursive Merkle hash; every tree is uploaded or claimed; after the data only new trees are appended; the packs flushed over both phases are all that was appended, in order |
| TreePhase.NextHash | pipeline/backup.go:520-540 | With all deeper directories done, the hash computed from the table is the Merkle hash |
| TreePhase.MakeNodes | pipeline/backup.go:524-537 | The loop over a directory's entries makes the nodes of the definition, of which Snapshots.EntryIsDescribed says what they hold; empty directories get none |
| Merkle.NodeListFromTable | pipeline/backup.go:520-540 | Nodes made from a table of subtree hashes are those of the recursive definition |
| Merkle.ScanOrderIrrelevant | pipeline/backup.go:505-540 | Merkle hashes do not depend on the order of the scan |
| Paths.ChildBeforeParent | pipeline/backup.go:514-517 | A directory precedes its parent in the sort order, also when it ties with the root key in depth |
| Sorting.UntiedArrangement | pipeline/backup.go:539 | Keys without ties have one sorted arrangement, so an unstable sort gives the same result |
| Sorting.LessMeans | pipeline/backup.go:539 | The order of names and keys is that of the first byte in which they differ, a proper prefix coming first |
| Uploads.PackBuffer.Append | pipeline/backup.go:460-482 | Compress, encrypt, buffer, flush at the threshold: the buffer's size is that of its chunks, the packs hold what was appended in order, and all of it is on the server or buffered; it fails only if a request does |
| Uploads.PackBuffer.Flush | pipeline/backup.go:196-254 | Uploads and confirms the buffered chunks as one pack and empties the buffer, or does nothing if it is empty; if it fails, the server has lost nothing |
| Uploads.Server.UploadPack | pipeline/backup.go:205-228 | A pack put and confirmed, or not, or confirmed without the answer arriving: the store keeps its meaning |
| PackStore.RegionsHold | pipeline/backup.go:216-225 | Each recorded offset and size slices out exactly the stored bytes of its chunk |
| PackStore.RegionsTile | pipeline/backup.go:216-225 | The regions of a pack lie side by side without gap or overlap and cover it |
| PackStore.FlushRepresents | pipeline/backup.go:205-228 | A flush adds exactly the contents of its chunks to what the store stands for, under the key they were sealed with |
| PackStore.FeedKeepsPacked | pipeline/backup.go:471-482 | Flushing at the threshold keeps the packs a partition of what was appended, each just full |
| PackStore.FlushRestPacks | pipeline/backup.go:567-572 | After the final flush the packs are all that was appended, in order, and only the last may be less than full |
| PackStore.JustFullSize | pipeline/backup.go:478-482 | A pack flushed at the threshold has at least the target size and exceeds it by less than its last chunk |
| PrevIndex.IndexOfBackup | pipeline/backup.go:108-194 | Indexing a stored backup gives exactly its non-empty files, each with its time, size and hashes, however subtrees are shared |
| PrevIndex.Indexer.Visit | pipeline/backup.go:115-189 | The recursive walk as it fills the index, against its functional specification, errors included |
| PrevIndex.IndexedContentIsHere | pipeline/backup.go:176-186 | Everything the index of a closed parent lists is in the store |
| Incremental.IncrementalTable | pipeline/backup.go:427-441 | An incremental backup gets the hash lists of a full one exactly if every file it skips really has the bytes it had |
| Incremental.IncrementalRefinesFull | pipeline/backup.go:359-390 | The index read from a full parent's store is the flattening of its files, so the incremental file table and root are those of a full backup under that condition |
| Incremental.IncrementalRoot | pipeline/backup.go:427-441 | Once stored, the incremental root equals the full one exactly if what looks unchanged is unchanged |
| Incremental.RootDeterminesFiles | pipeline/backup.go:540-541 | A root hash determines every non-empty file's path, time, size and hash list |
| Incremental.RootDeterminesEntries | pipeline/backup.go:539-541 | And of every file, link and occupied directory, empty files included, the path, kind, mode, size, time, content and link target |
| Search.TreeCollections.ResolveTree | pipeline/restore.go:26-100 | The recursive search as it fills its three maps, against its functional specification; terminates on every finite store, cyclic ones included |
| Search.SearchSucceeds | pipeline/restore.go:26-100 | It succeeds exactly if every reachable tree can be fetched and holds valid names only |
| Search.SearchFindsTrees | pipeline/restore.go:85 | On success it holds exactly the reachable trees |
| Search.SearchFindsFiles | pipeline/restore.go:95-97 | Every path it lists is a real path from the root to a file with that content |
| Search.FilesCompleteExactly | pipeline/restore.go:27-29 | The list of files is complete exactly if every tree that holds a file is reached by one path |
| Snapshots.SearchOfBackup | pipeline/restore.go:26-100 | On a stored backup the search succeeds exactly if there is no backslash in the names, and then finds all non-empty files exactly if no two directories around such files have the same tree |
| Snapshots.ClosedExactly | pipeline/restore.go:26-100 | A stored backup's root is closed exactly if all content its files list is there |
| Agreement.ResolveAgrees | pipeline/restore.go:26-100 | Servers that agree on what is reachable are searched with the same result |
| Agreement.IndexOnServer | pipeline/backup.go:115-189 | Indexing a closed parent on an honest server, if it succeeds, gives the index of the stored contents, whatever keys its trees were stored under |
| Agreement.SearchAgrees | pipeline/restore.go:26-100 | If a server gives what another gives, or else a fault, a search of it that succeeds finds the same |
| Closure.ClosedGrows | pipeline/backup.go:257-303 | Adding objects keeps every closed root closed |
| Closure.StoredNodesOfDir | pipeline/backup.go:520-540 | The nodes in a directory's stored tree are those of its entries and no others |
| Snapshots.EntryIsDescribed | pipeline/backup.go:71-106 | In the tree of its directory just one node has the name of a file, link or occupied directory, and it says all of that entry that a node can, mode and link target included |
| Snapshots.NodeOfEntry | pipeline/backup.go:71-106 | Every node of a directory's tree says all that of an entry of the scan |
| Snapshots.ListedIfNoded | pipeline/backup.go:523-540 | The tree of a directory has no list of nodes at all, rather than an empty one, exactly if none of its entries gets a node |
| Snapshots.DirNodesAscend | pipeline/backup.go:539 | The nodes in a directory's stored tree ascend by name: each name is a proper prefix of the later ones or has the smaller byte where it differs from them first |
| Download.DownloadChunkData | pipeline/restore.go:269-328 | In every interleaving: succeeds exactly if every batch is answered with decodable data only; then the cache holds just what was listed, each entry decoded from what was given for its hash |
| Download.PacksRun | pipeline/restore.go:284-306 | The pool over the packs of one response: no error exactly if all of it is decodable, and then all of it is cached |
| Download.StandaloneRun | pipeline/restore.go:308-324 | The same for standalone objects |
| Download.VerifiedCache | pipeline/restore.go:354-359 | With verification, everything cached has the hash it is filed under, whatever the server answered |
| Download.DownloadsAgree | pipeline/restore.go:269-328 | With verification and no collisions, two successful downloads of one list from one server end with the same cache, whatever the schedules |
| Transfer.ChunkFromStore | pipeline/restore.go:330-361 | A chunk from an honest server decodes to its content exactly if it was stored under the key it is read with, as data, and is not misread; otherwise verification reports a fault |
| Transfer.FetchAgrees | pipeline/restore.go:30-84 | A tree that was stored under the key it is read with is had from an honest server as the tree its hash stands for |
| Transfer.FetchFails | pipeline/restore.go:60-66 | Under any other key that is kept apart it is a fault, and not that of a missing tree |
| Closure.CanonicalIsLawful | codec/zstd.go:61-65 | The canonical text and its reader: printed trees are read back, and no text that reads as a tree looks like a compressed frame |
| Restore.PerformRestore | pipeline/restore.go:145-181 | For any answers, any reader of trees and any interleaving: a verified restore that succeeds had room for the files it found and has each in place, made of pieces with exactly its listed hashes in order; no other file is touched, and no directory made but those of the snapshot and on the way; it succeeds if there is room on a reliable disk, the server serves what is needed, and the stack is deep enough for the last pass |
| Restore.FetchChunks | pipeline/restore.go:162-172 | Either a fault, or every needed hash is in the cache |
| Restore.CollectDataHashes | pipeline/restore.go:255-267 | All hashes that some file lists, each once |
| Restore.EnsureAllChunksPresent | pipeline/restore.go:395-406 | A fault exactly if a needed chunk is missing |
| Restore.WriteRestoredFiles | pipeline/restore.go:408-444 | On success every file is in place; only the places of the files are touched, also on failure; it succeeds only if no place is a directory, below a file, or on the way to another place, and on a reliable disk it then does |
| Disks.FileSystem.Create | pipeline/restore.go:421-428 | Making the directories on the way and the file succeeds only if the path is no directory and below no file, and on a reliable disk exactly then |
| Disks.FileSystem.MakeDirs | pipeline/restore.go:115-116 | A directory and those on the way to it are made, on a reliable disk unless a file is in the way; nobody asks |
| Restore.VerifiedPieces | pipeline/restore.go:429-438 | From a verified cache, a file is put together from pieces with the listed hashes |
| Restore.SearchedTreePaths | pipeline/restore.go:446-457 | Every path a search lists is built from valid names |
| Paths.PathOfInjective | pipeline/restore.go:446-457 | A joined path decomposes uniquely into its names |
| Paths.SafeJoinOfNames | pipeline/restore.go:459-476 | On such paths the join below the target always succeeds and extends the cleaned target by the names |
| Paths.SafeJoinInjective | pipeline/restore.go:459-476 | Different such paths end up in different places |
| Chunking.ChunkingUnique | chunk/chunker.go:82-114 | The recursive chunking is the one and only division of the input that obeys the cutting rule |
| Chunkers.Chunker.Push | chunk/chunker.go:82-114 | The streaming state machine hands out the recursive chunking of what it holds plus the new data, and keeps its rest |
| Chunkers.Chunker.Flush | chunk/chunker.go:117-127 | Hands out what is left, nothing if there is nothing, and starts afresh |
| Chunkers.ChunkFile | chunk/chunker.go:136-175 | However the reads fall, a file's chunks are those of its bytes, cut by the rule in numbers of ChunkingByRule, each with its digest and size; a read error is reported |
| Chunkers.ChunkingByRule | chunk/chunker.go:82-114 | Of all ways to divide the input, chunking takes the one whose chunks end, but for the last, where they are long enough and either too long or of a weighted sum that is a multiple of a power of two, and at no earlier place |
| Chunkers.CutsInNumbers | chunk/chunker.go:57-101 | With an average size of b + 1 bits, the power is 2^(b+1) below the average size and 2^(b-1) from it on, 2^32 at most: of a chunk between the bounds the weighted sum is such a multiple if it is not the last, and of none of its proper prefixes |
| Chunkers.CutMeans | chunk/chunker.go:90-101 | The test of the rolling hash against the mask is this test of the weighted sum |
| Chunkers.Ilog2 | chunk/chunker.go:47-55 | The number of bits, with 2^bits <= n < 2^(bits+1) |
| Chunkers.WindowDecidesCut | chunk/chunker.go:71-101 | Behind a window of bits + 1 bytes the mask test does not depend on where the chunk began, whatever the average size |
| Chunkers.DefaultWindow | chunk/chunker.go:47-55 | With the default sizes 23 bytes are enough |
| Chunking.GearHashIsWeightedSum | chunk/chunker.go:87 | The rolling hash is the sum of table values weighted by powers of two, modulo 2^32 |
| Chunking.GearWindow | chunk/chunker.go:87 | Its low k bits depend on the last k bytes only |
| Chunking.Resynchronises | chunk/chunker.go:103-110 | Inputs that share a suffix and one boundary in it share all later chunks |
| Chunking.SplitContinues | chunk/chunker.go:82-114 | Chunking in two pieces is chunking the whole |
| Chunking.WholeSize | chunk/chunker.go:90-101 | The length of every pushed chunk is within the bounds |
| Chunking.RestSize | chunk/chunker.go:117-127 | What is flushed is below the maximum |
| Chunking.CountBounds | chunk/chunker.go:90-127 | How many chunks n bytes can give, from below and from above |
| Words.AndLowBits | chunk/chunker.go:100 | Testing against a mask of k low bits is testing the remainder modulo 2^k |
| TreeRoundTrip.TreeRoundTrips | tree/tree.go:221-233 | Reading what was printed gives back every tree blob, with malformed UTF-8 repaired and an empty content list turned into none |
| TreeRoundTrip.TreeRoundTripsExactly | tree/tree.go:221-233 | A blob is read back unchanged exactly if its text is valid UTF-8 and no content list is empty |
| TreeRoundTrip.EncodingInjective | tree/tree.go:221-225 | Equal texts come from blobs that are equal once normalised |
| TreeRoundTrip.EncodeTreeHead | tree/tree.go:110-154 | The text of a tree starts with a brace |
| JsonRoundTrip.DocumentRoundTrip | tree/tree.go:23-103 | Every printed value is read back by the grammar of RFC 8259, with escapes and all integers |
| JsonRoundTrip.ReadRenderedString | tree/tree.go:193-217 | Every string with its escapes and control bytes is read back |
| Printer.WriteCanonicalStruct | tree/tree.go:110-154 | Appends the record with empty fields left out and keys sorted, as TreeText.RecordInOrder says of it |
| Printer.WriteCanonical | tree/tree.go:23-103 | Appends the canonical text of a value |
| Printer.WriteCanonicalString | tree/tree.go:203-217 | Appends the quoted and escaped string |
| Printer.HashTree | tree/tree.go:236-240 | The canonical text of the nodes, member by member as TreeText.TreeInOrder has it, and its digest |
| TreeText.RecordInOrder | tree/tree.go:118-148 | A printed record has just the fields that are not left out, and its keys ascend |
| TreeText.NodeInOrder | tree/tree.go:110-154 | A node prints as the present ones among content, mode, mtime, name, size, subtree, target and type, in just this order |
| TreeText.TreeInOrder | tree/tree.go:221-225 | A tree prints as its nodes in this form one after the other, or as null if it never had any |
| TreeText.NoEmptyTexts | tree/tree.go:130-138 | Empty texts and lists are printed under no key but name and type |
| JsonRoundTrip.EscapeIsShortest | tree/tree.go:203-217 | No text that reads as an ASCII character is shorter than the printed one, and none of the same length differs but for capital digits |
| Pool.Outcome | pool/pool.go:19-68 | Whatever the interleaving: no error exactly if the job succeeded once on every item; otherwise the result is the first error recorded |
| Pool.FewLateStarts | pool/pool.go:26-31 | Never more calls under way than the concurrency; fewer than that many start after an error is recorded |
| Pool.RunsEnd | pool/pool.go:46-67 | No schedule is longer than the work at the start, so every run ends |
| Pool.StepConserves | pool/pool.go:33-64 | No step loses or doubles an item across channel, workers and outcomes |
| Pool.Parallel | pool/pool.go:19-68 | Runs the machine under an arbitrary scheduler to its end and returns the first error |
| Pool.RunKeeps | pool/pool.go:46-65 | What every atomic job step keeps of the shared state holds at the end of every run |
| Pool.RunLeavesBehind | pool/pool.go:46-65 | Every item that succeeded has left its mark on the final shared state |
| Pool.NoErrors | pool/pool.go:19-68 | Jobs that cannot fail give no error in any interleaving |
| Pool.BatchesPartition | pool/pool.go:6-16 | Batches partition the list in order into full pieces and perhaps a shorter last one |
| Pool.Batch | pool/pool.go:6-16 | The index loop computes these batches |
| Codec.CompressionInverts | codec/zstd.go:35-82 | Compression is undone exactly for contents that shrink or are not misread as a frame |
| Encrypt.ObjectRoundTrip | encrypt/encryption.go:215-228 | Decrypting and decompressing undoes compressing and encrypting for exactly those contents |
| Encrypt.UnwrapWrap | encrypt/encryption.go:148-166 | A wrapped data key is recovered under the key that wrapped it |
| Encrypt.UnwrapOther | encrypt/encryption.go:148-166 | and not under one that is separate from it |
| Encrypt.KeyInfoInjective | encrypt/encryption.go:193-213 | Different uses or digests never share a derivation string |
| Rotation.DataKeysSurvive | encrypt/encryption.go:176-189 | Over every interleaving, crash, lost answer and retry of rotations, no data key is lost or changed, and each wrapping opens under exactly one of the two keys |
| Rotation.RotationCompletes | pipeline/rotation.go:12-36 | Once a run has completed for a snapshot, its wrapping opens under the new key only |
| Rotation.RotatedStaysPut | pipeline/rotation.go:25-27 | Once a run has completed for every snapshot and none that read an older wrapping is still going, nothing is written and no change is reported any more |
| Rotation.Server.RotateSnapshotTmk | pipeline/rotation.go:12-36 | One run against the server, with every way its requests can fail; on a server that answers every request it reports a change exactly if the wrapping opened under the old key, and leaves one that gives up the data key to the new key alone |
| Limits.TwinsAreLost | pipeline/restore.go:27-29 | However two directories with the same one file were backed up, a restore fails or one of the two files is not restored |
| Limits.SomeTwins | pipeline/restore.go:27-29 | Such a scan, concretely |
| Limits.BackslashStops | pipeline/restore.go:446-457 | One backslash in the name of anything that is backed up, and the restore fails and writes nothing, though everything reachable is there |
| Limits.SomeBackslash | pipeline/restore.go:446-457 | Such a scan, of one file |
| Limits.FramesAreMisread | codec/zstd.go:75-80 | Under every compressor: a compressed file that compressing does not shrink any further is stored as it is and read back decompressed |
| Limits.BackUpTwice | pipeline/backup.go:317 | A scan backed up twice to a new server, each time with its own key, the second time with an exact filter: restoring the second snapshot with its own key fails and writes nothing; on a server that answers every request both backups succeed |
| Limits.BackUpUnchanged | pipeline/backup.go:427-441 | A scan backed up twice to a new server, the second time unchanged, with its own key, the first snapshot as its parent and an empty filter: the second snapshot is recorded and closed, but if it has used the parent's index, a restore with its own key is never complete; and on a server that answers every request both backups succeed, and it always is so |
| Limits.SkippedIsLost | pipeline/backup.go:432-441 | With a new key, a chunk that only skipped files have makes the snapshot impossible to restore in full |
| Limits.TreeTextIsLost | pipeline/backup.go:547-556 | An encrypted backup of a scan in which a file holds the text of the tree of one of its directories cannot be restored in full |
| Limits.SomeTreeText | pipeline/backup.go:547-556 | Such a scan, for any way of writing trees |
| Primitives.LawsAreConsistent | encrypt/encryption.go:230-258 | The laws assumed of the primitives hold together in a concrete world, for any two distinct keys |
| Consistency.EverythingIsConsistent | encrypt/encryption.go:193-228 | All laws, those of the reader of trees, and the separation of keys hold at once for a server with data and a tree under two keys, read under either |
| Consistency.ToyKeysApart | encrypt/encryption.go:193-213 | In that world whatever a server holds under keys that differ in their first byte is kept apart, between uses of one key as well |

## Left out

- HTTP requests, S3 transfer, response decoding, authentication, the client facade and progress events: plumbing; requests appear as answers that may be anything, or as steps that may fail.
- Directory walking, reading of link targets, permissions and times: calls into the operating system. A scan is a list of entries with distinct clean relative paths whose names are valid UTF-8. A disk is a set of directories and a map from paths to bytes: it knows no links and tells all names apart.
- Metadata.RestoreMeta: goes through the trees and makes directories as the code does; the links it makes, and the modes and times it sets, are not modelled, and neither is what lies behind a link.
- SHA-256, AES-GCM, HKDF, base64 and zstd: functions of a World with stated laws. Digests are assumed free of collisions and written as lower-case hex; a fixed digest length is not assumed, because together with the absence of collisions it would be contradictory. Argon2 and key files are not part of this model.
- The Bloom filter: any predicate on hashes. The theorems say for which predicates they hold, by what these claim of the hashes that are asked.
- Transfer.KeysApart: that what was stored under one key or for one use opens under no other, and that ciphertext does not read as a tree, is a hypothesis on the contents at hand, since no law of the primitives can promise it of all byte strings.
- Tree blobs are not verified against their hashes by the engine, and so neither here: for arbitrary answers the restore theorem is about the files that were found in them.
- Uploads.Server.UploadPack: a confirmation covers all chunks of a pack or none. The engine ignores the list of confirmed hashes in the answer, so a server that confirmed only some of them would leave snapshots that are not closed.
- EndToEnd.Honest: an honest server answers with regions of packs only, since packs are all that the engine uploads; standalone objects, which the reader accepts, occur in the theorems on arbitrary answers.
- PackStore.Confirm: what a server does with a hash that is confirmed again is its own affair; here the later entry counts, so an object that is uploaded again is under the later key.
- Transfer.DecodePackChunk: a region outside its pack is a fault here; the Go code stops with a panic, or may read spare capacity of the buffer.
- Chunkers.ParamsOf: average sizes 0 and 1, for which the Go code shifts by a negative amount and panics, are excluded.
- Chunking.GearTable: any table of 256 words of 32 bits; the theorems hold for all of them, so the one of the engine is not written out.
- Json.ReadDocument: reads what the printer can write and more (numbers, escapes and surrogate pairs of sections 6 and 7 of RFC 8259), but no white space, no true and false, no fractions, and no case-insensitive matching of keys. The theorems on backups and restores do not depend on it: they hold for every reader that obeys FormatLaw.
- Trees.EncodeTree: the canonical printer is modelled for tree blobs only; reflection, floats, booleans and maps are left out.
- Sorting.Sort: stands for the library sort. Only its results are used, and they are unique because the keys are distinct.
- Paths.ParentDir: defined for clean relative paths, which is what a scan yields.
- Runs.ChooseParent: the snapshot that the server lists first is taken to be the one recorded last, and a snapshot is named by itself, not by an identifier.
- Dated in PrevIndex: modification times are taken as the printed text, which is never empty.
- Depth of the call stack: the walk of the parent's trees and the last pass of a restore take a bound on their depth, and fault when they reach it; the Go code would overflow its stack.
- Sums kept for reports only (raw sizes, compression ratios, counts of chunks and downloads).
- Integers of the machine are unbounded where no overflow can matter; the rolling hash and its masks wrap at 32 bits.
- Pruning and deleting of snapshots happen on the server, outside these files.
