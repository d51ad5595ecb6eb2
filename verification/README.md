# Storage engine, codec and path search

This project models the algorithmic core of the Augmented Campus app and proves what it promises:
the vendored LevelDB 1.20 storage engine, the vendored nanopb 0.3.8 Protocol Buffers codec, and
the app's own A* path search. Verify with `dafny verify dfyconfig.toml`.

**The multi-version store** (`DbFormat`, `Files`, `VersionBuilder`, `Manifest`, `OutputCuts`, `Compaction`,
`Ages`, `CompactionReads`, `CompactionInstall`, `Lookup`, `Transitions`, `Store`, `SplitKeys`). The reference
is a multi-version map: `Read(history, k, s)` is the value of the newest entry of `k` written at or
before sequence number `s`, and a deletion reads as absent. Class `Store.DB` keeps two memtables,
seven levels of table files and the live snapshots, next to a ghost `history` of everything ever
written. Its methods are the operations of the engine: batch writes, memtable switches, flushes to
a picked level, trivial moves, compactions by size or by range, snapshots and `Get`.

Two predicates describe its states. `Sound()` is what every method requires and every method keeps,
so it holds after any run: levels in internal key order, every entry in one file, memtables above
files, nothing stored that was not written. In every such state `Get` answers with the first hit in
search order. `Valid()` adds that what is searched first is newer, and that what is stored reads like
the history at every live snapshot and at the last sequence. In a valid state `Get` is proved equal
to `Read(history, k, s)`. Writes, switches, flushes and snapshots keep `Valid()`.

A compaction or a trivial move need not, and `BackgroundCompaction` says exactly when: a valid store
stays valid if and only if the step is not `Harmful` in the state before it. A step is harmful when it
moves an entry below an older entry of its user key that stays on the level, or when it drops a
base-level deletion while the newest older entry left out of the inputs is a value. Such an entry lies
in a left-out file of an input level that shares a user key with an input file (`UncoveredIsLeftOut`).
Two conditions that can be checked beforehand exclude it. One is `KeysClear`: no left-out file of the
input levels shares a boundary user key with an input file. The other is that no user key spans two
files of a level, which stays so as long as no compaction that runs under a live snapshot cuts one.
The code makes neither check. Every value that a step uncovers is what `Get` then answers at the smallest
snapshot while ages hold, although the history reads the key as absent there.
`SplitKeyResurrectsDeletedValue` drives the store from its constructor through the failing run: under a
snapshot a compaction cuts a deletion from the value below it, the snapshot is released, and the next
compaction, or the next trivial move, of the file with the deletion brings the deleted value back. File sizes
are chosen there so that every entry fills a file.

`OutputCuts` says where a compaction ends its output files, on the merged input, the grandparents and the
table sizes alone: an output ends when it is full, or when too much grandparent data lies between two keys
of the input. The cuts are determined by that (`OneWayToCut`), and the running counts of the compaction loop
are proved to find them.

**Iterators** (`Cursors`, `DBIter`, `MergingIterator`, `TwoLevelIterator`). The merging iterator is
a cursor on the sorted union of its children, the two-level iterator one on the concatenation of its
blocks, and `DBIter` one on the live user keys at its sequence number, through every change of
direction.

**Durability** (`LogFormat`, `LogFragments`, `Log`, `Coding`, `WriteBatch`, `GroupCommit`, `WriterQueue`,
`Recovery`, `EditCodec`, `ManifestFile`, `Reopen`). `GroupCommit` is a state machine over the steps of a group of writers,
with failing log appends and syncs, memtable switches and flushes. `WriterQueue` gives every writer its
own program counter, done flag and signal, and proves that its runs are runs of that state machine.
`CrashRecovery` joins it with the bytes of the log files: after a crash at any point, whatever was cut
off the logs behind the last sync, replay finds every acknowledged synced write and rebuilds a prefix of
each of the two logs, with the last sequence number of the last group found. `ManifestFile` does the same
for the MANIFEST: class `VersionSet` appends encoded edits behind a snapshot record, and `ReopenAfterCrash`
proves that any prefix of the bytes recovers exactly the version, the numbers and the compaction pointers
that were installed with the last whole record. A version set of another comparator refuses every such prefix
that holds the first record.

Corrupt bytes are covered as well. On any file, a record that the log reader returns stands there whole, fragment
by fragment with good checksums, one right behind the other (`RecordStands`). A damaged block is reported, and a
record that begins at a later block boundary is read all the same (`DamageIsReported`, `ReadAfterDamage`), unless a
fragment was stored with the type that the reader takes for the end of the file. Recovery with paranoid checks goes
on if and only if nothing was reported and every record is a whole batch; without, it replays all that was read.

`Reopen` puts the two together. Its state machine runs the writers beside flushes and compactions, each of
which saves a state in the MANIFEST before it takes effect, with the number of the first log that is still
needed. `OpenAfterCrash` cuts MANIFEST and logs at any point of any run, opens the database from the bytes,
and proves that the opened `Store.DB` is valid: at its last sequence number it answers every key like the
history up to the groups that were found. A compaction preserves this if and only if it uncovers no value
of the files by themselves (`CompactionReorganises`): an entry in a memtable may be lost in the crash.

**On-disk structures** (`BlockFormat`, `Block`, `InternalKeys`, `TableFormat`, `Table`, `Bloom`,
`FilterBlock`) are builders that write bytes and readers that search them, proved against the list of
pairs that was added. The table builder feeds the filter block along the way, and `BuildThenGet` proves the
lookup through that filter exact. What a Bloom filter answers is known exactly: a key may match if and only if
each of its probes is a probe of some key of the filter, and `BuildAndQuery` states this for every block offset.

**Shared structures**: `SkipList` interleaves the loads and stores of one inserting writer with those
of any number of readers. `HandleTable` and `Cache` keep reference counts, lists, charges and deleter
runs of one cache shard.

**nanopb** (`Pb`, `PbDecode`, `PbFits`, `PbRoundTrip`, `PbMerge`, `PbEncode`, `PbIStream`, `PbMessages`) follows
the Protocol Buffers Encoding specification, sections "Base 128 Varints", "Signed Integers",
"Length-Delimited Records", "Packed Repeated Fields" and "Last One Wins". `Pb` gives the schema and the bytes of a
message as functions, `PbEncode` the stream writer with its sizing passes, `PbIStream` the stream
reader, with the mask of required fields in 32-bit words (`Words`). `PartsDecode` is the law of the decoder:
messages that may each lack fields, one behind the other and with any fields of other tags in between, decode to
their merge if together they have every required field and the arrays have room for all items, and are refused
otherwise. The round trip is its case of one message. A nested message in a oneof replaces the one before it,
where the specification would merge them. On any input whatever, what is decoded fits the struct (`DecodedFits`).

**A\*** (`AStar`, `AStarOptimality`) is `findPath` with its sorted open list that allows duplicates, and
the rewrite of a queued step's predecessor. The documentation promises an optimal path. The code keeps that
promise on every graph with a consistent estimate that is `Even`: for every node, the cost of an edge that
leads there, less the estimate at the node it comes from, is the same for all such edges. Edges of one cost
with no estimate to go by are of this kind, and then the path has the fewest nodes; so is any graph with a
single edge into every node. On an even graph the costs taken off the list never drop, and no queued step is
ever redirected. On other graphs a redirected step keeps its recorded cost and its place in the list, and
`SearchMissesCheapest` gives one on which a dearer path is therefore returned. `RedirectionCanBeHarmless` gives
one on which a step is redirected and the path is a cheapest one all the same.

How the state is represented: user keys of the store are reals, an order into which
`Bytes.Rank` embeds all byte strings (`RankEmbedsBytewiseOrder`); `WriteBatch.ToEntry` and
`Table.ToEntry` use it to tie bytes to entries. Sequence numbers fit in 56 bits. A table file is the
sorted list of its entries with a number and a size, its bytes are the subject of `Table`. Checksums
and hashes are arbitrary functions. 32-bit and 64-bit wrap-around is written out wherever the code
can meet it.

Where the documentation of `findPath` promises an empty array for an unreachable goal, the code
returns the start alone, and so does the model.

## Model

| member | source | states |
|---|---|---|
| `Bytes.RankEmbedsBytewiseOrder` | Augmented Campus/Pods/leveldb-library/util/comparator.cc:25-27 | user keys as reals lose nothing: an order embedding of all byte strings, equality included |
| `Bytes.LessIsTotalOrder` | Augmented Campus/Pods/leveldb-library/util/comparator.cc:25-27 | the bytewise comparator is a strict total order |
| `DbFormat.PrecedesIsInternalOrder` | Augmented Campus/Pods/leveldb-library/db/dbformat.cc:50-66 | the order used for entries is the internal order: user key up, sequence and type down |
| `DbFormat.SeekFindsNewest` | Augmented Campus/Pods/leveldb-library/db/memtable.cc:108-143 | in a sorted run the first entry at or after the lookup key is the newest visible one of the user key, or none is visible |
| `DbFormat.ReadNewest` | Augmented Campus/Pods/leveldb-library/db/memtable.cc:122-140 | the newest visible entry alone decides the multi-version read; a deletion reads as absent |
| `DbFormat.NewestExists` | Augmented Campus/Pods/leveldb-library/db/memtable.cc:108-143 | a user key with any visible entry has a newest one |
| `Files.FindFile` | Augmented Campus/Pods/leveldb-library/db/version_set.cc:86-105 | least index whose largest key is at or after the target, on disjoint files |
| `Files.SomeFileOverlapsRange` | Augmented Campus/Pods/leveldb-library/db/version_set.cc:121-158 | true iff some file meets the range, both with and without the binary search, open ends included |
| `Files.GetOverlappingInputs` | Augmented Campus/Pods/leveldb-library/db/version_set.cc:531-572 | terminates in spite of its restarts; at level 0 the files of the least range that contains the request and is closed under overlap, deeper exactly the files that meet the request |
| `Files.ScanRestart` | Augmented Campus/Pods/leveldb-library/db/version_set.cc:553-569 | each restart widens the range only as far as every closed range must reach, and leaves fewer file bounds outside it |
| `VersionBuilder.OrderedListIsUnique` | Augmented Campus/Pods/leveldb-library/db/version_set.cc:606-618 | a set of files has one list in builder order |
| `VersionBuilder.AdditionsAsSets` | Augmented Campus/Pods/leveldb-library/db/version_set.cc:683-707 | the order of the additions of an edit does not matter |
| `VersionBuilder.Builder.Insert` | Augmented Campus/Pods/leveldb-library/db/version_set.cc:705-706 | set insertion in comparator order |
| `VersionBuilder.Builder.Add` | Augmented Campus/Pods/leveldb-library/db/version_set.cc:683-707 | one added file revives its number on its level and leaves all other levels alone |
| `VersionBuilder.Builder.Apply` | Augmented Campus/Pods/leveldb-library/db/version_set.cc:665-708 | deletions first, then additions, on every level |
| `VersionBuilder.Builder.UpperBound` | Augmented Campus/Pods/leveldb-library/db/version_set.cc:725-729 | the bound splits the base files at the added file |
| `VersionBuilder.Builder.SaveLevel` | Augmented Campus/Pods/leveldb-library/db/version_set.cc:711-757 | the merge of base and added files is ordered and holds exactly base plus added minus deleted |
| `VersionBuilder.Builder.SaveTo` | Augmented Campus/Pods/leveldb-library/db/version_set.cc:711-757 | on every level: ordered, and exactly base plus added minus deleted |
| `VersionBuilder.MergeStep` | Augmented Campus/Pods/leveldb-library/db/version_set.cc:718-737 | one added file with the base files before it keeps the merged prefix ordered and complete |
| `Manifest.LogAndApply` | Augmented Campus/Pods/leveldb-library/db/version_set.cc:838-842 | the version made from the current one and an edit is ordered and holds exactly the files the edit leaves and adds |
| `Manifest.InstalledFiles` | Augmented Campus/Pods/leveldb-library/db/version_set.cc:838-842 | a file is in the new version iff it was there and is not deleted, or was added |
| `Manifest.BatchStepAgreesIff` | Augmented Campus/Pods/leveldb-library/db/version_set.cc:939-1014 | one builder for all edits agrees with one builder per edit on a step if and only if no addition reuses the number of a file that an earlier edit deleted |
| `Manifest.ReplayReachesNext` | Augmented Campus/Pods/leveldb-library/db/version_set.cc:939-1014 | if one builder over all edits so far reaches the files of a version, then over one edit more it reaches those of the next version, which was made by a builder of its own |
| `Manifest.WriteSnapshot` | Augmented Campus/Pods/leveldb-library/db/version_set.cc:1118-1124 | the snapshot edit adds exactly the files of the version on their levels |
| `Manifest.SnapshotInstalls` | Augmented Campus/Pods/leveldb-library/db/version_set.cc:1102-1130 | installing a snapshot edit on the empty version gives the version back |
| `ManifestFile.MetaResolves` | Augmented Campus/Pods/leveldb-library/db/version_edit.cc:78-86 | the metadata written for a table file, its bounds as internal key bytes, finds that file again |
| `ManifestFile.SaysOneThing` | Augmented Campus/Pods/leveldb-library/db/version_set.cc:905-1025 | the records of a MANIFEST determine version, numbers and compaction pointers |
| `ManifestFile.ReplaysMore` | Augmented Campus/Pods/leveldb-library/db/version_set.cc:947-961 | one more record, decoded and replayed in the same builder, gives the version that installing its edit gives |
| `ManifestFile.PointAgain` | Augmented Campus/Pods/leveldb-library/db/version_set.cc:665-671 | taking in the compaction pointers of an edit twice is taking them in once, so a snapshot written after them is right |
| `ManifestFile.EncodeEdit` | Augmented Campus/Pods/leveldb-library/db/version_edit.cc:41-86 | the record written for an edit decodes to that edit |
| `ManifestFile.PointerUpdates` | Augmented Campus/Pods/leveldb-library/db/version_set.cc:1109-1116 | the pointer records of a snapshot restore the pointers of all levels |
| `ManifestFile.VersionSet.constructor` | Augmented Campus/Pods/leveldb-library/db/version_set.cc:775-792 | an empty version, no numbers and no MANIFEST yet |
| `ManifestFile.VersionSet.WriteSnapshot` | Augmented Campus/Pods/leveldb-library/db/version_set.cc:1102-1130 | the first record of a MANIFEST names the comparator, replays to the current version and the pointers, and holds no numbers |
| `ManifestFile.VersionSet.LogAndApply` | Augmented Campus/Pods/leveldb-library/db/version_set.cc:820-903 | appends the encoded edit with all numbers filled in, behind a snapshot if the MANIFEST is new, and installs the version; every prefix of the records that ends in an edit says the state of that edit |
| `ManifestFile.VersionSet.Recover` | Augmented Campus/Pods/leveldb-library/db/version_set.cc:905-1025 | on any bytes: succeeds if and only if nothing is corrupted, every record is understood and the numbers are there, and then version, numbers and pointers are what the records say |
| `ManifestFile.ReadRecords` | Augmented Campus/Pods/leveldb-library/db/version_set.cc:942-983 | the read loop stops at the first report or bad record, and otherwise has taken in every record of the file |
| `ManifestFile.TakeRecord` | Augmented Campus/Pods/leveldb-library/db/version_set.cc:948-982 | one record: decoded, checked and applied, or refused |
| `ManifestFile.NewDB` | Augmented Campus/Pods/leveldb-library/db/db_impl.cc:177-207 | the MANIFEST of a new database names the comparator and says the empty version and the first numbers |
| `ManifestFile.ReopenAfterCrash` | Augmented Campus/Pods/leveldb-library/db/version_set.cc:820-1025 | from any prefix of the bytes of a MANIFEST: recovery succeeds iff a record behind the snapshot survived whole, and restores exactly the state saved with the last such record; from the whole file the current version |
| `ManifestFile.OtherComparatorRefused` | Augmented Campus/Pods/leveldb-library/db/version_set.cc:950-957 | no records that begin with one naming the comparator are accepted under another comparator |
| `ManifestFile.NewDBRefused` | Augmented Campus/Pods/leveldb-library/db/version_set.cc:950-957 | the MANIFEST of a new database is refused by a version set of another comparator |
| `ManifestFile.OtherComparatorFails` | Augmented Campus/Pods/leveldb-library/db/version_set.cc:950-957 | so is every prefix of a MANIFEST that a version set of another comparator wrote, as long as it holds the first record |
| `ManifestFile.DamagedFails` | Augmented Campus/Pods/leveldb-library/db/version_set.cc:923-983 | a MANIFEST with a damaged block is refused, whatever else it holds |
| `ManifestFile.DamagedIsNotGood` | Augmented Campus/Pods/leveldb-library/db/version_set.cc:947-961 | a record that was cut off, or has an unknown tag or a level that there is not, is refused wherever in its edit that is |
| `Compaction.GetRange` | Augmented Campus/Pods/leveldb-library/db/version_set.cc:1224-1246 | tight bounds of all the files |
| `Compaction.SetupOtherInputs` | Augmented Campus/Pods/leveldb-library/db/version_set.cc:1345-1396 | the final inputs hold every next-level file that meets the range of the first level and keep the seed; the first level grows exactly when the wider range takes in more files, the total stays below the limit, and that takes in no further next-level file, and then to exactly those files; the grandparents are those that meet both inputs |
| `Compaction.CompactionJob.IsBaseLevelForKey` | Augmented Campus/Pods/leveldb-library/db/version_set.cc:1484-1503 | for ascending keys the forward-only cursors answer exactly as a scan of all files of all levels from level+2 on |
| `Compaction.CompactionJob.ShouldStopBefore` | Augmented Campus/Pods/leveldb-library/db/version_set.cc:1505-1526 | with its forward-only cursor and running count stops at exactly the keys behind which, since the key that stopped last, grandparents beyond ten times the file size limit end |
| `Compaction.CompactionJob.ShouldDrop` | Augmented Campus/Pods/leveldb-library/db/db_impl.cc:951-980 | drops iff a newer entry is at or below the smallest snapshot, or a visible deletion has nothing below it |
| `Compaction.CompactionJob.DoCompactionWork` | Augmented Campus/Pods/leveldb-library/db/db_impl.cc:887-1049 | the outputs, concatenated, are exactly the entries that are not dropped, in order, in files with fresh ascending numbers, cut as planned: every output but the last is full, or ends because a key up to the next kept one, dropped or not, has too much grandparent data behind it; and none goes on past its limit or such a key |
| `OutputCuts.CountsOn` | Augmented Campus/Pods/leveldb-library/db/version_set.cc:1505-1526 | counting the grandparents passed from key to key, and anew from a key that stopped, is comparing the bytes that end before both keys |
| `OutputCuts.PassedAreBehind` | Augmented Campus/Pods/leveldb-library/db/version_set.cc:1509-1517 | the grandparents that the cursor has passed are exactly those that end before the key |
| `OutputCuts.OnlyFullOutputs` | Augmented Campus/Pods/leveldb-library/db/db_impl.cc:998-1004 | without grandparents every output but the last reaches the size limit |
| `OutputCuts.OneWayToCut` | Augmented Campus/Pods/leveldb-library/db/db_impl.cc:916-1008 | two lists of outputs with the same entries that are both cut as planned are cut at the same places |
| `Compaction.KeptIsSorted` | Augmented Campus/Pods/leveldb-library/db/db_impl.cc:916-1008 | what is kept stays sorted and comes before the rest of the input |
| `Compaction.KeptMembers` | Augmented Campus/Pods/leveldb-library/db/db_impl.cc:951-1008 | kept means in the input at an index that is not dropped |
| `Ages.SharedKey` | Augmented Campus/Pods/leveldb-library/db/version_set.cc:1345-1396 | a file outside the inputs that shares a user key with an input file is shallower, deeper than both input levels, or beside it on its level with the key at the boundary of both |
| `Ages.KeyStaysTogether` | Augmented Campus/Pods/leveldb-library/db/version_set.cc:1345-1396 | when no left-out file of the input levels shares a boundary user key with an input file, only the first two cases remain |
| `Ages.SafeDropPreservesReads` | Augmented Campus/Pods/leveldb-library/db/db_impl.cc:951-980 | dropping shadowed entries and base-level deletions changes no read at any snapshot from the floor on |
| `Ages.WritePreservesReads` | Augmented Campus/Pods/leveldb-library/db/memtable.cc:82-106 | one newer entry added to two sets that read alike keeps them reading alike |
| `Ages.SameFile` | Augmented Campus/Pods/leveldb-library/db/version_set.cc:332-429 | in every version that a run can reach, two stored entries with one user key and sequence are one entry in one file |
| `CompactionReads.MergeIsSorted` | Augmented Campus/Pods/leveldb-library/db/version_set.cc:1258-1289 | merging two comparable sorted runs is sorted and loses nothing |
| `CompactionReads.MergeFilesIsSorted` | Augmented Campus/Pods/leveldb-library/db/version_set.cc:1258-1289 | the compaction input is the sorted union of its files |
| `CompactionReads.OlderOrLeftOut` | Augmented Campus/Pods/leveldb-library/db/db_impl.cc:956-976 | an entry older than an input entry that no deeper file has is an input itself, or lies in a left-out file of an input level that shares the user key |
| `CompactionReads.OlderIsInput` | Augmented Campus/Pods/leveldb-library/db/db_impl.cc:956-976 | with a clear key check it is an input itself |
| `CompactionReads.DropIsSafe` | Augmented Campus/Pods/leveldb-library/db/db_impl.cc:951-980 | with a clear key check each dropped entry is shadowed at the smallest snapshot, or is a deletion whose older entries are all dropped too |
| `CompactionReads.DropsAreSafe` | Augmented Campus/Pods/leveldb-library/db/db_impl.cc:916-1008 | with a clear key check all drops of a compaction are safe for everything stored, memtables included |
| `CompactionReads.UncoveredIsRead` | Augmented Campus/Pods/leveldb-library/db/db_impl.cc:956-976 | a value whose covering deletion is dropped is read where the key was absent before |
| `CompactionReads.ReadsChangeIff` | Augmented Campus/Pods/leveldb-library/db/db_impl.cc:951-980 | a compaction changes a read at a snapshot it has to preserve if and only if it drops a base-level deletion that this snapshot sees and the newest older entry that is no input is a value |
| `CompactionReads.UncoveredIsLeftOut` | Augmented Campus/Pods/leveldb-library/db/version_set.cc:1345-1396 | such a value lies in a file left out of the inputs on their levels that shares its user key with an input file |
| `CompactionInstall.InstalledReplaces` | Augmented Campus/Pods/leveldb-library/db/db_impl.cc:866-885 | the new version holds the old files with the inputs replaced by the outputs one level down |
| `CompactionInstall.EntriesAfter` | Augmented Campus/Pods/leveldb-library/db/db_impl.cc:866-885 | the entries stored after a compaction are those before minus the dropped ones, however the outputs are cut |
| `CompactionInstall.AgesAfterIff` | Augmented Campus/Pods/leveldb-library/db/db_impl.cc:866-885 | what is searched first stays newer if and only if no input entry that is kept moves below an older entry of its user key in a left-out file of its level |
| `CompactionInstall.ClearInvertsNothing` | Augmented Campus/Pods/leveldb-library/db/version_set.cc:1345-1396 | a clear key check rules that out |
| `CompactionInstall.SeparateAfter` | Augmented Campus/Pods/leveldb-library/db/db_impl.cc:930-936 | levels stay in internal key order however the outputs are cut; no user key spans two files of a level if and only if none spans two outputs |
| `CompactionInstall.PlacedAfter` | Augmented Campus/Pods/leveldb-library/db/db_impl.cc:866-885 | what every run keeps of a version: numbers, order of levels, one home for each entry |
| `CompactionInstall.OneSurvivorPerKey` | Augmented Campus/Pods/leveldb-library/db/db_impl.cc:951-976 | when the smallest snapshot is the newest sequence, at most one entry per user key survives |
| `CompactionInstall.NoSnapshotNoSplit` | Augmented Campus/Pods/leveldb-library/db/db_impl.cc:998-1004 | without live snapshots no boundary can separate entries of one user key |
| `Lookup.SortNewestFirst` | Augmented Campus/Pods/leveldb-library/db/version_set.cc:283-285 | a permutation, newest file number first |
| `Lookup.GetLevelZero` | Augmented Campus/Pods/leveldb-library/db/version_set.cc:351-371 | the newest visible entry of the newest level-0 file that sees the key, or nothing is visible there |
| `Lookup.GetDeeperLevel` | Augmented Campus/Pods/leveldb-library/db/version_set.cc:372-389 | newest visible entry of a deeper level by one binary search, also when versions of the key span files, or nothing is visible there |
| `Lookup.VersionGet` | Augmented Campus/Pods/leveldb-library/db/version_set.cc:332-429 | the first hit in search order, in every version a run can reach; in an aged one the newest visible entry of the whole version |
| `Lookup.FirstHitIsNewest` | Augmented Campus/Pods/leveldb-library/db/version_set.cc:332-429 | when what is searched first is newer, the first hit is the newest visible entry of all levels |
| `Lookup.PickLevelForMemTableOutput` | Augmented Campus/Pods/leveldb-library/db/version_set.cc:502-528 | level 0 if a file there meets the range, else the deepest level up to 2 that is reached without meeting a file and without too much data two levels down |
| `Transitions.FlushKeepsLayers` | Augmented Campus/Pods/leveldb-library/db/db_impl.cc:488-532 | a flush to a picked level keeps what every run keeps, the ages if they held, and adds exactly the memtable's entries |
| `Transitions.FlushAged` | Augmented Campus/Pods/leveldb-library/db/version_set.cc:502-528 | files stay newer than what is searched after them when a flush skips levels |
| `Transitions.MoveKeepsLayers` | Augmented Campus/Pods/leveldb-library/db/db_impl.cc:717-736 | a trivial move keeps what every run keeps and the stored entries, and the ages if and only if the file leaves no older entry of one of its user keys behind on its level |
| `Store.WriteStep` | Augmented Campus/Pods/leveldb-library/db/write_batch.cc:111-134 | one memtable insertion extends what is stored and what was written alike |
| `Store.CompactStep` | Augmented Campus/Pods/leveldb-library/db/db_impl.cc:887-1049 | a compaction keeps memtables above files, and reads from its smallest snapshot on like the history if and only if it uncovers no value |
| `Store.ClearKeepsReads` | Augmented Campus/Pods/leveldb-library/db/db_impl.cc:951-980 | with a clear key check every read from the smallest snapshot on stays like that of the history |
| `Store.CompactionOutcome` | Augmented Campus/Pods/leveldb-library/db/db_impl.cc:866-885 | every compaction leaves a sound store |
| `Store.CompactionEffect` | Augmented Campus/Pods/leveldb-library/db/db_impl.cc:887-1049 | a valid store stays valid after a compaction if and only if it is not harmful, which a clear key check rules out; a value that was uncovered is what the smallest snapshot reads then |
| `Store.UncoveredIsShown` | Augmented Campus/Pods/leveldb-library/db/db_impl.cc:956-976 | after a compaction that uncovers a value, what is stored, memtables included, reads that value at the smallest snapshot, and the history reads the key as absent there |
| `Store.FirstPartWins` | Augmented Campus/Pods/leveldb-library/db/db_impl.cc:1126-1142 | the answer of the first part that sees the key is the answer of the whole stack |
| `Store.DB.constructor` | Augmented Campus/Pods/leveldb-library/db/db_impl.cc:177-207 | an empty store is sound and valid |
| `Store.DB.Get` | Augmented Campus/Pods/leveldb-library/db/db_impl.cc:1109-1154 | in every state of every run the answer of the first hit in search order; when ages hold, what is stored reads at the snapshot; in every valid state, at the last sequence and at every live snapshot, the answer of the multi-version map of everything ever written |
| `Store.DB.Find` | Augmented Campus/Pods/leveldb-library/db/db_impl.cc:1126-1142 | memtable, older memtable, then the version: the first that sees the key, and the newest visible entry of all of them when ages hold |
| `Store.DB.GetSnapshot` | Augmented Campus/Pods/leveldb-library/db/snapshot.h:42-51 | a new snapshot is the last sequence, at the end of the list; sound and valid stay so |
| `Store.DB.ReleaseSnapshot` | Augmented Campus/Pods/leveldb-library/db/snapshot.h:53-59 | removes just that snapshot; sound and valid stay so |
| `Store.DB.Write` | Augmented Campus/Pods/leveldb-library/db/db_impl.cc:1220-1249 | a batch writes its operations at the next sequence numbers, in order |
| `Store.DB.Add` | Augmented Campus/Pods/leveldb-library/db/memtable.cc:82-106 | one operation at the next sequence number |
| `Store.DB.SwitchMemTable` | Augmented Campus/Pods/leveldb-library/db/db_impl.cc:1359-1376 | the memtable becomes the immutable one and a new one is empty |
| `Store.DB.CompactMemTable` | Augmented Campus/Pods/leveldb-library/db/db_impl.cc:534-565 | the immutable memtable becomes one table file on the level picked for it; sound and valid stay so |
| `Store.DB.PickSeed` | Augmented Campus/Pods/leveldb-library/db/version_set.cc:1291-1343 | the files a compaction starts from: one file, the closed set around it in level 0, or the first files of a range up to a total size |
| `Store.DB.SeedOfRange` | Augmented Campus/Pods/leveldb-library/db/version_set.cc:1413-1446 | manual compaction: the files that meet the range, below level 0 the shortest run of them that reaches the size limit |
| `Store.DB.PickCompaction` | Augmented Campus/Pods/leveldb-library/db/version_set.cc:1291-1343 | nothing to do, or a compaction whose seed, inputs and move test follow from version and pick |
| `Store.DB.BackgroundCompaction` | Augmented Campus/Pods/leveldb-library/db/db_impl.cc:686-769 | every compaction and move leaves a sound store with the inputs replaced by the outputs; a valid store stays valid if and only if the step is not harmful, a condition on the state before it, and always when the key check is clear; of every value it uncovered the store reads differently from the history at the smallest snapshot; while no snapshot is live no user key is split |
| `Store.DB.Move` | Augmented Campus/Pods/leveldb-library/db/db_impl.cc:717-736 | the file is one level deeper; valid stays so if and only if no older entry of its user keys is left on its level |
| `Store.DB.Compact` | Augmented Campus/Pods/leveldb-library/db/db_impl.cc:741-752 | the compaction path of the same, from the real input merge to the installed version |
| `SplitKeys.WriteAndFlush` | Augmented Campus/Pods/leveldb-library/db/db_impl.cc:534-565 | a value, a snapshot, its deletion and a flush end in one table on level 2 |
| `SplitKeys.CutApart` | Augmented Campus/Pods/leveldb-library/db/db_impl.cc:998-1004 | a compaction under that snapshot puts the deletion and the value into two files of level 3, and the store is still valid |
| `SplitKeys.SplitKeyResurrectsDeletedValue` | Augmented Campus/Pods/leveldb-library/db/db_impl.cc:686-769 | the failing run: after the snapshot is released the key reads as absent, and after one more compaction, or one trivial move, the deleted value is back |
| `DBIter.PrevUndoesNext` | Augmented Campus/Pods/leveldb-library/db/db_iter.cc:146-230 | if the next live key of k is j, the previous live key of j is k |
| `DBIter.FirstVisibleDecides` | Augmented Campus/Pods/leveldb-library/db/db_iter.cc:173-203 | the first visible entry of a user key decides its read |
| `DBIter.DBIterator.Seek` | Augmented Campus/Pods/leveldb-library/db/db_iter.cc:274-286 | stands on the least live user key at or after the target, or is invalid and there is none |
| `DBIter.DBIterator.SeekToFirst` | Augmented Campus/Pods/leveldb-library/db/db_iter.cc:288-297 | stands on the least live user key |
| `DBIter.DBIterator.SeekToLast` | Augmented Campus/Pods/leveldb-library/db/db_iter.cc:299-304 | stands on the greatest live user key |
| `DBIter.DBIterator.Next` | Augmented Campus/Pods/leveldb-library/db/db_iter.cc:146-171 | stands on the least live user key after the current one, from either direction |
| `DBIter.DBIterator.Prev` | Augmented Campus/Pods/leveldb-library/db/db_iter.cc:205-230 | stands on the greatest live user key before the current one, from either direction |
| `DBIter.DBIterator.FindNextUserEntry` | Augmented Campus/Pods/leveldb-library/db/db_iter.cc:173-203 | the forward scan finds the least live key beyond what was passed |
| `DBIter.DBIterator.FindPrevUserEntry` | Augmented Campus/Pods/leveldb-library/db/db_iter.cc:232-272 | the backward scan finds the greatest live key before what was passed |
| `DBIter.DBIterator.ShowsRead` | Augmented Campus/Pods/leveldb-library/db/db_iter.cc:66-73 | key and value shown are a live key and its read at the iterator's sequence number |
| `MergingIterator.Merger.Seek` | Augmented Campus/Pods/leveldb-library/table/merger.cc:51-57 | position in the sorted union is that of the first key at or after the target |
| `MergingIterator.Merger.SeekToFirst` | Augmented Campus/Pods/leveldb-library/table/merger.cc:35-41 | position 0 of the sorted union |
| `MergingIterator.Merger.SeekToLast` | Augmented Campus/Pods/leveldb-library/table/merger.cc:43-49 | last position of the sorted union |
| `MergingIterator.Merger.Next` | Augmented Campus/Pods/leveldb-library/table/merger.cc:59-83 | one position on, from either direction |
| `MergingIterator.Merger.Prev` | Augmented Campus/Pods/leveldb-library/table/merger.cc:85-112 | one position back, from either direction |
| `MergingIterator.Merger.FindSmallest` | Augmented Campus/Pods/leveldb-library/table/merger.cc:155-168 | the child whose head is the next entry of the union |
| `MergingIterator.Merger.FindLargest` | Augmented Campus/Pods/leveldb-library/table/merger.cc:170-183 | the child whose head is the previous entry of the union |
| `MergingIterator.Merger.PositionAfter` | Augmented Campus/Pods/leveldb-library/table/merger.cc:66-79 | switching forward leaves every other child just after the current key |
| `MergingIterator.Merger.PositionBefore` | Augmented Campus/Pods/leveldb-library/table/merger.cc:92-108 | switching back leaves every other child just before the current key |
| `MergingIterator.Merger.ShowsUnion` | Augmented Campus/Pods/leveldb-library/table/merger.cc:114-122 | the key and entry shown are those of the union at the position |
| `TwoLevelIterator.TwoLevelSeek` | Augmented Campus/Pods/leveldb-library/table/two_level_iterator.cc:91-96 | seeking the index and then the block is seeking the concatenation |
| `TwoLevelIterator.TwoLevel.Seek` | Augmented Campus/Pods/leveldb-library/table/two_level_iterator.cc:91-96 | position of the first key at or after the target in the concatenation |
| `TwoLevelIterator.TwoLevel.SeekToFirst` | Augmented Campus/Pods/leveldb-library/table/two_level_iterator.cc:98-103 | position 0, past empty blocks |
| `TwoLevelIterator.TwoLevel.SeekToLast` | Augmented Campus/Pods/leveldb-library/table/two_level_iterator.cc:105-110 | last position, before empty blocks |
| `TwoLevelIterator.TwoLevel.Next` | Augmented Campus/Pods/leveldb-library/table/two_level_iterator.cc:112-116 | one position on in the concatenation |
| `TwoLevelIterator.TwoLevel.Prev` | Augmented Campus/Pods/leveldb-library/table/two_level_iterator.cc:118-122 | one position back in the concatenation |
| `TwoLevelIterator.TwoLevel.SkipEmptyDataBlocksForward` | Augmented Campus/Pods/leveldb-library/table/two_level_iterator.cc:125-136 | skipping empty blocks forward keeps the position |
| `TwoLevelIterator.TwoLevel.SkipEmptyDataBlocksBackward` | Augmented Campus/Pods/leveldb-library/table/two_level_iterator.cc:138-149 | skipping empty blocks backward reaches the entry before |
| `LogFormat.ReadFragment` | Augmented Campus/Pods/leveldb-library/db/log_reader.cc:199-281 | a fragment in the file, cut anywhere by the end of the file, is read whole or as the end, without a report |
| `LogFormat.ReadLayout` | Augmented Campus/Pods/leveldb-library/db/log_reader.cc:60-182 | a record laid out in fragments over any number of blocks is reassembled, or if cut reads as the end |
| `LogFormat.TruncatedLogReadsBack` | Augmented Campus/Pods/leveldb-library/db/log_reader.cc:60-182 | for any records and any cut of the file, exactly the records that survived whole come back in order, with no corruption report |
| `LogFormat.AllSurvive` | Augmented Campus/Pods/leveldb-library/db/log_writer.cc:36-82 | in an uncut file all records survive |
| `LogFormat.SurvivorsAtLeast` | Augmented Campus/Pods/leveldb-library/db/log_reader.cc:60-182 | records whose bytes are known to lie before the cut survive |
| `Log.Writer.AddRecord` | Augmented Campus/Pods/leveldb-library/db/log_writer.cc:36-82 | appends the layout of the record for the current block offset; an empty record writes one empty fragment |
| `Log.Writer.EmitPhysicalRecord` | Augmented Campus/Pods/leveldb-library/db/log_writer.cc:84-109 | appends checksum, length, type and data, and moves the block offset |
| `Log.Reader.FillBuffer` | Augmented Campus/Pods/leveldb-library/db/log_reader.cc:202-218 | the buffer is the next block, short only at the end of the file |
| `Log.Reader.ParseFragment` | Augmented Campus/Pods/leveldb-library/db/log_reader.cc:230-279 | the fragment at the front of the buffer with every error case: length, zero type, checksum |
| `Log.Reader.ReadPhysicalRecord` | Augmented Campus/Pods/leveldb-library/db/log_reader.cc:199-281 | the buffered reader reads what the file holds at its position |
| `Log.Reader.ReadRecord` | Augmented Campus/Pods/leveldb-library/db/log_reader.cc:60-182 | on any bytes whatever: the record, position and corruption reports of the logical reader, and the record stands in the file between the positions before and after |
| `Log.WriteThenRead` | Augmented Campus/Pods/leveldb-library/db/log_writer.cc:36-82 | writer, cut and reader together: the surviving records and no report |
| `Log.ReadLog` | Augmented Campus/Pods/leveldb-library/db/log_reader.cc:60-182 | reading to the end gives all records and all reports |
| `LogFragments.TakenIsThere` | Augmented Campus/Pods/leveldb-library/db/log_reader.cc:199-281 | a fragment that is read stands in the file where the next one may start: checksum, length, type and data, in one block |
| `LogFragments.ThereIsTaken` | Augmented Campus/Pods/leveldb-library/db/log_reader.cc:199-281 | and one that stands there is read, whatever fills the end of the block before |
| `LogFragments.RecordStands` | Augmented Campus/Pods/leveldb-library/db/log_reader.cc:60-182 | on any bytes: a record that is read is the data of one full fragment, or of a first one, middle ones and a last one, each standing in the file right behind the one before |
| `LogFragments.StandingIsRead` | Augmented Campus/Pods/leveldb-library/db/log_reader.cc:60-182 | a record that stands where reading begins is read, and nothing is reported |
| `LogFragments.AllStand` | Augmented Campus/Pods/leveldb-library/db/log_reader.cc:60-182 | all records that are read from any file stand in it one behind the other |
| `LogFragments.LayoutStands` | Augmented Campus/Pods/leveldb-library/db/log_writer.cc:36-82 | what the writer appends for a record stands in the file in these terms, in as few pieces as blocks allow: each but the last fills its block |
| `LogFragments.ReadAfterDamage` | Augmented Campus/Pods/leveldb-library/db/log_reader.cc:152-182 | whatever stands before a block boundary, a record that stands there is read, and so are all behind it, unless a stored end of file comes first |
| `LogFragments.DamageIsReported` | Augmented Campus/Pods/leveldb-library/db/log_reader.cc:230-265 | a block that starts with a length that does not fit or a wrong checksum is reported, whatever stands before it, unless a stored end of file comes first |
| `Coding.Fixed32RoundTrip` | Augmented Campus/Pods/leveldb-library/util/coding.h:58-70 | fixed 32-bit values come back |
| `Coding.Fixed64RoundTrip` | Augmented Campus/Pods/leveldb-library/util/coding.h:72-84 | fixed 64-bit values come back |
| `Coding.Varint32RoundTrip` | Augmented Campus/Pods/leveldb-library/util/coding.cc:112-141 | 32-bit varints come back with the rest of the input |
| `Coding.Varint64RoundTrip` | Augmented Campus/Pods/leveldb-library/util/coding.cc:143-170 | 64-bit varints come back with the rest of the input |
| `Coding.EncodeVarint32` | Augmented Campus/Pods/leveldb-library/util/coding.cc:47-73 | the unrolled encoder writes the seven-bit form |
| `Coding.EncodeVarint64` | Augmented Campus/Pods/leveldb-library/util/coding.cc:81-90 | the loop writes the seven-bit form |
| `Coding.DecodeVarint` | Augmented Campus/Pods/leveldb-library/util/coding.cc:112-170 | the decoding loop, on any bytes, with the digit limit and the truncation to the width |
| `Coding.LengthPrefixedRoundTrip` | Augmented Campus/Pods/leveldb-library/util/coding.cc:182-192 | length-prefixed strings come back with the rest of the input |
| `Coding.TruncatedSlice` | Augmented Campus/Pods/leveldb-library/util/coding.cc:182-192 | a length-prefixed string that is cut off anywhere is refused |
| `WriteBatch.BatchRoundTrip` | Augmented Campus/Pods/leveldb-library/db/write_batch.cc:42-80 | an encoded batch decodes to its operations and sequence number |
| `WriteBatch.DamagedBatch` | Augmented Campus/Pods/leveldb-library/db/write_batch.cc:42-80 | a batch that is damaged behind any good records gives those records and the right status: wrong count, unknown tag, or a put or deletion cut off at any byte |
| `WriteBatch.Batch.Put` | Augmented Campus/Pods/leveldb-library/db/write_batch.cc:98-103 | the batch encodes one more operation, count included |
| `WriteBatch.Batch.Delete` | Augmented Campus/Pods/leveldb-library/db/write_batch.cc:105-109 | the batch encodes one more deletion, count included |
| `WriteBatch.Batch.Append` | Augmented Campus/Pods/leveldb-library/db/write_batch.cc:141-145 | the batch encodes the operations of both, under its own sequence number |
| `WriteBatch.Batch.SetSequence` | Augmented Campus/Pods/leveldb-library/db/write_batch.cc:94-96 | only the sequence number of the encoded batch changes |
| `WriteBatch.Batch.Iterate` | Augmented Campus/Pods/leveldb-library/db/write_batch.cc:42-80 | on any bytes: the operations up to the first error and the status, with the count check |
| `WriteBatch.Batch.InsertInto` | Augmented Campus/Pods/leveldb-library/db/write_batch.cc:111-134 | the memtable gains the operations at consecutive sequence numbers, up to the first error |
| `GroupCommit.BuildBatchGroup` | Augmented Campus/Pods/leveldb-library/db/db_impl.cc:1269-1314 | joins the longest prefix of the queue that the size limit and the sync rule allow, in order, and leaves the leader's own batch alone when it stands alone |
| `GroupCommit.GroupIsLongest` | Augmented Campus/Pods/leveldb-library/db/db_impl.cc:1292-1310 | every writer of the group behind the leader is a batch that may join within the size limit, and the writer behind the group may not |
| `GroupCommit.GroupCountFits` | Augmented Campus/Pods/leveldb-library/db/db_impl.cc:1276-1286 | the size limit keeps the joined operation count within 32 bits |
| `GroupCommit.StepKeepsInv` | Augmented Campus/Pods/leveldb-library/db/db_impl.cc:1194-1264 | every step of every thread keeps the protocol invariant |
| `GroupCommit.RunKeepsInv` | Augmented Campus/Pods/leveldb-library/db/db_impl.cc:1194-1264 | the invariant holds in every state of every run |
| `GroupCommit.AcknowledgedExactlyOnce` | Augmented Campus/Pods/leveldb-library/db/db_impl.cc:1250-1264 | an acknowledged write is in exactly one log record, and synced if it asked for it |
| `GroupCommit.FailedAtMostLast` | Augmented Campus/Pods/leveldb-library/db/db_impl.cc:1228-1246 | a write reported as failed is not in the log, except as the last record after a failed sync, and then no more writes are accepted |
| `GroupCommit.LoggedSequencesAscend` | Augmented Campus/Pods/leveldb-library/db/db_impl.cc:1217-1220 | sequence ranges of log records ascend without overlap |
| `GroupCommit.OnlyFailedAppendsLeaveGaps` | Augmented Campus/Pods/leveldb-library/db/db_impl.cc:1217-1250 | the ranges are contiguous in runs without failed appends |
| `GroupCommit.FailedAppendLeavesGap` | Augmented Campus/Pods/leveldb-library/db/db_impl.cc:1217-1250 | and they do leave one: the sequence numbers of a group whose append failed are never used again in any run |
| `GroupCommit.NothingAfterFailedSync` | Augmented Campus/Pods/leveldb-library/db/db_impl.cc:1240-1246 | after a failed sync nothing is logged and every write is answered with an error, in the rest of every run |
| `GroupCommit.StoreReplaysLog` | Augmented Campus/Pods/leveldb-library/db/db_impl.cc:1239-1250 | in every state tables, old memtable and memtable are the replay of the log, its pending last record aside |
| `WriterQueue.OnlyFrontLeads` | Augmented Campus/Pods/leveldb-library/db/db_impl.cc:1200-1207 | in every state of every run of any number of writers, whoever leads is the front of the queue, nobody else leads, and the protocol has a leader |
| `WriterQueue.NoLostWakeup` | Augmented Campus/Pods/leveldb-library/db/db_impl.cc:1202-1264 | in every run, whoever is answered, or is at the front while nobody leads, has a signal pending, keeps it whatever the others do, and returns its answer or leads at its next look |
| `WriterQueue.OthersLeaveIt` | Augmented Campus/Pods/leveldb-library/db/db_impl.cc:1194-1268 | no step of another writer takes the wakeup away |
| `WriterQueue.PopMarks` | Augmented Campus/Pods/leveldb-library/db/db_impl.cc:1248-1257 | the pop loop marks and signals exactly the members of the group other than the leader |
| `WriterQueue.LeaveKeeps` | Augmented Campus/Pods/leveldb-library/db/db_impl.cc:1248-1262 | handing back a group answers all its members alike, leaves nobody leading and wakes the new front |
| `WriterQueue.StepFollows` | Augmented Campus/Pods/leveldb-library/db/db_impl.cc:1194-1268 | whatever the writers do, each looking only at its own done flag and the front of the queue, amounts to steps the group commit protocol allows |
| `WriterQueue.QueueRun` | Augmented Campus/Pods/leveldb-library/db/db_impl.cc:1194-1268 | so every run of any number of writers is a run of the protocol, in which only the front leads and no wakeup is lost |
| `Recovery.RecoverLogFile` | Augmented Campus/Pods/leveldb-library/db/db_impl.cc:365-486 | on any log bytes, paranoid or not: the replayed entries, last sequence and status, however memtables were flushed on the way; only full memtables are flushed, and no full one is left |
| `Recovery.LenientReplay` | Augmented Campus/Pods/leveldb-library/db/db_impl.cc:404-460 | without paranoid checks every record that the log reader finds in any bytes is replayed, up to its bad operation if it has one, and recovery goes on |
| `Recovery.ParanoidReplay` | Augmented Campus/Pods/leveldb-library/db/db_impl.cc:395-460 | with paranoid checks recovery of any bytes goes on if and only if nothing is reported and every record is a whole batch; it then gives the same, and otherwise a beginning of it |
| `Recovery.DamagedLog` | Augmented Campus/Pods/leveldb-library/db/db_impl.cc:365-486 | a damaged block ends recovery with paranoid checks; without them what can be read around it is replayed |
| `Recovery.ReplayGroups` | Augmented Campus/Pods/leveldb-library/db/db_impl.cc:413-460 | replaying a cut log of groups gives the entries of the groups that survived and the last sequence |
| `Recovery.RecoverOneLog` | Augmented Campus/Pods/leveldb-library/db/db_impl.cc:365-486 | a log left by a crash replays to a prefix of its groups that covers all that was synced |
| `Recovery.MaxOfIsLast` | Augmented Campus/Pods/leveldb-library/db/db_impl.cc:431-436 | the largest sequence number met in a log is that of its last group |
| `Recovery.LastOfBoth` | Augmented Campus/Pods/leveldb-library/db/db_impl.cc:344-361 | over both logs it is that of the last group of all, and no replayed entry is beyond it |
| `Recovery.CrashRecovery` | Augmented Campus/Pods/leveldb-library/db/db_impl.cc:274-363 | at any point of any run, after a crash that cuts the unsynced ends of both logs, replay gives prefixes of the logged groups and the last sequence of the last group found, and every acknowledged synced write is found |
| `Recovery.LastSequenceRestored` | Augmented Campus/Pods/leveldb-library/db/db_impl.cc:344-361 | with no byte lost, no failed append and no write under way, the last sequence number is restored: by the logs alone if they hold a group, and always with the number of the MANIFEST recorded at the last flush |
| `Reopen.NewerKeepReads` | Augmented Campus/Pods/leveldb-library/db/db_impl.cc:413-452 | newer entries added to two sets that read alike keep them reading alike |
| `Reopen.CompactionReorganises` | Augmented Campus/Pods/leveldb-library/db/db_impl.cc:866-885 | the files after a compaction read by themselves like those before it if and only if it uncovers no value of the files alone, and always when the key check is clear |
| `Reopen.FlushTells` | Augmented Campus/Pods/leveldb-library/db/db_impl.cc:534-555 | the state a flush saves has tables that read like all groups of the log of the flushed memtable and before it, numbered up to its last sequence |
| `Reopen.StepKeepsJoined` | Augmented Campus/Pods/leveldb-library/db/db_impl.cc:534-565 | every step of writers, memtable switches, flushes and compactions, with the MANIFEST record written before the step takes effect, keeps the states in the MANIFEST and the numbers of the logs in agreement |
| `Reopen.RunKeepsJoined` | Augmented Campus/Pods/leveldb-library/db/db_impl.cc:534-565 | so in every state of every run each state that recovery may find tells what was flushed and names the first log still needed |
| `Reopen.PickLogs` | Augmented Campus/Pods/leveldb-library/db/db_impl.cc:318-339 | exactly the logs from the recovered log number on, or with the previous log number, in ascending order |
| `Reopen.PickedLogs` | Augmented Campus/Pods/leveldb-library/db/db_impl.cc:318-339 | whatever older logs still exist: the current log, preceded by that of the memtable being flushed unless the state found has it in its tables |
| `Reopen.ReplayLogs` | Augmented Campus/Pods/leveldb-library/db/db_impl.cc:339-356 | the logs one after the other until one fails: all entries in order, the largest sequence number, and the status |
| `Reopen.LogsReplay` | Augmented Campus/Pods/leveldb-library/db/db_impl.cc:339-356 | after any crash the logs picked replay without an error to a prefix of each, which covers what was synced and is all of it when no byte was lost |
| `Reopen.MarkFileNumbersUsed` | Augmented Campus/Pods/leveldb-library/db/db_impl.cc:351-354 | the least counter from the old one on that is beyond every log found |
| `Reopen.MemIsSorted` | Augmented Campus/Pods/leveldb-library/db/db_impl.cc:418-428 | replayed entries make a sorted memtable with just those entries |
| `Reopen.ReopenedIsValid` | Augmented Campus/Pods/leveldb-library/db/db_impl.cc:300-363 | tables of the state found and replayed memtable are a sound and valid store for the history found, and the larger of both sequence numbers covers it |
| `Reopen.SyncedIsFound` | Augmented Campus/Pods/leveldb-library/db/db_impl.cc:318-356 | a write that was acknowledged after a sync is in the history found |
| `Reopen.AllFound` | Augmented Campus/Pods/leveldb-library/db/db_impl.cc:318-356 | with all of both logs read the history found is everything ever logged |
| `Reopen.Open` | Augmented Campus/Pods/leveldb-library/db/db_impl.cc:274-363 | on any MANIFEST and log bytes: opens exactly when the MANIFEST is accepted and the logs replay, with the version of the MANIFEST, the entries of the logs, and the larger last sequence |
| `Reopen.OpenAfterCrash` | Augmented Campus/Pods/leveldb-library/db/db_impl.cc:274-363 | at any point of any run, after a crash that cuts the MANIFEST behind what is on disk and both logs behind what was synced: the database opens, the store is valid, and at its last sequence number it answers every key like the history found, which has every acknowledged synced write, and everything when the logs are whole |
| `AStar.BinarySearch` | Augmented Campus/Augmented Campus/Support/Extensions/Array+Extension.swift:46-58 | the least index whose step does not cost less |
| `AStar.SortedInsert` | Augmented Campus/Augmented Campus/Support/Extensions/Array+Extension.swift:66-68 | the list stays sorted and gains just the element |
| `AStar.ClosedSetHoldsPaths` | Augmented Campus/Augmented Campus/Model/GraphNode.swift:92-128 | a set closed under edges holds everything reachable from it |
| `AStar.FirstSteps` | Augmented Campus/Augmented Campus/Model/GraphNode.swift:96-99 | the open list starts sorted, sound and covering the neighbours of the start |
| `AStar.TakeStep` | Augmented Campus/Augmented Campus/Model/GraphNode.swift:103-114 | taking the first step keeps the list sound and owes just the neighbours of its node |
| `AStar.Offer` | Augmented Campus/Augmented Campus/Model/GraphNode.swift:115-125 | one neighbour ends up queued; the rewrite of a queued step's predecessor keeps its path real, repetition-free and no dearer than recorded |
| `AStar.Redirect` | Augmented Campus/Augmented Campus/Model/GraphNode.swift:118-121 | the in-place rewrite keeps every step's path sound although its recorded cost and place stay |
| `AStar.Expand` | Augmented Campus/Augmented Campus/Model/GraphNode.swift:114-125 | all neighbours that are not eliminated are queued, and the number of stale queued steps is the same |
| `AStar.Walk` | Augmented Campus/Augmented Campus/Model/GraphNode.swift:104-111 | following predecessors gives the start and then the trail of the step |
| `AStar.FindPath` | Augmented Campus/Augmented Campus/Model/GraphNode.swift:92-128 | terminates; a path of real edges from start to goal exactly when the goal is reachable, else the start alone; no node twice unless the start has an edge to itself; the path costs no more than what is recorded in the step that reached the goal; its turns are those of the search |
| `AStar.NoPath` | Augmented Campus/Augmented Campus/Model/GraphNode.swift:92-128 | an empty open list means the goal is unreachable |
| `AStarOptimality.FirstIsLeast` | Augmented Campus/Augmented Campus/Model/GraphNode.swift:102-104 | the first step on the list costs, with its estimate, no more than any path out of the eliminated nodes |
| `AStarOptimality.TurnSettles` | Augmented Campus/Augmented Campus/Model/GraphNode.swift:102-125 | a turn that redirects nothing keeps the costs of all eliminated nodes least and their neighbours waiting for no more |
| `AStarOptimality.RecordedIsLeast` | Augmented Campus/Augmented Campus/Model/GraphNode.swift:92-128 | with a consistent estimate, no path is cheaper than what the step to the goal records, in every search without redirection, hence in every search on an even graph |
| `AStarOptimality.OnwardIsNotCheaper` | Augmented Campus/Augmented Campus/Model/GraphNode.swift:116-121 | on an even graph a step on from the one taken is no cheaper than a step to the same node that waits already |
| `AStarOptimality.EvenNeverRedirects` | Augmented Campus/Augmented Campus/Model/GraphNode.swift:102-125 | with a consistent estimate no search on an even graph redirects a queued step, whatever the order of neighbours |
| `AStarOptimality.UniformCost` | Augmented Campus/Augmented Campus/Model/GraphNode.swift:92-128 | with edges of one cost and no estimate the cost of a path counts its edges |
| `AStarOptimality.FindPathFrom` | Augmented Campus/Augmented Campus/Model/GraphNode.swift:86-137 | the path is a cheapest one on every even graph with a consistent estimate, and one of fewest nodes when all edges cost the same; on other graphs, when no queued step was redirected |
| `AStarOptimality.SearchMissesCheapest` | Augmented Campus/Augmented Campus/Model/GraphNode.swift:115-125 | a graph with a consistent estimate on which the search, in whatever order neighbours come, returns a path that is not the cheapest |
| `AStarOptimality.RedirectionCanBeHarmless` | Augmented Campus/Augmented Campus/Model/GraphNode.swift:115-125 | a graph on which the search redirects a queued step and still returns a cheapest path, so that the absence of redirections is not necessary |
| `HandleTable.Table.FindPointer` | Augmented Campus/Pods/leveldb-library/util/cache.cc:116-123 | the slot of the entry with this key, or the end of its chain and no entry matches |
| `HandleTable.Table.Insert` | Augmented Campus/Pods/leveldb-library/util/cache.cc:80-94 | replaces the entry with the same key or adds one; the contents change by just that |
| `HandleTable.Table.Remove` | Augmented Campus/Pods/leveldb-library/util/cache.cc:96-104 | removes just the matching entry |
| `HandleTable.Table.Resize` | Augmented Campus/Pods/leveldb-library/util/cache.cc:125-149 | rehashing in place keeps the contents |
| `HandleTable.Table.MoveChain` | Augmented Campus/Pods/leveldb-library/util/cache.cc:133-144 | moving one chain adds exactly its entries to the new buckets |
| `HandleTable.Table.NextLength` | Augmented Campus/Pods/leveldb-library/util/cache.cc:126-129 | the least power of two, from four on, that holds the entries |
| `HandleTable.MatchIsUnique` | Augmented Campus/Pods/leveldb-library/util/cache.cc:112-123 | no two entries of the table match |
| `Cache.Unlinked` | Augmented Campus/Pods/leveldb-library/util/cache.cc:242-245 | unlinking takes just that entry and its charge off a list |
| `Cache.LRUCache.Ref` | Augmented Campus/Pods/leveldb-library/util/cache.cc:221-227 | one more handle; an unused entry moves to the used list |
| `Cache.LRUCache.Unref` | Augmented Campus/Pods/leveldb-library/util/cache.cc:229-240 | one reference less: deleted at zero, back to the unused list at one if cached |
| `Cache.LRUCache.FinishErase` | Augmented Campus/Pods/leveldb-library/util/cache.cc:307-316 | leaves the cache, its charge leaves the usage, and it is deleted if no client holds it |
| `Cache.LRUCache.Lookup` | Augmented Campus/Pods/leveldb-library/util/cache.cc:255-262 | the matching entry with one more handle, or no entry matches |
| `Cache.LRUCache.Release` | Augmented Campus/Pods/leveldb-library/util/cache.cc:264-267 | one handle less: newest unused entry if cached, deleted once if not |
| `Cache.LRUCache.Insert` | Augmented Campus/Pods/leveldb-library/util/cache.cc:269-303 | the new entry is held once and cached; what is evicted is the oldest unused prefix and no more than needed; usage fits or nothing is unused |
| `Cache.LRUCache.AddEntry` | Augmented Campus/Pods/leveldb-library/util/cache.cc:272-292 | the entry with the same key, and only that one, is replaced |
| `Cache.LRUCache.Evict` | Augmented Campus/Pods/leveldb-library/util/cache.cc:293-300 | evicts from the oldest end until the charges fit |
| `Cache.LRUCache.Erase` | Augmented Campus/Pods/leveldb-library/util/cache.cc:318-321 | just the matching entry leaves the cache |
| `Cache.LRUCache.Prune` | Augmented Campus/Pods/leveldb-library/util/cache.cc:323-333 | all unused entries and no others are deleted, in order |
| `SkipList.StepKeepsInv` | Augmented Campus/Pods/leveldb-library/db/skiplist.h:337-370 | every load and store of the writer and of any reader, in any interleaving, touches only links that exist and keeps every level sorted and complete |
| `SkipList.RunKeepsInv` | Augmented Campus/Pods/leveldb-library/db/skiplist.h:337-370 | the invariant holds in every state of every run |
| `SkipList.PublishKeepsInv` | Augmented Campus/Pods/leveldb-library/db/skiplist.h:364-369 | the publishing store links the node at one level without breaking the level |
| `SkipList.SearchIsExact` | Augmented Campus/Pods/leveldb-library/db/skiplist.h:262-281 | a search that ends has found the least key at or after the target, the last key before it, or the last key, in the list as of its last load |
| `SkipList.ListGrows` | Augmented Campus/Pods/leveldb-library/db/skiplist.h:364-369 | a node enters the list exactly at the store that links level 0, and none ever leaves |
| `SkipList.ListOnlyGrows` | Augmented Campus/Pods/leveldb-library/db/skiplist.h:337-370 | over any run |
| `SkipList.ConcurrentSeek` | Augmented Campus/Pods/leveldb-library/db/skiplist.h:225-228 | a seek running beside insertions returns the exact answer at its last load, at or before every key at or after the target that was there when it began |
| `SkipList.WalkIsLevel` | Augmented Campus/Pods/leveldb-library/db/skiplist.h:208-212 | following the links of a level visits the linked nodes of the level, all of them, in order |
| `SkipList.LevelsNest` | Augmented Campus/Pods/leveldb-library/db/skiplist.h:337-370 | in every state each level is a sorted subsequence of the one below, between link stores too |
| `Block.BlockBuilder.Add` | Augmented Campus/Pods/leveldb-library/table/block_builder.cc:73-107 | one more entry, prefix-compressed against the one before unless a restart is due |
| `Block.BlockBuilder.SharedLength` | Augmented Campus/Pods/leveldb-library/table/block_builder.cc:79-84 | the loop counts the whole common prefix |
| `Block.BlockBuilder.Finish` | Augmented Campus/Pods/leveldb-library/table/block_builder.cc:63-71 | entries, restart array and its length |
| `Block.RestartStep` | Augmented Campus/Pods/leveldb-library/table/block_builder.cc:78-90 | when a restart point is added and what the entry shares then |
| `BlockFormat.RestartsAreRegular` | Augmented Campus/Pods/leveldb-library/table/block_builder.cc:78-90 | restart points are exactly the interval apart, from the first entry to the last |
| `Block.EntryDecodes` | Augmented Campus/Pods/leveldb-library/table/block.cc:53-74 | entry i decodes from its offset to what it shares, its key delta and its value |
| `Block.RestartAt` | Augmented Campus/Pods/leveldb-library/table/block.cc:99-102 | restart r points at the offset of its entry |
| `Block.ParsedEntry` | Augmented Campus/Pods/leveldb-library/table/block.cc:226-252 | what parsing finds at an entry's offset in a whole block |
| `Block.Iter.ShowsEntry` | Augmented Campus/Pods/leveldb-library/table/block.cc:128-137 | at position i the iterator shows exactly the i-th pair that was added |
| `Block.Iter.ParseNextKey` | Augmented Campus/Pods/leveldb-library/table/block.cc:226-252 | parses entry j from where the one before ended, for every restart interval |
| `Block.Iter.Next` | Augmented Campus/Pods/leveldb-library/table/block.cc:139-142 | one position on |
| `Block.Iter.Prev` | Augmented Campus/Pods/leveldb-library/table/block.cc:144-163 | one position back, so it undoes Next; before the first entry it becomes invalid |
| `Block.Iter.Seek` | Augmented Campus/Pods/leveldb-library/table/block.cc:165-203 | the first key at or after the target, by binary search over restarts and a scan |
| `Block.Iter.SeekToFirst` | Augmented Campus/Pods/leveldb-library/table/block.cc:205-208 | the first entry, or the end of an empty block |
| `Block.Iter.SeekToLast` | Augmented Campus/Pods/leveldb-library/table/block.cc:210-215 | the last entry |
| `Block.Iter.SkipRestarts` | Augmented Campus/Pods/leveldb-library/table/block.cc:246-250 | the restart index follows the position |
| `BlockFormat.LengthsDecoded` | Augmented Campus/Pods/leveldb-library/table/block.cc:59-69 | the one-byte fast path and the general path decode the three lengths alike |
| `BlockFormat.DecodeEncoded` | Augmented Campus/Pods/leveldb-library/table/block.cc:53-74 | the lengths and contents of an encoded entry come back, the size check passed |
| `InternalKeys.AppendedKey` | Augmented Campus/Pods/leveldb-library/db/dbformat.cc:18-21 | user key and tag come back from a packed internal key |
| `InternalKeys.ByteOrderIsInternalOrder` | Augmented Campus/Pods/leveldb-library/db/dbformat.cc:50-66 | comparing packed keys is comparing user key, sequence and type |
| `InternalKeys.FindShortestSeparator` | Augmented Campus/Pods/leveldb-library/util/comparator.cc:29-51 | a string in [start, limit) no longer than start, changed exactly when the first differing byte leaves room |
| `InternalKeys.FindShortSuccessor` | Augmented Campus/Pods/leveldb-library/util/comparator.cc:53-64 | the key up to its first byte that is not 0xff, raised; unchanged exactly when all are 0xff |
| `InternalKeys.FindShortestInternalSeparator` | Augmented Campus/Pods/leveldb-library/db/dbformat.cc:68-85 | a key in [start, limit): start itself exactly when cutting its user key behind the first byte that differs would not make it shorter, and else that cut key under the greatest tag |
| `InternalKeys.FindShortInternalSuccessor` | Augmented Campus/Pods/leveldb-library/db/dbformat.cc:87-99 | the key itself exactly when all bytes of its user key but the last are 0xff, and else the user key cut at its first other byte, raised, under the greatest tag |
| `TableFormat.HandleRoundTrip` | Augmented Campus/Pods/leveldb-library/table/format.cc:15-30 | block handles come back |
| `TableFormat.FooterRoundTrip` | Augmented Campus/Pods/leveldb-library/table/format.cc:32-63 | the footer gives both handles back, magic number checked |
| `TableFormat.ReadStored` | Augmented Campus/Pods/leveldb-library/table/format.cc:65-142 | a stored block is read back, checksum and type checked |
| `TableFormat.ReadIsStored` | Augmented Campus/Pods/leveldb-library/table/format.cc:65-142 | on any bytes: a block that is read is stored there with its type and checksum |
| `TableFormat.FooterNeedsMagic` | Augmented Campus/Pods/leveldb-library/table/format.cc:41-63 | a footer without the magic number is refused |
| `TableFormat.SeparatorBelow` | Augmented Campus/Pods/leveldb-library/table/table_builder.cc:97-104 | index keys separate all earlier blocks from all later ones |
| `Table.TableBuilder.Add` | Augmented Campus/Pods/leveldb-library/table/table_builder.cc:92-121 | increasing keys are added in order; the pending index entry is emitted with a separator below the new key; the filter block knows the key under the offset of its block; data blocks are cut exactly when they reach the block size |
| `Table.BlockSizeIs` | Augmented Campus/Pods/leveldb-library/table/block_builder.cc:55-59 | the size estimate that decides is the exact size of the finished block |
| `Table.TableBuilder.Flush` | Augmented Campus/Pods/leveldb-library/table/table_builder.cc:123-137 | a full block is written and its index entry is owed; nothing added is lost, and the filter block stands at the next block |
| `Table.TableBuilder.WriteBlock` | Augmented Campus/Pods/leveldb-library/table/table_builder.cc:139-193 | the block and its trailer are stored at the handle |
| `Table.TableBuilder.EmitIndexEntry` | Augmented Campus/Pods/leveldb-library/table/table_builder.cc:97-104 | the index gains the separator of the last block, before the next key |
| `Table.TableBuilder.EmitLastIndexEntry` | Augmented Campus/Pods/leveldb-library/table/table_builder.cc:229-239 | the index gains a key at or after the last block |
| `Table.TableBuilder.WriteFilterBlock` | Augmented Campus/Pods/leveldb-library/table/table_builder.cc:207-211 | the filter block is stored behind the data blocks and rules out no user key of any of them |
| `Table.TableBuilder.WriteMetaIndex` | Augmented Campus/Pods/leveldb-library/table/table_builder.cc:213-227 | the metaindex holds the handle of the filter block under the name of its policy, or nothing |
| `Table.TableBuilder.Finish` | Augmented Campus/Pods/leveldb-library/table/table_builder.cc:199-254 | the file is a table whose blocks, concatenated, are everything added, with a metaindex that leads to a filter block without false negatives |
| `Table.Open` | Augmented Campus/Pods/leveldb-library/table/table.cc:38-89 | opening a finished table finds its metaindex and its index block; bytes without the magic number are refused |
| `Table.FilterIsFound` | Augmented Campus/Pods/leveldb-library/table/table.cc:109-115 | seeking in the metaindex finds an entry exactly when a filter was written under the name asked for |
| `Table.ReadMeta` | Augmented Campus/Pods/leveldb-library/table/table.cc:91-141 | the reader is over the filter block that was written, if it was written under this name; otherwise there is none |
| `Table.GetIsExact` | Augmented Campus/Pods/leveldb-library/table/table.cc:226-255 | the block that the index points at decides the lookup |
| `Table.RuledOut` | Augmented Campus/Pods/leveldb-library/table/table.cc:231-236 | when the block the index leads to does not hold the user key, no entry from the lookup key on has it |
| `Table.InternalGet` | Augmented Campus/Pods/leveldb-library/table/table.cc:226-255 | with the filter consulted: nothing is reported when the filter rules out the block that the index leads to; otherwise the first entry at or after the lookup key if one is reported, and if none is, no entry with that user key is at or after it, as long as the filter rules out no stored key |
| `Table.BlockGet` | Augmented Campus/Pods/leveldb-library/table/table.cc:241-248 | the first entry of the block at or after the lookup key, or none |
| `Table.BuildThenGet` | Augmented Campus/Pods/leveldb-library/table/table.cc:226-255 | finishing a table, opening it and looking a key up through the filter written along the way: exact for everything that was added, without a condition on the filter |
| `Table.LookupDecidesRead` | Augmented Campus/Pods/leveldb-library/db/version_set.cc:268-281 | what InternalGet reports is the newest entry of the user key at the snapshot whenever there is one |
| `EditCodec.RecRoundTrip` | Augmented Campus/Pods/leveldb-library/db/version_edit.cc:109-210 | each tagged record decodes to itself |
| `EditCodec.RecsRoundTrip` | Augmented Campus/Pods/leveldb-library/db/version_edit.cc:109-210 | any list of records decodes to itself |
| `EditCodec.DamagedRecs` | Augmented Campus/Pods/leveldb-library/db/version_edit.cc:109-210 | records followed by damage: a record of any kind cut off at any byte, one on a level that there is not, or an unknown tag; the good records are taken and the right problem is told |
| `EditCodec.RecsRebuild` | Augmented Campus/Pods/leveldb-library/db/version_edit.cc:41-86 | taking the records of an edit rebuilds it |
| `EditCodec.VersionEdit.Clear` | Augmented Campus/Pods/leveldb-library/db/version_edit.cc:26-39 | everything but the compaction pointers is cleared |
| `EditCodec.VersionEdit.EncodeTo` | Augmented Campus/Pods/leveldb-library/db/version_edit.cc:41-86 | appends the records of the edit, deleted files in set order |
| `EditCodec.VersionEdit.DecodeFrom` | Augmented Campus/Pods/leveldb-library/db/version_edit.cc:109-210 | on any bytes: the records up to the first problem, and which problem |
| `EditCodec.EncodedIsEdit` | Augmented Campus/Pods/leveldb-library/db/version_edit.cc:41-210 | the bytes of an edit are understood whole and hold that edit |
| `EditCodec.DecodedFits` | Augmented Campus/Pods/leveldb-library/db/version_edit.cc:109-210 | whatever is decoded from any bytes has levels that exist and numbers that fit, so it could be encoded again |
| `EditCodec.EncodeThenDecode` | Augmented Campus/Pods/leveldb-library/db/version_edit.cc:41-210 | every field of an edit comes back through bytes |
| `Words.SetBitSets` | Augmented Campus/Pods/leveldb-library/util/bloom.cc:55-56 | setting a bit sets it and leaves the other bits alone |
| `Bloom.BloomFilterPolicy.CreateFilter` | Augmented Campus/Pods/leveldb-library/util/bloom.cc:35-61 | appends a filter of max(64, bits per key) bits rounded up to bytes and the number of probes, in which exactly the bits are set that are a probe of some key |
| `Bloom.MatchesIff` | Augmented Campus/Pods/leveldb-library/util/bloom.cc:63-87 | a key may match such a filter if and only if each of its probes is a probe of some key of the filter |
| `Bloom.KeyMatches` | Augmented Campus/Pods/leveldb-library/util/bloom.cc:63-87 | so every key of the filter may match |
| `Bloom.BloomFilterPolicy.AddKey` | Augmented Campus/Pods/leveldb-library/util/bloom.cc:49-59 | exactly the probes of the key are marked besides what was marked |
| `Bloom.BloomFilterPolicy.KeyMayMatch` | Augmented Campus/Pods/leveldb-library/util/bloom.cc:63-87 | on any filter bytes: all probes marked, with the short-filter and reserved cases |
| `FilterBlock.FilterBlockBuilder.StartBlock` | Augmented Campus/Pods/leveldb-library/table/filter_block.cc:22-28 | filters are made up to that of the block, empty ones for skipped ranges |
| `FilterBlock.FilterBlockBuilder.AddKey` | Augmented Campus/Pods/leveldb-library/table/filter_block.cc:30-34 | the key is remembered for the block at hand |
| `FilterBlock.FilterBlockBuilder.GenerateFilter` | Augmented Campus/Pods/leveldb-library/table/filter_block.cc:52-76 | the pending keys, cut apart again, get the next filter |
| `FilterBlock.FilterBlockBuilder.ListKeys` | Augmented Campus/Pods/leveldb-library/table/filter_block.cc:60-67 | the flattened keys are cut apart where they were joined |
| `FilterBlock.FilterBlockBuilder.Finish` | Augmented Campus/Pods/leveldb-library/table/filter_block.cc:36-50 | the finished block answers any block offset and key exactly: a key may match if and only if its probes are probes of the keys added under that offset, and always behind the last filter |
| `FilterBlock.FilterOf` | Augmented Campus/Pods/leveldb-library/table/filter_block.cc:95-112 | the offset array leads from a block offset to the filter of the keys added under it |
| `FilterBlock.OneAnswer` | Augmented Campus/Pods/leveldb-library/table/filter_block.cc:95-112 | which alone decides, and a range without keys matches nothing |
| `FilterBlock.FinishedAnswers` | Augmented Campus/Pods/leveldb-library/table/filter_block.cc:36-112 | so the answers of a finished block are those |
| `FilterBlock.AddedMayMatch` | Augmented Campus/Pods/leveldb-library/table/filter_block.cc:95-112 | none of which rules out a key that was added |
| `FilterBlock.FilterBlockReader.KeyMayMatch` | Augmented Campus/Pods/leveldb-library/table/filter_block.cc:95-112 | on any bytes: the filter for the offset decides; errors are potential matches |
| `FilterBlock.BuildAndQuery` | Augmented Campus/Pods/leveldb-library/table/filter_block.cc:36-112 | builder and reader together: the exact answer for every offset and key, without false negatives |
| `PbEncode.OStream.Write` | Augmented Campus/Pods/nanopb/pb_encode.c:91-109 | succeeds exactly when the bytes fit; a sizing stream only counts |
| `PbEncode.OStream.EncodeVarint` | Augmented Campus/Pods/nanopb/pb_encode.c:494-514 | the buffer loop writes the base-128 form |
| `PbEncode.Encode` | Augmented Campus/Pods/nanopb/pb_encode.c:451-473 | succeeds exactly when the message's bytes fit and writes exactly them |
| `PbEncode.EncodeField` | Augmented Campus/Pods/nanopb/pb_encode.c:271-351 | required, optional, repeated and oneof fields |
| `PbEncode.EncodePacked` | Augmented Campus/Pods/nanopb/pb_encode.c:116-178 | the size pass over a packed array equals the bytes written after it |
| `PbEncode.EncodeItems` | Augmented Campus/Pods/nanopb/pb_encode.c:163-201 | all items, tagged or not, and the stop at the first that does not fit |
| `PbEncode.EncodeSubmessage` | Augmented Campus/Pods/nanopb/pb_encode.c:600-648 | the size pass of a nested message equals what is written, so the size-changed error cannot occur |
| `PbEncode.FixedSize` | Augmented Campus/Pods/nanopb/pb_encode.c:134-142 | fixed-width packed arrays have the size computed without a pass |
| `PbEncode.GetEncodedSize` | Augmented Campus/Pods/nanopb/pb_encode.c:480-489 | the exact number of bytes |
| `PbEncode.EncodeToBuffer` | Augmented Campus/Pods/nanopb/pb_encode.c:62-109 | encoding into a buffer succeeds if and only if the computed size fits |
| `PbRoundTrip.IntegerRoundTrip` | Augmented Campus/Pods/nanopb/pb_decode.c:1165-1248 | two's complement and zigzag integers of 8, 16, 32 and 64 bits come back |
| `PbRoundTrip.ScalarRoundTrip` | Augmented Campus/Pods/nanopb/pb_decode.c:1165-1379 | scalars, bytes, NUL-terminated strings and fixed-length bytes come back |
| `PbRoundTrip.OtherIsSkipped` | Augmented Campus/Pods/nanopb/pb_decode.c:277-287 | skipping a field as another program writes it, a varint, eight bytes, a string or four bytes behind a tag, ends right behind it |
| `PbRoundTrip.UnknownAreSkipped` | Augmented Campus/Pods/nanopb/pb_decode.c:277-287 | any such fields of other tags are skipped whole and leave the message as it is |
| `PbFits.DecodedFits` | Augmented Campus/Pods/nanopb/pb_decode.c:356-429 | whatever the input, a decoded message fits its struct at every depth: integers in their width, bytes and strings in their arrays, no more items than there is room for, and at most one member of each oneof |
| `PbMerge.MergedIntoDefault` | Augmented Campus/Pods/nanopb/pb_decode.c:955-967 | a message merged into default values is that message |
| `PbMerge.ValueMerges` | Augmented Campus/Pods/nanopb/pb_decode.c:1334-1356 | a value is decoded into the one before it: a nested message is merged at every depth, any other value replaces it, and the bytes behind it are left |
| `PbMerge.RepeatedMerges` | Augmented Campus/Pods/nanopb/pb_decode.c:376-412 | items sent one by one join those of the array, or decoding fails if there is no room for all |
| `PbMerge.PackedMerges` | Augmented Campus/Pods/nanopb/pb_decode.c:376-404 | so do the items of a packed array |
| `PbMerge.SlotMerges` | Augmented Campus/Pods/nanopb/pb_decode.c:356-429 | one field changes its slot, and puts out the other members of its oneof |
| `PbMerge.TakenIsMerged` | Augmented Campus/Pods/nanopb/pb_decode.c:356-429 | taking in fields one by one is merging slot by slot: repeated fields joined, nested messages merged, of others the later item, of a oneof the last member |
| `PbMerge.PartMerges` | Augmented Campus/Pods/nanopb/pb_decode.c:852-953 | a part of a message with any unknown fields in between, from any field on, is merged into what was decoded before |
| `PbMerge.PartsDecode` | Augmented Campus/Pods/nanopb/pb_decode.c:852-967 | any parts of a message one behind the other, with unknown fields anywhere, decode to the parts merged in order if every required field is in one of them and the arrays have room, and fail otherwise |
| `PbMerge.TwoDecodeMerged` | Augmented Campus/Pods/nanopb/pb_decode.c:852-967 | two messages one behind the other decode to the merged message if and only if there is room |
| `PbMerge.UnknownChangesNothing` | Augmented Campus/Pods/nanopb/pb_decode.c:852-953 | a well-formed message with any unknown fields before, between and after its fields decodes to itself |
| `PbMerge.DecodeRestores` | Augmented Campus/Pods/nanopb/pb_decode.c:955-967 | decoding the encoding of a well-formed message restores it |
| `PbMerge.MissingIsRefused` | Augmented Campus/Pods/nanopb/pb_decode.c:925-951 | a message that lacks a required field is refused, whatever else it has |
| `PbMerge.ZeroEnds` | Augmented Campus/Pods/nanopb/pb_decode.c:862-876 | a zero byte ends a message, whatever follows |
| `PbMerge.CutTagEnds` | Augmented Campus/Pods/nanopb/pb_decode.c:253-275 | so does the end of the input in the middle of a tag |
| `PbMerge.CutIsRefused` | Augmented Campus/Pods/nanopb/pb_decode.c:356-429 | input that ends in the middle of a field behind its tag is refused |
| `PbIStream.IStream.DecodeVarint` | Augmented Campus/Pods/nanopb/pb_decode.c:173-229 | the byte loop decodes as the specification does, overlong and cut input included |
| `PbIStream.IStream.SkipField` | Augmented Campus/Pods/nanopb/pb_decode.c:277-287 | each wire type, and failure on unknown ones |
| `PbIStream.IStream.MakeSubstream` | Augmented Campus/Pods/nanopb/pb_decode.c:322-335 | the substream is exactly the length-delimited part |
| `PbIStream.IStream.CloseSubstream` | Augmented Campus/Pods/nanopb/pb_decode.c:337-344 | the parent goes on where the substream's part ends, read or not |
| `PbIStream.FieldIter.Next` | Augmented Campus/Pods/nanopb/pb_common.c:20-76 | wraps around at the end |
| `PbIStream.FieldIter.Find` | Augmented Campus/Pods/nanopb/pb_common.c:78-95 | finds the field with the tag from any starting position, or there is none |
| `PbIStream.DecodeStaticField` | Augmented Campus/Pods/nanopb/pb_decode.c:356-429 | every kind of static field, oneof selection included |
| `PbIStream.DecodePacked` | Augmented Campus/Pods/nanopb/pb_decode.c:376-404 | items until the part ends or the array is full |
| `Words.ShiftedWord` | Augmented Campus/Pods/nanopb/pb_decode.c:946-948 | a full word shifted right by 32 - n has exactly the lowest n bits |
| `PbIStream.MarkSeen` | Augmented Campus/Pods/nanopb/pb_decode.c:908-913 | marking a field sets its bit in its word and no other |
| `PbIStream.CheckMask` | Augmented Campus/Pods/nanopb/pb_decode.c:937-949 | the comparison of whole words and of the bits that are left is the check that all bits below the count are set |
| `PbIStream.FullMask` | Augmented Campus/Pods/nanopb/pb_decode.c:925-951 | all those bits are set if and only if every required field was seen |
| `PbIStream.CountRequired` | Augmented Campus/Pods/nanopb/pb_decode.c:925-939 | the number of required fields, the last one included |
| `PbIStream.DecodeNoInit` | Augmented Campus/Pods/nanopb/pb_decode.c:852-953 | on any input: the fields, or failure, of the message specification |
| `PbIStream.Decode` | Augmented Campus/Pods/nanopb/pb_decode.c:955-967 | the same from default values |
| `PbMessages.EncodeThenDecode` | Augmented Campus/Pods/nanopb/pb_encode.c:451-473 | encoding into a buffer and decoding gives the message back if and only if the buffer is large enough |

## Left out

- AStarOptimality.FindPathFrom: the condition on the graph goes one way. On graphs that are not even the outcome depends on the run: a redirection may cost the cheapest path (`SearchMissesCheapest`) or not (`RedirectionCanBeHarmless`). Edge costs are reals and two nodes are the same when they are equal.
- AStar.FindPath: that no node repeats, and that a search from a node to itself returns just that node, is stated for a start without an edge to itself.
- Store.DB.BackgroundCompaction: flushes and compactions are atomic steps; a flush inside the compaction loop is not modelled. Which file or range is compacted, the score and the compaction pointers are arbitrary inputs.
- Store.DB.Get: statistics and compactions triggered by seeks are not modelled.
- Store.DB.CompactMemTable: the size of a table while it is built is an arbitrary function of its entries.
- Store.DB.GetSnapshot: the circular list of snapshots is a sequence, oldest first.
- Store.DB.Add: the memtable of the store is a sorted list with the insertion point that the skiplist search gives; the skiplist itself is `SkipList`.
- Compaction.CompactionJob.DoCompactionWork: corrupt internal keys in the input are not modelled, nor is a shutdown in the middle of the loop.
- Compaction.CompactionJob.DoCompactionWork: the input is the merge of the input files as a list; that the merging iterator walks this list is `MergingIterator`.
- ManifestFile.VersionSet.LogAndApply: input and output errors, the CURRENT file and file names are not modelled, nor the reuse of an old MANIFEST. No edit may add a number that its level has.
- ManifestFile.VersionSet.Recover: table files are found by number among all that were ever written, and metadata that does not match its file is refused; the check that the files exist is part of opening the database.
- VersionBuilder.Builder.Apply: the compaction pointers of an edit are taken in by `ManifestFile`; the number of allowed seeks of a file is not modelled.
- Recovery.LastSequenceRestored: the sequence number in the MANIFEST is an input, at least that of everything flushed and at most the current one.
- DBIter.DBIterator.Next: corrupt internal keys, read sampling and the shrinking of the saved value buffer are not modelled.
- MergingIterator.Merger.Seek: children hold pairwise distinct keys, as internal keys do.
- WriterQueue.StepFollows: the mutex is the atomicity of the steps; a writer may also wake up without a signal.
- GroupCommit.StepKeepsInv: a failed append writes nothing at all; the room for sequence numbers below 2^56 is a condition of the step; delays in MakeRoomForWrite are not modelled.
- Recovery.CrashRecovery: what a crash leaves is a prefix of each log that covers what was synced; torn sectors are not modelled.
- Reopen.OpenAfterCrash: one lifetime of a database, from a new one on. The entries replayed stay in one memtable, where the code writes tables of level 0 at the end of each log. What a flush or a compaction saves is a condition of the step, which the contracts of `Store.DB` and `CompactionReorganises` meet; the record is on disk before the step takes effect.
- Log.Reader.ReadRecord: reading starts at offset 0, and stored fragment types 5 and 6 are taken as the reader's own codes, as the code does.
- Cache.LRUCache.Insert: the two intrusive lists are sequences; the destructor, sharding and the capacity 0 key trick are not modelled. Hash masks are remainders by the table length, a power of two.
- SkipList.StepKeepsInv: loads and stores are sequentially consistent; the height store and the allocation of a node are one step; links of a node that are not stored yet read as null. Node heights are arbitrary.
- Block.Iter.Seek: blocks are those a builder wrote; the error branches for corrupt blocks are not modelled. Offsets fit in 32 bits.
- Table.InternalGet: blocks are not compressed and no block cache is consulted. Pairs and blocks are at most 2^30 bytes and the file is smaller than 2^64 bytes; the index block must be addressable.
- Table.BuildThenGet: for files smaller than 2^32 bytes; the name of a filter policy is at most 2^28 bytes. The metaindex read is one that a builder wrote.
- EditCodec.VersionEdit.DecodeFrom: internal keys inside records are byte strings.
- Bloom.BloomFilterPolicy.CreateFilter: the number of probes is 69 hundredths of the bits per key in exact arithmetic, where the code multiplies floating point numbers; the results hold for every number from 1 to 30.
- FilterBlock.FilterBlockBuilder.Finish: offsets in the block fit in 32 bits.
- PbEncode.Encode: static fields only; callbacks, extensions, pointer fields and implicit presence are not modelled.
- PbIStream.Decode: default values are zero. The number of required fields is zero, or less than 64 and no multiple of 32: otherwise the final check shifts a word by its width or reads past the mask, which C leaves undefined. The wire type of a known field is not checked, as in the code.
- The view controllers, networking and scripts of the app, the operating system layer, Snappy, the repair tool and the property reports of the engine.
