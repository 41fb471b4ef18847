# Verified model of a LevelDB engine and a persistent node list

This project models the storage engine of LevelDB 1.23 and the persistent-memory node list that sits
beside it, and proves what the two promise. The model follows the code: loops are loops, objects are
classes, and protocols between threads, crashes and recoveries are state machines whose runs are all
considered.

The main results:

- **Reads over any run.** Writes, memtable switches, flushes, automatic and manual compactions with
  anything in between, trivial moves, snapshots, crashes and recoveries keep every level sorted,
  disjoint and ordered by age. A read at a live snapshot, or at the last sequence number, always
  returns what the bare history of writes says, even when it reads pinned memtables and tables while
  the engine moves on (`Lsm.ReadsRefineHistory`, `Lsm.Get`, `Lsm.SnapshotsAreStable`). In terms of the
  calls: a read returns the last write of its key, the value of a Put or nothing after a Delete
  (`Lsm.LastWriteIsRead`, `Writes.BatchIsRead`). The one condition, on the end of a manual compaction,
  is the next point.
- **Exactly when a compaction is safe.** Automatic compactions always are. A manual one may have a gap
  between its inputs; installing it keeps the levels sorted if and only if no output straddles a file
  flushed meanwhile (`Lsm.InstallIsGoodIff`). A run made of the code's own choices shows that this can
  fail, and that a written key is then not found (`ManualGap.GapRun`).
- **Compaction preserves meaning.** Input selection, the drop rules, the cutting of outputs and the
  installation of the result are proved one by one and together (`Picker.PickCompaction`,
  `Compaction.DoCompactionWork`, `Install.RunCompaction`, `Install.FinishPreservesReads`).
- **Durability.** Over every run with any number of crashes and recoveries, a write acknowledged to a
  sync writer is read, or a later one is; new sequence numbers exceed all recovered ones; garbage
  collection removes all garbage and no live table; recovery always finds its files and can finish, and
  so can every write (`Survival.SyncWriteSurvives`, `Durability.AckedWritesSurvive`,
  `Durability.NewSequencesExceed`, `Durability.LiveTablesStay`, `Durability.RecoveryCanFinish`).
- **Which writes outlive a crash.** Exactly those in the synced part of their log, or in a log that the
  synced part of the manifest no longer needs (`SyncPoints.SurvivesIffSafe`). A sync write therefore
  covers the writes before it in the same log (`SyncPoints.EarlierWritesSurvive`), but not those before
  a switch of the log that is not flushed yet: the old log is closed without being synced
  (`SyncPoints.SyncDoesNotCover`).
- **Group commit.** Over every interleaving of writers, numbers follow the queue, a writer is told OK
  exactly when its batch is logged and applied once, and synced if asked for, errors have their reasons,
  and readers see batches whole (`GroupCommit.AnswersAreTrue`, `GroupCommit.OkIffApplied`,
  `GroupCommit.BatchesAreAtomic`).
- **Logs and manifests.** Any records, written, cut at any byte and read, come back as exactly those
  wholly before the cut, with no corruption reported (`LogFormat.WriteCutRead`,
  `Manifest.WriteCutRecover`). From any bytes at all, only records that match their stored checksums
  come back, and damage loses no record it does not hit (`LogFormat.RecordsAreVouched`,
  `LogFormat.MetIsReturned`). One replay of a manifest is, list for list, what applying its edits one
  at a time gave, exactly when no deleted number comes back for another file (`Builder.ReplayIsExact`,
  `Builder.RecoverIsCurrent`); the manifest of any run, cut anywhere, recovers to a version of that run
  (`ManifestVersions.RecoverRunFromBytes`).
- **Iterators.** The user iterator is a cursor on the sorted visible map, the merging iterator on the
  sorted union, the two-level iterator on the concatenation, from any reachable state and in both
  directions (`DbIter.Do`, `Merger.NextInList`, `TwoLevel.SeekSplits`).
- **Tables and blocks.** A built table answers like a scan of its entries, through index separators,
  filters and blocks, for any comparator and any sound filter policy (`Table.BuildAndGet`), and in
  particular with bytewise separators, Bloom filters and prefix-compressed blocks
  (`ByteTable.BuildAndGetBytes`, `Block.BuildAndOpen`, `BlockIter.Iter.Seek`).
- **Skip list.** With lock-free readers between any two stores of Insert, levels stay sorted
  sublists, every search returns the truth of its last load, and Insert adds its key and nothing else
  (`SkipList.ReadersSeeTheTruth`, `SkipList.InsertInserts`, `SkipList.SearchFinds`).
- **Cache.** Reference counts, the two lists, the hash table, the usage and the deleters stay in step
  over every call, and eviction goes exactly as far as it must, in the order of last release
  (`LruCache.LRUCache.Insert`).
- **Checksums.** The four-stride, table-driven CRC equals the bit-by-bit CRC-32C of section 12.1 of
  RFC 3720 for every buffer, alignment and start, all five tables included (`Crc32c.Extend`).
- **Persistent list.** Every run keeps the chain well formed, and the exact conditions under which
  appending, deleting and freeing do so are proved in both directions (`GroupList.RunKeeps`,
  `GroupList.AppendKeeps`, `GroupList.DeleteKeeps`, `GroupList.FreeKeeps`).

Conventions. A user key is represented by its rank under the user comparator, a real number: any
total order on byte strings embeds in the reals, and keys the comparator takes for equal share a rank.
A filter policy over ranks therefore has to respect the comparator, as the Bloom policy does for the
bytewise one (`Separators.RankIsInjective`, `Bloom.BloomTellsApart`). Bytes proper appear where the
code works on bytes (codecs, logs, blocks, filters, separators). Codecs are passed around as function values constrained
to be the codec (`IsFieldBytes`, `IsItemBytes`, `Decodes` and the like), so that proofs about framing
do not depend on what is framed. The log's checksum is any function to four stored bytes;
`Coding.StoredChecksum` and `Crc32c.TypeChecksumMatches` say why comparing those is what the reader
does. I/O, clocks, the allocator's choices, the random height of a skip-list node and size heuristics
are parameters or free choices of a step.

Where comments and code differ, the code is followed. The comment above `AddBoundaryInputs` speaks of
extracting the largest file; the code extracts the largest key, which is what is modelled. The manual
proposes to restart a bulk load after its last sync write (`doc/index.md`, "Synchronous Writes"); with
the code as it is, that holds only as far as the point above says.

## Model

| member | source | states |
|---|---|---|
| `Lookup.DropPreservesReads` | lib/leveldb/db/db_impl.cc:949-983 | the two drop rules are sound: if every dropped entry is shadowed below the oldest snapshot, or is a tombstone with nothing older outside the inputs, then no read at or above that snapshot changes |
| `Lookup.ReadTop` | lib/leveldb/db/version_set.cc:324-400 | the newest entry at or below the snapshot decides what a read returns |
| `Lookup.TopExists` | lib/leveldb/db/version_set.cc:324-400 | every key with an entry at or below the snapshot has a newest such entry |
| `Lookup.OldReadsStay` | lib/leveldb/db/db_impl.cc:1120-1165 | entries newer than the snapshot never change a read |
| `Lookup.WriteOver` | lib/leveldb/db/db_impl.cc:1205-1278 | entries written on top: the newest of them for a key answers, and keys without one read as before |
| `Lookup.NewerLayerReads` | lib/leveldb/db/db_impl.cc:1120-1165 | adding the same newer layer to two databases that read alike keeps them alike |
| `Files.FindFile` | lib/leveldb/db/version_set.cc:87-105 | the loop is the halving of `Bisect` on any files, and on files in order returns the first one whose largest key is at or after the key |
| `Files.BisectFinds` | lib/leveldb/db/version_set.cc:87-105 | on files in order, halving any interval that holds the answer ends at the first file whose largest key is at or after the key |
| `Files.SomeFileOverlapsRange` | lib/leveldb/db/version_set.cc:121-156 | answers true exactly when some file overlaps the user-key range, for overlapping and for disjoint files |
| `Files.GetOverlappingInputs` | lib/leveldb/db/version_set.cc:498-538 | terminates; at level 0 the result is the least overlap-closed selection around the request, elsewhere the plain selection; the range grows only over keys that files cover |
| `Versions.SearchLevelZero` | lib/leveldb/db/version_set.cc:281-322 | on any files, what trying the candidates newest first gives; under the level-0 invariant that is the visible entry of one file, every other match being older, or none when no file matches |
| `Versions.SearchLevel` | lib/leveldb/db/version_set.cc:281-322 | on any files, what opening the one binary-searched file gives; on a sorted level that is the visible entry of the whole level |
| `Versions.LevelZeroFinds` | lib/leveldb/db/version_set.cc:281-322 | on level 0, trying candidates newest first finds the newest visible entry |
| `Versions.SortedLevelFinds` | lib/leveldb/db/version_set.cc:281-322 | on a sorted level, the one file opened holds every entry for the key |
| `Versions.ProbeFinds` | lib/leveldb/db/version_set.cc:262-275 | the first entry at or after the seek key, if it is for the user key, is the newest one visible at the snapshot |
| `Versions.SortNewestFirst` | lib/leveldb/db/version_set.cc:281-322 | the level-0 candidates are put in decreasing file number and none is lost |
| `Versions.Get` | lib/leveldb/db/version_set.cc:324-400 | on any version, what the level-by-level search gives; under the level invariants that is the highest-sequence entry at or below the snapshot over all files |
| `Versions.VersionReads` | lib/leveldb/db/version_set.cc:324-400 | under the level invariants the first level that answers answers for the whole version |
| `Versions.DbGet` | lib/leveldb/db/db_impl.cc:1120-1165 | memtable, immutable memtable and version searched in this order; when each is newer than the next they answer as their union does |
| `Versions.DbReads` | lib/leveldb/db/db_impl.cc:1120-1165 | searching memtable, immutable memtable and version in this order reads their union |
| `Picker.FindLargestKey` | lib/leveldb/db/version_set.cc:1308-1322 | returns the largest key of a list, and whether there is one |
| `Picker.FindSmallestBoundaryFile` | lib/leveldb/db/version_set.cc:1326-1344 | returns the least file that continues the user key of the given largest key, or none exactly when there is none |
| `Picker.AddBoundaryInputs` | lib/leveldb/db/version_set.cc:1360-1383 | terminates, keeps the chosen files and adds only chained ones, without duplicates; no file of the level continues the largest user key of the result |
| `Picker.GetRange` | lib/leveldb/db/version_set.cc:1187-1206 | the range returned is the hull of the files |
| `Picker.SelectLower` | lib/leveldb/db/version_set.cc:1390-1394 | the lower inputs are all files overlapping the upper inputs, closed under boundary files, and leave no gap when the upper inputs have none |
| `Picker.CompleteUpper` | lib/leveldb/db/version_set.cc:1385-1390 | the upper inputs leave out no file that could hold older entries for their keys |
| `Picker.Expand` | lib/leveldb/db/version_set.cc:1396-1432 | growing the upper inputs keeps every property of the selection, and gap-freeness; they grow exactly when that adds upper files, adds no lower ones and stays within the size limit |
| `Picker.GrowUpper` | lib/leveldb/db/version_set.cc:1396-1411 | the files that the range of both inputs selects on the upper level contain the old ones and every file that overlaps the range, are complete, and leave no gap if the inputs had none |
| `Picker.SetupOtherInputs` | lib/leveldb/db/version_set.cc:1385-1446 | the inputs of a compaction are complete on both levels, and gap-free if the first choice was |
| `Picker.PickCompaction` | lib/leveldb/db/version_set.cc:1252-1304 | an automatic compaction has complete, gap-free inputs; it contains the seek-triggered file, or else the first file past the compact pointer, or the first of the level when none is past it |
| `Picker.FirstPast` | lib/leveldb/db/version_set.cc:1266-1278 | the first file past the compact pointer, no earlier one being past it; the first of the level when none is or there is no pointer |
| `Picker.GrowLevelZero` | lib/leveldb/db/version_set.cc:1290-1299 | the level-0 files that join the picked one contain it, leave no gap, and overlap no file left out |
| `Picker.CompactRange` | lib/leveldb/db/version_set.cc:1448-1479 | a manual compaction exists exactly when a file overlaps the request; its inputs satisfy `IsManualPick`: complete, with every overlapping file of level 0, or on deeper levels the shortest prefix that reaches the size limit |
| `Picker.ManualLevelZero` | lib/leveldb/db/version_set.cc:1448-1458 | the level-0 inputs of a request hold every file it overlaps, none when there is none, and no file left out overlaps their range |
| `Picker.ManualLower` | lib/leveldb/db/version_set.cc:1448-1471 | on a sorted level the inputs are the overlapping files cut at the size limit, consecutive files of the level |
| `Picker.SizeCut` | lib/leveldb/db/version_set.cc:1462-1471 | the loop keeps the shortest prefix of at least the limit, or everything |
| `Picker.PickLevelForMemTableOutput` | lib/leveldb/db/version_set.cc:470-495 | the level satisfies `IsOutputLevel`: a memtable goes below level 0 only past levels it does not overlap, and stops above level 2 only at an overlap or at too many bytes below |
| `Picker.OneOutputLevel` | lib/leveldb/db/version_set.cc:470-495 | `IsOutputLevel` holds of one level at most, so it determines the choice |
| `Compaction.BaseLevel.Outside` | lib/leveldb/db/version_set.cc:1517-1536 | the forward-moving cursor of one level decides exactly whether the key lies in a file of that level |
| `Compaction.BaseLevel.IsBaseLevelForKey` | lib/leveldb/db/version_set.cc:1517-1536 | for keys asked in order, true exactly when no deeper level has a file whose range contains the key |
| `Compaction.ShadowedByPredecessor` | lib/leveldb/db/db_impl.cc:949-983 | in key order an entry is hidden below the oldest snapshot exactly when its immediate predecessor hides it |
| `Compaction.ShouldDrop` | lib/leveldb/db/db_impl.cc:949-983 | the per-entry decision drops exactly the entries that need not survive |
| `Compaction.TakeEntry` | lib/leveldb/db/db_impl.cc:940-1015 | one turn of the loop: with any cuts, the files so far hold exactly the survivors of one more entry, in order |
| `Compaction.DoCompactionWork` | lib/leveldb/db/db_impl.cc:926-1019 | for every way of cutting output files, the outputs are nonempty, in key order, and hold exactly the surviving entries |
| `Compaction.SurvivorsAreFew` | lib/leveldb/db/db_impl.cc:949-983 | of the entries of a key at or below the oldest snapshot at most one survives, and no deletion of a key that no deeper level covers |
| `Install.ChosenIsOk` | lib/leveldb/db/version_set.cc:1385-1446 | whatever the picks choose has older data only below, and no file of the output level between its inputs |
| `Install.FlushKeepsGood` | lib/leveldb/db/db_impl.cc:505-547 | a flush onto the level PickLevelForMemTableOutput allows keeps levels sorted, disjoint and ordered by age |
| `Install.GapFreeFlushAvoidsJob` | lib/leveldb/db/db_impl.cc:549-580 | a flush below the level of a running gap-free compaction lies outside the range of its inputs |
| `Install.FlushKeepsJob` | lib/leveldb/db/db_impl.cc:949-983 | a flush in the middle of any compaction, gap-free or not, leaves the inputs fit to be installed |
| `Install.GapFreeFlushKeepsAside` | lib/leveldb/db/db_impl.cc:926-937 | no flush gets between the inputs of a gap-free compaction |
| `Install.AsideFits` | lib/leveldb/db/db_impl.cc:879-895 | with no file of the output level between the inputs, the outputs always fit |
| `Install.RecoveryKeepsGood` | lib/leveldb/db/db_impl.cc:385-500 | the level-0 tables recovery writes from the logs keep levels sorted and ordered by age |
| `Install.RunCompaction` | lib/leveldb/db/db_impl.cc:897-1019 | the merged inputs through the loop, one table for every output, give files fit to be installed, with fresh numbers |
| `Install.CutFilesAreDisjoint` | lib/leveldb/db/db_impl.cc:830-877 | output tables cut anywhere from the sorted stream are sorted and disjoint |
| `Install.FinishKeepsGood` | lib/leveldb/db/db_impl.cc:879-895 | the version with the inputs replaced by outputs that fit keeps every level invariant |
| `Install.FinishIsGoodIff` | lib/leveldb/db/db_impl.cc:879-895 | for any compaction and any outputs, the installed version keeps the level invariants if and only if every output is clear of the files that stay on its level |
| `Install.FitsUnlessStraddling` | lib/leveldb/db/db_impl.cc:879-895 | which is the case if and only if no output has surviving entries on both sides of such a file |
| `Install.FinishIsProperDrop` | lib/leveldb/db/db_impl.cc:926-1019 | what a compaction leaves out is allowed by the two drop rules against everything outside its inputs |
| `Install.FinishPreservesReads` | lib/leveldb/db/db_impl.cc:926-1019 | for every user key and every snapshot at or above the oldest live one, reads before and after a compaction agree |
| `Install.MoveKeepsGood` | lib/leveldb/db/db_impl.cc:737-747 | a trivial move keeps the invariants and the contents |
| `Builder.SetInsert` | lib/leveldb/db/version_set.cc:571-590 | inserting into the ordered file set keeps its order and adds exactly the file |
| `Builder.VersionBuilder.constructor` | lib/leveldb/db/version_set.cc:597-606 | a new builder holds the base version and empty deletions and additions on every level |
| `Builder.VersionBuilder.Apply` | lib/leveldb/db/version_set.cc:629-669 | one edit adds its deletions, then its files, taking an added number out of the deletions |
| `Builder.SaveLevel` | lib/leveldb/db/version_set.cc:672-715 | the merge of base and added files is in order and holds exactly the files not deleted |
| `Builder.VersionBuilder.SaveTo` | lib/leveldb/db/version_set.cc:672-715 | on every level the saved version is base and added files without the deleted numbers, in order |
| `Builder.LogAndApply` | lib/leveldb/db/version_set.cc:777-798 | the new version is the current one with the edit applied, in order, on every level |
| `Builder.Recover` | lib/leveldb/db/version_set.cc:861-977 | one builder fed every edit yields the replay of the edits, in order, on every level |
| `Builder.ReplayKeepsAll` | lib/leveldb/db/version_set.cc:861-977 | for any edits at all, a single replay loses no file that applying them one at a time keeps |
| `Builder.ReplayIsSequential` | lib/leveldb/db/version_set.cc:861-977 | when no edit brings back another file under a deleted number, one replay equals applying the edits one at a time |
| `Builder.ReplayIsExact` | lib/leveldb/db/version_set.cc:861-977 | the exact condition: replay and edit-by-edit application agree after every edit if and only if no edit adds a number that is deleted so far and belonged to a different file |
| `Builder.FreshIsSameAgain` | lib/leveldb/db/version_set.cc:861-977 | numbers that are never reused meet the condition |
| `Builder.ReusedNumberComesBack` | lib/leveldb/db/version_set.cc:629-669 | a reused number separates the two: the replay brings the deleted file back |
| `Builder.ManifestRebuilds` | lib/leveldb/db/version_set.cc:1069-1097 | replaying a manifest from its snapshot record gives the version that applying its edits one at a time gives |
| `Builder.ApplyAll` | lib/leveldb/db/version_set.cc:777-798 | LogAndApply, edit after edit, gives the edits one at a time, in order on every level |
| `Builder.RecoverIsCurrent` | lib/leveldb/db/version_set.cc:861-977 | Recover on snapshot record and edits returns, list for list, the version LogAndApply made edit by edit |
| `RunManifest.StepMakes` | lib/leveldb/db/version_set.cc:777-798 | every step of the engine changes each level as the edit it logs says (`StepMade`), and gives out new numbers |
| `RunManifest.RunIsRebuildable` | lib/leveldb/db/version_set.cc:1069-1097 | the edits a run logs from any state on meet every condition for being replayed, and lead to its current version |
| `RunManifest.RecoverRun` | lib/leveldb/db/version_set.cc:861-977 | in every reachable state, recovery from the manifest returns the current version, list for list |
| `ManifestVersions.RebuildFromBytes` | lib/leveldb/db/version_set.cc:861-977 | a manifest written as bytes, cut anywhere after its snapshot record, recovers list for list to the version of the edits wholly before the cut |
| `ManifestVersions.Rebuild` | lib/leveldb/db/version_set.cc:861-977 | one builder over any decoded prefix of the edits makes, list for list, what applying them one by one made |
| `ManifestVersions.RecoverRunFromBytes` | lib/leveldb/db/version_set.cc:861-977 | for the manifest of any run of the engine, that is the version of a state of the run |
| `Builder.OrderIsCanonical` | lib/leveldb/db/version_set.cc:571-590 | two lists in builder order with the same files are the same list |
| `Builder.ApplyIsEdited` | lib/leveldb/db/version_set.cc:629-669 | when numbers identify files, a level is the edited one if and only if it is in order and holds what applying the edit by number gives |
| `Lsm.NextKeepsInv` | lib/leveldb/db/db_impl.cc:707-786 | every write, switch, flush, compaction step, move, snapshot, crash and recovery keeps the invariants of levels, ages, file numbers and reads; after a crash, file numbers the manifest never recorded are given out again |
| `Lsm.RunKeepsInv` | lib/leveldb/db/db_impl.cc:707-786 | every state of every run satisfies them |
| `Lsm.ReadsRefineHistory` | lib/leveldb/db/db_impl.cc:1120-1165 | in every reachable state, levels are sorted, disjoint and ordered by age, and a read at a live snapshot or the last sequence is the read of the full write history; anything may happen in the middle of automatic and manual compactions |
| `Lsm.WriteIsRead` | lib/leveldb/db/db_impl.cc:1205-1258 | after a write step, what is read for a key is the newest of the written entries for it, a value or a deletion; a key the write does not name reads as before |
| `Lsm.OthersKeepReads` | lib/leveldb/db/db_impl.cc:707-786 | switches, flushes, compactions, moves and snapshots change no read at the last sequence |
| `Lsm.LastWriteIsRead` | lib/leveldb/db/db_impl.cc:1120-1165 | over runs: a read returns the last write of its key, whatever the engine has done since |
| `Lsm.NeverWrittenIsNotFound` | lib/leveldb/db/db_impl.cc:1120-1165 | over runs: a key nobody wrote is not found |
| `Lsm.RecoveryKeepsReads` | lib/leveldb/db/db_impl.cc:385-500 | a crash changes no read of a key whose memtable entries recovery finds in the logs |
| `Lsm.SnapshotReadsItsMoment` | lib/leveldb/db/db_impl.cc:1186-1195 | a live snapshot reads what was current when it was taken |
| `Lsm.Get` | lib/leveldb/db/db_impl.cc:1120-1165 | Get pins memtables and version and reads them while anything else goes on; it returns what the data and the history of writes say at its sequence number, then and later |
| `Lsm.PinnedReads` | lib/leveldb/db/db_impl.cc:1120-1165 | pinned memtables and version, the memtable still growing, read as the history at the sequence number taken, in every later state |
| `Lsm.InstallIsGoodIff` | lib/leveldb/db/db_impl.cc:879-895 | in every reachable state, installing a compaction keeps the levels sorted if and only if no output straddles a file that stays on its level; gap-free inputs always do |
| `ManualGap.ChooseAll` | lib/leveldb/db/version_set.cc:1448-1479 | CompactRange picks all four files of a version in which the two of the upper level leave a gap |
| `ManualGap.GapRun` | lib/leveldb/db/db_impl.cc:926-937 | a run whose contract says that every flush level is the one PickLevelForMemTableOutput gives and the inputs are those CompactRange gives: a flush into the gap of a manual compaction, after which installing its output leaves level 2 overlapping, and reading the flushed key through DbGet finds nothing where the history of writes has a value |
| `ManualGap.NoLongerFound` | lib/leveldb/db/version_set.cc:281-400 | on that version the search for the flushed key opens one file of level 2, and not the one that holds it |
| `Bridge.FinishedCompactionIsOk` | lib/leveldb/db/db_impl.cc:879-895 | every compaction the engine can finish meets the condition under which the crash model lets it be logged |
| `Bridge.SameTables` | lib/leveldb/db/db_impl.cc:1120-1165 | the tables of the crash model hold the entries of the files of the engine |
| `Lsm.HistoryIsStable` | lib/leveldb/db/db_impl.cc:1186-1195 | until the next crash, later writes never change what the history says at an earlier sequence number |
| `Lsm.SnapshotsAreStable` | lib/leveldb/db/db_impl.cc:1186-1195 | as long as a snapshot is live, no step changes what is read through it |
| `DbIter.DBIter.constructor` | lib/leveldb/db/db_iter.cc:48-57 | a new iterator is invalid and well formed |
| `DbIter.DBIter.Key` | lib/leveldb/db/db_iter.cc:64-67 | the key is that of the visible entry the iterator stands on, in both directions |
| `DbIter.DBIter.Value` | lib/leveldb/db/db_iter.cc:68-71 | the value is that of the visible entry the iterator stands on, in both directions |
| `DbIter.DBIter.FindNextUserEntry` | lib/leveldb/db/db_iter.cc:177-207 | stops on the first wanted entry from the position on, or at the end when there is none |
| `DbIter.DBIter.FindPrevUserEntry` | lib/leveldb/db/db_iter.cc:236-276 | stops on the last visible entry at or before the position, or before the start when there is none |
| `DbIter.DBIter.Next` | lib/leveldb/db/db_iter.cc:141-175 | from either direction, moves to the next visible entry |
| `DbIter.DBIter.Prev` | lib/leveldb/db/db_iter.cc:209-234 | from either direction, moves to the previous visible entry |
| `DbIter.DBIter.Seek` | lib/leveldb/db/db_iter.cc:278-290 | moves to the first visible entry at or after the target |
| `DbIter.DBIter.SeekToFirst` | lib/leveldb/db/db_iter.cc:292-301 | moves to the first visible entry |
| `DbIter.DBIter.SeekToLast` | lib/leveldb/db/db_iter.cc:303-308 | moves to the last visible entry |
| `DbIter.VisibleIsTheMap` | lib/leveldb/db/db_iter.cc:141-308 | visible entries have strictly increasing user keys and carry the answer of a read |
| `DbIter.ReadIsVisible` | lib/leveldb/db/db_iter.cc:141-308 | every key a read finds has a visible entry |
| `DbIter.Do` | lib/leveldb/db/db_iter.cc:141-308 | any call from any reachable state moves the cursor on the sorted visible map as the operation demands |
| `Merger.MergingIterator.FindSmallest` | lib/leveldb/table/merger.cc:148-161 | current becomes a child with the least key, or none when all are exhausted |
| `Merger.MergingIterator.FindLargest` | lib/leveldb/table/merger.cc:163-176 | current becomes a child with the greatest key, or none when all are exhausted |
| `Merger.MergingIterator.SeekToFirst` | lib/leveldb/table/merger.cc:31-37 | stands on the least entry of the union |
| `Merger.MergingIterator.SeekToLast` | lib/leveldb/table/merger.cc:39-45 | stands on the greatest entry of the union |
| `Merger.MergingIterator.Seek` | lib/leveldb/table/merger.cc:47-53 | stands on the least entry of the union at or after the target |
| `Merger.MergingIterator.TurnForward` | lib/leveldb/table/merger.cc:58-76 | whatever the direction was, every child but the current one ends just past the current key |
| `Merger.MergingIterator.TurnBackward` | lib/leveldb/table/merger.cc:84-105 | whatever the direction was, every child but the current one ends just before the current key |
| `Merger.MergingIterator.Next` | lib/leveldb/table/merger.cc:55-79 | from either direction, stands on the least entry after the current one |
| `Merger.MergingIterator.Prev` | lib/leveldb/table/merger.cc:81-108 | from either direction, stands on the greatest entry before the current one |
| `Merger.NextInList` | lib/leveldb/table/merger.cc:55-79 | in the sorted listing of the union, Next is one step forward |
| `Merger.PrevInList` | lib/leveldb/table/merger.cc:81-108 | in the sorted listing of the union, Prev is one step back |
| `TwoLevel.TwoLevelIterator.InitDataBlock` | lib/leveldb/table/two_level_iterator.cc:146-161 | the data block is that of the index position; a block already open keeps its position |
| `TwoLevel.TwoLevelIterator.SkipEmptyDataBlocksForward` | lib/leveldb/table/two_level_iterator.cc:115-126 | moves to the entry of the concatenation at the position reached, past exhausted and empty blocks |
| `TwoLevel.TwoLevelIterator.SkipEmptyDataBlocksBackward` | lib/leveldb/table/two_level_iterator.cc:128-139 | moves back to the entry of the concatenation before the position reached |
| `TwoLevel.TwoLevelIterator.Next` | lib/leveldb/table/two_level_iterator.cc:103-107 | one step forward in the concatenation of the blocks |
| `TwoLevel.TwoLevelIterator.Prev` | lib/leveldb/table/two_level_iterator.cc:109-113 | one step back in the concatenation of the blocks |
| `TwoLevel.TwoLevelIterator.SeekToFirst` | lib/leveldb/table/two_level_iterator.cc:89-94 | the first entry of the concatenation, if there is one |
| `TwoLevel.TwoLevelIterator.SeekToLast` | lib/leveldb/table/two_level_iterator.cc:96-101 | the last entry of the concatenation, if there is one |
| `TwoLevel.TwoLevelIterator.Seek` | lib/leveldb/table/two_level_iterator.cc:82-87 | the first entry of the concatenation at or after the target |
| `TwoLevel.SeekSplits` | lib/leveldb/table/two_level_iterator.cc:82-87 | an index search and one block search split the whole concatenation at the target |
| `Coding.Fixed32RoundTrip` | lib/leveldb/util/coding.cc:9-13 | a 32-bit word is read back from its four bytes |
| `Coding.Fixed64RoundTrip` | lib/leveldb/util/coding.cc:15-19 | a 64-bit word is read back from its eight bytes |
| `Coding.LittleEndianUnique` | lib/leveldb/util/coding.cc:9-19 | bytes are determined by the number they stand for |
| `Coding.PutVarint` | lib/leveldb/util/coding.cc:55-64 | the loop appends the base-128 encoding |
| `Coding.ReadVarint` | lib/leveldb/util/coding.cc:86-131 | the loop reads the base-128 number at the front within its byte limit, or fails as the definition does |
| `Coding.VarintRoundTrip` | lib/leveldb/util/coding.cc:86-131 | a number whose encoding is within the limit is read back, whatever follows |
| `Coding.VarintFits` | lib/leveldb/util/coding.cc:21-64 | 32-bit values take at most five bytes and 64-bit values at most ten |
| `Coding.Varint32RoundTrip` | lib/leveldb/util/coding.cc:86-114 | every 32-bit value is read back |
| `Coding.Varint64RoundTrip` | lib/leveldb/util/coding.cc:116-143 | every 64-bit value is read back |
| `Coding.PrefixedRoundTrip` | lib/leveldb/util/coding.cc:145-154 | a length-prefixed string is read back, whatever follows |
| `Coding.FlatParses` | lib/leveldb/util/coding.cc:86-154 | items that are read back one by one are read back from their concatenation |
| `Coding.UnmaskMask` | lib/leveldb/util/crc32c.h:29-38 | unmasking undoes masking, in 32-bit arithmetic |
| `Coding.MaskUnmask` | lib/leveldb/util/crc32c.h:29-38 | masking undoes unmasking |
| `Coding.StoredChecksum` | lib/leveldb/db/log_reader.cc:244-247 | comparing unmasked checksums is comparing the four stored bytes |
| `Formats.Fixed32Bytes` | lib/leveldb/util/coding.h:54-62 | the four bytes of a number, lowest first |
| `Formats.Fixed64Bytes` | lib/leveldb/util/coding.h:64-76 | the eight bytes of a number, low half first |
| `Formats.VarintBits` | lib/leveldb/util/coding.cc:21-69 | a varint has seven bits a byte, lowest first, and the high bit on all bytes but the last |
| `Formats.MaskedBits` | lib/leveldb/util/crc32c.h:29-32 | a checksum is stored rotated right by fifteen bits and increased by 0xa282ead8 |
| `Formats.RecordBytes` | lib/leveldb/db/log_writer.cc:82-110 | checksum, length, type and payload of a physical record stand at bytes 0, 4, 6 and 7 |
| `Formats.FragmentTypes` | lib/leveldb/db/log_format.h:14-24 | the type bytes of whole, first, middle and last fragments are 1 to 4 |
| `Formats.BatchHead` | lib/leveldb/db/write_batch.cc:5-27 | a batch starts with its sequence number in eight bytes and its count in four |
| `Formats.OperationBytes` | lib/leveldb/db/write_batch.cc:98-109 | a put is byte 1, key and value; a deletion is byte 0 and the key |
| `Formats.InternalKeyBytes` | lib/leveldb/db/dbformat.cc:15-24 | an internal key is the user key, the type byte and seven bytes of sequence number |
| `Formats.FieldStart` | lib/leveldb/db/version_edit.cc:14-24 | the tag byte of each item of a version edit |
| `Formats.FieldParts` | lib/leveldb/db/version_edit.cc:42-85 | the parts of each item, in order |
| `Formats.EntryStart` | lib/leveldb/table/block_builder.cc:71-105 | a block entry is three lengths, the rest of the key and the value |
| `Formats.FilterEnd` | lib/leveldb/table/filter_block.cc:35-49 | a filter block ends with the offset of its offset array and the byte 11 |
| `Formats.DeltaBits` | lib/leveldb/util/bloom.cc:47-51 | the step between probes is the hash rotated right by seventeen bits |
| `Formats.VarintIsRead` | lib/leveldb/util/coding.cc:86-131 | of any bytes, a varint is what stands up to the first byte without the high bit, and is refused if that comes after the limit |
| `Formats.NoVarint` | lib/leveldb/util/coding.cc:86-131 | bytes that all have the high bit hold none |
| `Formats.StringIsRead` | lib/leveldb/util/coding.cc:145-154 | a string is read exactly where a varint and that many bytes stand |
| `Formats.OperationIff` | lib/leveldb/db/write_batch.cc:48-75 | an operation is read exactly where byte 1 and two strings, or byte 0 and one string, stand |
| `Formats.FieldIff` | lib/leveldb/db/version_edit.cc:116-197 | an item of a version edit is read exactly where its tag and its parts stand |
| `Formats.FieldIsSane` | lib/leveldb/db/version_edit.cc:87-104 | no item is read with a level that does not exist or an empty key |
| `Formats.CutIsRead` | lib/leveldb/db/write_batch.cc:42-80 | a walk over any bytes hands over the items found one after another, and succeeds exactly when nothing is left |
| `Formats.EveryInputIsCut` | lib/leveldb/db/write_batch.cc:42-80 | any bytes are such items up to their end or to the first that cannot be read |
| `Formats.EntryIsInside` | lib/leveldb/table/block.cc:48-75 | key part and value of a block entry read from any bytes lie inside the block, next to each other, after three lengths |
| `LogFormat.Writer.AddFragment` | lib/leveldb/db/log_writer.cc:40-78 | one turn pads the block if no header fits, then writes as much of the record as fits |
| `LogFormat.Writer.AddRecord` | lib/leveldb/db/log_writer.cc:34-80 | a record of any length is appended as its fragments, and the block offset keeps standing for the file offset |
| `LogFormat.StaysAligned` | lib/leveldb/db/log_writer.cc:34-80 | padding, header and payload move block offset and file offset together |
| `LogFormat.Reader.Fill` | lib/leveldb/db/log_reader.cc:189-221 | a refill drops a trailer and reads the next block: the window is a piece of the file that ends at a block end or the end of the file, and is shorter than a header only at the latter |
| `LogFormat.ParseBuffer` | lib/leveldb/db/log_reader.cc:216-271 | what is parsed at the front of a refilled buffer is what decoding the file at the reader's offset gives, and what is left is a window of the file again |
| `LogFormat.Reader.ReadPhysicalRecord` | lib/leveldb/db/log_reader.cc:189-271 | the buffered reader returns what decoding at its file offset gives, moves to the next offset, and counts exactly the reported corruptions |
| `LogFormat.PhysicalCases` | lib/leveldb/db/log_reader.cc:216-271 | for any bytes: a header past the end of the file is the end; a length that runs out of the block is reported unless the file ends there; zeros are skipped silently; a wrong checksum is reported; the rest of the block goes with each; only bytes that match their checksum come back |
| `LogFormat.RecordIsChecked` | lib/leveldb/db/log_reader.cc:243-271 | a record read from any file is the file's own bytes, with their length, type and checksum stored before them |
| `LogFormat.Reader.ReadTurn` | lib/leveldb/db/log_reader.cc:78-174 | one turn of reassembly does to scratch, state and reports what the fragment demands |
| `LogFormat.Reader.ReadRecord` | lib/leveldb/db/log_reader.cc:56-174 | the loop returns the logical record the fragments from its offset give, with the reports on the way |
| `LogFormat.FoundIsAssembled` | lib/leveldb/db/log_reader.cc:56-174 | a record is returned only if it is physical records in a row, first to last |
| `LogFormat.RecordsAreVouched` | lib/leveldb/db/log_reader.cc:56-271 | reading any file to its end: every record returned is physical records in a row, each of which matches the checksum the file stores for it |
| `LogFormat.MetIsReturned` | lib/leveldb/db/log_reader.cc:56-174 | whatever damage there is before it, a record whose pieces the reader meets in a row is returned |
| `LogFormat.LossIsReported` | lib/leveldb/db/log_reader.cc:78-174 | bytes of a record begun that are neither kept nor returned are reported |
| `LogFormat.ReadsFragment` | lib/leveldb/db/log_reader.cc:189-271 | at a fragment the reader returns it if it is whole, and the end of the file, silently, if it is cut off |
| `LogFormat.YieldedReads` | lib/leveldb/db/log_reader.cc:56-174 | from any fragment of a record on, the record is returned whole, or nothing is, without complaint |
| `LogFormat.CutLogReads` | lib/leveldb/db/log_reader.cc:56-271 | a log cut at any byte reads back as exactly the records wholly before the cut, with no corruption reported |
| `LogFormat.LogReadsBack` | lib/leveldb/db/log_reader.cc:56-271 | what the writer puts at any offset the reader takes from there |
| `LogFormat.WriteAll` | lib/leveldb/db/log_writer.cc:34-108 | writing any records gives the concatenation of their encodings at their offsets |
| `LogFormat.ReadAll` | lib/leveldb/db/log_reader.cc:56-174 | reading to the end gives the records and report count of the decoder |
| `LogFormat.WriteCutRead` | lib/leveldb/db/log_writer.cc:34-108 | written, cut anywhere and read: a prefix of the records, exactly those wholly before the cut, and no corruption reported |
| `EditCodec.EncodeTo` | lib/leveldb/db/version_edit.cc:42-85 | an edit is written as its tagged items, in order |
| `EditCodec.DecodeFrom` | lib/leveldb/db/version_edit.cc:106-204 | the loop decodes exactly what the item grammar accepts, including every malformed case |
| `EditCodec.FieldRoundTrip` | lib/leveldb/db/version_edit.cc:106-204 | every item is read back, whatever follows |
| `EditCodec.EditRoundTrip` | lib/leveldb/db/version_edit.cc:42-204 | every edit survives encoding and decoding, whatever the order of its deletions |
| `Manifest.ReadManifest` | lib/leveldb/db/version_set.cc:899-945 | recovery reads every record and fails exactly on a reported corruption or an undecodable edit |
| `Manifest.ReadCounters` | lib/leveldb/db/version_set.cc:913-962 | a manifest of another comparator or without its counters is refused, and otherwise each counter is the last one recorded |
| `Manifest.CutManifestReads` | lib/leveldb/db/version_set.cc:861-977 | a manifest of any edits, cut at any byte, is read back as the edits wholly before the cut |
| `Manifest.WriteCutRecover` | lib/leveldb/db/version_set.cc:816-827 | encoding, logging, cutting anywhere and recovering returns exactly the edits wholly before the cut |
| `WriteBatch.Iterate` | lib/leveldb/db/write_batch.cc:42-80 | the loop hands over the operations the grammar finds, and accepts the batch exactly when all of it parses and the count agrees |
| `WriteBatch.OpRoundTrip` | lib/leveldb/db/write_batch.cc:98-109 | every operation is read back, whatever follows |
| `WriteBatch.BatchRoundTrip` | lib/leveldb/db/write_batch.cc:42-147 | sequence, count and operations of a batch are read back, in order |
| `WriteBatch.Batch.constructor` | lib/leveldb/db/write_batch.cc:29-38 | a new batch is empty, with sequence zero |
| `WriteBatch.Batch.SetSequence` | lib/leveldb/db/write_batch.cc:94-96 | only the sequence changes |
| `WriteBatch.Batch.AddOp` | lib/leveldb/db/write_batch.cc:98-109 | one operation is added at the end, and the count follows |
| `WriteBatch.Batch.Append` | lib/leveldb/db/write_batch.cc:144-149 | the operations of the other batch are added at the end, and the counts add up |
| `Writes.InsertInto` | lib/leveldb/db/write_batch.cc:117-137 | the operations of a batch become memtable entries one by one, values and deletions under consecutive sequence numbers |
| `Writes.EveryBatchIsAWrite` | lib/leveldb/db/db_impl.cc:1205-1258 | every batch is a write the engine takes while there are sequence numbers |
| `Writes.BatchIsRead` | lib/leveldb/db/write_batch.cc:117-137 | over runs: until the key is written again, a read returns what the last operation of the batch on the key said, its value or nothing after Delete |
| `Writes.BatchLeavesOthers` | lib/leveldb/db/write_batch.cc:117-137 | keys a batch does not name read as before |
| `Writes.GroupIsOneWrite` | lib/leveldb/db/db_impl.cc:1231-1258 | a group of writers that finishes is one such write: its operations in queue order, numbered on from the last sequence, which moves on by their count |
| `GroupCommit.BuildBatchGroup` | lib/leveldb/db/db_impl.cc:1280-1326 | the group takes no sync write its leader does not sync, stays within the size limit unless the leader alone exceeds it, stops only at a writer one of the rules keeps out, and its batch is the concatenation of theirs |
| `GroupCommit.GroupIsMaximal` | lib/leveldb/db/db_impl.cc:1294-1326 | the next writer after a group breaks the sync or the size rule |
| `GroupCommit.GroupRules` | lib/leveldb/db/db_impl.cc:1280-1326 | every group keeps the sync and size rules, and the writer after it breaks one |
| `GroupCommit.SyncRule` | lib/leveldb/db/db_impl.cc:1300-1305 | a sync write never rides with a leader that does not sync |
| `GroupCommit.NextKeepsInv` | lib/leveldb/db/db_impl.cc:1205-1278 | every step of every writer keeps the invariant of queue, log, memtable and results |
| `GroupCommit.RunKeepsInv` | lib/leveldb/db/db_impl.cc:1205-1278 | it holds in every state of every interleaving |
| `GroupCommit.SequencesFollowTheQueue` | lib/leveldb/db/db_impl.cc:1205-1278 | sequence numbers increase in queue order, within and across groups |
| `GroupCommit.LoggedOnce` | lib/leveldb/db/db_impl.cc:1205-1278 | no writer is in two places of the log |
| `GroupCommit.AppliedOnce` | lib/leveldb/db/db_impl.cc:1205-1278 | operations reach the memtable under strictly increasing, hence distinct, sequence numbers |
| `GroupCommit.OkMeansWritten` | lib/leveldb/db/db_impl.cc:1205-1278 | an OK writer is logged in exactly one place, all of its operations are applied, and a sync writer was synced after its record |
| `GroupCommit.OkIffApplied` | lib/leveldb/db/db_impl.cc:1205-1278 | a writer with a batch is told OK if and only if its record has been applied whole, and everyone who ever queued up has an answer or still waits |
| `GroupCommit.NoMeansFailed` | lib/leveldb/db/db_impl.cc:1211-1278 | an error is told only to a writer MakeRoomForWrite refused, or to one in a group whose append or sync failed |
| `GroupCommit.AnswersAreTrue` | lib/leveldb/db/db_impl.cc:1205-1278 | from the caller's side: OK for a batch means all of that batch applied, and for a sync write a successful sync of the log that holds it; an error has its reason |
| `GroupCommit.SyncedBecause` | lib/leveldb/db/db_impl.cc:1240-1248 | a record counts as synced only after a successful sync of its own log that came when it was logged |
| `GroupCommit.LeaderCanMove` | lib/leveldb/db/db_impl.cc:1205-1278 | whoever is at the front of the queue can go on, and with no failed append, failed sync or earlier error does so towards OK |
| `GroupCommit.BatchesAreAtomic` | lib/leveldb/db/db_impl.cc:1120-1165 | at any sequence number a reader took, all operations of a writer are seen or none |
| `Durability.NextKeepsInv` | lib/leveldb/db/db_impl.cc:225-383 | every step of writer and background thread, every crash and every recovery step keeps the invariant |
| `Durability.RunKeepsInv` | lib/leveldb/db/db_impl.cc:225-383 | it holds in every state of every run |
| `Durability.ReadsTheLine` | lib/leveldb/db/db_impl.cc:1120-1165 | reading the open database is reading the surviving line of writes |
| `Durability.AckedIsRead` | lib/leveldb/db/db_impl.cc:1205-1278 | in an open database, a key written by a sync-acknowledged write reads as that write or a later issued one |
| `Durability.AckedWritesSurvive` | lib/leveldb/db/db_impl.cc:292-383 | the same over every run, with any number of crashes and recoveries in between |
| `Survival.SyncWriteSurvives` | lib/leveldb/db/db_impl.cc:1205-1278 | in terms of the calls alone: a sync write that was answered is read in every later open state, across any crashes, unless a write appended later to the key is |
| `Survival.AckedIsReadAtOnce` | lib/leveldb/db/db_impl.cc:1205-1278 | when any write is answered, the newest of its entries for a key is what is read, and other keys read as when it began |
| `Survival.OthersKeepReads` | lib/leveldb/db/db_impl.cc:1120-1165 | no other step of the running database changes what is read |
| `Survival.WriteCanFinish` | lib/leveldb/db/db_impl.cc:1205-1278 | from every reachable state without a write under way, any entries under new sequence numbers can be appended, synced, applied and answered |
| `Survival.ReadWasAppended` | lib/leveldb/db/db_impl.cc:292-383 | whatever is read was handed to an earlier append |
| `Durability.NewSequencesExceed` | lib/leveldb/db/db_impl.cc:385-500 | sequence numbers given out exceed every number on the surviving line, recovered ones included |
| `Durability.NothingInvented` | lib/leveldb/db/db_impl.cc:292-383 | whatever is read was issued by some writer |
| `Durability.RemovedIsGarbage` | lib/leveldb/db/db_impl.cc:225-290 | garbage collection removes no table that a live version or a pending output names |
| `Durability.LiveTablesStay` | lib/leveldb/db/db_impl.cc:225-290 | in every reachable state all such tables are on disk, and the next step does not remove them |
| `Survival.GarbageGoes` | lib/leveldb/db/db_impl.cc:225-290 | when a collection is done, every table, log and manifest that nothing needed when it began is gone |
| `Survival.RunKeepsPending` | lib/leveldb/db/db_impl.cc:505-547 | in every reachable state only tables that a flush or a compaction is making are kept out of the collection for it |
| `Survival.HeldTablesStay` | lib/leveldb/db/db_impl.cc:1120-1165 | between taking a version and giving it back, all of its tables are on disk |
| `SyncPoints.SurvivesIffSafe` | lib/leveldb/db/db_impl.cc:292-383 | in every reachable state, a record outlives every crash and recovery if and only if it is in the synced part of its log or in a log the synced part of the manifest no longer needs |
| `SyncPoints.EarlierWritesSurvive` | lib/leveldb/doc/index.md:119-124 | once a sync write is answered, every write appended before it to the same log is read ever after, or a later one is |
| `SyncPoints.FlushedIsSafe` | lib/leveldb/db/db_impl.cc:549-580 | once a memtable is flushed and installed, the records of its log outlive every crash |
| `SyncPoints.SyncDoesNotCover` | lib/leveldb/db/db_impl.cc:1328-1395 | from every state in which the log can be switched, whatever is written: a write, a switch and a sync write, all answered, and a crash after which the sync write is read and the first write is gone |
| `SyncPoints.CanBegin` | lib/leveldb/db/db_impl.cc:1502-1543 | there are such states: a new database, once opened |
| `Durability.FlushPoint` | lib/leveldb/db/db_impl.cc:549-580 | the edit of a flush stands for all logs before the current one |
| `Durability.CompactPoint` | lib/leveldb/db/db_impl.cc:879-895 | the edit of a compaction stands for the same logs as the version before |
| `Durability.OpenPoint` | lib/leveldb/db/db_impl.cc:1502-1543 | the version Open installs stands for everything that survived |
| `Durability.RecoveryFindsItsFiles` | lib/leveldb/db/version_set.cc:861-977 | after any crash the manifest names its counters, and only tables that are on disk |
| `Durability.RecoveryCanFinish` | lib/leveldb/db/db_impl.cc:1502-1543 | from whatever a crash leaves, a new log, a table if the logs hold anything, and the switch of CURRENT open the database |
| `SkipList.Find` | lib/leveldb/db/skiplist.h:258-320 | the three searches return the true neighbour on the bottom list, and FindGreaterOrEqual the splice point of every level |
| `SkipList.LastLoadAnswers` | lib/leveldb/db/skiplist.h:258-279 | the load that ends a search sees the answer |
| `SkipList.ChainIsSorted` | lib/leveldb/db/skiplist.h:258-320 | following one level meets exactly the linked nodes, in key order |
| `SkipList.NextKeepsInv` | lib/leveldb/db/skiplist.h:334-366 | every store of Insert and every load of a reader keeps the invariant |
| `SkipList.LevelsStaySorted` | lib/leveldb/db/skiplist.h:334-366 | between any two stores every level is a sorted list and a sublist of the level below |
| `SkipList.InsertInserts` | lib/leveldb/db/skiplist.h:334-366 | over runs: when the writer is quiet again after Insert, a walk along the bottom level meets the new key, and besides it exactly the keys it met before |
| `SkipList.InsertBuildsTower` | lib/leveldb/db/skiplist.h:334-366 | the new node is on exactly as many levels as the height chosen for it |
| `SkipList.KeysStay` | lib/leveldb/db/skiplist.h:334-366 | no key ever leaves the list |
| `SkipList.KeysWereInserted` | lib/leveldb/db/skiplist.h:334-366 | every key in the list was handed to Insert |
| `SkipList.LinkedIsMet` | lib/leveldb/db/skiplist.h:258-279 | the nodes linked into a level are those a walk along its pointers meets |
| `SkipList.ReadersSeeTheTruth` | lib/leveldb/db/skiplist.h:258-279 | a concurrent search returns the true first node at or after its key at the moment of its last load |
| `SkipList.SearchFinds` | lib/leveldb/db/skiplist.h:258-279 | a search for a key that was in the list when it began ends at a node with that key, whatever the writer does meanwhile |
| `SkipList.SearchMissesRightly` | lib/leveldb/db/skiplist.h:258-279 | a search misses a key only if the list lacks it at that moment |
| `SkipList.LoadsAreSafe` | lib/leveldb/db/skiplist.h:258-279 | no load of a concurrent search follows a pointer outside the list |
| `SkipList.WriterNeverSticks` | lib/leveldb/db/skiplist.h:334-366 | every load, copy and store of the writer finds the nodes it needs |
| `BlockIter.Iter.SeekToRestartPoint` | lib/leveldb/table/block.cc:105-114 | ready to parse the entry of the restart point |
| `BlockIter.Iter.ParseNextKey` | lib/leveldb/table/block.cc:250-277 | moves onto the next entry, rebuilding its key, or past the end, and never reports corruption on a decodable block |
| `BlockIter.Iter.Next` | lib/leveldb/table/block.cc:138-141 | one entry forward |
| `BlockIter.Iter.SeekToFirst` | lib/leveldb/table/block.cc:229-232 | the first entry |
| `BlockIter.Iter.SeekToLast` | lib/leveldb/table/block.cc:234-239 | the last entry, or the end of an empty block |
| `BlockIter.Iter.Prev` | lib/leveldb/table/block.cc:143-162 | the entry before the current one, and past the end from the first |
| `BlockIter.Iter.RestartBefore` | lib/leveldb/table/block.cc:143-157 | finds a restart point before the current entry exactly when there is an entry before it |
| `BlockIter.Iter.SearchRestarts` | lib/leveldb/table/block.cc:187-209 | binary search keeps the target after the left restart point and at or before the one after the right |
| `BlockIter.Iter.ScanFor` | lib/leveldb/table/block.cc:218-226 | the linear scan stops on the first key at or after the target |
| `BlockIter.Iter.Seek` | lib/leveldb/table/block.cc:164-227 | from any state, with or without the current-position short cut, stands on the first key at or after the target |
| `Block.ShortCut` | lib/leveldb/table/block.cc:55-75 | the one-byte fast path of entry decoding changes nothing |
| `Block.EntryRoundTrip` | lib/leveldb/table/block.cc:55-75 | an entry is decoded wherever it stands in the block |
| `Block.CommonPrefix` | lib/leveldb/table/block_builder.cc:79-84 | the number of leading bytes shared, and no more could be |
| `Block.BlockBuilder.Add` | lib/leveldb/table/block_builder.cc:71-105 | an entry with exactly the longest prefix it shares with the last key left out, or whole at a restart, as the reader expects it |
| `Block.BuiltBlockDescribes` | lib/leveldb/table/block_builder.cc:61-105 | a finished block decodes, through its restart array, to exactly the entries added |
| `Block.OpenBlock` | lib/leveldb/table/block.cc:20-40 | the restart array is found and read, or the block rejected |
| `Block.BuildAndOpen` | lib/leveldb/table/block_builder.cc:61-105 | for any increasing entries and any interval, the opened block iterates over exactly those entries |
| `FilterBlock.FilterBlockBuilder.AddKey` | lib/leveldb/table/filter_block.cc:29-33 | the key joins the keys of the current filter |
| `FilterBlock.FilterBlockBuilder.GenerateFilter` | lib/leveldb/table/filter_block.cc:51-75 | the pending keys, possibly none, become one filter |
| `FilterBlock.FilterBlockBuilder.StartBlock` | lib/leveldb/table/filter_block.cc:21-27 | there are as many filters as 2KB ranges before the block, and pending keys went into the first new one |
| `FilterBlock.FilterBlockBuilder.Finish` | lib/leveldb/table/filter_block.cc:35-49 | filters, offsets, offset of the offsets and base, with no pending key left out |
| `FilterBlock.NoFalseNegative` | lib/leveldb/table/filter_block.cc:90-104 | a key that went into a filter matches at every block offset of its 2KB range |
| `FilterBlock.AnswersAsFilter` | lib/leveldb/table/filter_block.cc:90-104 | a lookup answers exactly as the filter of the 2KB its offset is in |
| `Bloom.CreateFilter` | lib/leveldb/util/bloom.cc:28-54 | the loops set, for every key, the probe bits of its hash, in an array of at least 64 bits |
| `Bloom.KeyMayMatch` | lib/leveldb/util/bloom.cc:56-80 | true exactly when the filter is of a future kind or all probe bits are set; a filter of fewer than two bytes matches nothing |
| `Bloom.FilterBits` | lib/leveldb/util/bloom.cc:28-54 | a bit is set if and only if it is one of the probes, hash plus a multiple of the rotated hash, of some key; the last byte is the number of probes |
| `Bloom.MatchesIff` | lib/leveldb/util/bloom.cc:56-80 | a key matches if and only if all its probes hit set bits |
| `Bloom.ArrayHolds` | lib/leveldb/util/bloom.cc:28-38 | the array has the bits asked for, at least 64, in as few bytes as hold them |
| `Bloom.BloomIsSound` | lib/leveldb/util/bloom.cc:28-80 | the policy is sound: a filter matches every key it was made from |
| `Bloom.FilterMatches` | lib/leveldb/util/bloom.cc:28-80 | for any hash, size and probe count a filter matches every key it was made from |
| `Bloom.BloomTellsApart` | lib/leveldb/include/leveldb/filter_policy.h:61-66 | a filter of one string can hide another, so a comparator that takes them for equal must not be used with this policy |
| `Separators.FindShortestSeparator` | lib/leveldb/util/comparator.cc:31-52 | unchanged, or strictly between and no longer; at the first difference the byte goes up by one and the rest is cut, exactly when that stays below the limit |
| `Separators.FindShortSuccessor` | lib/leveldb/util/comparator.cc:54-66 | the first byte that is not 0xff goes up by one and the rest is cut; a run of 0xff bytes stays |
| `Separators.BytewiseKeepsContract` | lib/leveldb/include/leveldb/comparator.h:45-54 | the bytewise separator and successor keep the contract of a comparator |
| `Separators.RankIsInjective` | lib/leveldb/util/comparator.cc:27-29 | the bytewise order is the order of ranks, and different strings have different ranks |
| `Separators.InternalSeparator` | lib/leveldb/db/dbformat.cc:65-82 | for any user comparator that keeps its contract: the first key itself, or a shorter user key strictly between the two under the highest tag, so no entry of either user key is cut off |
| `Separators.InternalSuccessor` | lib/leveldb/db/dbformat.cc:84-97 | for any user comparator: the key itself, or a shorter, greater user key under the highest tag |
| `Table.TableBuilder.Add` | lib/leveldb/table/table_builder.cc:94-123 | the entry is added, after the held-back index key, and its user key goes to the filter of its block |
| `Table.TableBuilder.Flush` | lib/leveldb/table/table_builder.cc:125-139 | the data block is closed, its index key held back, and nothing added or lost |
| `Table.TableBuilder.Finish` | lib/leveldb/table/table_builder.cc:213-268 | index keys separate the blocks, the blocks hold exactly the entries added, and every user key is in the filter of its block |
| `Table.FinishedIndex` | lib/leveldb/table/table_builder.cc:213-268 | with the last short successor the index is complete |
| `Table.FilterHidesNothing` | lib/leveldb/table/table.cc:214-242 | the finished filter block hides none of the user keys of the table |
| `Table.BlockAnswers` | lib/leveldb/table/table.cc:214-242 | the one block the index points at gives the answer of a scan of the whole table |
| `Table.InternalGet` | lib/leveldb/table/table.cc:214-242 | index, filter and one block return what a scan of all entries returns |
| `Table.FindBlock` | lib/leveldb/table/table.cc:214-234 | index and filter lead to the one block that answers for the whole table, or rule the key out |
| `Table.Build` | lib/leveldb/table/table_builder.cc:94-139 | a table built from any increasing entries holds exactly those, with a complete index and a filter that hides nothing |
| `Table.TableIsIndexed` | lib/leveldb/table/table.cc:208-212 | a built table meets what the two-level iterator needs to be the cursor on its entries |
| `Table.BuildAndGet` | lib/leveldb/table/table_builder.cc:94-139 | for any increasing entries, block size and sound filter, a lookup in the built table is a scan of the entries |
| `ByteTable.ByteIndexKeys` | lib/leveldb/db/dbformat.cc:65-97 | the internal comparator over the bytewise one gives index keys of the kind tables need |
| `ByteTable.BloomIsSoundForRanks` | lib/leveldb/db/dbformat.cc:101-115 | the Bloom policy on user keys is sound for tables |
| `ByteTable.KeyRoundTrip` | lib/leveldb/db/dbformat.cc:15-24 | user key, sequence number and type are read back from the stored internal key |
| `ByteTable.StoredKeysRank` | lib/leveldb/db/dbformat.cc:47-63 | the order of the internal comparator on stored keys, user key up and tag down, is an order of ranks |
| `ByteTable.ProbeBlock` | lib/leveldb/table/table.cc:226-236 | a data block written with prefix compression, opened and searched, gives the answer of a scan |
| `ByteTable.BuildAndGetBytes` | lib/leveldb/table/table_builder.cc:94-139 | with the bytewise comparator, Bloom filters and prefix-compressed blocks, a lookup in the built table is a scan of the entries |
| `HandleTable.FindPlace` | lib/leveldb/util/cache.cc:115-121 | the walk stops at the match or at the end of the chain |
| `HandleTable.Rehash` | lib/leveldb/util/cache.cc:123-146 | rehashing keeps exactly the nodes, each in its chain |
| `HandleTable.Table.Lookup` | lib/leveldb/util/cache.cc:75-77 | the table answers as the key map |
| `HandleTable.Table.Insert` | lib/leveldb/util/cache.cc:79-93 | the map gains the entry, and what it replaced is returned |
| `HandleTable.Table.Remove` | lib/leveldb/util/cache.cc:95-104 | the map loses the key, and what it held is returned |
| `HandleTable.Table.Resize` | lib/leveldb/util/cache.cc:123-146 | the table keeps its map and has at least as many chains as entries |
| `LruCache.RefKeeps` | lib/leveldb/util/cache.cc:218-224 | taking a reference keeps lists, counts, charges, deleters and index in step |
| `LruCache.ReleaseKeeps` | lib/leveldb/util/cache.cc:226-238 | giving a reference back keeps them in step, and the deleter runs when the last one goes |
| `LruCache.DropKeeps` | lib/leveldb/util/cache.cc:308-317 | dropping a handle the table no longer knows keeps them in step |
| `LruCache.DropDrops` | lib/leveldb/util/cache.cc:308-317 | field by field: the handle leaves its list, the others keep their order, the usage falls by its charge, and it is freed and its deleter run exactly if no client holds it |
| `LruCache.CreateKeeps` | lib/leveldb/util/cache.cc:267-292 | a new handle, cached or not, keeps them in step |
| `LruCache.DropOldest` | lib/leveldb/util/cache.cc:294-301 | dropping the oldest unused handle frees it and changes nothing else |
| `LruCache.LRUCache.Lookup` | lib/leveldb/util/cache.cc:253-260 | the handle of the key with one more reference, taken off the unused ones, whose order stays; or none; nothing else changes |
| `LruCache.LRUCache.Release` | lib/leveldb/util/cache.cc:262-265 | field by field: one reference less; without any left the handle is freed and its deleter run; left to the cache alone it becomes the newest of the unused handles, which stay in the order of their last release |
| `LruCache.LRUCache.FinishErase` | lib/leveldb/util/cache.cc:308-317 | the handle leaves its list and the usage, and is freed if no client holds it |
| `LruCache.LRUCache.Erase` | lib/leveldb/util/cache.cc:319-322 | the key leaves the table; its handle leaves its list and the usage, and is freed if no client holds it |
| `LruCache.LRUCache.Evict` | lib/leveldb/util/cache.cc:294-301 | the oldest unused handles are freed, one after the other, until within the limit or none is left, and no more than that; of two, the one released earlier goes first |
| `LruCache.FreedByTime` | lib/leveldb/util/cache.cc:294-301 | of two unused handles the one given back earlier is freed first |
| `LruCache.LRUCache.Prune` | lib/leveldb/util/cache.cc:324-334 | every unused handle is freed, oldest first, and nothing else changes |
| `LruCache.LRUCache.Insert` | lib/leveldb/util/cache.cc:267-306 | the new handle is held and found by its key, the handle it replaces is dropped, and eviction goes exactly as far as capacity demands, in the order of last release |
| `Crc.Bytes` | lib/leveldb/util/crc32c.cc:286-291 | STEP1 over a run of bytes continues the byte-at-a-time register |
| `Crc.Step4W` | lib/leveldb/util/crc32c.cc:311-319 | four table steps on a loaded word are four zero bytes after the sum |
| `Crc.TakesWord` | lib/leveldb/util/crc32c.cc:249-251 | four bytes taken one by one are one little-endian word taken at once |
| `Crc.StrideTakesWord` | lib/leveldb/util/crc32c.cc:293-300 | one stride step and a rotation of the four partial results take in one word |
| `Crc.TakeSwath` | lib/leveldb/util/crc32c.cc:302-310 | four stride steps take in sixteen bytes |
| `Crc.Strides` | lib/leveldb/util/crc32c.cc:332-365 | from sixteen bytes on, loading, swaths, word rotation and the final combination equal the byte-at-a-time register |
| `Crc.Swaths` | lib/leveldb/util/crc32c.cc:344-347 | the swath loop leaves less than sixteen bytes and partial results that stand for the register |
| `Crc.Words` | lib/leveldb/util/crc32c.cc:349-358 | the word loop leaves less than four bytes and partial results that stand for the register |
| `Crc.Combine` | lib/leveldb/util/crc32c.cc:360-365 | the four partial results combine to the register they stand for |
| `Crc.ExtendBody` | lib/leveldb/util/crc32c.cc:322-371 | for every alignment and length the whole routine equals going byte by byte |
| `Crc32c.ByteEntry` | lib/leveldb/util/crc32c.cc:20-63 | every entry of the byte table is eight steps of the polynomial |
| `Crc32c.Stride0Entry` | lib/leveldb/util/crc32c.cc:65-108 | every entry of the table is sixteen zero bytes after the top byte of a word |
| `Crc32c.Stride1Entry` | lib/leveldb/util/crc32c.cc:110-153 | every entry of the table is sixteen zero bytes after the third byte of a word |
| `Crc32c.Stride2Entry` | lib/leveldb/util/crc32c.cc:155-198 | every entry of the table is sixteen zero bytes after the second byte of a word |
| `Crc32c.Stride3Entry` | lib/leveldb/util/crc32c.cc:200-243 | every entry of the table is sixteen zero bytes after the low byte of a word |
| `Crc32c.StrideIsSixteen` | lib/leveldb/util/crc32c.cc:293-300 | the four stride tables together are sixteen zero bytes |
| `Crc32c.ActIsByte` | lib/leveldb/util/crc32c.cc:286-291 | the byte table and the shift together are eight steps of the polynomial |
| `Crc32c.OpsAreLawful` | lib/leveldb/util/crc32c.cc:20-243 | the tables form a linear byte step with its sixteenth power |
| `Crc32c.Extend` | lib/leveldb/util/crc32c.cc:276-377 | for every starting checksum, data and alignment Extend is the bit-by-bit CRC-32C |
| `Crc32c.ExtendComposes` | lib/leveldb/util/crc32c.h:14-20 | extending by two pieces is extending by their concatenation |
| `Crc32c.TypeChecksumMatches` | lib/leveldb/db/log_writer.cc:93-96 | the checksum extended from the stored type checksum is the one the reader computes over type and payload |
| `GroupList.Group.constructor` | src/groupManager.cc:10-42 | a pool without a list gets a well-formed list of one node, and one with a list keeps it |
| `GroupList.Group.AllocNode` | src/groupManager.cc:72-86 | a new node has a null next and is on no chain, or the allocation fails and nothing changes |
| `GroupList.Group.AddNodeToTail` | src/groupManager.cc:93-110 | the node is appended to the chain; the list stays well formed exactly when the node was fresh |
| `GroupList.Group.DeleteNodeFromList` | src/groupManager.cc:112-132 | the list stays well formed exactly when prev precedes the node on the chain, and then the chain loses just that node |
| `GroupList.Group.FreeNode` | src/groupManager.cc:88-91 | a well-formed list stays so, with the same chain, exactly when the freed node is off the chain |
| `GroupList.AppendKeeps` | src/groupManager.cc:93-110 | appending keeps the list well formed if and only if the node is allocated and on no chain |
| `GroupList.FreeKeeps` | src/groupManager.cc:88-91 | freeing a node keeps the list well formed if and only if the node is off the chain |
| `GroupList.DeleteKeeps` | src/groupManager.cc:112-132 | deleting keeps the list well formed if and only if the first argument is the immediate predecessor of the second |
| `GroupList.StepKeeps` | src/groupManager.cc:72-132 | every legal call keeps the list well formed and changes the chain as it says |
| `GroupList.RunKeeps` | src/groupManager.cc:10-132 | every run of allocating, freeing, appending and deleting from the one-node list keeps the chain acyclic, of length node_count, ending at tail with a null next, over allocated nodes alone, and its nodes are those appended and not deleted, in order |
| `GroupList.FreedIsUnreachable` | src/groupManager.cc:88-132 | a node freed, alone or by a deletion, is on no later chain until it is allocated again |

## Left out

- Lsm.ReadsRefineHistory: excludes the end of a manual compaction one of whose outputs straddles a file flushed meanwhile, where `ManualGap.GapRun` shows the property fails and `Lsm.InstallIsGoodIff` gives the exact condition.
- Lsm.NextKeepsInv: the snapshot list is a multiset; its links are not modelled.
- Lsm.SnapshotsAreStable: a snapshot is an object in memory, so it does not outlive a crash.
- Durability.AckedWritesSurvive: tables are sets of entries without levels, which `Lsm` adds and `Bridge` connects; I/O errors, prev_log_number and the reuse of logs and manifests are not modelled.
- Manifest.ReadManifest: the checks of comparator name and counters are `Manifest.ReadCounters`.
- WriteBatch.Batch.AddOp: the 32-bit count of a batch does not wrap around.
- WriteBatch.Batch.Append: a batch is not appended to itself, and the 32-bit count does not wrap around.
- Block.BuildAndOpen: stated for blocks below 4GB, beyond which 32-bit restart offsets no longer fit.
- FilterBlock.NoFalseNegative: stated for filter blocks below 4GB, beyond which 32-bit offsets no longer fit.
- Table.BuildAndGet: stated for filter blocks below 4GB; block handles, trailers, compression, the metaindex and the footer are not modelled.
- ByteTable.BuildAndGetBytes: data blocks are bytes; the index, which is a block of the same format, is a list of keys.
- BlockIter.Iter.Seek: stated for blocks that decode, so its corruption branch is not reached; 32-bit wrap-around of lengths in a corrupted block is not modelled.
- GroupList.RunKeeps: node_count does not wrap around; the order of flushes and drains, crashes between stores, the data of the nodes and the DRAM fields of Group are not modelled.
- LruCache.LRUCache.Insert: list links are sequences of handles, memory is a map from handle numbers, and sharding and the destructor are not modelled.
- HandleTable.Table.Insert: chains are sequences of nodes, and the mask by a power-of-two length is a remainder.
- SkipList.ReadersSeeTheTruth: stores and loads are sequentially consistent single steps; memory-order detail and the arena are not modelled.
- Crc32c.Extend: the accelerated CRC instruction is not modelled.
- Repair of damaged databases, which places tables without regard to their age.
- Environment, file and logger implementations, device mapping and persistent-memory library calls.
- Compaction scores, seek statistics, read sampling, approximate sizes and properties: heuristics that no result depends on.
- Snappy and Zstd, the C interface, benchmarks, dump tools and the in-memory environment.
