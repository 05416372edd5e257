# LevelDB and nanopb, modelled and proved

This project models the two engines vendored by the shopping-list app and proves what they promise:
the storage engine **LevelDB 1.20** (`Pods/leveldb-library`) and the protocol-buffer codec **nanopb 0.3.9.1**
(`Pods/nanopb`). The app's own Objective-C comes as headers without bodies and has nothing to prove.

Where the source changes objects step by step, the model is a class with methods and loops, each method proved
against a specification; where it only computes, the model is functions; where threads interleave, it is a state
machine over its steps. `dafny verify dfyconfig.toml` checks everything.

## What is modelled

**The read path.** `Lsm.dfy` holds the abstract content, a set of entries (user key, sequence number, kind, value), and
the one specification of a read: the newest entry of the key at or below the snapshot, unless it is a deletion
(`Lsm.Lookup`). `Version.dfy` (lookups through the levels), `MemTable.dfy` (entry buffers in bytes),
`MergingIterator.dfy`, `TwoLevel.dfy` and `DbIter.dfy` refine it. `DbIter.Run` takes any script of seeks and steps with
any changes of direction and follows a plain cursor over the live keys.

**Compaction and versions.** `Compaction.dfy` models the compaction loop; `InputPicking.dfy` the choice of inputs and of
the level for a flushed memtable; `Install.dfy` the new version. LevelDB 1.20 has no step that pulls in the
neighbouring file when a user key straddles the end of the inputs, so reads are not preserved always;
`StraddlingKeys.dfy` says exactly when, in terms of the version and the files picked, and `StraddleWitness.dfy` gives
versions for which a deleted value comes back (see Findings). `CompactionRun.dfy` puts the parts together: one background
compaction, from the file that asks for it to the version installed. From the picking of a compaction to its
installation counts as one step relative to flushes.

**The write protocol.** `WriteBatch.dfy` is the batch format, `WriteQueue.dfy` the protocol of queue, leader, log,
memtable, publication, memtable switch, flush, compaction, snapshots and readers as steps that interleave freely;
`SnapshotList.dfy` is the ring of snapshots. `Engine.dfy` runs the protocol over real versions: of what a compaction
installs nothing is assumed but that it was picked, run and installed as the source does it, on inputs that meet the
condition under Findings.

**Durable formats.** `LogFormat.dfy`, `LogReader.dfy` and `LogRoundTrip.dfy` are the write-ahead log, with reading
after a cut at any byte; `VersionEdit.dfy`, `Builder.dfy`, `Manifest.dfy` and `VersionSet.dfy` are the MANIFEST, with
recovery from a cut one, and `EditedVersions.dfy` shows that the edits of compactions, moves and flushes leave the
very files that the reasoning about versions counts on; `Coding.dfy` the integer encodings; `Crc32cTables.dfy` and
`Crc32c.dfy` the checksum of section 12.1 of RFC 3720, with every entry of the four tables.

**Sorted tables.** `Comparator.dfy`, `DbFormat.dfy`, `BlockFormat.dfy`, `Block.dfy`, `Bloom.dfy`, `FilterBlock.dfy`,
`TableFormat.dfy`, `TableBuilder.dfy` and `Table.dfy`: prefix-compressed blocks, shortened index keys and filters
agree with a scan over the entries. `TableCache.dfy` takes this up to the version set: a lookup in the bytes of a
table answers as `Version::Get` needs it, and every table is an index over sorted runs.

**In-memory structures.** `SkipList.dfy` has the list as a class and a machine of one inserter and any number of readers
that load one pointer at a time; `HandleTable.dfy` and `LruCache.dfy` the hash table and one cache shard, and
`LruScript.dfy` every run of client calls on it from construction to destruction.

**nanopb.** `PbCommon.dfy` (descriptors, the circular field iterator), `PbWire.dfy` (tags, varints, skipping),
`PbEncode.dfy` (streams, the sizing pass), `PbDecoding.dfy` (the reference reading of bytes), `PbDecode.dfy` (the
streaming decoder and its bitmap of required fields) and `PbRoundTrip.dfy`. A struct is a map from member offsets to
cells, so the iterator's offset arithmetic matters; constants are those of `PB_FIELD_32BIT` and `PB_ENABLE_MALLOC`, which
the app's build settings define.

## How it is abstracted

- User keys in the modules that only compare them are real numbers. `Comparator.RankEmbeds` embeds byte strings in
  bytewise order, and `DbFormat.EncodedOrder` says that encoded internal keys compare as the abstract ones.
- A file is a byte sequence; a short read means the end of the file. Hash functions are parameters, so the results on
  filters and on the cache hold for any of them.
- The mutex and condition variable are atomic steps, and memory is sequentially consistent.
- Lengths and offsets are unbounded integers except where the format stores them: there `Small`, `Fits` or a bound like
  `LIMIT32` says what a field can hold. Sequence numbers have 56 bits.

## Findings

Two properties the code could be taken to promise do not hold; each has a concrete input and its exact condition.

- **A compaction can change reads.** When a user key straddles two files of a level above 0 and only the file with the
  newer entries is picked, the older entries stay above the newer ones or come back from under a dropped deletion
  (`leveldb-library/db/version_set.cc:1345-1411`, `leveldb-library/db/db_impl.cc:936-968`).
  `StraddleWitnesses.DeletedValueComesBack` is a version in shape, with inputs that the source picks and does not
  expand, where a read that found nothing finds the old value; `StraddleWitnesses.MoveCanBreakShape` a trivial move that
  leaves the version out of shape. `StraddlingKeys.CompactionIsSafeIff` is the exact condition on the version and the
  picked files: every straddling key is dropped as a whole, and no dropped deletion has an older value in a file left
  out. It is met whenever no user key straddles either level. A compaction of level 0 always leaves the version in shape
  (`StraddlingKeys.LevelZeroKeepsShape`), but its files of level 1 can straddle, and then a read can change as well
  (`StraddleWitnesses.LevelZeroCanBringBack`).
- **nanopb's encoder writes what its decoder refuses.** A string that fills its array has no room for the terminator
  (`nanopb/pb_encode.c:831-855`, `nanopb/pb_decode.c:1428-1461`). `PbRoundTrip.FullStringIsRefused` is such a message;
  `PbRoundTrip.RoundTripIffFits` says that decoding restores a message exactly when no present string fills its array.

## Where the code surprises

- A write whose log append fails still advances the published last sequence number, so numbers can be skipped; they are
  never used twice (`leveldb-library/db/db_impl.cc:1245`).
- A writer that only waits for a compaction (null batch) can be taken into another leader's group and retire with its
  status (`leveldb-library/db/db_impl.cc:1290-1311`).
- `VersionEdit::Clear` does not reset the compaction pointers (`leveldb-library/db/version_edit.cc:26-39`).
- `VersionSet::Recover` sets the next file number from the MANIFEST plus one, over what `MarkFileNumberUsed` had raised
  it to (`leveldb-library/db/version_set.cc:1000-1011`).
- A physical record whose type byte is 5 or 6 is taken for the reader's own end-of-file and bad-record codes
  (`leveldb-library/db/log_reader.h:83-89`).
- Where `uint_fast8_t` has 8 bits, the bit position of `pb_decode_varint32` wraps: thirty-seven bytes 0x80 and a byte
  0x01 decode to 8, while with five to thirty-six bytes 0x80 the varint is refused (`PbWire.LongPaddingMisreads`).
- In an empty message, tag 0 finds the terminator of the descriptor, and decoding fails there; in any other message a tag
  0 with a nonzero wire type is skipped like an unknown field (`nanopb/pb_common.c:78-95`).
- Only the first 64 required fields of a message are checked for presence.

## Model

| member | source | states |
|---|---|---|
| `Lsm.NewestExists` | ShopingListProject/Pods/leveldb-library/db/db_impl.cc:1109-1154 | If any entry of the user key is visible at the snapshot there is a newest one, so the specification is never silent. |
| `Lsm.LookupByCandidates` | ShopingListProject/Pods/leveldb-library/db/db_impl.cc:1109-1154 | Two contents with the same visible entries of a key answer a read alike, whatever else they hold and even at different snapshots. |
| `Versions.FirstAtOrAfter` | ShopingListProject/Pods/leveldb-library/db/dbformat.cc:50-66 | In a sorted run the first entry at or after a lookup key is the newest entry of its user key at or below the snapshot, or the run has none. |
| `Versions.FindFile` | ShopingListProject/Pods/leveldb-library/db/version_set.cc:86-105 | The binary search returns the first file whose largest key is at or after the target: all files before it end before the target, none from it on does. |
| `Versions.TableGet` | ShopingListProject/Pods/leveldb-library/db/version_set.cc:268-281 | Looking up one file yields the newest visible entry of the user key in it, or some entry of another user key or none, and then the file has none. |
| `Versions.OverlappingNewestFirst` | ShopingListProject/Pods/leveldb-library/db/version_set.cc:356-369 | The level-0 candidates are exactly the files whose range covers the user key, newest number first. |
| `Versions.FirstHitIsNewest` | ShopingListProject/Pods/leveldb-library/db/version_set.cc:352-369 | The first hit in that order is the newest visible entry over all of level 0. |
| `Versions.OnlyOneFile` | ShopingListProject/Pods/leveldb-library/db/version_set.cc:370-386 | Above level 0 it suffices to read the one file that FindFile names, even when one user key spans two adjacent files: its answer is that of the whole level. |
| `Versions.GetFromLevelZero` | ShopingListProject/Pods/leveldb-library/db/version_set.cc:352-425 | The level-0 search returns the newest visible entry over all level-0 files, or none exactly if there is none. |
| `Versions.GetFromLevel` | ShopingListProject/Pods/leveldb-library/db/version_set.cc:370-425 | The search of a sorted level returns the newest visible entry over all its files, or none exactly if there is none. |
| `Versions.Get` | ShopingListProject/Pods/leveldb-library/db/version_set.cc:332-429 | A lookup through all levels equals the specification of a read over the union of all files, given levels in shape and entries newer the shallower they lie. |
| `Versions.LayeredLookup` | ShopingListProject/Pods/leveldb-library/db/db_impl.cc:1127-1138 | If one layer is newer per key than another, a read of both is answered by the upper layer when it has a visible entry of the key, deletion or put, and by the lower one otherwise. |
| `Versions.MemTableGet` | ShopingListProject/Pods/leveldb-library/db/memtable.cc:108-145 | A memtable lookup returns the newest visible entry of the key in the memtable, or none exactly if there is none. |
| `Versions.DbGet` | ShopingListProject/Pods/leveldb-library/db/db_impl.cc:1109-1154 | DBImpl::Get over memtable, immutable memtable and the current version equals the specification of a read over their union. |
| `MemTables.BufferOrder` | ShopingListProject/Pods/leveldb-library/db/memtable.cc:33-39 | Entry buffers compare in the skip list exactly as the internal keys inside them do. |
| `MemTables.LookupOrder` | ShopingListProject/Pods/leveldb-library/db/memtable.cc:108-111 | A lookup key buffer compares with an entry buffer exactly as the internal key it ends with does. |
| `MemTables.LandsOnNewest` | ShopingListProject/Pods/leveldb-library/db/memtable.cc:108-126 | The entry a seek lands on is the newest visible one of the user key if it has that user key; otherwise the memtable holds no visible entry of it. |
| `MemTables.MemTable.Add` | ShopingListProject/Pods/leveldb-library/db/memtable.cc:82-106 | An entry is encoded and inserted at its place: the table stays ordered and gains exactly that entry. |
| `MemTables.MemTable.Get` | ShopingListProject/Pods/leveldb-library/db/memtable.cc:108-145 | On the bytes: nothing is reported exactly if no entry of the key is visible; otherwise the newest visible entry decides between its value and a deletion. |
| `MergingIterators.Cursor.Seek` | ShopingListProject/Pods/leveldb-library/include/leveldb/iterator.h:39-43 | The interface of a leaf iterator: a seek lands on the first entry at or after the target. |
| `MergingIterators.MergingIterator.FindSmallest` | ShopingListProject/Pods/leveldb-library/table/merger.cc:155-168 | With every child cut at the same place of the union, the smallest head is the next entry of the union, and there is none exactly at its end. |
| `MergingIterators.MergingIterator.FindLargest` | ShopingListProject/Pods/leveldb-library/table/merger.cc:170-183 | With every child cut at the same place, the largest head is the entry of the union before it, and there is none exactly at its start. |
| `MergingIterators.MergingIterator.SeekToFirst` | ShopingListProject/Pods/leveldb-library/table/merger.cc:35-41 | Lands on the first entry of the sorted union of the children. |
| `MergingIterators.MergingIterator.SeekToLast` | ShopingListProject/Pods/leveldb-library/table/merger.cc:43-49 | Lands on the last entry of the union. |
| `MergingIterators.MergingIterator.Seek` | ShopingListProject/Pods/leveldb-library/table/merger.cc:51-57 | Lands where all entries before are smaller than the target and none from there on is. |
| `MergingIterators.MergingIterator.Next` | ShopingListProject/Pods/leveldb-library/table/merger.cc:59-83 | Moves to the next entry of the union, whichever direction the iterator was moving in and whichever children are exhausted. |
| `MergingIterators.MergingIterator.Prev` | ShopingListProject/Pods/leveldb-library/table/merger.cc:85-112 | Moves to the previous entry of the union, or off its front, whichever direction it was moving in. |
| `MergingIterators.MergingIterator.AllAfterCurrent` | ShopingListProject/Pods/leveldb-library/table/merger.cc:66-78 | The switch to forward: every other child is put at its first entry after the current key. |
| `MergingIterators.MergingIterator.AllBeforeCurrent` | ShopingListProject/Pods/leveldb-library/table/merger.cc:92-108 | The switch to backward: every other child is put at its last entry before the current key, at its end if it has none after it. |
| `TwoLevelIterators.FlatIsSorted` | ShopingListProject/Pods/leveldb-library/table/two_level_iterator.cc:91-123 | Runs that index keys separate form one sorted run when laid one after the other. |
| `TwoLevelIterators.SeekLands` | ShopingListProject/Pods/leveldb-library/table/two_level_iterator.cc:91-96 | The first index key at or after a target leads to the run that holds the first entry at or after it, or to the run just before that entry. |
| `TwoLevelIterators.TwoLevelIterator.InitDataBlock` | ShopingListProject/Pods/leveldb-library/table/two_level_iterator.cc:156-170 | Afterwards the data iterator is the one of the index entry; it is reused, not reopened, when the entry did not change. |
| `TwoLevelIterators.TwoLevelIterator.SkipEmptyDataBlocksForward` | ShopingListProject/Pods/leveldb-library/table/two_level_iterator.cc:125-136 | From the end of a run the iterator goes on to the next entry of the concatenation over any number of empty runs, or becomes invalid at the end. |
| `TwoLevelIterators.TwoLevelIterator.SkipEmptyDataBlocksBackward` | ShopingListProject/Pods/leveldb-library/table/two_level_iterator.cc:138-149 | The same towards the front. |
| `TwoLevelIterators.TwoLevelIterator.Seek` | ShopingListProject/Pods/leveldb-library/table/two_level_iterator.cc:91-96 | Lands on the first entry of the concatenation at or after the target. |
| `TwoLevelIterators.TwoLevelIterator.SeekToFirst` | ShopingListProject/Pods/leveldb-library/table/two_level_iterator.cc:98-103 | Lands on the first entry of the concatenation, past any empty runs. |
| `TwoLevelIterators.TwoLevelIterator.SeekToLast` | ShopingListProject/Pods/leveldb-library/table/two_level_iterator.cc:105-110 | Lands on its last entry. |
| `TwoLevelIterators.TwoLevelIterator.Next` | ShopingListProject/Pods/leveldb-library/table/two_level_iterator.cc:112-116 | Moves to the next entry of the concatenation. |
| `TwoLevelIterators.TwoLevelIterator.Prev` | ShopingListProject/Pods/leveldb-library/table/two_level_iterator.cc:118-122 | Moves to the previous one, or off the front. |
| `TwoLevelIterators.TwoLevelIterator.ValidIsInside` | ShopingListProject/Pods/leveldb-library/table/two_level_iterator.cc:34-36 | The iterator is valid exactly while its position is inside the concatenation. |
| `DbIters.LiveIsLookup` | ShopingListProject/Pods/leveldb-library/db/db_iter.cc:173-203 | An entry that is the newest visible one of its key and no deletion is what a read of that key returns. |
| `DbIters.LookupIsLive` | ShopingListProject/Pods/leveldb-library/db/db_iter.cc:173-203 | Conversely, every key that a read finds has such an entry. |
| `DbIters.FollowsUnique` | ShopingListProject/Pods/leveldb-library/db/db_iter.cc:146-304 | The plain cursor over the live keys is deterministic: a command takes it from one position to exactly one other. |
| `DbIters.DbIter.FindNextUserEntry` | ShopingListProject/Pods/leveldb-library/db/db_iter.cc:173-203 | The forward scan stops at the first live entry whose user key is not skipped; all live entries it passed had a skipped key. |
| `DbIters.DbIter.FindPrevUserEntry` | ShopingListProject/Pods/leveldb-library/db/db_iter.cc:232-272 | The backward scan stops with the last live entry at or before its start; no entry after the one shown is live, and the internal iterator is left before all entries of its key that the snapshot sees. |
| `DbIters.DbIter.Next` | ShopingListProject/Pods/leveldb-library/db/db_iter.cc:146-171 | Shows the first live user key above the current one with its value, in either direction of movement, or becomes invalid if there is none. |
| `DbIters.DbIter.Prev` | ShopingListProject/Pods/leveldb-library/db/db_iter.cc:205-230 | Shows the last live user key below the current one with its value, in either direction, or becomes invalid if there is none. |
| `DbIters.DbIter.LeaveCurrentKey` | ShopingListProject/Pods/leveldb-library/db/db_iter.cc:208-227 | The switch to backward leaves every entry of the current key behind, or reports that none with a smaller key is left. |
| `DbIters.DbIter.FaceForward` | ShopingListProject/Pods/leveldb-library/db/db_iter.cc:149-166 | The switch to forward leaves the internal iterator among the entries of the current key, all of which are to be skipped. |
| `DbIters.DbIter.Seek` | ShopingListProject/Pods/leveldb-library/db/db_iter.cc:274-286 | Shows the first live user key at or above the target. |
| `DbIters.DbIter.SeekToFirst` | ShopingListProject/Pods/leveldb-library/db/db_iter.cc:288-297 | Shows the first live user key. |
| `DbIters.DbIter.SeekToLast` | ShopingListProject/Pods/leveldb-library/db/db_iter.cc:299-304 | Shows the last live user key. |
| `DbIters.DbIter.Run` | ShopingListProject/Pods/leveldb-library/db/db_iter.cc:146-304 | For every script of seeks and steps, with any changes of direction, key, value and validity are those of the plain cursor over the map from user keys to their newest visible values. |
| `Compactions.KeptMembers` | ShopingListProject/Pods/leveldb-library/db/db_impl.cc:936-987 | The entries kept are exactly those that are neither hidden by a newer entry at or below the oldest snapshot nor obsolete deletions. |
| `Compactions.AtMostOneSurvives` | ShopingListProject/Pods/leveldb-library/db/db_impl.cc:947-950 | At most one entry per user key at or below the oldest snapshot survives. |
| `Compactions.HiddenByPrevious` | ShopingListProject/Pods/leveldb-library/db/db_impl.cc:936-950 | Comparing with the sequence number of the entry just before, as the loop does, is the same as being hidden by any newer entry of the key. |
| `Compactions.NewestIsNotHidden` | ShopingListProject/Pods/leveldb-library/db/db_impl.cc:936-987 | The newest visible entry at a snapshot that is still live is kept or is an obsolete deletion. |
| `Compactions.CompactionKeepsReadsIff` | ShopingListProject/Pods/leveldb-library/db/db_impl.cc:936-987 | Reads at every snapshot from the oldest on are unchanged by the compaction if and only if no deletion dropped at its base level uncovers an older entry left outside. |
| `Compactions.OlderLevelsUncoverNothing` | ShopingListProject/Pods/leveldb-library/db/version_set.cc:1484-1503 | That condition holds when what is left above is newer per key and no deeper level holds a key that counts as at its base level. |
| `Compactions.CutsAreDisjoint` | ShopingListProject/Pods/leveldb-library/db/db_impl.cc:976-1001 | Cutting the kept sequence into outputs gives well-formed files in strictly increasing, disjoint ranges. |
| `Compactions.Compaction.IsBaseLevelForKey` | ShopingListProject/Pods/leveldb-library/db/version_set.cc:1484-1503 | With keys asked for in order, the remembered level positions give the right answer: true exactly if no file of a deeper level covers the key. |
| `Compactions.Compaction.ShouldStopBefore` | ShopingListProject/Pods/leveldb-library/db/version_set.cc:1505-1526 | Stops exactly when the grandparent files passed since the last cut exceed the limit in size; files before the first key are not counted. |
| `Compactions.Compaction.Emit` | ShopingListProject/Pods/leveldb-library/db/db_impl.cc:975-1003 | A kept entry is appended to the open output or to a new one; outputs stay numbered in order and name their first and last entries as range. |
| `Compactions.Compaction.DoCompactionWork` | ShopingListProject/Pods/leveldb-library/db/db_impl.cc:887-1054 | When it succeeds, the outputs concatenate to exactly the kept entries, in order, as well-formed files in disjoint increasing ranges with consecutive numbers. |
| `InputPicking.GetOverlappingInputs` | ShopingListProject/Pods/leveldb-library/db/version_set.cc:531-572 | Terminates despite its restarts, and at level 0 returns the least set of files that contains all files overlapping the range and all files overlapping a member. |
| `InputPicking.InsideMeansClosed` | ShopingListProject/Pods/leveldb-library/db/version_set.cc:549-570 | Files chosen by a range that contains all of them whole form a set closed under overlap. |
| `InputPicking.GetRange` | ShopingListProject/Pods/leveldb-library/db/version_set.cc:1224-1247 | The least and greatest key of a non-empty list of files. |
| `InputPicking.GrowingIsHarmless` | ShopingListProject/Pods/leveldb-library/db/version_set.cc:1359-1389 | Growing the inputs of the level keeps the original ones, and if the number of files picked from the next level did not change, neither did the files. |
| `InputPicking.SetupOtherInputs` | ShopingListProject/Pods/leveldb-library/db/version_set.cc:1345-1411 | The files of the next level are exactly those that overlap the final inputs, which contain the original ones; the inputs grow only within the size limit, and at level 0 stay closed under overlap. |
| `InputPicking.SomeFileOverlapsRange` | ShopingListProject/Pods/leveldb-library/db/version_set.cc:121-157 | True exactly if some file overlaps the user-key range, for sorted levels by binary search and for level 0 by scan. |
| `InputPicking.PickLevelForMemTableOutput` | ShopingListProject/Pods/leveldb-library/db/version_set.cc:502-528 | A memtable is pushed down only past levels without overlap, and stops exactly because level 0 or the next level overlaps, or too much below the next does, or the maximum is reached. |
| `Installs.NextLevelStaysDisjoint` | ShopingListProject/Pods/leveldb-library/db/version_set.cc:711-772 | Installing any disjoint outputs within the hull of the inputs keeps the next level sorted and disjoint. |
| `Installs.InstallKeepsShapeIff` | ShopingListProject/Pods/leveldb-library/db/version_set.cc:711-772 | After installation the version is in the shape that lookups rely on if and only if what stays behind at the source level is newer per key than the outputs. |
| `Installs.LevelZeroLeavesNothingOlder` | ShopingListProject/Pods/leveldb-library/db/version_set.cc:1359-1374 | Compacting a set of level-0 files closed under overlap leaves nothing older behind. |
| `Installs.NoStraddlingKeyLeavesNothingOlder` | ShopingListProject/Pods/leveldb-library/db/version_set.cc:1345-1411 | Above level 0 nothing older is left behind when no file outside the inputs begins with the user key an input ends with. |
| `Installs.CompactionIsSafe` | ShopingListProject/Pods/leveldb-library/db/db_impl.cc:866-885 | The whole step: with what stays outside newer than the inputs, the new version is in shape and every read at a live snapshot returns what it returned before. |
| `StraddlingKeys.MoveKeepsShapeIff` | ShopingListProject/Pods/leveldb-library/db/db_impl.cc:717-733 | A trivial move leaves the version in shape if and only if no file left behind at the level holds older entries of a user key that the moved file ends with. |
| `StraddlingKeys.CompactionKeepsShapeIff` | ShopingListProject/Pods/leveldb-library/db/version_set.cc:1345-1411 | A compaction does so if and only if the newest input entry of every straddling user key is a deletion that is dropped at its base level. |
| `StraddlingKeys.CompactionKeepsReadsIffNoneBroughtBack` | ShopingListProject/Pods/leveldb-library/db/db_impl.cc:936-987 | Reads at every live snapshot are unchanged if and only if no dropped deletion is its key's newest entry while a file left out begins the key's remaining entries with a value; a condition on the version and the picked files alone. |
| `StraddlingKeys.CompactionIsSafeIff` | ShopingListProject/Pods/leveldb-library/db/db_impl.cc:866-885 | Shape and reads together survive picking, compaction loop and installation if and only if both conditions hold before the run. |
| `StraddlingKeys.SafeWhenNothingStraddles` | ShopingListProject/Pods/leveldb-library/db/version_set.cc:1345-1411 | They hold whenever no user key of the inputs goes on in a file left behind, so the compaction is safe. |
| `StraddlingKeys.BroughtBackIsRead` | ShopingListProject/Pods/leveldb-library/db/db_impl.cc:951-968 | Whenever the condition fails, the read at the oldest live snapshot returned nothing and now returns the old value. |
| `StraddleWitnesses.DeletedValueComesBack` | ShopingListProject/Pods/leveldb-library/db/version_set.cc:1345-1411 | A version in shape, a compaction with files from both levels whose expansion the source refuses, and a deleted value that is read again afterwards. |
| `StraddleWitnesses.MoveCanBreakShape` | ShopingListProject/Pods/leveldb-library/db/db_impl.cc:717-733 | A version in shape in which moving one file puts the newer entry of a user key below the older. |
| `StraddleWitnesses.LevelZeroCanBringBack` | ShopingListProject/Pods/leveldb-library/db/version_set.cc:1345-1411 | A compaction of level 0 that picks a file of level 1 ending in a deletion, while the next file goes on with the key: the deleted value is read again. |
| `StraddlingKeys.LevelZeroKeepsShape` | ShopingListProject/Pods/leveldb-library/db/version_set.cc:1328-1338 | No user key straddles the inputs of level 0, so a compaction of level 0 always leaves the version in shape. |
| `CompactionRuns.ChooseFile` | ShopingListProject/Pods/leveldb-library/db/version_set.cc:1297-1323 | A size compaction starts from the first file that ends after the compaction pointer, or from the first file if none does; a seek compaction from the file asked for. |
| `CompactionRuns.PickCompaction` | ShopingListProject/Pods/leveldb-library/db/version_set.cc:1291-1343 | From a version in shape the inputs contain the chosen file, are runs in the order of their levels, at level 0 closed under overlap, and come with the files of the level after next that overlap them. |
| `CompactionRuns.MakeInputIterator` | ShopingListProject/Pods/leveldb-library/db/version_set.cc:1258-1289 | One child for each level-0 file and one concatenating child for each other level: the iterator goes over exactly the inputs' entries in order. |
| `CompactionRuns.LevelIsIndex` | ShopingListProject/Pods/leveldb-library/db/version_set.cc:1277-1282 | The files of a sorted level, indexed by their largest keys, are runs that the two-level iterator can go over, and their concatenation is the level. |
| `CompactionRuns.InstalledUnique` | ShopingListProject/Pods/leveldb-library/db/version_set.cc:711-772 | An installation leads to one version only. |
| `CompactionRuns.MoveKeepsContents` | ShopingListProject/Pods/leveldb-library/db/db_impl.cc:717-733 | A trivial move changes no content, so no read. |
| `CompactionRuns.BackgroundCompaction` | ShopingListProject/Pods/leveldb-library/db/db_impl.cc:686-770 | From any version in shape and any trigger: a trivial move, a failure that installs nothing, or a compaction whose outputs are the kept entries of the merged inputs, installed; it is safe if and only if the exact condition on version, inputs and smallest snapshot held, and the move if and only if its last user key does not go on. |
| `Installs.FlushIsSafe` | ShopingListProject/Pods/leveldb-library/db/db_impl.cc:488-532 | Installing a flushed memtable at the picked level keeps the shape and adds exactly its entries. |
| `EditedVersions.KeyOrder` | ShopingListProject/Pods/leveldb-library/db/dbformat.cc:47-64 | Byte keys that parse compare as the abstract keys they stand for, and are equal exactly if those are. |
| `EditedVersions.CompactionEditInstalls` | ShopingListProject/Pods/leveldb-library/db/db_impl.cc:866-885 | Applying the edit of a compaction or move to a version through the builder removes exactly the inputs from the two levels and adds exactly the outputs to the lower one, in order; every other level stays. |
| `EditedVersions.FlushEditInstalls` | ShopingListProject/Pods/leveldb-library/db/db_impl.cc:488-532 | Applying the edit of a flush adds exactly the new file at its level, in order. |
| `Engines.CompactionMayInstall` | ShopingListProject/Pods/leveldb-library/db/db_impl.cc:866-885 | A compaction that ran as the source does on inputs that meet the exact condition installs a version with the same reads from the smallest snapshot on, and no new entries: what the write protocol asks of it. |
| `Engines.SafeCompactionMayInstall` | ShopingListProject/Pods/leveldb-library/db/db_impl.cc:866-885 | The same under the older sufficient condition that what stays outside is newer than the inputs. |
| `Engines.MoveMayInstall` | ShopingListProject/Pods/leveldb-library/db/db_impl.cc:717-733 | So does a trivial move whose last user key does not go on in a file left behind. |
| `Engines.VersionStepKeeps` | ShopingListProject/Pods/leveldb-library/db/db_impl.cc:534-575 | Every step of the protocol, with a flush or compaction installing a real version, is enabled in the protocol and keeps its content that of a version in shape. |
| `Engines.EngineRunsKeep` | ShopingListProject/Pods/leveldb-library/db/db_impl.cc:534-575 | In every run each version installed is in shape and holds exactly the content of the protocol's state. |
| `Engines.NewDatabaseRuns` | ShopingListProject/Pods/leveldb-library/db/db_impl.cc:534-575 | In particular from a new database on, through any steps. |
| `Engines.EngineRunIsRun` | ShopingListProject/Pods/leveldb-library/db/db_impl.cc:1190-1264 | Every such run is a run of the protocol, so reads at a snapshot never change in it. |
| `Engines.ViewIsInShape` | ShopingListProject/Pods/leveldb-library/db/db_impl.cc:1109-1154 | What a reader pins at any point of a run is a view that Get answers from correctly, with the content written so far. |
| `WriteBatches.OpsRoundTrip` | ShopingListProject/Pods/leveldb-library/db/write_batch.cc:42-80 | Parsing the encoding of any list of puts and deletes gives the list back without error. |
| `WriteBatches.WriteBatch.Put` | ShopingListProject/Pods/leveldb-library/db/write_batch.cc:98-103 | Appends one put and leaves the rest of the batch as it was; the count in the header follows. |
| `WriteBatches.WriteBatch.Delete` | ShopingListProject/Pods/leveldb-library/db/write_batch.cc:105-109 | Appends one deletion likewise. |
| `WriteBatches.WriteBatch.Append` | ShopingListProject/Pods/leveldb-library/db/write_batch.cc:141-146 | Appends all operations of another batch; the sequence number of the receiver stays. |
| `WriteBatches.WriteBatch.SetSequence` | ShopingListProject/Pods/leveldb-library/db/write_batch.cc:94-96 | Sets the sequence number and nothing else. |
| `WriteBatches.WriteBatch.Count` | ShopingListProject/Pods/leveldb-library/db/write_batch.cc:82-84 | The count in the header is the number of operations. |
| `WriteBatches.WriteBatch.Iterate` | ShopingListProject/Pods/leveldb-library/db/write_batch.cc:42-80 | Hands over exactly the operations that parse, in order, names the first error, and reports a wrong count; a well-formed batch gives all its operations and no error. |
| `WriteQueues.BuildBatchGroup` | ShopingListProject/Pods/leveldb-library/db/db_impl.cc:1269-1314 | Returns the updates of the group of writers at the head of the queue and where it ends. |
| `WriteQueues.GroupIsLongest` | ShopingListProject/Pods/leveldb-library/db/db_impl.cc:1269-1314 | That group is the longest prefix of the queue that keeps the size limit and does not add a sync write to a leader that does not sync. |
| `WriteQueues.StepKeeps` | ShopingListProject/Pods/leveldb-library/db/db_impl.cc:1194-1267 | Every step of writers, leader, memtable switch, flush, compaction, snapshots and readers keeps the invariant of the protocol, and groups, arrivals, retirements and the last sequence number only grow. |
| `WriteQueues.RunsKeep` | ShopingListProject/Pods/leveldb-library/db/db_impl.cc:1194-1379 | The same over every run of any length. |
| `WriteQueues.SequencesAreUnique` | ShopingListProject/Pods/leveldb-library/db/db_impl.cc:1217-1246 | Over every interleaving, no sequence number is used by two operations. |
| `WriteQueues.WholeGroupsOrNone` | ShopingListProject/Pods/leveldb-library/db/db_impl.cc:1217-1246 | What a reader sees up to a group boundary is exactly the union of the groups before it: all of a group or none of it. |
| `WriteQueues.ReadsAreConsistent` | ShopingListProject/Pods/leveldb-library/db/db_impl.cc:1109-1154 | A read equals the specification over the first so many whole write groups, and two reads at the same snapshot agree however far apart they are and whatever was flushed or compacted between. |
| `WriteQueues.WritersRetireInOrder` | ShopingListProject/Pods/leveldb-library/db/db_impl.cc:1196-1262 | Writers retire exactly once, in arrival order, each with the status of the leader of its group, and that status is OK exactly if the group was applied. |
| `WriteQueues.SnapshotListKeeps` | ShopingListProject/Pods/leveldb-library/db/db_impl.cc:1175-1183 | Taking and releasing snapshots keeps the list ascending, and the oldest one a compaction may collapse to never moves back. |
| `SnapshotLists.SnapshotList.New` | ShopingListProject/Pods/leveldb-library/db/snapshot.h:44-53 | Appends a snapshot to the ring; the others keep their order, and sequence numbers stay ascending. |
| `SnapshotLists.SnapshotList.Delete` | ShopingListProject/Pods/leveldb-library/db/snapshot.h:55-60 | Unlinks exactly one snapshot from the ring. |
| `SnapshotLists.SnapshotList.Oldest` | ShopingListProject/Pods/leveldb-library/db/snapshot.h:41 | The oldest snapshot has the least sequence number of all live ones. |
| `SnapshotLists.SnapshotList.Newest` | ShopingListProject/Pods/leveldb-library/db/snapshot.h:42 | The newest has the greatest. |
| `SnapshotLists.SnapshotList.Empty` | ShopingListProject/Pods/leveldb-library/db/snapshot.h:40 | The dummy points to itself exactly when no snapshot is live. |
| `LogFormat.Writer.AddRecord` | ShopingListProject/Pods/leveldb-library/db/log_writer.cc:36-82 | Appends the record as fragments that fill blocks, with a zero trailer where no header fits; the block offset follows. |
| `LogFormat.Writer.Reopen` | ShopingListProject/Pods/leveldb-library/db/log_writer.cc:28-31 | A writer reopened on a file continues at the offset its length gives. |
| `LogFormat.ReopenChangesNothing` | ShopingListProject/Pods/leveldb-library/db/log_writer.cc:28-48 | An offset at the end of a block and one at the start of the next produce the same bytes. |
| `LogReader.Reader.ReadPhysicalRecord` | ShopingListProject/Pods/leveldb-library/db/log_reader.cc:199-281 | The buffered reader returns the fragment, code and drops that parsing the file at its position gives, across refills. |
| `LogReader.Reader.ReadRecord` | ShopingListProject/Pods/leveldb-library/db/log_reader.cc:60-182 | Fragments are assembled into the next record of the file; position and reported drops follow. |
| `LogReader.ReadLog` | ShopingListProject/Pods/leveldb-library/db/log_reader.cc:60-182 | Reading to the end of any file gives all its records and all its drops. |
| `LogRoundTrip.CutPhysicalParses` | ShopingListProject/Pods/leveldb-library/db/log_reader.cc:229-239 | A physical record cut anywhere reads as end of file with nothing reported. |
| `LogRoundTrip.WholeLogReads` | ShopingListProject/Pods/leveldb-library/db/log_reader.cc:60-182 | A log reads back as the records that were added, for any records of any length. |
| `LogRoundTrip.TruncatedLogReads` | ShopingListProject/Pods/leveldb-library/db/log_reader.cc:60-281 | A log cut at any byte reads back as exactly the records that lie wholly inside the cut, in order, with no corruption reported. |
| `LogRoundTrip.ReopenedLog` | ShopingListProject/Pods/leveldb-library/db/log_writer.cc:28-48 | Records added after reopening at the full length give the same file as without reopening. |
| `LogRoundTrip.WriteReopenRead` | ShopingListProject/Pods/leveldb-library/db/log_writer.cc:22-109 | Writing, reopening, writing more, cutting and reading with the methods themselves gives the surviving records. |
| `VersionEdits.EncodeTo` | ShopingListProject/Pods/leveldb-library/db/version_edit.cc:41-86 | The bytes are the fields of the edit in the order of the source, each with its tag. |
| `VersionEdits.DecodeFrom` | ShopingListProject/Pods/leveldb-library/db/version_edit.cc:109-210 | Reads fields until the input ends or is malformed; compaction pointers held before survive, as Clear does not reset them. |
| `VersionEdits.FieldRoundTrip` | ShopingListProject/Pods/leveldb-library/db/version_edit.cc:109-210 | Every field is read back as it was written, whatever follows it. |
| `VersionEdits.EditRoundTrip` | ShopingListProject/Pods/leveldb-library/db/version_edit.cc:41-210 | Decoding the encoding of any edit gives the edit back. |
| `Builders.Builder.Apply` | ShopingListProject/Pods/leveldb-library/db/version_set.cc:665-709 | Records the deletions and additions of an edit; a file added again after being deleted is live again. |
| `Builders.Builder.SaveTo` | ShopingListProject/Pods/leveldb-library/db/version_set.cc:711-757 | Writes out, per level, the merge of the base files and the added ones without the deleted ones. |
| `Builders.Builder.SaveLevel` | ShopingListProject/Pods/leveldb-library/db/version_set.cc:711-757 | For a sorted base the level written holds exactly the files that are in the base or added and not deleted, sorted by smallest key, then number. |
| `Builders.MergeMembers` | ShopingListProject/Pods/leveldb-library/db/version_set.cc:711-757 | The merge holds exactly the files of either list that are not deleted. |
| `Builders.MergeSorted` | ShopingListProject/Pods/leveldb-library/db/version_set.cc:711-757 | The merge of two sorted lists is sorted by smallest key, then number. |
| `Builders.SortedUnique` | ShopingListProject/Pods/leveldb-library/db/version_set.cc:606-622 | Sorted lists with the same files are the same list. |
| `Manifests.StepKeeps` | ShopingListProject/Pods/leveldb-library/db/version_set.cc:820-903 | Applying an edit with fresh file numbers keeps every level sorted and its files known. |
| `Manifests.BatchIsReplay` | ShopingListProject/Pods/leveldb-library/db/version_set.cc:603-773 | One builder that applied all edits saves the same version as applying and saving them one at a time. |
| `Manifests.SnapshotRestores` | ShopingListProject/Pods/leveldb-library/db/version_set.cc:1102-1130 | Replaying the snapshot record of a version on an empty one restores it. |
| `VersionSets.VersionSet.LogAndApply` | ShopingListProject/Pods/leveldb-library/db/version_set.cc:820-903 | Installs the version with the edit applied, logs the completed edit, after a snapshot if the MANIFEST is new, and the file on disk holds exactly the records logged. |
| `VersionSets.VersionSet.WriteSnapshot` | ShopingListProject/Pods/leveldb-library/db/version_set.cc:1102-1130 | Starts the MANIFEST with the record of the current version. |
| `VersionSets.VersionSet.NewFileNumber` | ShopingListProject/Pods/leveldb-library/db/version_set.h:191 | Hands out a number above every number in use. |
| `VersionSets.VersionSet.Recover` | ShopingListProject/Pods/leveldb-library/db/version_set.cc:905-1025 | Sets the fields from what the MANIFEST reads as, or fails with the first missing entry and changes none of them. |
| `VersionSets.RecoveryIsLiveState` | ShopingListProject/Pods/leveldb-library/db/version_set.cc:905-1025 | From a MANIFEST cut anywhere after the snapshot and one edit, recovery gives the version, log number and last sequence number live when the last surviving edit was logged, and a next file number above every file number in it. |
| `VersionSets.Reopen` | ShopingListProject/Pods/leveldb-library/db/version_set.cc:905-1025 | A database reopened from a cut MANIFEST is again consistent with what is on disk and runs on. |
| `SkipLists.SkipList.Find` | ShopingListProject/Pods/leveldb-library/db/skiplist.h:261-322 | The three searches return the first node at or after the key, the last before it, or the last of all, and the nodes after which to insert at every level. |
| `SkipLists.SkipList.Insert` | ShopingListProject/Pods/leveldb-library/db/skiplist.h:336-370 | Links a new node into the levels up to its height and changes nothing else. |
| `SkipLists.WalkIsSorted` | ShopingListProject/Pods/leveldb-library/db/skiplist.h:207-211 | Following level 0 visits every node once, in key order. |
| `SkipLists.PublishLevel` | ShopingListProject/Pods/leveldb-library/db/skiplist.h:364-369 | Linking a node at one level keeps that level a sorted list of its nodes. |
| `SkipLists.StepKeeps` | ShopingListProject/Pods/leveldb-library/db/skiplist.h:261-370 | Every step of the inserter and of any number of readers, one pointer access at a time, keeps every level a sorted sublist of the one below. |
| `SkipLists.RunsKeep` | ShopingListProject/Pods/leveldb-library/db/skiplist.h:261-370 | The same over every interleaving; levels only grow. |
| `SkipLists.SearchLinearizes` | ShopingListProject/Pods/leveldb-library/db/skiplist.h:261-322 | A search that ran beside an insertion returns the right answer for the level-0 list at its last load, and nothing in the list when it started is missed. |
| `HandleTables.HandleTable.FindPointer` | ShopingListProject/Pods/leveldb-library/util/cache.cc:116-123 | The slot returned leads to the first matching entry of the chain, or to its end if none matches. |
| `HandleTables.HandleTable.Lookup` | ShopingListProject/Pods/leveldb-library/util/cache.cc:76-78 | Finds an entry exactly if one with the key and hash is in the table. |
| `HandleTables.HandleTable.Insert` | ShopingListProject/Pods/leveldb-library/util/cache.cc:80-94 | The table gains the entry and loses exactly the matching one it displaces, which is returned, also through a resize. |
| `HandleTables.HandleTable.Remove` | ShopingListProject/Pods/leveldb-library/util/cache.cc:96-104 | Unlinks and returns the matching entry, if any. |
| `HandleTables.HandleTable.Resize` | ShopingListProject/Pods/leveldb-library/util/cache.cc:125-149 | Moves every entry to its bucket in a table of power-of-two length at least the number of entries; the contents stay the same. |
| `LruCaches.ReferredKeeps` | ShopingListProject/Pods/leveldb-library/util/cache.cc:221-227 | A new client reference keeps the invariant: in the table exactly if cached, on one list only, by reference count, usage the sum of cached charges, deleters run once. |
| `LruCaches.ReleasedKeeps` | ShopingListProject/Pods/leveldb-library/util/cache.cc:229-240 | So does releasing one; the entry returns to the eviction list or its deleter runs. |
| `LruCaches.DroppedKeeps` | ShopingListProject/Pods/leveldb-library/util/cache.cc:307-316 | So does taking an entry out of the cache. |
| `LruCaches.CreatedKeeps` | ShopingListProject/Pods/leveldb-library/util/cache.cc:269-304 | So does creating an entry, cached or, at capacity 0, not. |
| `LruCaches.EvictedAll` | ShopingListProject/Pods/leveldb-library/util/cache.cc:323-333 | Evicting until the list is empty evicts all of it, oldest first. |
| `LruCaches.LRUCache.Ref` | ShopingListProject/Pods/leveldb-library/util/cache.cc:221-227 | Counts the reference and moves the entry to the in-use list when it was unused. |
| `LruCaches.LRUCache.Unref` | ShopingListProject/Pods/leveldb-library/util/cache.cc:229-240 | Counts down; at one cached reference the entry goes to the end of the eviction list, at none its deleter runs. |
| `LruCaches.LRUCache.Lookup` | ShopingListProject/Pods/leveldb-library/util/cache.cc:255-262 | Returns a matching cached entry with one more reference, or leaves the cache as it was if there is none. |
| `LruCaches.LRUCache.Release` | ShopingListProject/Pods/leveldb-library/util/cache.cc:264-267 | Gives one client reference back. |
| `LruCaches.LRUCache.Insert` | ShopingListProject/Pods/leveldb-library/util/cache.cc:269-305 | The new entry is cached and held, the entry with its key is dropped, and unused entries are evicted oldest first only as far as needed: afterwards usage is within capacity or every cached entry is held by a client. |
| `LruCaches.LRUCache.Erase` | ShopingListProject/Pods/leveldb-library/util/cache.cc:318-321 | Drops the matching entry from the cache, if any; clients keep theirs. |
| `LruCaches.LRUCache.Prune` | ShopingListProject/Pods/leveldb-library/util/cache.cc:323-333 | Evicts exactly the entries no client holds. |
| `LruCaches.LRUCache.Destroy` | ShopingListProject/Pods/leveldb-library/util/cache.cc:209-219 | With nothing cached in use, every cached entry is deleted, oldest first; of all entries ever created exactly those are not deleted that clients still hold. |
| `LruScripts.DoesUnique` | ShopingListProject/Pods/leveldb-library/util/cache.cc:255-333 | What a call returns and leaves, evictions included, is determined by the cache it finds. |
| `LruScripts.RunsUnique` | ShopingListProject/Pods/leveldb-library/util/cache.cc:255-333 | So the results of a script and the cache after each of its calls are a function of the script. |
| `LruScripts.RunsKeep` | ShopingListProject/Pods/leveldb-library/util/cache.cc:221-333 | Over every run of client calls lists, counts and books agree, what is cached is the latest of its key, and no deletion is taken back. |
| `LruScripts.LookupIsLatest` | ShopingListProject/Pods/leveldb-library/util/cache.cc:255-262 | A lookup anywhere in a run finds only the last entry the run created for the key, and never a deleted one. |
| `LruScripts.HeldIsAlive` | ShopingListProject/Pods/leveldb-library/util/cache.cc:229-240 | An entry that a client holds is not deleted at any time so far. |
| `LruScripts.Run` | ShopingListProject/Pods/leveldb-library/util/cache.cc:255-333 | Executing any script on a new cache is such a run. |
| `LruScripts.Session` | ShopingListProject/Pods/leveldb-library/util/cache.cc:195-333 | For every script, once the client has let go of what it holds and the cache is destroyed, the deleter of every entry created has run exactly once. |
| `BlockFormat.RestartsAreSpaced` | ShopingListProject/Pods/leveldb-library/table/block_builder.cc:73-107 | Restart points start at entry 0 and follow each other at the restart interval. |
| `BlockFormat.BuiltIsSound` | ShopingListProject/Pods/leveldb-library/table/block_builder.cc:73-107 | What the builder lays out is sound: shared prefixes are common prefixes and restart entries share nothing. |
| `Blocks.BlockBuilder.Add` | ShopingListProject/Pods/leveldb-library/table/block_builder.cc:73-107 | The block gains exactly the entry, prefix-compressed against the last key. |
| `Blocks.BlockBuilder.Finish` | ShopingListProject/Pods/leveldb-library/table/block_builder.cc:63-71 | The bytes are those of the layout of the entries added, with restart array and count. |
| `Blocks.DecodeEntry` | ShopingListProject/Pods/leveldb-library/table/block.cc:53-74 | The one-byte fast path agrees with decoding three varints; lengths that do not fit the input are refused. |
| `Blocks.EntryDecodes` | ShopingListProject/Pods/leveldb-library/table/block.cc:53-74 | At the offset of every entry of a built block, decoding gives its shared, unshared and value lengths. |
| `Blocks.OpenBlock` | ShopingListProject/Pods/leveldb-library/table/block.cc:23-38 | Which contents count as a block: too short, too many restarts for the size, none, or where the restart array begins. |
| `Blocks.Iter.ParseNextKey` | ShopingListProject/Pods/leveldb-library/table/block.cc:226-253 | Reads the entry after the current one, rebuilding its key from the shared prefix, and moves the restart index along. |
| `Blocks.Iter.Next` | ShopingListProject/Pods/leveldb-library/table/block.cc:139-142 | Moves to the next entry. |
| `Blocks.Iter.Prev` | ShopingListProject/Pods/leveldb-library/table/block.cc:144-163 | Moves to the entry before, undoing Next, by way of the restart point before it; off the front at the first. |
| `Blocks.Iter.Seek` | ShopingListProject/Pods/leveldb-library/table/block.cc:165-203 | Binary search over restart points and then a scan land on the first entry not below the target, for any comparator the keys ascend in. |
| `Blocks.Iter.SeekToFirst` | ShopingListProject/Pods/leveldb-library/table/block.cc:205-208 | Lands on the first entry. |
| `Blocks.Iter.SeekToLast` | ShopingListProject/Pods/leveldb-library/table/block.cc:210-215 | Lands on the last entry. |
| `Blocks.ReadAll` | ShopingListProject/Pods/leveldb-library/table/block.cc:139-253 | Iterating a built block yields exactly its entries. |
| `Blocks.RoundTrip` | ShopingListProject/Pods/leveldb-library/table/block_builder.cc:63-107 | Building a block from any entries at any restart interval of at least 1 and iterating it yields the entries. |
| `Blocks.AscendingKeysAreMonotone` | ShopingListProject/Pods/leveldb-library/table/block.cc:165-203 | Keys that ascend in the internal order split at any target, which is what the search needs. |
| `Bloom.CreateFilter` | ShopingListProject/Pods/leveldb-library/util/bloom.cc:35-61 | The filter has exactly the bits that the probes of its keys set, at least 64 of them, and the number of probes in its last byte. |
| `Bloom.KeyMayMatch` | ShopingListProject/Pods/leveldb-library/util/bloom.cc:63-87 | The probe loop answers whether every probed bit is set; reserved encodings match everything. |
| `Bloom.FilterMatches` | ShopingListProject/Pods/leveldb-library/util/bloom.cc:35-87 | A filter created from keys matches each of them, for any hash function: no false negatives. |
| `FilterBlocks.FilterBlockBuilder.StartBlock` | ShopingListProject/Pods/leveldb-library/table/filter_block.cc:22-28 | Closes filters up to the one of the block offset; pending keys go to the first of them. |
| `FilterBlocks.FilterBlockBuilder.AddKey` | ShopingListProject/Pods/leveldb-library/table/filter_block.cc:30-34 | Adds one key to the pending ones. |
| `FilterBlocks.FilterBlockBuilder.GenerateFilter` | ShopingListProject/Pods/leveldb-library/table/filter_block.cc:52-76 | Makes one filter of the pending keys, an empty one if there are none. |
| `FilterBlocks.FilterBlockBuilder.Finish` | ShopingListProject/Pods/leveldb-library/table/filter_block.cc:36-50 | In the finished block, every key matches at every offset of the filter it was added for. |
| `FilterBlocks.FilterBlockReader.KeyMayMatch` | ShopingListProject/Pods/leveldb-library/table/filter_block.cc:95-109 | Reads the filter of the offset from the array at the end of the block; an offset past the array, or an array that makes no sense, matches, and an empty filter does not. |
| `FilterBlocks.BuiltFilterMatches` | ShopingListProject/Pods/leveldb-library/table/filter_block.cc:78-109 | What the builder writes the reader reads back: no key is refused at the offset it was added for. |
| `TableFormat.HandleRoundTrip` | ShopingListProject/Pods/leveldb-library/table/format.cc:15-30 | A block handle is read back as it was written. |
| `TableFormat.StoredReads` | ShopingListProject/Pods/leveldb-library/table/format.cc:65-142 | A stored block passes the checksum test. |
| `TableFormat.ReadBlock` | ShopingListProject/Pods/leveldb-library/table/format.cc:65-142 | Reading a stored block returns its contents. |
| `TableFormat.FooterReads` | ShopingListProject/Pods/leveldb-library/table/format.cc:32-63 | The footer holds both handles and the magic number where the reader looks. |
| `TableFormat.DecodeFooter` | ShopingListProject/Pods/leveldb-library/table/format.cc:43-63 | The footer is read back as it was written. |
| `TableBuilders.TableBuilder.Add` | ShopingListProject/Pods/leveldb-library/table/table_builder.cc:92-121 | The table gains exactly the entry; a pending index entry gets its shortened separator. |
| `TableBuilders.TableBuilder.Flush` | ShopingListProject/Pods/leveldb-library/table/table_builder.cc:123-137 | The pending entries become a block; the entries stay the same. |
| `TableBuilders.TableBuilder.WriteBlock` | ShopingListProject/Pods/leveldb-library/table/table_builder.cc:139-173 | The block is written at the end of the file with its trailer and its handle returned. |
| `TableBuilders.TableBuilder.Finish` | ShopingListProject/Pods/leveldb-library/table/table_builder.cc:199-254 | The file is a table of exactly the entries added: data blocks, filter, metaindex, index and footer; each entry matches the filter of its block. |
| `TableBuilders.SeparatorSplits` | ShopingListProject/Pods/leveldb-library/table/table_builder.cc:100-107 | An index key between two blocks is at or after the last key of the one and before the first of the other, and if it is a shortened one no entry has its user key. |
| `Tables.SepsAscend` | ShopingListProject/Pods/leveldb-library/table/table.cc:226-232 | Index keys ascend although they are shortened. |
| `Tables.InThisBlock` | ShopingListProject/Pods/leveldb-library/table/table.cc:226-248 | The block that the index points to holds the first entry at or after the target, or that entry begins the next block and has another user key. |
| `Tables.Open` | ShopingListProject/Pods/leveldb-library/table/table.cc:38-89 | A table that was finished opens, with its filter exactly if the policy has the name it was built with. |
| `Tables.ReadMeta` | ShopingListProject/Pods/leveldb-library/table/table.cc:91-141 | The filter is found through the metaindex exactly if it is there under the policy's name. |
| `Tables.Table.BlockReader` | ShopingListProject/Pods/leveldb-library/table/table.cc:164-218 | An index value opens the block it points to. |
| `Tables.Table.InternalGet` | ShopingListProject/Pods/leveldb-library/table/table.cc:226-255 | Whatever is handed to the saver is the first entry at or after the key, and if that entry has the key's user key it is handed over, shortened separators and filter notwithstanding. |
| `TableCaches.FirstAnswers` | ShopingListProject/Pods/leveldb-library/db/version_set.cc:268-281 | The first entry at or after an encoded lookup key is the newest entry of the user key at or below the snapshot, if it has that user key, and otherwise there is none. |
| `TableCaches.HandedAnswers` | ShopingListProject/Pods/leveldb-library/table/table.cc:226-255 | What InternalGet may hand over, with the filter consulted, is an answer of the kind that the search through the levels is proved with. |
| `TableCaches.Get` | ShopingListProject/Pods/leveldb-library/db/table_cache.cc:105-119 | On the bytes of a finished table the saver ends up with the value of the newest entry of the user key at or below the snapshot, with its deletion, or with nothing if the table has none. |
| `TableCaches.IndexSeparates` | ShopingListProject/Pods/leveldb-library/table/table_builder.cc:92-137 | For every finished table the index keys, shortened or not, separate its blocks as the two-level iterator requires, and the blocks together are its entries. |
| `Comparator.FindShortestSeparator` | ShopingListProject/Pods/leveldb-library/util/comparator.cc:29-51 | The loop computes the separator that the lemmas below are about. |
| `Comparator.SeparatorSeparates` | ShopingListProject/Pods/leveldb-library/util/comparator.cc:29-51 | Between two strings the shortened string is at or above the first and below the second. |
| `Comparator.FindShortSuccessor` | ShopingListProject/Pods/leveldb-library/util/comparator.cc:53-65 | The loop computes the successor. |
| `Comparator.SuccessorIsAbove` | ShopingListProject/Pods/leveldb-library/util/comparator.cc:53-65 | The successor is at or above the string, and the string itself exactly if all its bytes are 255. |
| `Comparator.RankEmbeds` | ShopingListProject/Pods/leveldb-library/util/comparator.cc:25-27 | Strings in bytewise order embed in the reals, which justifies user keys as ranks elsewhere. |
| `DbFormat.InternalLessIsTotal` | ShopingListProject/Pods/leveldb-library/db/dbformat.cc:50-66 | Internal keys are totally ordered: equal keys are the same bytes. |
| `DbFormat.InternalLessIsTransitive` | ShopingListProject/Pods/leveldb-library/db/dbformat.cc:50-66 | The order is transitive. |
| `DbFormat.EncodedOrder` | ShopingListProject/Pods/leveldb-library/db/dbformat.cc:12-66 | Encoded internal keys compare as the abstract keys they stand for: user key up, then sequence and kind down. |
| `DbFormat.FindInternalSeparator` | ShopingListProject/Pods/leveldb-library/db/dbformat.cc:68-85 | The separator is shortened only where that really shortens the user key and raises it. |
| `DbFormat.InternalSeparatorSeparates` | ShopingListProject/Pods/leveldb-library/db/dbformat.cc:68-85 | It is at or after the first internal key and before the second. |
| `DbFormat.FindInternalSuccessor` | ShopingListProject/Pods/leveldb-library/db/dbformat.cc:87-99 | Likewise for the successor. |
| `DbFormat.InternalSuccessorIsAbove` | ShopingListProject/Pods/leveldb-library/db/dbformat.cc:87-99 | The successor is at or above the key. |
| `DbFormat.LookupBufferParses` | ShopingListProject/Pods/leveldb-library/db/dbformat.cc:121-138 | A lookup key in its buffer parses back as a length-prefixed internal key. |
| `DbFormat.LookupKeySplits` | ShopingListProject/Pods/leveldb-library/db/dbformat.cc:121-138 | A lookup key precedes an entry of its user key exactly if its snapshot may see it. |
| `Coding.Varint32RoundTrip` | ShopingListProject/Pods/leveldb-library/util/coding.cc:47-141 | A 32-bit varint is read back, whatever follows it, and takes at most five bytes. |
| `Coding.Varint64RoundTrip` | ShopingListProject/Pods/leveldb-library/util/coding.cc:81-170 | A 64-bit varint likewise, at most ten bytes. |
| `Coding.EncodeVarint32` | ShopingListProject/Pods/leveldb-library/util/coding.cc:47-73 | The unrolled encoder writes the same bytes as the general definition. |
| `Coding.EncodeVarint64` | ShopingListProject/Pods/leveldb-library/util/coding.cc:81-90 | So does the loop. |
| `Coding.GetVarint32` | ShopingListProject/Pods/leveldb-library/util/coding.cc:112-141 | The decoder with its fast path returns what the bytes denote modulo 32 bits, and fails on overlong or cut input. |
| `Coding.GetVarint64` | ShopingListProject/Pods/leveldb-library/util/coding.cc:143-170 | The 64-bit decoder likewise. |
| `Coding.PrefixedRoundTrip` | ShopingListProject/Pods/leveldb-library/util/coding.cc:98-192 | A length-prefixed string is read back. |
| `Coding.FixedRoundTrip` | ShopingListProject/Pods/leveldb-library/util/coding.cc:9-33 | Fixed-width integers are read back. |
| `Crc32c.Step1IsByteStep` | ShopingListProject/Pods/leveldb-library/util/crc32c.cc:309-312 | One table step is eight bit steps of the division of section 12.1 of RFC 3720. |
| `Crc32c.Step4IsSteps` | ShopingListProject/Pods/leveldb-library/util/crc32c.cc:313-320 | One four-table step is thirty-two bit steps on the word. |
| `Crc32c.Extend` | ShopingListProject/Pods/leveldb-library/util/crc32c.cc:299-347 | For every buffer, length and starting alignment the slice-by-4 loops compute the byte-at-a-time CRC32C fold. |
| `Crc32c.CrcConcat` | ShopingListProject/Pods/leveldb-library/db/log_writer.cc:95-98 | Extending by two pieces is extending by their concatenation, which lets the writer start from a precomputed CRC of the type byte. |
| `Crc32c.UnmaskMask` | ShopingListProject/Pods/leveldb-library/util/crc32c.h:31-40 | Unmasking inverts masking. |
| `Crc32cTables.Table0IsSteps` | ShopingListProject/Pods/leveldb-library/util/crc32c.cc:18-83 | Every entry of the first table is eight bit steps of its index. |
| `Crc32cTables.Table1IsSteps` | ShopingListProject/Pods/leveldb-library/util/crc32c.cc:84-149 | Every entry of the second is sixteen. |
| `Crc32cTables.Table2IsSteps` | ShopingListProject/Pods/leveldb-library/util/crc32c.cc:150-215 | Of the third, twenty-four. |
| `Crc32cTables.Table3IsSteps` | ShopingListProject/Pods/leveldb-library/util/crc32c.cc:216-281 | Of the fourth, thirty-two. |
| `PbCommon.RequiredIndexCounts` | ShopingListProject/Pods/nanopb/pb_common.c:8-76 | The required-field index the iterator keeps is the number of required fields before its position. |
| `PbCommon.FindsWhatIsThere` | ShopingListProject/Pods/nanopb/pb_common.c:78-95 | From any start position, a nonzero tag is found exactly if the descriptor has it. |
| `PbCommon.FindIgnoresStart` | ShopingListProject/Pods/nanopb/pb_common.c:78-95 | With unique tags the search ends at the same field wherever it starts. |
| `PbCommon.FieldIter.Next` | ShopingListProject/Pods/nanopb/pb_common.c:20-76 | However the iterator came to its position, its offsets and required index are those of a walk from the start; after the last field it wraps round. |
| `PbCommon.FieldIter.Find` | ShopingListProject/Pods/nanopb/pb_common.c:78-95 | Stops at the first hit going round, or returns to where it started. |
| `PbWire.Un32RoundTrip` | ShopingListProject/Pods/nanopb/pb_decode.c:182-242 | A 32-bit varint is read back, although the decoder also tolerates sign extensions. |
| `PbWire.LongPaddingMisreads` | ShopingListProject/Pods/nanopb/pb_decode.c:206-238 | A one behind five to thirty-six padding bytes is refused, and behind thirty-seven it reads as 8. |
| `PbWire.SignedRoundTrip` | ShopingListProject/Pods/nanopb/pb_decode.c:1289-1324 | A signed number of any width, sign-extended to 64 bits and cast back, is the same number. |
| `PbWire.SignedIsIdentity` | ShopingListProject/Pods/nanopb/pb_decode.c:1307-1321 | The cast and compare of the decoder detect exactly the numbers that do not fit the field. |
| `PbWire.ZigZagRoundTrip` | ShopingListProject/Pods/nanopb/pb_encode.c:596-605 | Zig-zag coding is inverted by the decoder and stays within 64 bits exactly for 64-bit numbers. |
| `PbWire.TagRoundTrip` | ShopingListProject/Pods/nanopb/pb_decode.c:293-314 | A tag with its wire type is read back. |
| `PbWire.SkipExactly` | ShopingListProject/Pods/nanopb/pb_decode.c:273-326 | Skipping a well-formed payload of any wire type consumes exactly its bytes. |
| `PbEncode.OutputStream.Write` | ShopingListProject/Pods/nanopb/pb_encode.c:101-119 | Writes all bytes or, on a stream with a limit they exceed, none; a sizing stream only counts. |
| `PbEncode.OutputStream.EncodeVarint` | ShopingListProject/Pods/nanopb/pb_encode.c:574-594 | Writes the varint of the number. |
| `PbEncode.OutputStream.EncodeScalar` | ShopingListProject/Pods/nanopb/pb_encode.c:734-869 | Writes the bytes of a datum of any scalar type, or reports an error exactly where the source does. |
| `PbEncode.OutputStream.EncodeSubmessage` | ShopingListProject/Pods/nanopb/pb_encode.c:682-730 | The submessage is counted on a sizing stream and then written to a stream limited to that size; both passes agree at every depth, so the branch that reports a changed size is dead. |
| `PbEncode.OutputStream.EncodePacked` | ShopingListProject/Pods/nanopb/pb_encode.c:136-181 | The length written before a packed array is that of the bytes that follow, computed or counted. |
| `PbEncode.FixedItemsSize` | ShopingListProject/Pods/nanopb/pb_encode.c:143-151 | The computed length of an array of fixed-size items is right. |
| `PbEncode.OutputStream.EncodeArray` | ShopingListProject/Pods/nanopb/pb_encode.c:126-211 | An array is written packed if its type allows it and item by item otherwise; one over its maximum is an error. |
| `PbEncode.OutputStream.EncodeField` | ShopingListProject/Pods/nanopb/pb_encode.c:307-392 | A required field is always written, an optional one if present, a union member if it is the one set. |
| `PbEncode.OutputStream.Encode` | ShopingListProject/Pods/nanopb/pb_encode.c:494-516 | Succeeds exactly if the message has an encoding and it fits what is left of the limit; then exactly those bytes are added, and a sizing stream counts exactly their number. |
| `PbEncode.OutputStream.GetEncodedSize` | ShopingListProject/Pods/nanopb/pb_encode.c:533-542 | The size reported is the true length of the encoding. |
| `PbDecoding.UnknownFieldIsSkipped` | ShopingListProject/Pods/nanopb/pb_decode.c:952-977 | A field the descriptor does not know changes nothing: decoding goes on exactly behind its bytes. |
| `PbDecode.InputStream.DecodeVarint32` | ShopingListProject/Pods/nanopb/pb_decode.c:182-242 | The byte loop reads what the reference reading of a 32-bit varint says, sign extension and overflow included. |
| `PbDecode.InputStream.DecodeVarint` | ShopingListProject/Pods/nanopb/pb_decode.c:250-271 | The byte loop reads a 64-bit varint; longer ones are refused. |
| `PbDecode.InputStream.SkipField` | ShopingListProject/Pods/nanopb/pb_decode.c:316-326 | Consumes exactly the field of the wire type. |
| `PbDecode.InputStream.MakeSubstream` | ShopingListProject/Pods/nanopb/pb_decode.c:367-380 | The substream covers exactly the announced bytes, of which the stream must have enough. |
| `PbDecode.InputStream.CloseSubstream` | ShopingListProject/Pods/nanopb/pb_decode.c:382-395 | Whatever the substream left over, the stream goes on behind it. |
| `PbDecode.InputStream.DecodeField` | ShopingListProject/Pods/nanopb/pb_decode.c:401-475 | Reads one field into its cell: arrays packed or not, up to their size; a union that holds an unknown member is refused, by pb_release_union_field at lines 1104-1128. |
| `PbDecode.InputStream.DecodeNoinit` | ShopingListProject/Pods/nanopb/pb_decode.c:901-1049 | The loop over the stream gives what the reference run over the bytes gives, and accepts exactly if each of the first 64 required fields occurred. |
| `PbDecode.InputStream.Decode` | ShopingListProject/Pods/nanopb/pb_decode.c:1051-1063 | The same over a struct set to defaults. |
| `PbDecode.AllSeen` | ShopingListProject/Pods/nanopb/pb_decode.c:1030-1046 | The comparison of the bitmap words with their masks succeeds exactly if every tracked index was recorded. |
| `PbDecode.CompleteIsAllSeen` | ShopingListProject/Pods/nanopb/pb_decode.c:989-1046 | Every tracked index is recorded exactly if each of the first 64 required fields occurred. |
| `PbDecode.CountRequired` | ShopingListProject/Pods/nanopb/pb_decode.c:1012-1028 | Walking on to the end of the descriptor counts its required fields. |
| `PbDecode.SetToDefaults` | ShopingListProject/Pods/nanopb/pb_decode.c:812-895 | Sets every member to its default at its place, recursively. |
| `PbRoundTrip.ScalarTrip` | ShopingListProject/Pods/nanopb/pb_decode.c:1289-1508 | Every scalar comes back as it was: signed, unsigned, zig-zag and fixed-size numbers, byte arrays and strings. |
| `PbRoundTrip.MessageEncodes` | ShopingListProject/Pods/nanopb/pb_encode.c:494-516 | Every message whose values its struct can hold, within array sizes, has an encoding. |
| `PbRoundTrip.MessageTrip` | ShopingListProject/Pods/nanopb/pb_decode.c:901-1063 | Decoding the encoding of a message restores every present field at every depth: required, optional, packed and unpacked arrays, union members and submessages. |
| `PbRoundTrip.RoundTripIffFits` | ShopingListProject/Pods/nanopb/pb_decode.c:1428-1461 | Of the messages the encoder takes, the decoder accepts exactly those whose present strings leave room for a terminator, and those it restores. |
| `PbRoundTrip.FullStringIsRefused` | ShopingListProject/Pods/nanopb/pb_encode.c:831-855 | A concrete message with a string that fills its array is encoded and then refused. |
| `PbRoundTrip.ForeignFieldIsSkipped` | ShopingListProject/Pods/nanopb/pb_decode.c:952-977 | Whatever a field of another descriptor was encoded to is passed over, to the byte. |

## Left out

- VersionSets.VersionSet.LogAndApply: models success only; a failed append or sync and the removal of a half-written MANIFEST are not modelled.
- VersionSets.VersionSet.WriteSnapshot: does not write compaction pointers, which affect only which compaction comes next.
- VersionSets.VersionSet.Recover: starts from the contents of the MANIFEST; reading CURRENT and reusing the MANIFEST are not modelled.
- Compactions.Compaction.DoCompactionWork: which entry closes an output by size, and which file operation fails, is left open; a flush inside an unfinished compaction and keys that do not parse are not modelled.
- Installs.CompactionIsSafe: needs that what stays outside is newer than the inputs, which the source does not establish above level 0; StraddlingKeys.CompactionIsSafeIff has the exact condition.
- Engines.VersionStepKeeps: takes only compactions that meet the exact condition; what a run does after one that does not is not described.
- WriteQueues.StepKeeps: when the memtable is switched and how long writers are delayed is left open; background errors end no run.
- LogReader.Reader.ReadRecord: reads from offset 0; a nonzero initial offset is not modelled, and of corruption only what cutting a log can cause is claimed away.
- Crc32c.Extend: the accelerated hardware path is not modelled.
- HandleTables.HandleTable.Resize: the table length does not wrap at 32 bits.
- LruCaches.LRUCache.Insert: one shard; choosing the shard by the top bits of the hash and the total over shards are not modelled.
- LruCaches.LRUCache.Destroy: asks that no cached entry is in use, which the source only asserts.
- SkipLists.SearchLinearizes: needs sequentially consistent loads and stores; weaker orders of atomic pointers are not modelled, nor the random choice of heights, which is left open.
- SkipLists.SkipList.Find: one loop with three modes for the three search loops of the source.
- MergingIterators.MergingIterator.AllAfterCurrent: needs children with distinct keys, as Next does.
- MergingIterators.MergingIterator.Next: needs children with distinct keys, so the step over an equal key in another child is dead.
- Blocks.Iter.ParseNextKey: over blocks a builder made, as Seek is.
- Blocks.Iter.Seek: over blocks a builder made; corrupted entries are covered only in DecodeEntry and OpenBlock.
- Tables.Open: of finished tables; the statuses for other files are not modelled.
- Tables.ReadMeta: over metaindex blocks a builder wrote.
- Tables.Table.BlockReader: without the block cache.
- TableFormat.ReadBlock: of uncompressed blocks.
- TableBuilders.TableBuilder.WriteBlock: writes blocks uncompressed.
- TableCaches.Get: on a table that is already open; the cache of open tables is the LRU cache of module LruCaches.
- Tables.Table.InternalGet: without the block cache; blocks are uncompressed, as Snappy is foreign code.
- MemTables.MemTable.Add: inserts into the list in comparator order; that a skip list keeps that order is proved in SkipLists over abstract keys.
- PbDecode.InputStream.DecodeVarint32: where uint_fast8_t has 8 bits; on platforms with a wider one, thirty-seven bytes 0x80 and a byte 0x01 are refused instead of read as 8.
- PbEncode.OutputStream.EncodeSubmessage: sizes are unbounded, where the source counts in size_t.
- PbRoundTrip.RoundTripIffFits: needs tags below 2^29, encodings shorter than 4 GiB, which is what tags and lengths on the wire can say, and members at separate places.
- PbDecode.InputStream.DecodeNoinit: a failed decoding returns no struct, where the source leaves it partly written; error texts are not modelled.
- nanopb callbacks, extensions, pointer fields, implicit presence of proto3, fixed-count arrays and builds without 64-bit integers.
- What lies behind the terminator of a C string, behind the count of an array or in an unset union: the model keeps only what the codec reads.
- CompactionRuns.PickCompaction: which level and file ask for a compaction (scores, seek counts) is left open; the compaction pointer is given, and its update is not modelled.
- CompactionRuns.BackgroundCompaction: the version it leads to is the one the builder makes of the edit (EditedVersions.CompactionEditInstalls); manual compactions are not modelled.
- Compaction scores, seek charging, manual compaction and the deletion of obsolete files.
- Iterator cleanup functions, the one-key cache of IteratorWrapper, arenas and reference counts of versions and memtables.
- The environment, loggers, histograms, repair, dump and C bindings of LevelDB, and the app's headers.
