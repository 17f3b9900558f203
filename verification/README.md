# badger-rs: a verified model

badger-rs is an LSM key-value store: skip-list memtables over a double-ended arena, level-0 tables in flush
order, sorted disjoint levels below that concurrent compactions keep in shape, a manifest that records which
table is at which level, and a value log for long values. This project models its hard core in Dafny and
proves that all of it together answers like one plain map. `dafny verify dfyconfig.toml` checks everything.

Four connected components, then their smaller companions:

- **The store as a state machine** (`Lsm*.dfy`, `Reader.dfy`, with `Tables`, `Compaction`, `Changes`). The state
  has the memtables, the flush queue, the levels, one slot per compaction worker, the compaction status, the
  manifest, the file ids and the CAS counters. The steps are those the code takes under its locks: write an
  entry, swap the memtable, take a flush task, reserve a file id, log and add a level-0 table, drop the memtable,
  pick, reserve ids for the output, log, install (add to the next level), remove (delete from this level),
  unregister. Any number of workers interleave freely. The invariant is `LsmInv.Inv`; `LsmTheorems.StepInv` shows
  that every step keeps it, `LsmSafety.CrashRestart` that a crash at any point keeps it. `LevelHandler`, `Compactor`,
  `CompactRun` and `Kv` hold the same operations as classes whose methods update fields in place, each proved
  against the functions and steps of the state machine.
- **Merging and compaction output** (`Merge`, `MergeIterator`, `ConcatIterator`, `CompactionBuild`,
  `CompactionOutput`). The heap iterator is proved against a recursive merge, the merge against its
  characteristic property, and the tables cut from it against what the state machine asks of a compaction.
- **The skip list** (`SkipShape`, `SkipList`, `SkipIterator` for one thread; `SkipConcurrent`, `SkipWorld` for many
  writers and readers with one step per shared read, write or compare-and-swap; `Arena` for the memory below).
- **The table format** (`Bytes`, `TableFormat`, `TableBuilder`, `TableIndex`, `BlockIterator`, `TableIterator`,
  `TableRoundTrip`), at the level of bytes.
- **Companions**: the manifest log (`ManifestApply`, `ManifestLog`, `ManifestFile`), the value-log writer
  (`ValueLog`) and its connection with the memtable (`WritePath`), batching (`Batch`), key order (`KeyOrder`).

Outside the byte formats a key is its rank in byte order; `KeyOrder.RankEmbeds` says why nothing is lost.

## What the code needs

Preconditions that the code relies on without checking appear in the contracts:

- A live value has at least one byte, since a memtable lookup falls through an empty one
  (`LsmResults.WriteFoundIff` says exactly when a write is found). The methods of `Kv` write any value;
  `Kv.WritableTrace` says when what they do is a run of the store.
- `replace_tables` keeps a table whose biggest key equals the left end of the incoming tables. That is wrong
  exactly when such a table is there (`Tables.ReplacedInShape`), it can only be a table with a single key
  (`LsmSafety.EdgeIsSingleKey`), and `LevelHandler.SingleKeyTableSurvives` shows the stale read that follows. The
  Install step is guarded accordingly.
- The merge cursor asserts that it never delivers an internal key; on a full pass that holds exactly when
  internal keys lead every source (`Merge.NoInternalIff`).
- A change set that fails is not logged, but its first changes stay in memory; the log still agrees exactly when
  the first change was the failing one (`ManifestFile.FailedAgreesIff`, `ManifestFile.FailedExample`). In the store
  change sets never fail (`LsmSafety.LogNeverFails`).
- Manifest levels are kept in eight bits (`ManifestApply.CreateConsistentIff`). `ManifestFile` applies and logs any
  level; what ties its memory to its file is claimed for levels that fit.
- Table keys are not empty and lengths fit two bytes, file offsets fit four.

Where comments and code differ the model follows the code: `KeyRange::equals` compares only the left ends of two
ranges (src/compaction.rs:269-272), yet `LsmStatus.UnregisterStatus` shows that `delete` removes the right range.

## Model

| member | source | states |
|---|---|---|
| LsmTheorems.InitInv | src/levels.rs:69-150 | an empty store satisfies the invariant |
| LsmTheorems.StepInv | src/kv.rs:292-358 | every step, with any number of compaction workers interleaved, keeps the whole invariant: level shape, version order across levels and memtables, compaction claims, manifest agreement, history |
| LsmTheorems.RunInv | src/levels.rs:342-423 | the invariant holds in every state of every run |
| LsmResults.FindIsLatest | src/kv.rs:161-202 | in every invariant state `_get` finds exactly the last applied write of the key, tombstones included |
| LsmResults.GetIsLatest | src/kv.rs:161-202 | `_get` answers the last write with every field as written, or nothing when the key was never written or its last write has the delete bit |
| LsmResults.LookupRefinesMap | src/kv.rs:161-202 | after any run `_get` of any key answers the value the plain last-write map of the writes alone has for it, or nothing when it has none or a tombstone |
| LsmResults.InternalStepInvisible | src/st_manager.rs:75-104 | no swap, flush or compaction half-step changes any lookup |
| LsmResults.FirstHitNewest | src/levels.rs:178-193 | going down the levels, the first hit holds the newest version of all levels |
| LsmResults.SameVersionNoWrite | src/kv.rs:243-252 | if a key shows the same CAS counter at two points of a run, no write to it was applied in between |
| LsmResults.CasNoAba | src/kv.rs:435-530 | a write checked against a counter read earlier succeeds only if no write to the key was applied since, and then the value is the one read |
| LsmResults.CheckedWriteIff | src/kv.rs:450-487 | a checked write is applied exactly when the key is live, its counter matches and it does not also ask for an absent key; each of the three refusals has its own exact condition |
| LsmResults.UncheckedWriteIff | src/kv.rs:479-487 | a write without a check counter is refused exactly when it asks for an absent key and the key is live |
| LsmResults.WriteEffects | src/kv.rs:490-517 | an applied write puts a value below the threshold in as it is, a longer one as its pointer with the pointer bit added to the meta byte, with its own user meta and counter; it changes no other key, and a refused one changes nothing |
| LsmResults.VersionStep | src/kv.rs:631-635 | an applied write gets a counter above all before it, and nothing else changes a key's counter |
| LsmResults.WriteFoundIff | src/kv.rs:175-190 | a written value is what the next lookup finds exactly when it is a tombstone or has bytes |
| LsmSafety.ClaimsApart | src/compaction.rs:29-66 | in every reachable state the ranges registered at each level are pairwise disjoint |
| LsmSafety.FootprintsApart | src/levels.rs:748-861 | compactions of one level that are not installed yet have disjoint footprints in the next |
| LsmSafety.InstallEvictsBot | src/level_handler.rs:227-279 | each install evicts exactly its compaction's bottom input and adds exactly its output |
| LsmSafety.EdgeIsSingleKey | src/level_handler.rs:255-270 | the table replace_tables wrongly keeps has a single key |
| LsmSafety.AlwaysValidates | src/level_handler.rs:32-77 | `validate` succeeds on every level of every reachable state |
| LsmSafety.ValidatesIff | src/level_handler.rs:32-77 | below level 0 `validate` succeeds exactly on sorted disjoint tables, but for the range of the first table alone |
| LsmSafety.UnregisterNeverFails | src/compaction.rs:69-98 | `delete` finds both ranges of every compaction, and del_size is the sum of the registered sizes, so it does not underflow |
| LsmSafety.DelSizeIsTops | src/compaction.rs:59-65 | in every reachable state del_size is the size of the tables being compacted out of the level, nothing for level 0 |
| LsmSafety.LogNeverFails | src/levels.rs:352-402 | the change set of a built compaction always applies |
| LsmSafety.DropsTheFlushed | src/st_manager.rs:89-104 | the memtable advance_imm drops is the one just added to level 0 |
| LsmSafety.ManifestIsLevels | src/levels.rs:426-443 | with no step half done, the manifest's (id, level) pairs are exactly the tables of the levels |
| LsmSafety.RebuildLevel | src/levels.rs:104-125 | loading the manifest's tables in any order and sorting gives back every level, level 0 by age |
| LsmSafety.CrashRebuild | src/levels.rs:69-150 | from any reachable state, whatever half-done compactions and flush the manifest already records, a restart rebuilds levels in shape that answer every key as the running ones did, with a recorded flushed table on top |
| LsmSafety.CrashRestart | src/levels.rs:69-150 | the store opened after a crash in any reachable state satisfies the whole invariant again and answers every key from what was recorded |
| LsmSafety.ExchangeExists | src/levels.rs:104-125 | also when replace_tables would keep a table too many there is a sorted disjoint level with the output in the place of the bottom input, the one the manifest describes |
| LsmStatus.PickCross | src/compaction.rs:29-66 | a compaction that compare_and_add accepts does not clash with any registered one, also across levels |
| LsmStatus.PickStatus | src/compaction.rs:59-65 | after registering, ranges and del_size are those of the registered compactions |
| LsmStatus.UnregisterStatus | src/compaction.rs:180-202 | although equality looks only at the left end, unregistering removes exactly the compaction's own range at both levels |
| Compaction.RetainRemovesOne | src/compaction.rs:180-187 | among disjoint ranges, retain by left end removes exactly the given one |
| Compaction.OverlapsIff | src/compaction.rs:274-288 | two ranges overlap exactly when some key lies in both |
| LsmDepth.InstallDepthOk | src/levels.rs:366-375 | adding the merged output below keeps the newest version of every key highest |
| LsmDepth.RemoveDepthOk | src/levels.rs:404-408 | so does removing the inputs above |
| LsmDepth.AddDepthOk | src/levels.rs:426-443 | so does a flushed table |
| LsmParallel.OtherAfterInstall | src/level_handler.rs:227-279 | an install does not disturb what any other registered compaction relies on |
| LsmParallel.OtherAfterRemove | src/level_handler.rs:129-150 | nor does a removal |
| LsmParallel.OtherAfterAdd | src/level_handler.rs:282-292 | nor does a table added to level 0 |
| LsmBooks.LogBooks | src/levels.rs:352-402 | logging a compaction keeps manifest, levels and ids in agreement up to its unfinished steps |
| LsmBooks.InstallBooks | src/levels.rs:406 | so does its install |
| LsmBooks.RemoveBooks | src/levels.rs:407-408 | so does its removal |
| LsmManifest.BuildingNew | src/levels.rs:915-918 | a file id reserved by a build is in no level and not in the manifest, and nobody else holds it |
| LsmBooks.NameBooks | src/levels.rs:616 | reserving one more file id for an output, with any other steps in between, keeps manifest, levels and ids in agreement |
| LsmBooks.NameFlushBooks | src/kv.rs:329 | so does reserving the id of a flushed table, which is above every id in level 0 |
| LsmBooks.DescribeApplies | src/levels.rs:432-440 | the create change of a flushed table always applies |
| Reader.ReadIsAtomic | src/levels.rs:178-193 | a reader that looks at memtables and levels one after the other, with any steps in between, returns what an atomic lookup would have returned at some moment of its read |
| Reader.ReadOfStableKey | src/levels.rs:366-375 | if the key is not written meanwhile, it returns the one current answer |
| Reader.DeepGrows | src/levels.rs:404-408 | no step makes the newest version from some depth on older, so a reader never misses a key that moves down |
| Tables.ReplacedSorted | src/level_handler.rs:227-279 | replace_tables evicts exactly the tables that meet the incoming range and keeps the level sorted and disjoint |
| Tables.ReplacedInShape | src/level_handler.rs:255-270 | the level stays in shape if and only if no table ends where the incoming ones start |
| Tables.SortSorts | src/level_handler.rs:160-166 | sorting tables that are apart gives a sorted disjoint level with the same tables |
| Tables.SortByIdSorts | src/level_handler.rs:155-160 | sorting level 0 by id orders it strictly with the same tables |
| Tables.SortedUnique | src/level_handler.rs:153-166 | a sorted disjoint level is determined by its set of tables |
| Tables.DisjointGet | src/level_handler.rs:340-365 | in a disjoint level the one table that holds the key answers, whatever its place |
| Changes.MergeApplies | src/levels.rs:720-745 | a compaction's change set applies and maps exactly its output to the next level and its inputs to nothing |
| Changes.MoveApplies | src/levels.rs:356-365 | a move's delete and create re-list the table one level down |
| LevelHandler.OverlappingTables | src/level_handler.rs:199-219 | index i is in the half-open result exactly when table i meets the range |
| LevelHandler.SearchBiggest | src/level_handler.rs:340-365 | the binary search by biggest key splits the level at the key |
| LevelHandler.SearchSmallest | src/level_handler.rs:199-219 | the binary search by smallest key splits the level at the key |
| LevelHandler.OnlyCandidate | src/level_handler.rs:340-365 | only the first table that does not end before the key can hold it |
| LevelHandler.LevelHandler.Validate | src/level_handler.rs:32-77 | says whether tables are ordered, apart and not inverted |
| LevelHandler.LevelHandler.DeleteTables | src/level_handler.rs:129-150 | removes exactly the listed ids and keeps the recorded size the sum of the sizes |
| LevelHandler.LevelHandler.InitTables | src/level_handler.rs:153-166 | sorts level 0 by id and every other level by smallest key |
| LevelHandler.LevelHandler.ReplaceTables | src/level_handler.rs:227-279 | the new table list and size |
| LevelHandler.LevelHandler.TryAddLevel0Table | src/level_handler.rs:282-292 | appends unless the level is full |
| LevelHandler.LevelHandler.Get | src/level_handler.rs:307-370 | finds a key exactly when the level holds it, newest table first in level 0 |
| LevelHandler.ProbeIsGet | src/level_handler.rs:340-365 | the code's one-candidate probe equals the level's answer on every disjoint level |
| LevelHandler.SingleKeyTableSurvives | src/level_handler.rs:255-270 | a concrete single-key table that survives its replacement and answers with the overwritten version |
| Compactor.GetRange | src/compaction.rs:249-267 | the hull of the tables, attained at both ends |
| Compactor.CompactStatus.OverlapsWith | src/compaction.rs:101-113 | whether some registered range overlaps |
| Compactor.CompactStatus.CompareAndAdd | src/compaction.rs:29-66 | accepts exactly when no range overlaps and the level is over its size, and then registers both ranges and the size |
| Compactor.RemainingIs | src/compaction.rs:48-58 | the size compared is the level less the tables being compacted, and wraps when those are no longer counted |
| Compactor.CompactStatus.Delete | src/compaction.rs:69-98 | unregisters, and reports whether both ranges were found |
| Compactor.BottomTables | src/levels.rs:764-772 | the slice cut out by the binary searches is the list of all next-level tables that meet the range |
| Compactor.FillTablesL0 | src/levels.rs:748-784 | takes all of level 0 and what it meets below exactly when neither range is taken and the level is over its size, else changes nothing |
| Compactor.FillTables | src/levels.rs:786-861 | takes the first table in the order whose compaction is not refused, all before it being refused; none only if every table's is |
| Compactor.FillIsPick | src/levels.rs:295-317 | a filled compaction is a pick step of the store |
| CompactRun.RunCompactDef | src/levels.rs:342-423 | manifest first, then the next level, then this level; nothing changes when the change set fails |
| CompactRun.RunIsSteps | src/levels.rs:342-423 | such a run, with the ids of its output reserved, is a log, an install and a remove step of the store |
| Kv.KV.constructor | src/kv.rs:770-799 | a new object stands for an initial state of the store |
| Kv.KV.Get | src/kv.rs:161-202 | newest memtable first, then levels: the state machine's lookup |
| Kv.KV.NewCasCounter | src/kv.rs:631-635 | reserves counters never used before |
| Kv.KV.WriteOne | src/kv.rs:442-527 | the checks of one entry against the current value, and when they pass the memtable gets its bytes or its pointer, with meta, user meta and counter spelled out |
| Kv.KV.WriteToLsm | src/kv.rs:435-530 | the entries of a request are written in order, each response decided by the value current just before |
| Kv.KV.EnsureRoom | src/kv.rs:532-572 | a full memtable goes to both the flush channel and the immutable list, or nothing changes |
| Kv.KV.FlushTask | src/kv.rs:292-358 | one flush task in any reachable state: the oldest immutable memtable becomes the newest level-0 table and is dropped, the invariant holds and no lookup changes; with level 0 full it stops before adding |
| Kv.KV.ReceiveTask | src/kv.rs:295 | the flusher takes the oldest task of the channel |
| Kv.KV.RecordTable | src/levels.rs:432-440 | the create change is recorded exactly when the id is new |
| Kv.KV.AddLevel0 | src/levels.rs:443-445 | the table is added exactly when level 0 is below its stall limit |
| Kv.KV.AdvanceImm | src/st_manager.rs:89-104 | drops the oldest immutable memtable |
| Kv.KV.WriteRequests | src/kv.rs:221-289 | what a batch does is exactly: counters for every request, then for each request a swap if and only if the memtable it meets is full, then its entries in order with consecutive fresh counters; each response is decided by the value current just before its own write; it stops short only at a full memtable with a full flush channel |
| Kv.KV.WriteFrom | src/kv.rs:264-282 | a batch that waited for room goes on where it stopped, with the counters reserved for it |
| Kv.KV.WriteRequest | src/kv.rs:264-282 | a full memtable goes to the flush channel and the immutable list before the request's entries, one with room stays |
| Kv.SwapsWhenFull | src/kv.rs:532-538 | a batch swaps memtables only when they are full |
| Kv.FirstMeetsRoom | src/kv.rs:269-281 | the memtable that the first entry of a request goes into is not full |
| Kv.WritableTrace | src/kv.rs:183-190 | without live values with no bytes all of this is a run of the store |
| Kv.CountersConsecutive | src/kv.rs:243-252 | counters grow by one from each entry to the next, across requests |
| Kv.AllWritesAt | src/kv.rs:243-282 | entry i of request n is written at its place, with its own fields, pointer and counter |
| WritePath.LongHasPointer | src/kv.rs:501-503 | with one threshold, every entry the memtable does not keep by its bytes has a pointer, and the pointer stands for it |
| WritePath.YieldItemValue | src/kv.rs:1293-1321 | what is read for an entry found by a lookup is the entry's value, short or long, nothing for a tombstone; the offset check never fails |
| Merge.MergedItems | src/y/merge_iterator.rs:173-233 | the merge has exactly the item of the lowest source that holds each key |
| Merge.MergedSorted | src/y/merge_iterator.rs:331-346 | it is strictly sorted, downwards when reversed |
| Merge.MergedUnique | src/y/merge_iterator.rs:173-233 | no other list is sorted and has these items |
| Merge.NoInternalIff | src/y/merge_iterator.rs:24-30 | the cursor's assertion holds on a full pass exactly when internal keys lead every source |
| MergeIterator.Peek | src/y/merge_iterator.rs:331-346 | the heap's greatest entry: earliest key, lowest index on a tie |
| MergeIterator.FlagExact | src/y/merge_iterator.rs:258-279 | heap_flag[i] is set exactly when source i has one entry in the heap, and none has two |
| MergeIterator.GreatestIsBest | src/y/merge_iterator.rs:331-346 | the heap's greatest entry is the head the merge takes |
| MergeIterator.MergeIterator.MoveSameKey | src/y/merge_iterator.rs:204-228 | every source with the delivered key moves on once, no other does |
| MergeIterator.MergeIterator.Step | src/y/merge_iterator.rs:173-233 | delivers the first item of the merge and leaves the rest of the merge |
| MergeIterator.MergeIterator.Next | src/y/merge_iterator.rs:49-56 | the same for next, with no source at all too |
| MergeIterator.MergeIterator.Rewind | src/y/merge_iterator.rs:58-85 | starts the merge of all sources past their leading internal keys and never delivers one |
| ConcatIterator.ConcatIterator.Rewind | src/table/iterator.rs:667-682 | stands at the first of all items, table after table in the direction of the walk |
| ConcatIterator.ConcatIterator.WalkOrder | src/table/iterator.rs:667-682 | a reversed walk takes the tables from the last to the first |
| ConcatIterator.ConcatIterator.Next | src/table/iterator.rs:634-665 | moves to the next item although it retraces the walk from the first table each time |
| ConcatIterator.ConcatIterator.Peek | src/table/iterator.rs:720-726 | the current item |
| CompactionBuild.LowestIsGet | src/y/merge_iterator.rs:204-228 | the winning item of a key is what the first source that holds it answers |
| CompactionBuild.TopAnswers | src/levels.rs:548-565 | reversed level-0 tables, past internal keys, answer as the level does |
| CompactionBuild.BotSorted | src/levels.rs:566-568 | the bottom tables one after the other are one sorted source |
| CompactionBuild.OutputAnswers | src/levels.rs:542-576 | the merge of a compaction answers every key as the top tables do, else as the bottom tables do, tombstones included |
| CompactionOutput.BuildChunks | src/levels.rs:580-614 | the chunks in order are the whole merge, each closed by the first item that fills it |
| CompactionOutput.SortByBiggest | src/levels.rs:704-705 | a permutation sorted by biggest key |
| CompactionOutput.OrderRestored | src/levels.rs:677-705 | whatever order the build tasks finish in, the sort restores the key order |
| CompactionOutput.BuildIsOutput | src/levels.rs:528-718 | tables cut from the merge are disjoint, have exact ranges and hold exactly the newest-wins merge |
| CompactionOutput.CompactBuildTables | src/levels.rs:528-718 | the whole build: every table under an id reserved for it, concatenation equal to the merge, and what the store's log step asks for |
| ManifestApply.CreateConsistentIff | src/manifest.rs:393-411 | a create keeps table map and level sets together exactly when the level fits eight bits |
| ManifestApply.ChangeConsistent | src/manifest.rs:390-435 | the assertion of a delete never fails, and a change acts on the table map as the store assumes |
| ManifestApply.SetConsistent | src/manifest.rs:380-388 | a change set applies exactly when the store's table map says so; creations minus deletions stays the table count |
| ManifestApply.SameLevels | src/manifest.rs:234-242 | the table map determines the set of every level |
| ManifestLog.ReplayTables | src/manifest.rs:295-317 | replaying intact records is applying all their changes in order |
| ManifestLog.BadTail | src/manifest.rs:297-317 | a record with a bad checksum and everything after it leaves state and offset of the last good record |
| ManifestLog.OffsetCounts | src/manifest.rs:283-322 | the offset counts the file's first eight bytes, and eight and the content for each record |
| ManifestLog.SnapshotRebuilds | src/manifest.rs:365-375 | a snapshot in any map order rebuilds the same tables and level sets with no deletions |
| ManifestFile.AppendAgrees | src/manifest.rs:97-104 | appending an applied change set keeps log and memory in agreement |
| ManifestFile.FailedAgreesIff | src/manifest.rs:71-81 | after a failed change set they agree if and only if its first change failed |
| ManifestFile.FailedExample | src/manifest.rs:71-81 | a concrete change set that leaves them apart |
| ManifestFile.AgreesLevels | src/manifest.rs:283-322 | a log in agreement gives back the same tables under every level |
| ManifestFile.ManifestFile.constructor | src/manifest.rs:187-198 | a new file holds an empty snapshot and agrees |
| ManifestFile.ManifestFile.ApplyManifestChange | src/manifest.rs:390-435 | the change in place |
| ManifestFile.ManifestFile.ApplyChangeSet | src/manifest.rs:380-388 | stops at the first change that does not apply, earlier ones stay |
| ManifestFile.ManifestFile.Open | src/manifest.rs:283-322 | for any records: ends as the replay does, cuts the file after the last good record and agrees |
| ManifestFile.ManifestFile.AsChanges | src/manifest.rs:365-375 | lists every table once as a create, in any order |
| ManifestFile.ManifestFile.Rewrite | src/manifest.rs:110-121 | one snapshot record, creations reset to the table count, log and memory agree |
| ManifestFile.ManifestFile.AddChanges | src/manifest.rs:71-107 | for any changes: memory first, then one more record, or a snapshot exactly when deletions are above the threshold and above ten times the tables, which bounds them afterwards; with levels that fit, memory and file stay in agreement; failed: nothing logged |
| ManifestFile.CountsKept | src/manifest.rs:390-435 | creations less deletions stay the number of tables, so the rewrite test does not underflow |
| SkipShape.LinkShape | src/skl/skip.rs:302-313 | linking a node between its neighbours keeps every level sorted and inside the level below |
| SkipShape.NextNode | src/skl/skip.rs:103-106 | a pointer leads to the next node of its level with nothing in between |
| SkipList.SkipList.FindNear | src/skl/skip.rs:118-193 | the exact neighbour in all four modes, and found exactly when the key is there and equality allowed |
| SkipList.SkipList.FindSplice | src/skl/skip.rs:199-225 | the two neighbours of the key at the level, or the key's node |
| SkipList.SkipList.Put | src/skl/skip.rs:233-256 | the map changes at exactly one key; a new node is linked at exactly the levels of its tower, an old key changes no link |
| SkipList.SkipList.AddNode | src/skl/skip.rs:257-342 | linking the new node from the base up, with the index assertion proved |
| SkipList.SkipList.FindLast | src/skl/skip.rs:350-367 | the greatest key, nothing exactly when the list is empty |
| SkipList.SkipList.Get | src/skl/skip.rs:371-389 | the value the map has for the key |
| SkipList.BetweenNodes | src/skl/skip.rs:175-190 | base-level neighbours of an absent key are the answers of all four modes |
| SkipIterator.SkipIterator.Next | src/skl/skip.rs:604-619 | one position forward among head, nodes and end |
| SkipIterator.SkipIterator.Prev | src/skl/skip.rs:622-637 | one position back, from the end to the last node |
| SkipIterator.SkipIterator.Seek | src/skl/skip.rs:659-668 | the least entry not below the key, else back to the head |
| SkipIterator.SkipIterator.SeekToPrev | src/skl/skip.rs:671-680 | the greatest entry not above the key, else the head |
| SkipIterator.NearestKey | src/skl/skip.rs:111-117 | in all four modes the node found holds the nearest key on the wanted side of the contents, and none is found exactly when there is no such key |
| SkipIterator.SkipIterator.SeekToFirst | src/skl/skip.rs:684-703 | the first entry of a non-empty list |
| SkipIterator.SkipIterator.SeekToLast | src/skl/skip.rs:705-714 | the last entry |
| SkipConcurrent.SearchStep | src/skl/skip.rs:242-255 | a step of the first search keeps what its put and all others rely on |
| SkipConcurrent.SeekStep | src/skl/skip.rs:285-340 | so does a step of a later search; above the base level it cannot meet its own key |
| SkipConcurrent.CasStep | src/skl/skip.rs:302-313 | a compare-and-swap links the node in order or changes nothing; at the base level it is the put taking effect |
| SkipConcurrent.StoreStep | src/skl/skip.rs:302-303 | storing the new node's own pointer disturbs no level |
| SkipConcurrent.OverwriteStep | src/skl/skip.rs:247-251 | overwriting a value is the put taking effect |
| SkipConcurrent.RaiseStep | src/skl/skip.rs:263-280 | raising the list height disturbs nothing |
| SkipConcurrent.OthersStable | src/skl/skip.rs:233-342 | a put in progress survives any step of another |
| SkipWorld.StepInv | src/skl/skip.rs:233-342 | every interleaved step of any number of writers and readers keeps the invariant |
| SkipWorld.RunSafe | src/skl/skip.rs:233-342 | over every run levels are strictly sorted and nested, keys unique, no assertion fails, and the contents are the effects of the puts in order |
| SkipWorld.PutOnce | src/skl/skip.rs:233-342 | a put takes effect at most once, and exactly once when it is finished |
| SkipWorld.StepEffect | src/skl/skip.rs:302-339 | no step unlinks a node or changes the contents, except the one by which a put takes effect, at its key only |
| SkipWorld.TowerComplete | src/skl/skip.rs:283-341 | a put through its levels has linked its node at every level of its tower |
| SkipWorld.NeverStuck | src/skl/skip.rs:289-331 | a put is always ready for its next step, and that step fails no assertion |
| SkipWorld.LookupIsAtomic | src/skl/skip.rs:371-389 | over every run, a lookup among any number of puts answers what the list holds at some moment between its start and its answer |
| SkipWorld.ReadOk | src/skl/skip.rs:371-389 | a lookup answers what the list holds at the moment of its last read |
| Arena.ValueWord | src/skl/node.rs:107-117 | offset and size are read back from the value word |
| Arena.RegionsApart | src/skl/alloc.rs:54-59 | regions handed out from the back never overlap |
| Arena.NodesApart | src/skl/alloc.rs:46-52 | nodes never overlap and none is at the nil offset |
| Arena.Arena.PutKey | src/skl/arena.rs:62-68 | the bytes are in the buffer, everything written before is untouched |
| Arena.Arena.NewNode | src/skl/node.rs:52-73 | the new node reads back its key and value, every other node what it did |
| Arena.Arena.SetValue | src/skl/node.rs:83-87 | one node's value changes, all other nodes and keys stay |
| Arena.Arena.KeyOf | src/skl/node.rs:94-96 | a node's key reads back unchanged |
| Arena.Arena.ValueOf | src/skl/node.rs:89-92 | a node's latest value reads back unchanged |
| Arena.Arena.LenIsUsed | src/skl/alloc.rs:80-101 | `len` counts exactly what was handed out from both ends, and with `free_count` makes up the capacity |
| Arena.Arena.NoOverlap | src/skl/alloc.rs:86-101 | nodes are aligned and end below the head, everything else lies between tail and end |
| Bytes.HeaderRoundTrip | src/table/builder.rs:30-64 | a table entry header decodes to itself |
| Bytes.HeaderLayout | src/table/builder.rs:42-50 | its ten bytes are the two-byte lengths and the four-byte offset in their order, most significant byte first |
| Bytes.BigEndianAt | src/table/builder.rs:42-50 | the most significant byte of a number comes first |
| Bytes.ValueRoundTrip | src/y/iterator.rs:37-52 | a value decodes to itself |
| Bytes.ValueLayout | src/y/iterator.rs:37-44 | meta, user meta, eight bytes of counter, then the value |
| Bytes.ValueInjective | src/y/iterator.rs:37-52 | different values have different bytes |
| TableFormat.BodyAppend | src/table/builder.rs:97-136 | appending an entry appends one record whose back pointer is the entry before |
| TableFormat.ReadEntry | src/table/iterator.rs:151-179 | at an entry's offset a reader finds its header, the rest of its key and its value |
| TableFormat.ReadDummy | src/table/builder.rs:138-143 | the end of a block reads as the dummy, and past it as a header of zeros |
| TableBuilder.Builder.KeyDiff | src/table/builder.rs:86-95 | what is left of the key after the longest common prefix |
| TableBuilder.Builder.Add | src/table/builder.rs:147-160 | the entry is added; a full block is closed first |
| TableBuilder.Builder.Finish | src/table/builder.rs:195-227 | the file is the encoding of the added entries cut into blocks of 100 |
| TableIndex.ReadOffsets | src/table/table.rs:229-250 | reading backwards from the end finds every block's end offset |
| TableIndex.ReadIndex | src/table/table.rs:229-298 | the index lists the blocks in order with first keys, none in a one-block table |
| TableIndex.BlockInFile | src/table/table.rs:300-310 | a block's bytes are where the index says |
| BlockIterator.BlockIterator.Next | src/table/iterator.rs:151-179 | one entry forward, to the dummy, and past it |
| BlockIterator.BlockIterator.Prev | src/table/iterator.rs:197-219 | one entry back; after two overruns the zero bytes send it to the first entry |
| BlockIterator.BlockIterator.Peek | src/table/iterator.rs:182-195 | the current entry |
| BlockIterator.BlockIterator.SeekToLast | src/table/iterator.rs:137-141 | the last entry of a block that has not been overrun |
| BlockIterator.BlockIterator.Seek | src/table/iterator.rs:103-115 | the first entry not below the key |
| TableIterator.IteratorImpl.Next | src/table/iterator.rs:499-513 | the next entry of the whole table across block boundaries, or the end |
| TableIterator.IteratorImpl.Prev | src/table/iterator.rs:471-497 | the entry before across block boundaries, for any mix of moves until the table is overrun |
| TableIterator.IteratorImpl.Rewind | src/table/iterator.rs:310-317 | the first entry, the last one of a reversed iterator |
| TableIterator.IteratorImpl.Peek | src/table/iterator.rs:327-337 | the entry at the cursor |
| TableIterator.IteratorImpl.SearchIndex | src/table/iterator.rs:402-405 | the binary search splits the index at the key |
| TableIterator.IteratorImpl.SeekFrom | src/table/iterator.rs:396-426 | index search, block scan and next-block fallback find the least entry of the table not below the key |
| TableIterator.IteratorImpl.SeekForPrev | src/table/iterator.rs:457-469 | the greatest entry not above the key |
| TableRoundTrip.Build | src/table/builder.rs:147-227 | any storable entries become a table file of them in blocks of 100 |
| TableRoundTrip.Walk | src/table/iterator.rs:499-513 | walking forward gives all entries |
| TableRoundTrip.WalkBack | src/table/iterator.rs:471-497 | walking back gives them in reverse |
| TableRoundTrip.RoundTrip | src/table/table.rs:143-168 | build, open and walk give the entries back, and smallest and biggest are the first and last key |
| KeyOrder.RankEmbeds | src/y/merge_iterator.rs:331-346 | ranks keep the byte order of any finite set of keys |
| KeyOrder.LessIff | src/y/merge_iterator.rs:331-346 | the order is lexicographic: a proper prefix comes first, else the smaller byte at the first difference decides |
| ValueLog.PointerRoundTrip | src/value_log.rs:304-320 | a value pointer decodes to itself |
| ValueLog.PointerLayout | src/value_log.rs:304-312 | file, length and offset in four bytes each |
| ValueLog.LogHeaderRoundTrip | src/value_log.rs:74-102 | a header of 26 bytes in its 32-byte slot decodes to itself |
| ValueLog.LogHeaderLayout | src/value_log.rs:80-91 | where each header field lies in the slot, and that the rest of the slot is zero |
| ValueLog.Encode | src/value_log.rs:206-234 | filling the buffer step by step gives the entry's encoding |
| ValueLog.ValueLog.Append | src/value_log.rs:775-789 | the pointer counts file offset and buffered bytes, and names the entry |
| ValueLog.ValueLog.Write | src/value_log.rs:747-815 | an entry gets a pointer exactly when writes are synced or its value has at least threshold bytes; the pointer stands for the entry, earlier ones stay good |
| ValueLog.ValueLog.ReadBytes | src/value_log.rs:727-744 | a pointer handed out at any time reads back its entry's value, nothing for a tombstone |
| Batch.GoodAll | src/kv.rs:374-384 | an entry is among the packed ones exactly when it fits the limits |
| Batch.BatchSet | src/kv.rs:366-433 | every entry within the limits is in exactly one request, in order, and gets the response of its own place; the others get their error; a request is closed by the entry that reaches a limit |

## Left out

- Installing over a single-key bottom table at the left end: the Install step is held back there, the code goes on and then answers with a stale version (`LevelHandler.SingleKeyTableSurvives`).
- Kv.KV.WriteRequests: the timer and the notification that wake a waiting writer are not modelled; the method returns where it would wait.
- LsmSafety.CrashRestart: memtables that were not flushed are gone; bringing them back is the replay of the value log, which is not modelled.
- ConcatIterator.ConcatIterator.Next: seek is not modelled, because `init` is never set and next after seek restarts at the first table (src/table/iterator.rs:638-645).
- MergeIterator.MergeIterator.Next: merge seek is not modelled; it skips no internal keys.
- TableIndex.ReadIndex: a file that the builder did not write is not modelled; the code panics on most of them.
- ValueLog.ValueLog.Write: rotation to a new file, replay and garbage collection are not modelled.
- ManifestFile.ManifestFile.Open: the file is a list of records; byte positions after reopening and short record bodies are not modelled.
- Compactor.FillTables: the level is chosen by the caller; the float scores of pick_compact_levels are not modelled.
- Compactor.CompactStatus.CompareAndAdd: total size minus del_size wraps at 64 bits as in the code; level choice in the state machine does not depend on it.
- Picking and registering a compaction is one step: the comment at src/levels.rs:302-303 asks that both levels stay unchanged meanwhile.
- `ensure_room_for_write` is one step: its lock guard is dropped at once (src/kv.rs:535).
- A compaction that fails after its manifest record is not unregistered in the state machine.
- `compare_and_delete` sets no delete bit (src/kv.rs:1055-1059), so it writes a live value with no bytes, which the contracts exclude.
- Lookups of `!badger!` keys; tables keep them only as ranges and as leading items of a merge.
- Bloom filters, checksums and protobuf are parameters or bijections; `does_not_have` is taken to be false.
- Memory orderings weaker than sequential consistency, and the check-then-add race of the allocator.
- CAS counters are unbounded; 64-bit overflow is not modelled.
- Files, mmap, directory scans, channels other than queues, reference counts, metrics, shutdown.
- The iterator over the whole store, value prefetch and `IteratorExt::seek`.
