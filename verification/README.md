# Verified core of a small relational database

A Dafny model of the storage, transaction and query core of `simple_rdbms`, with proofs. Each part pairs
the stateful code with a plain specification and proves the two agree for every input, every run or every
crash.

- **Log, recovery, checkpoints** (`Bytes`, `LogRecords`, `History`, `CrashSafety`, `Analysis`, `Runtime`,
  `Checkpoints`, `Sessions`, `Recovery`). The specification of a page is the replay, in order, of the updates
  of committed transactions only. `Recovery.Engine` is the running engine: page writes, flushes, evictions,
  rollbacks, commits, and the steps of a fuzzy checkpoint may come in any order that the transaction manager's
  lock allows, and power may fail at any step.
- **Write-ahead log files** (`LogCodec`, `SegmentedLog`, `WriteAheadLog`, `LogManager`). The specification is
  one growing sequence of records; files are bytes, and a crash keeps any byte prefix of what was not synced.
- **B+tree** (`KeyOrder`, `SplitPoints`, `TreeShape`, `BTree`, `TreeReaders`, `TreeCheck`, `NodeLayout`). The
  specification is a set of entries. Readers run between the steps of inserts and may start from a past root.
  `NodeLayout` is the byte layout of a node.
- **Locks** (`Locks`) and **row versions** (`Mvcc`). The specifications are an acyclic waits-for graph and a
  history that is never pruned.
- **Double-write buffer** (`DoubleWrite`). Pages are bytes in eight sectors; a crash lands any subset of the
  sectors of unsynced writes.
- **Buffer pool** (`BufferPool`). The specification is a map from pages to their last bytes. Every critical
  section is one step, and threads may be anywhere inside a fetch, a new page or an unpin.
- **Index-scan rewrite** (`Memcomparable`, `Expressions`, `Optimizer`, `QueryPlans`, `IndexRanges`,
  `Executors`). The specification of a plan is the list of rows it yields before it ends or fails.
- **EXPLAIN printer and expression parser** (`SqlText`, `ExplainText`, `SqlParser`).

Verify the project with `dafny verify dfyconfig.toml`.

Two properties one might expect do not hold of the code.

Aborted rows do not always stay hidden from everyone who was active at the abort: `Mvcc.StaleCandidate` is a
run that shows it. Such a row stays hidden from a reader in every run (`Mvcc.HiddenInEveryRun`) exactly when
no candidate list that names it has a timestamp at or below the reader's; if one has, `Mvcc.Uncover` is a run
that shows the row. It is always so when a row id is reused only after its old chain is gone
(`Mvcc.TidyPrune`).

An index range on a varchar column can miss a row: `IndexRanges.VarcharRangeMissesARow` loses one for any two
texts of which one extends the other. An index serves every query exactly when its keys are in order
(`IndexRanges.ServesIffInStep`). Those of a fixed-width column always are; those of a varchar column are,
wherever its rows are stored, exactly when no text in it is a proper prefix of another
(`IndexRanges.VarcharInStepIff`).

## Model

| member | source | states |
|---|---|---|
| `History.OneOwner` | crates/storage/src/recovery.rs:182-212 | In a strict log at most one unfinished transaction has an uncompensated write on a byte |
| `History.UndoRestoresCommitted` | crates/storage/src/recovery.rs:182-212 | On a byte no other unfinished transaction touched, undoing a transaction's pending updates newest first gives the byte of the replay of committed updates only |
| `History.ResolvedMeansCommitted` | crates/storage/src/recovery.rs:139-161 | Once nothing is pending, repeating the whole history and replaying only committed updates agree on every byte of every page |
| `History.CompensatedOnce` | crates/storage/src/recovery.rs:182-212 | No two compensation records of a well-formed log undo the same update, however often undo was interrupted |
| `History.UndoKeepsCommitted` | crates/storage/src/recovery.rs:182-212 | The records undo appends change no page of the committed-only replay |
| `History.ClosedStays` | crates/storage/src/recovery.rs:209-210 | A transaction that is closed in some prefix of a well-formed log is closed in the whole log |
| `CrashSafety.AppendSafe` | crates/storage/src/buffer.rs:902-925 | Appending an admissible record keeps the crash invariant: every disk image is a past version whose records are durable, and page 0 names a usable checkpoint in every version a restart can read |
| `CrashSafety.CrashCutSafe` | crates/storage/src/recovery.rs:74-82 | Losing any part of the unsynced log tail keeps the crash invariant |
| `CrashSafety.PageWriteSafe` | crates/storage/src/buffer.rs:750-776 | Writing a newer image of a page keeps the invariant, provided the log up to the page's LSN is durable |
| `CrashSafety.UndoneHeader` | crates/txn/src/checkpoint.rs:33-35 | Undoing an unfinished write of the header's checkpoint LSN brings back a checkpoint that is still usable |
| `CrashSafety.TruncateSafe` | crates/txn/src/checkpoint.rs:43-50 | If no version of page 0 that can still be read or brought back by undo names a checkpoint that needs a record below the bound, dropping all of them keeps the invariant: no later analysis, redo or undo chain reads a dropped record |
| `Analysis.Analyze` | crates/storage/src/recovery.rs:78-130 | The two log passes compute the transaction and dirty-page tables of the specification |
| `Analysis.AnalysisFindsLosers` | crates/storage/src/recovery.rs:78-137 | From any usable checkpoint, every transaction with something to undo is listed as a loser with the LSN its chain starts from, and no committed one is |
| `Analysis.SameLosers` | crates/txn/src/checkpoint.rs:22-41 | Two usable checkpoints, the start of the log included, give the same losers with the same LSNs |
| `Analysis.RedoStart` | crates/storage/src/recovery.rs:140-141 | The lowest recovery LSN in the dirty-page table, past the end of the log if the table is empty |
| `Analysis.RedoStartIsLowEnough` | crates/storage/src/recovery.rs:140-157 | Every write that a disk image lacks lies at or above any redo start below the whole dirty-page table |
| `Analysis.RedoReadsSurvivors` | crates/storage/src/wal.rs:642-668 | The redo start lies above everything truncation removed |
| `Runtime.ClrIsAdmissible` | crates/storage/src/recovery.rs:189-197 | The compensation record of the update under the cursor undoes exactly the newest pending update of its transaction |
| `Runtime.CursorAfterClr` | crates/storage/src/recovery.rs:189-200 | After it the cursor stands on the rest of the pending updates |
| `Runtime.CursorOfOthers` | crates/txn/src/manager.rs:28-34 | What other transactions log between two compensations leaves the cursor on exactly the pending updates of its own transaction |
| `Runtime.PendingIsReadable` | crates/storage/src/recovery.rs:185-187 | A cursor that points at a truncated record has nothing left to compensate, so stopping there loses nothing |
| `Runtime.RedoStep` | crates/storage/src/recovery.rs:145-148 | Reapplying a record a page has not seen keeps the page at the version its LSN names |
| `Runtime.RedoComplete` | crates/storage/src/recovery.rs:139-157 | After redo the cache is the whole history |
| `Runtime.FinishedIsRestored` | crates/storage/src/recovery.rs:159-165 | When every loser is finished and everything is flushed, every page holds the committed-only replay of the log recovery started from |
| `Runtime.RestoredTransfers` | crates/storage/src/recovery.rs:74-180 | What an interrupted recovery leaves, and the crash that ends it, do not change what a later recovery restores |
| `Runtime.SurvivingIdsSuffice` | crates/storage/src/wal.rs:633-640 | The highest transaction id in the surviving log is the highest ever used |
| `Checkpoints.FlightAfterAppend` | crates/txn/src/checkpoint.rs:22-41 | A record of another session and its page write keep a checkpoint in flight sound at every stage: half collected, logged, synced, or with its name in page 0 not yet committed |
| `Checkpoints.FlightMoves` | crates/storage/src/buffer.rs:719-800 | So does a log sync or the flush of a page |
| `Checkpoints.FlightTruncated` | crates/txn/src/checkpoint.rs:43-50 | So does the truncation of an earlier checkpoint |
| `Checkpoints.CollectActiveKeeps` | crates/txn/src/manager.rs:165-170 | Each entry of the active-transaction table may be read at its own moment, after any records of others |
| `Checkpoints.CollectDirtyKeeps` | crates/storage/src/buffer.rs:806-818 | Each entry of the dirty-page table may be read at its own moment, after any writes and flushes of others |
| `Checkpoints.SnapshotIsUsable` | crates/txn/src/checkpoint.rs:26-32 | Once its CheckpointEnd is durable, recovery may start from a fuzzy checkpoint, whenever since its beginning the entries were read |
| `Checkpoints.SnapshotIsCandidate` | crates/txn/src/checkpoint.rs:28-32 | Recovery from it reads nothing below the lowest entry, and nothing below the bound of an earlier checkpoint |
| `Checkpoints.HeaderIsStrict` | crates/storage/src/buffer.rs:826-829 | No unfinished transaction has a write on the header bytes when a checkpoint writes them |
| `Checkpoints.BoundIsDisposable` | crates/txn/src/checkpoint.rs:37-40 | Every record below the bound belongs to a durably finished transaction, and an id at least as high survives |
| `Checkpoints.EarliestBegin` | crates/txn/src/manager.rs:172-174 | The smaller of the given LSN and the oldest first LSN of an unfinished transaction |
| `Sessions.OwnStep` | crates/storage/src/buffer.rs:902-925 | Any record of a running transaction keeps the engine invariant, whatever the other transactions and a checkpoint are in the middle of |
| `Sessions.CompensateKeeps` | crates/storage/src/recovery.rs:189-197 | So does one compensation of a rollback |
| `Sessions.RunningMoves` | crates/storage/src/buffer.rs:719-800 | So do log syncs and page flushes |
| `Sessions.HeaderIsWritten` | crates/storage/src/buffer.rs:826-829 | So does naming the checkpoint in page 0: committed or undone, page 0 names one recovery may start from |
| `Sessions.NameKeeps` | crates/txn/src/checkpoint.rs:33-40 | Once that commit is durable, with any records logged since, the new bound is safe to truncate below |
| `Sessions.TruncateKeeps` | crates/txn/src/checkpoint.rs:43-50 | Truncating below a bound keeps the invariant even while the next checkpoint's name has reached the disk and may still be undone |
| `Recovery.Engine.Write` | crates/storage/src/buffer.rs:902-925 | Logs before- and after-image, stamps the cached page with the LSN, and keeps the engine invariant, given strictness |
| `Recovery.Engine.FlushPage` | crates/storage/src/buffer.rs:719-800 | The log reaches the page's LSN before the page reaches the disk |
| `Recovery.Engine.LogCommit` | crates/txn/src/manager.rs:99-104 | The Commit record alone keeps the invariant; steps of other sessions may follow before it is durable |
| `Recovery.Engine.EndCommit` | crates/txn/src/manager.rs:105-110 | Only a transaction whose Commit record is durable leaves the active set |
| `Recovery.Engine.Commit` | crates/txn/src/manager.rs:99-115 | Unknown transactions and those being rolled back are refused; a commit that returns has its Commit record durable |
| `Recovery.Engine.BeginAbort` | crates/txn/src/manager.rs:118-131 | Unknown transactions and those being rolled back are refused; otherwise the rollback starts at the newest record |
| `Recovery.Engine.UndoStep` | crates/txn/src/manager.rs:28-34 | One turn of a rollback, between any two of which everybody else may take steps: the cursor goes down and only its own records are added |
| `Recovery.Engine.FinishAbort` | crates/txn/src/manager.rs:133-142 | A transaction leaves the active set only with nothing left to undo |
| `Recovery.Engine.Abort` | crates/txn/src/manager.rs:150-159 | Undoes exactly the transaction's own updates and closes it |
| `Recovery.Engine.UndoTransaction` | crates/storage/src/recovery.rs:182-212 | Adds only compensations, Abort and End of the transaction, and leaves it closed; interrupted anywhere it leaves a crash-safe store |
| `Recovery.Engine.Crash` | crates/storage/src/wal.rs:504-560 | Memory and any part of the unsynced log tail are lost; what is left is crash safe |
| `Recovery.Engine.Redo` | crates/storage/src/recovery.rs:139-157 | Repeats history: afterwards the cache reflects every record |
| `Recovery.Engine.UndoLosers` | crates/storage/src/recovery.rs:159-161 | Leaves every transaction finished, whatever the order of the losers |
| `Recovery.Engine.Recover` | crates/storage/src/recovery.rs:74-180 | From every crash-safe store: either every page holds exactly the committed updates of the log it found, or the attempt was cut short and the store is crash safe |
| `Recovery.Engine.RecoverRepeatedly` | crates/storage/src/recovery.rs:74-180 | Recovery interrupted any number of times and then completed restores the pages of one uninterrupted recovery of the first log |
| `Recovery.Engine.BeginCheckpoint` | crates/txn/src/checkpoint.rs:27 | Starts a checkpoint whose every later step keeps the invariant among steps of other sessions |
| `Recovery.Engine.CollectActive` | crates/txn/src/manager.rs:165-170 | Reads one transaction's newest LSN at this moment and keeps the invariant |
| `Recovery.Engine.CollectDirty` | crates/storage/src/buffer.rs:806-818 | Reads one page's dirty mark at this moment and keeps the invariant |
| `Recovery.Engine.LogSnapshot` | crates/txn/src/checkpoint.rs:30-31 | Logs what was collected, and keeps the invariant though the entries are of different moments |
| `Recovery.Engine.SyncSnapshot` | crates/txn/src/checkpoint.rs:32 | From here recovery may start from the checkpoint |
| `Recovery.Engine.WriteHeader` | crates/txn/src/checkpoint.rs:34-35 | Page 0 names the checkpoint, and a power failure now is recovered from |
| `Recovery.Engine.FinishNaming` | crates/txn/src/checkpoint.rs:36-40 | The bound returned is safe to truncate below |
| `Recovery.Engine.WriteCheckpointRecord` | crates/txn/src/checkpoint.rs:22-41 | All the steps together end with page 0 naming the checkpoint and a bound that is safe to truncate below |
| `Recovery.Engine.FlushHeader` | crates/txn/src/checkpoint.rs:45-46 | After it every readable version of page 0 needs nothing below the bound |
| `Recovery.Engine.Truncate` | crates/txn/src/checkpoint.rs:48-50 | Drops only records below the bound, and keeps the invariant whatever happened since page 0 was flushed |
| `Recovery.Engine.FinishCheckpoint` | crates/txn/src/checkpoint.rs:43-56 | Flushes page 0, then drops only records below the bound, and keeps the engine running |
| `LogCodec.RecordRoundTrip` | crates/storage/src/wal.rs:195-241 | An encodable record decodes to itself wherever its bytes stand, whatever precedes and follows |
| `LogCodec.TornRecord` | crates/storage/src/wal.rs:214-241 | Every proper prefix of a record's bytes decodes to nothing |
| `SegmentedLog.PrefixOfConcat` | crates/storage/src/wal.rs:338-355 | Any byte prefix of a run of records is some whole records followed by a torn one |
| `SegmentedLog.DecodesIn` | crates/storage/src/wal.rs:338-355 | Decoding at a record boundary gives that record, and nothing at the end of the whole records |
| `SegmentedLog.ScanRecords` | crates/storage/src/wal.rs:338-382 | Scanning a segment visits exactly its whole records and stops where they end |
| `WriteAheadLog.AppendKeeps` | crates/storage/src/wal.rs:563-575 | The segmented log refines one sequence of records: an append extends it by one record |
| `WriteAheadLog.FlushKeeps` | crates/storage/src/wal.rs:577-604 | A flush changes only how much of the sequence is durable |
| `WriteAheadLog.RollKeeps` | crates/storage/src/wal.rs:423-433 | A roll changes only where segments begin |
| `WriteAheadLog.DropKeeps` | crates/storage/src/wal.rs:642-668 | Dropping leading segments removes a prefix of the sequence and nothing else |
| `WriteAheadLog.TornFlush` | crates/storage/src/wal.rs:577-604 | A power failure inside a flush leaves everything durable, some more whole records, and part of the next one |
| `WriteAheadLog.TornRoll` | crates/storage/src/wal.rs:423-433 | A power failure inside a roll leaves every record |
| `WriteAheadLog.ReadAt` | crates/storage/src/wal.rs:694-724 | Returns exactly the record at every surviving LSN, and nothing below the first segment |
| `LogManagement.SortedIds` | crates/storage/src/wal.rs:268-298 | The ids of all files in increasing order |
| `LogManagement.Bootstrap` | crates/storage/src/wal.rs:490-560 | Whatever a power failure left, and on a store without files, opening succeeds and holds exactly the whole records on disk |
| `LogManagement.FreshStore` | crates/storage/src/wal.rs:490-502 | A store without files is one of them: it holds the empty log |
| `LogManagement.LogManager.Append` | crates/storage/src/wal.rs:563-575 | The record takes the next LSN, is chained to its transaction's last one, and is last in the sequence |
| `LogManagement.LogManager.Flush` | crates/storage/src/wal.rs:577-604 | On success everything up to the LSN is durable; on power failure nothing durable is lost |
| `LogManagement.LogManager.TruncateBelow` | crates/storage/src/wal.rs:642-668 | Keeps every record at or above the bound, and drops every leading sealed segment that ends at or below it |
| `LogManagement.LogManager.LosePower` | crates/storage/src/wal.rs:504-560 | The files hold a prefix of the sequence that contains everything durable |
| `LogManagement.LogManager.Reopen` | crates/storage/src/wal.rs:490-560 | The reopened log is that prefix |
| `LogManagement.LogIterator.constructor` | crates/storage/src/wal.rs:670-692 | Starts at or before the first surviving record at or above the LSN, skipping only records below it |
| `LogManagement.LogIterator.Next` | crates/storage/src/wal.rs:739-760 | Yields the surviving records at or above the LSN, all of them, in order |
| `KeyOrder.SortOrderIsKeyOrder` | crates/storage/src/btree.rs:127-151 | When no stored key is a proper prefix of another, the order of key bytes followed by row-id bytes is key order |
| `KeyOrder.SortKeyRoundTrip` | crates/storage/src/btree.rs:127-151 | A sort key gives back its key and its row id |
| `SplitPoints.BalancedPoint` | crates/storage/src/btree.rs:235-246 | The first entry at which half of the bytes have been passed |
| `SplitPoints.LeafHalvesFit` | crates/storage/src/btree.rs:235-250 | A leaf that overflowed by one entry, none over a third of the capacity, splits into two fitting halves |
| `SplitPoints.InternalHalvesFit` | crates/storage/src/btree.rs:235-255 | An internal node always splits into two fitting halves around the entry pushed up |
| `BTree.SmallLeafSplits` | crates/storage/src/btree.rs:248-250 | The same, for the entry list of a leaf with the new key inserted |
| `BTree.InternalSplits` | crates/storage/src/btree.rs:252-255 | The same for separators of any length up to the maximum; with three or more entries both halves are non-empty |
| `TreeShape.LeafInsertKeeps` | crates/storage/src/btree.rs:573-580 | Inserting into a leaf with room keeps the whole tree invariant and adds exactly that entry |
| `TreeShape.LeafSplitKeeps` | crates/storage/src/btree.rs:582-597 | Splitting a leaf keeps the invariant, with one separator still to be added above |
| `TreeShape.KidAddedKeeps` | crates/storage/src/btree.rs:604-613 | Adding the separator to the parent settles the tree |
| `TreeShape.InternalSplitKeeps` | crates/storage/src/btree.rs:615-648 | Splitting the parent moves the pending separator one level up |
| `TreeShape.RootAddedKeeps` | crates/storage/src/btree.rs:651-658 | A new root over the two halves settles the tree |
| `TreeShape.OneParent` | crates/storage/src/btree.rs:702-704 | No page is a child twice |
| `BTree.FindUpperBound` | crates/storage/src/btree.rs:161-171 | Binary search for the first separator above the key |
| `BTree.BTreeIndex.DescendForInsert` | crates/storage/src/btree.rs:448-475 | Reaches the leaf of the key holding a path whose top is the root or a node with room for any separator, unless no split can happen |
| `BTree.SplitPath` | crates/storage/src/btree.rs:604-660 | A split never needs an ancestor that was released: a parent that splits is the root if nothing is held above it |
| `BTree.BTreeIndex.SplitLeaf` | crates/storage/src/btree.rs:582-602 | Fails only when a half would not fit, and then leaves every page of the tree as it was |
| `BTree.BTreeIndex.AddToParent` | crates/storage/src/btree.rs:604-649 | Either settles the tree or hands the parent's own split upward |
| `BTree.BTreeIndex.GrowRoot` | crates/storage/src/btree.rs:651-660 | Runs only when the node that split is the root |
| `BTree.BTreeIndex.Insert` | crates/storage/src/btree.rs:563-661 | A new pair is added and nothing else, keeping the whole invariant; too long a key is refused; failure leaves the tree untouched; small entries never fail |
| `TreeReaders.DescendToLeaf` | crates/storage/src/btree.rs:404-424 | From the current or any past root, with splits in between, reaches a leaf that starts at or before the key |
| `TreeReaders.Get` | crates/storage/src/btree.rs:477-509 | With inserts and splits between any two reads, returns every row id of the key present when it began, nothing absent when it ended, and none twice |
| `TreeReaders.ScanLeaf` | crates/storage/src/btree.rs:533-561 | The first entry of the leaf past the given sort key |
| `TreeReaders.RangeIterator.Begin` | crates/storage/src/btree.rs:523-531 | Stands in front of every entry in range |
| `TreeReaders.RangeIterator.Next` | crates/storage/src/btree.rs:841-889 | Yields strictly increasing sort keys below the upper bound, and ends only when no in-range entry present from the start is left |
| `TreeCheck.CheckNodePasses` | crates/storage/src/btree.rs:694-801 | The structure check passes on every node of a settled tree |
| `TreeCheck.ChainsAgree` | crates/storage/src/btree.rs:674-690 | The leaf chain of a settled tree is its key-order traversal |
| `TreeCheck.PassMeansSorted` | crates/storage/src/btree.rs:694-801 | If the check passes on any tree, the entries in traversal order are strictly increasing and within bounds |
| `TreeCheck.CheckInvariants` | crates/storage/src/btree.rs:668-692 | The whole check passes on every settled tree |
| `NodeLayout.ReadEntries` | crates/storage/src/btree.rs:222-233 | Returns the entries of the slots, or corrupt if one of them is |
| `NodeLayout.HoldsReads` | crates/storage/src/btree.rs:222-233 | A page that holds some entries reads as those entries |
| `NodeLayout.InsertHolds` | crates/storage/src/btree.rs:298-318 | After the four writes the page holds the old entries with the payload at that index |
| `NodeLayout.InsertKeepsTail` | crates/storage/src/btree.rs:298-318 | The same writes leave the tail pointer and the bytes before the slot count alone |
| `NodeLayout.NodePage.InsertAt` | crates/storage/src/btree.rs:298-318 | The guarded writes give exactly those bytes |
| `NodeLayout.ChangedRuns` | crates/storage/src/btree.rs:362-387 | The runs cover every byte that differs |
| `NodeLayout.PatchedIsTarget` | crates/storage/src/btree.rs:320-387 | Writing only those runs turns the old bytes into the new ones |
| `NodeLayout.Rebuild` | crates/storage/src/btree.rs:320-360 | Fails exactly when the entries do not fit; otherwise the page reads back as the given tail and entries |
| `NodeLayout.LeafPayloadReads` | crates/storage/src/btree.rs:122-160 | An entry is found again under exactly the sort key it was built from |
| `NodeLayout.InternalPayloadReads` | crates/storage/src/btree.rs:127-151 | Separator and child are read back from an internal payload |
| `NodeLayout.LeafSizesAgree` | crates/storage/src/btree.rs:217-220 | The byte budget of a leaf in the tree model is the budget of the page layout, and the page reads back as its sort keys |
| `NodeLayout.InternalSizesAgree` | crates/storage/src/btree.rs:217-220 | The same for internal nodes, their separators and their children |
| `Locks.ConflictingIs` | crates/txn/src/lock_manager.rs:36-50 | Exactly the other holders whose mode conflicts |
| `Locks.WouldDeadlock` | crates/txn/src/lock_manager.rs:52-67 | Terminates, and is true exactly when waiting would close a cycle in the waits-for graph |
| `Locks.SinkIsSafe` | crates/txn/src/lock_manager.rs:159-166 | New edges into a transaction that waits for nothing close no cycle |
| `Locks.WaitIsSafe` | crates/txn/src/lock_manager.rs:168-172 | A wait the search allowed closes no cycle |
| `Locks.GrantKeeps` | crates/txn/src/lock_manager.rs:159-166 | A grant keeps the graph acyclic, modes compatible, and the two holder tables inverse |
| `Locks.WaitKeeps` | crates/txn/src/lock_manager.rs:168-172 | So does a wait |
| `Locks.ReleaseKeeps` | crates/txn/src/lock_manager.rs:104-119 | So does a release |
| `Locks.GrantedIsHeld` | crates/txn/src/lock_manager.rs:159-166 | A grant gives the mode asked for and changes nobody else's entry for any resource |
| `Locks.ExclusiveIsAlone` | crates/txn/src/lock_manager.rs:16-20 | While one transaction holds a resource exclusively, no other holds it |
| `Locks.LockManager.Lock` | crates/txn/src/lock_manager.rs:138-189 | A finished transaction is refused; otherwise granted, refused as a deadlock victim or made to wait, each exactly when it should be |
| `Locks.LockManager.Retry` | crates/txn/src/lock_manager.rs:145-188 | A woken transaction goes through the same decision again |
| `Locks.LockManager.ReleaseAll` | crates/txn/src/lock_manager.rs:104-119 | Every lock of the transaction and nobody else's is gone, and it may not lock again |
| `Mvcc.VisibilityIsHistory` | crates/txn/src/version_store.rs:93-99 | For every active transaction and every live row, visibility in the pruned store is visibility in a history that is never pruned |
| `Mvcc.CommitKeeps` | crates/txn/src/version_store.rs:36-47 | Committing keeps the store in step with the history |
| `Mvcc.AbortKeeps` | crates/txn/src/version_store.rs:49-66 | So does aborting |
| `Mvcc.PruneKeeps` | crates/txn/src/version_store.rs:68-83 | So does pruning at any watermark no active snapshot is below; with nobody active no chain is left |
| `Mvcc.PruneHidesIff` | crates/txn/src/version_store.rs:68-83 | A prune keeps an aborted row hidden from a snapshot older than the abort if and only if no candidate list that is due names the row |
| `Mvcc.HiddenInEveryRun` | crates/txn/src/version_store.rs:68-83 | If no candidate list that names an aborted row has a timestamp at or below an active reader's, the row stays hidden from the reader in every run |
| `Mvcc.Uncover` | crates/txn/src/version_store.rs:68-83 | If one has, there is a run after which the reader is told the row is visible |
| `Mvcc.StaleCandidate` | crates/txn/src/version_store.rs:49-83 | A run in which a snapshot older than an abort is told the aborted row is visible, because an earlier aborted insert at the same row id left a list that came due first |
| `Mvcc.TidyPrune` | crates/txn/src/version_store.rs:68-83 | Where row ids are reused only after their chain is gone, aborted rows stay hidden from everyone active at the abort |
| `Mvcc.TransactionManager.Begin` | crates/txn/src/manager.rs:78-96 | A fresh id and a fresh read timestamp |
| `Mvcc.TransactionManager.RecordInsert` | crates/txn/src/version_store.rs:26-34 | The row gets one uncommitted version of its creator |
| `Mvcc.TransactionManager.IsVisibleTo` | crates/txn/src/mvcc.rs:28-42 | True exactly when some version is the reader's own or committed no later than its snapshot, or there is no chain |
| `Mvcc.TransactionManager.OldestReadTs` | crates/txn/src/manager.rs:176-178 | The oldest active read timestamp, the next timestamp if nobody is active |
| `Mvcc.TransactionManager.Commit` | crates/txn/src/manager.rs:99-115 | Unknown and aborting transactions are refused; otherwise the rows get the commit timestamp and the store is pruned at the watermark |
| `Mvcc.TransactionManager.FinishAbort` | crates/txn/src/manager.rs:133-142 | The rows lose their version and the store is pruned at the watermark |
| `Mvcc.TransactionManager.Prune` | crates/txn/src/version_store.rs:68-83 | Removes exactly the due prunable chains |
| `DoubleWrite.HeaderRoundTrip` | crates/storage/src/dwb.rs:128-168 | A batch header decodes to its entries and the header of the empty batch to no batch |
| `DoubleWrite.FillHeader` | crates/storage/src/dwb.rs:128-142 | The loop fills exactly the encoded header |
| `DoubleWrite.WriteBlock` | crates/storage/src/block_device.rs:292-360 | A write is pending until synced; a failed write may land any subset of its sectors |
| `DoubleWrite.SyncDevice` | crates/storage/src/block_device.rs:372-382 | A sync applies the pending writes in order; a failed one may stop anywhere |
| `DoubleWrite.Stamped` | crates/storage/src/page.rs:16-32 | A stamped page passes its own checksum and is never all zero |
| `DoubleWrite.CrashIsSafe` | crates/storage/src/block_device.rs:189-390 | A crash with any landed sectors keeps the storage safe: all pages whole, or every page that may be torn covered by the durable batch |
| `DoubleWrite.GuardStarts` | crates/storage/src/buffer.rs:771-776 | Once the batch is durable, its pages may be torn |
| `DoubleWrite.PageStore.constructor` | crates/storage/src/dwb.rs:33-51 | Over pages that are whole the invariant holds, whatever the buffer holds |
| `DoubleWrite.PageStore.WriteBatch` | crates/storage/src/dwb.rs:60-79 | Runs only while no page is torn, so it never overwrites a batch that is still needed; on success the buffer durably holds the batch |
| `DoubleWrite.PageStore.Flush` | crates/storage/src/buffer.rs:719-800 | Success leaves exactly the new images; failure after the batch is durable poisons the store, and a poisoned store writes nothing |
| `DoubleWrite.PageStore.FlushPages` | crates/storage/src/buffer.rs:774-790 | Interrupted anywhere, it leaves a safe store |
| `DoubleWrite.SkipStep` | crates/storage/src/recovery.rs:36-38 | A page whose checksum is right is its whole old or whole new image |
| `DoubleWrite.RestoreStep` | crates/storage/src/recovery.rs:39-43 | A page whose checksum is wrong gets its whole new image from the slot |
| `DoubleWrite.PageStore.RestorePages` | crates/storage/src/recovery.rs:21-48 | The loop leaves every page reading as its whole old or whole new image, or stops with a safe store |
| `DoubleWrite.PageStore.Recover` | crates/storage/src/recovery.rs:13-71 | Whenever it succeeds every page is its whole old or whole new image; whenever it fails or loses power it may start over |
| `BufferPooling.GuardReadsLastBytes` | crates/storage/src/buffer.rs:881-900 | Under any interleaving, a pinned page reads as the last bytes written to it, and its frame is neither free nor owned |
| `BufferPooling.OneFramePerPage` | crates/storage/src/buffer.rs:233-248 | At most one frame per page |
| `BufferPooling.Quiescent` | crates/storage/src/buffer.rs:233-279 | With no thread inside the pool every frame is free or mapped and nothing is left marked as loading or evicting |
| `BufferPooling.TakeVictimKeeps` | crates/storage/src/buffer.rs:504-515 | Taking any evictable frame keeps the invariant; the frame is not pinned |
| `BufferPooling.FailedFlushKeeps` | crates/storage/src/buffer.rs:781-790 | A failed flush may leave anything on disk for its pages without losing their last bytes |
| `BufferPooling.InstallKeeps` | crates/storage/src/buffer.rs:594-621 | Installing a loaded page keeps the invariant; no other frame holds the page, so the branch that yields to a winner is never taken |
| `BufferPooling.SettlePinKeeps` | crates/storage/src/buffer.rs:657-663 | The late half of an unpin is harmless whatever happened to the frame in between |
| `BufferPooling.BufferPool.StartFetch` | crates/storage/src/buffer.rs:291-333 | Pins a cached page, claims an absent one, or must wait, each exactly when it should |
| `BufferPooling.BufferPool.TakeFrame` | crates/storage/src/buffer.rs:484-554 | A free frame or any evictable one; fails exactly when there is neither |
| `BufferPooling.BufferPool.FlushBatch` | crates/storage/src/buffer.rs:719-800 | Success makes the disk agree with the frames and the frames clean; a poisoned pool writes nothing |
| `BufferPooling.BufferPool.Evict` | crates/storage/src/buffer.rs:556-592 | The victim is clean before it leaves the table, or is put back |
| `BufferPooling.BufferPool.ReadPage` | crates/storage/src/buffer.rs:340-347 | A page that is not on disk gives its frame back |
| `BufferPooling.BufferPool.Fetch` | crates/storage/src/buffer.rs:291-357 | A completed fetch pins a frame with the last bytes of the page and changes no page's contents |
| `BufferPooling.BufferPool.NewPage` | crates/storage/src/buffer.rs:369-377 | A completed new page is pinned and zero, and no other page's contents change |
| `BufferPooling.BufferPool.Write` | crates/storage/src/buffer.rs:902-925 | The page's contents become the new bytes and no other page's change |
| `BufferPooling.BufferPool.DropPin` | crates/storage/src/buffer.rs:645-655 | Exactly one pin of the frame is gone |
| `Memcomparable.EncodeInto` | crates/types/src/memcomparable.rs:12-47 | Appends the encoding; a NaN is refused and nothing is appended |
| `Memcomparable.EncodingKeepsOrder` | crates/types/src/memcomparable.rs:12-47 | For values of one column type byte order is value order with NULL first, and equal encodings are equal values |
| `Memcomparable.OrderBitsKeepOrder` | crates/types/src/memcomparable.rs:118-122 | The stored bits of a double are ordered as the number, both zeros alike |
| `Memcomparable.SizeGrows` | crates/types/src/value.rs:50-50 | A larger exponent-and-fraction field is a larger number, subnormals and infinity included |
| `Memcomparable.DecodesBack` | crates/types/src/memcomparable.rs:50-103 | Decoding gives back the value and its encoded length; minus zero comes back as zero |
| `Memcomparable.FixedWidthIsPrefixFree` | crates/types/src/memcomparable.rs:12-47 | No encoding of a fixed-width type is a proper prefix of another |
| `Memcomparable.VarcharPrefixes` | crates/types/src/memcomparable.rs:38-44 | Two varchar encodings are prefix-free if and only if the texts are |
| `Expressions.FlattenAndConjuncts` | crates/planner/src/optimizer.rs:87-94 | Pushes the conjuncts of the predicate in order |
| `Expressions.TrueConjuncts` | crates/executor/src/expression.rs:60-137 | In three-valued logic a predicate is true if and only if every conjunct is |
| `Optimizer.IndexScanBounds` | crates/planner/src/optimizer.rs:123-167 | No index exactly when no conjunct compares an indexed column with a literal; otherwise the first such index with the greatest lower and the least upper bound |
| `Optimizer.StartIsSound` | crates/planner/src/optimizer.rs:148-155 | A row satisfying the conjunct lies past its lower bound, whatever row id follows the key |
| `Optimizer.EndIsSound` | crates/planner/src/optimizer.rs:148-155 | And before its upper bound |
| `Optimizer.BoundsAreSound` | crates/planner/src/optimizer.rs:123-167 | Every row the predicate keeps lies between the bounds |
| `Optimizer.ApplyIndexScanRule` | crates/planner/src/optimizer.rs:60-84 | Rewrites only a filter directly over a table scan |
| `Optimizer.Optimize` | crates/planner/src/optimizer.rs:24-51 | Rewrites every filter over a table scan in the plan, and nothing else |
| `QueryPlans.EachPermuted` | crates/executor/src/operators/filter.rs:25-32 | The order of rows changes neither whether an operator fails nor the multiset it yields |
| `QueryPlans.SkippedIsOutOfRange` | crates/executor/src/operators/index_scan.rs:66-73 | What an index scan leaves out is out of range, for an index whose keys are in order |
| `QueryPlans.RewriteKeepsRows` | crates/planner/src/optimizer.rs:24-167 | The optimized plan yields the same multiset of rows whenever the original raises no error and the keys of the indexes are in order |
| `IndexRanges.CompleteIffInStep` | crates/executor/src/operators/index_scan.rs:66-73 | Every range of a list of entries is complete if and only if its keys are in order |
| `IndexRanges.ServesIffInStep` | crates/executor/src/operators/index_scan.rs:66-73 | An index that agrees with its table returns the right rows for every query and snapshot if and only if its keys are in order |
| `IndexRanges.FixedWidthInStep` | crates/storage/src/btree.rs:127-151 | The keys of a fixed-width column are in order whenever the sort keys are |
| `IndexRanges.VarcharInStepIff` | crates/storage/src/btree.rs:127-151 | The keys of a varchar column are in order, wherever its rows are stored, if and only if no text in it is a proper prefix of another |
| `IndexRanges.VarcharRangeMissesARow` | crates/executor/src/operators/index_scan.rs:66-73 | For any two texts, one a proper prefix of the other, there is a table on which the table scan finds a row that the optimized plan loses |
| `Executors.PullSeq` | crates/executor/src/operators/seq_scan.rs:35-60 | Each call yields the next visible row in heap order |
| `Executors.PullIndex` | crates/executor/src/operators/index_scan.rs:59-96 | Each call yields the next visible row in index order up to the bound; a missing heap row is an error |
| `Executors.Executor.NextFilter` | crates/executor/src/operators/filter.rs:25-32 | Yields the next child row on which the predicate is true; an evaluation error is an error |
| `Executors.Executor.NextProjection` | crates/executor/src/operators/projection.rs:25-35 | Yields the values of the expressions on the next child row |
| `Executors.Execute` | crates/executor/src/operators/filter.rs:25-32 | Pulling to the end gives exactly the rows of the plan's meaning, or an error exactly when it fails |
| `Executors.Query` | crates/planner/src/optimizer.rs:24-27 | Running the optimized plan returns the rows of the original plan in some order, whenever that raises no error |
| `ExplainText.LexRender` | crates/planner/src/explain.rs:120-185 | The lexer reads exactly the tokens of a printed expression |
| `ExplainText.StringBodyStops` | crates/sql/src/lexer.rs:83-106 | A quoted text with doubled quotes reads back as the text |
| `ExplainText.DecimalRoundTrip` | crates/sql/src/lexer.rs:61-81 | A printed integer reads back as the integer |
| `SqlText.LexEndsWithEof` | crates/sql/src/lexer.rs:15-34 | Every token list ends with Eof, which occurs nowhere else in it |
| `SqlParser.OrOfTokens` | crates/sql/src/parser.rs:241-383 | The tokens of a printed expression parse to its tree, up to what ends it |
| `SqlParser.PrintedTextParsesBack` | crates/planner/src/explain.rs:120-185 | Parsing the text printed for an expression gives back its tree |
| `SqlParser.Parser.ReadOr` | crates/sql/src/parser.rs:241-253 | Terminates on every Eof-ended token list with the result of the grammar |
| `SqlParser.Parser.ReadAnd` | crates/sql/src/parser.rs:255-267 | The same for conjunctions |
| `SqlParser.Parser.ReadNot` | crates/sql/src/parser.rs:269-276 | The same for NOT |
| `SqlParser.Parser.ReadIsNull` | crates/sql/src/parser.rs:278-292 | The same for IS [NOT] NULL |
| `SqlParser.Parser.ReadComparison` | crates/sql/src/parser.rs:294-311 | The same for comparisons |
| `SqlParser.Parser.ReadUnary` | crates/sql/src/parser.rs:313-322 | The same for unary minus |
| `SqlParser.Parser.ReadPrimary` | crates/sql/src/parser.rs:324-383 | The same for operands and parentheses |
| `SqlParser.Parser.Step` | crates/sql/src/parser.rs:404-410 | Moves to the next token, and stays on the last one |

## Left out

- Network, wire protocol, command line, worker threads, timeouts, metrics and tracing.
- Catalog persistence, heap page layout and tuple encoding: simpler repeats of the node layout and codec proofs.
- `BTreeIndex::delete`, `Catalog::drop_table` and nested-loop joins, which are unfinished in the source; `QueryPlans.Run` counts a join as failing.
- Statements other than queries: a plan leaf `Statement` stands for INSERT, CREATE TABLE and CREATE INDEX, which the optimizer leaves alone.
- Checksum arithmetic: a checksum is any function of the bytes. Torn pages are assumed detectable, and the checksum of a zero page body is assumed not to be zero.
- The LRU-K policy: any evictable frame may be the victim.
- Double literals and names of session values in the printer round trip: their text does not always parse back to the same node. Negative integer literals print as a negation.
- Recovery.Engine.Write: requires strictness, that no other unfinished transaction has written the bytes. Table pages get it from the exclusive table lock; pages shared between transactions, such as the catalog heap, do not.
- Recovery.Engine.Write: append, page write and dirty mark are one step with respect to a checkpoint, which takes no page latch when it lists dirty pages.
- Recovery.Engine: LSNs are record positions and the device has a fixed number of pages; byte offsets as LSNs are modelled in `WriteAheadLog`, and growing the file is not.
- Recovery.Engine.FlushPage: copying a page, writing the copy and clearing the dirty mark are one step, and a page write is atomic; torn page writes are the subject of `DoubleWrite`.
- Recovery.Engine.WriteCheckpointRecord: a checkpoint that gives up on a log error without a power failure is not modelled.
- Recovery.Engine.Truncate: any amount of log below the bound may go; that whole segments go is modelled in `LogManagement`.
- Recovery.Engine.UndoOne: a compensation record and its page write are one step.
- Recovery.Engine.BeginAbort: an undo that fails without a power failure, and `cancel_abort` after it, are not modelled.
- LogManagement.LogManager.Flush: a write, a sync or a roll that fails without a power failure is not modelled; after a failed write or sync the source keeps the buffer and appends it again at the end of the file, so positions and LSNs part.
- BTree.BTreeIndex.Insert: the pair is new. Latches are not modelled; readers see the tree between page writes of one insert at a time.
- TreeReaders.Get: no stored key is a proper prefix of another, which fixed-width column types guarantee; nothing is claimed for varchar keys.
- TreeCheck.CheckInvariants: the byte-level checks of each page are in `NodeLayout`; on a tree that is not settled the walk along the leaf chain need not end, so only the node check is claimed there.
- Locks.LockManager.Lock: a wait is a step that may be retried or time out; a transaction's own calls do not overlap.
- Mvcc.TransactionManager.RecordInsert: a row id is given out again only after the row that had it was rolled back; the log records of begin, commit and abort are in `Recovery`.
- DoubleWrite.PageStore.Flush: the log flush before a batch is in `Recovery`; the pages of a batch are distinct.
- DoubleWrite.PageStore.Recover: when the buffer holds leftovers of a batch that was never needed, it may fail although every page is whole, as the code does.
- BufferPooling.BufferPool.StartFetch: nobody fetches a page id between its allocation and the return of `new_page`.
- BufferPooling.BufferPool.FlushBatch: one step; the source picks the frames before it latches them.
- Executors.Executor: lock and tuple-decoding errors of the scans are not modelled, and the leaf chain of an index stands for its tree; `scan_leaf` and `leaf_for_start` on the tree are in `TreeReaders`.
- Expressions.EvaluateUnary: negating the smallest integer wraps around, as in a release build; a debug build stops.
- Memcomparable.EncodingKeepsOrder: NaN has no place in the order and is refused by the encoder.
- Optimizer.Optimize: the only rule is the index-scan rule, as in the engine.
- SqlParser.PrintedTextParsesBack: integer literals come back in the widest integer type, which is how the parser reads all of them.
