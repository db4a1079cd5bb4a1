# Block store: model and proofs

This project models the append-only block store of `blockstore/src/store.rs` and the data-file set of
`blockstore/src/file_set.rs`, and proves what the store promises across its functions: that concurrent
writers never share space, that lock-free reads are never torn, that the contiguity floor is exact, that
recovery rebuilds exactly the written history and can be killed at any point, and that with one writer at a
time no acknowledged block is lost when the power fails. Where a promise does not hold, it gives the input
and the exact condition.

## How it is built

- `Bytes`, `BlockFormat`, `IndexFile`: little-endian integers, positional file writes, the 22-byte block
  header, the 64-byte index header and the 16-byte index entries, with the place and byte order of each field
  and round trips in both directions. The index is a value (`Index`), and the lemmas of `IndexFile` show that byte writes and reads on its encoding
  are exactly updates and lookups of that value.
- `FileSet`, `HandleCache`: offsets and places, the allocator's arithmetic, the layout check, and the cache
  of open handles as a class.
- `FloorScan`, `ScanWindow`, `BlockIo`, `Scan`: the chunked floor scan on bytes, the read-ahead window, what
  a read returns, and one run of the recovery scan.
- `ScanOutcomes`: recovery in terms of the bytes it meets, for any contents of the files: which ones it indexes,
  which ones end it, and which ones make it give up.
- `Log`, `History`, `Reopen`: histories of blocks, how the writer lays them out, why the scan reads them
  back, and what a store that holds a history answers.
- `StoreState`, `Store`: the whole state of an open store, one write as a function of it, and the class with
  its mutable fields whose methods are proved against those functions, failing system calls included.
- `PowerLoss`, `Restart`, `Durability`, `CrashSafety`: step machines for an interrupted recovery and for a
  store in sync mode, and the two in sequence. A process kill keeps all completed writes; a power loss keeps
  any subset of those not yet synced.
- `Writers`, `WriterInvariants`, `Concurrency`: any number of calls of `write_block` interleaved at every
  system call, lock and atomic access, with failing writes and rollbacks.
- `ConcurrentCrash`, `AfterPowerLoss`, `Overtaken`: the same interleavings in sync mode with the index file's
  unsynced writes; what a run without failures leaves on disk, which block every height reads after a power
  loss or a kill, when the recovered floor is true, and runs in which something acknowledged is not there.
- `RefusedOpens`: when a cleanly closed store opens again, and an input for each way in which it does not.
- `Agreement` (and the end of `Durability`): a write that no step of another call and no power failure
  interrupts does in each machine exactly what the sequential `Write` does.

Compression and hashing are parameters (`Codec`) with the law that decompression undoes compression and that
a non-empty block compresses to something non-empty. File-system errors of the sequential store are the
argument `fault` of `WriteBlock`. A read or a write of a file at an offset is one step.

## What the proofs found

- A store can close cleanly and then refuse to open. `CloseReopensIff` says exactly when, for every
  interleaving and with or without split files: when a data file is missing, when the files end in front of
  the data highwater, or when a scan of what lies behind the highwater fails. Without failed writes none of
  them happens (`CloseWithoutFailuresReopens`); each of them has an input:
  - Two writes that both fail (`TwoFailedWritesStopReopening`): if the earlier reservation is released first,
    its space is not rolled back, the later release lowers the highwater only to the end of that hole, and the
    close persists an end of data that no file reaches. The comment at blockstore/src/store.rs:1108-1113 calls
    every such hole survivable.
  - One failed write and no concurrency (`StaleBytesStopReopening`): the bytes it left behind the highwater
    look like a block of a height that has no index slot, and recovery gives up on them.
  - A write that cannot open its data file beside one that succeeds in the next file
    (`UnopenedFileStopsReopening`): the file is never created, and an acknowledged block becomes unreachable.
- With split files, a stub of fewer than 22 bytes at the end of the last file is taken for a skipped tail, so
  recovery ends beyond the data; the next clean close makes the store refuse to open (`StubStopsReopening`,
  exact conditions in `RecoverThenCloseIsRefusedIff` and, on the file alone, `StubBehindLogIsRefusedIff`).
- Sync mode does not keep what concurrent writers were told is written, even if nothing fails: a call that
  finishes first may persist a header behind a block whose index entry is not written yet, and that entry is
  never synced before its call returns. A power loss then makes the height read again what it read before:
  nothing (`AcknowledgedBlockIsLost`) or an older block (`AcknowledgedRewriteReverts`), and this can happen in
  every quiet state (`AcknowledgedWriteIsUndone`). `ReadAfterPowerLoss` says for every run and every subset of
  surviving writes what each height reads, `ReadIsKeptIff` when that is what it read before, and `LostIff` when
  it is nothing.
- A process kill loses no block, but it can change which one is read: if two calls overlap at one height and the
  one that reserved its space last publishes first, the scan prefers the other one than reads did
  (`KillSwapsRewrites`, exact condition in `KillKeepsReadIff`).
- The contiguity floor that recovery computes can be false: a header can be on disk that counts a height whose
  entry is not (`RecoveredFloorIsFalse`, exact condition in `FloorAfterIff`). The comment at
  blockstore/src/store.rs:594-600 takes every persisted floor for a lower bound.
- A write that fails at its data sync is undone until the next open, which indexes it after all
  (`FailedSyncComesBack`; `ReopenKeepsReadsIff` says exactly when reopening changes no read).
- The allocator checks the file index only when it skips to a new file; when the last addressable file is
  filled exactly, the next block is placed over that file's start (`AllocatorCanAliasLastFile`, exact
  condition in `PlaceIsExclusiveIff`).
- The question left open at blockstore/src/store.rs:1139 has the answer its author expected: a floor that can
  still move always has a call in flight that will move it (`FloorIsSoundAndOwned`), as long as the index
  reads of the cascade succeed.
- Documentation that the code does not follow: blockstore/src/file_set.rs:43-44 says that the current file is
  cached in addition to `capacity` handles, but the bound is exactly `capacity`; blockstore/src/store.rs:1313-1318
  says that the write path bounds blocks by `MAX_BLOCK_SIZE`, but it checks only that the length fits `u32`.

## Model

| member | source | states |
|---|---|---|
| Bytes.FromToLe | blockstore/src/store.rs:190-197 | little-endian encoding of any value in range decodes to it |
| Bytes.ToFromLe | blockstore/src/store.rs:219-222 | any bytes decode to a value in range that encodes to them |
| Bytes.LeIsWord | blockstore/src/store.rs:199-222 | two, four and eight bytes decode to their digits times 1, 256, 65536 and so on |
| BlockFormat.HeaderRoundTrip | blockstore/src/store.rs:190-231 | every block header survives serialization and parsing |
| BlockFormat.HeaderBytesRoundTrip | blockstore/src/store.rs:199-231 | bytes parse exactly when there are 22 of them, and re-serialize to themselves |
| BlockFormat.HeaderLayout | blockstore/src/store.rs:190-231 | height, size, checksum and version lie at bytes 0, 8, 12 and 20 of a header, least significant byte first |
| BlockFormat.FrameLayout | blockstore/src/store.rs:929-977 | a written block is 22 bytes with its height, compressed length, hash and version 1, and then the compressed bytes |
| FileSet.ReserveFits | blockstore/src/store.rs:1040-1103 | the allocator moves forward, never crosses a file end, and skips only to the next file's start when the block would not fit |
| FileSet.ReserveIff | blockstore/src/store.rs:1040-1104 | space is granted if and only if the block fits a file and, in this file or the next addressable one, ends below 2^64; it is exactly there; and each refusal has its error |
| FileSet.SplitInjective | blockstore/src/file_set.rs:82-97 | within `u32` file indices, two offsets with the same place are the same offset |
| FileSet.SplitIs | blockstore/src/file_set.rs:82-97 | the place of an offset is quotient and remainder by the file size, with the index held at 2^32 - 1; without a file size it is file 0 |
| FileSet.LayoutIff | blockstore/src/file_set.rs:136-176 | the layout check accepts exactly gapless files, a single one without a file size, and computes where the last one ends; and each refusal has its error |
| FileSet.PlaceIsExclusiveIff | blockstore/src/file_set.rs:95 | no smaller offset shares an offset's place if and only if its file index fits `u32` |
| FileSet.AllocatorCanAliasLastFile | blockstore/src/store.rs:1054-1090 | counterexample: behind an exactly full last file the allocator hands out a place that is already taken |
| FileSet.DisjointPlaces | blockstore/src/file_set.rs:82-97 | disjoint offset ranges inside one file each are disjoint byte ranges on disk |
| FileSet.WriteIntoFrame | blockstore/src/store.rs:940-977 | a write inside one reserved range leaves the bytes of every disjoint range alone |
| HandleCache.RecencyIsOrderedByLastAccess | blockstore/src/file_set.rs:46-48 | the recency list of a trace has each accessed index once, ordered by last access |
| HandleCache.CacheIsLru | blockstore/src/file_set.rs:279-311 | after any trace the cached order is the last `capacity` entries of the recency list |
| HandleCache.Inner.constructor | blockstore/src/file_set.rs:52-67 | an empty cache, capacity at least 1 |
| HandleCache.Inner.Insert | blockstore/src/file_set.rs:280-293 | inserting is one access: replaces, or evicts only the least recently used; other handles unchanged |
| HandleCache.Inner.Touch | blockstore/src/file_set.rs:295-304 | touching a cached index is one access, fast path included |
| HandleCache.Inner.Remove | blockstore/src/file_set.rs:306-309 | removes exactly the index from order and handles |
| HandleCache.Inner.Lookup | blockstore/src/file_set.rs:271-276 | returns the cached handle and counts as an access only on a hit |
| HandleCache.Inner.GetOrOpen | blockstore/src/file_set.rs:201-233 | every call extends the trace of accesses, of which the cache holds the most recent indices; a cached handle is returned unchanged, a missing one is opened exactly once |
| HandleCache.Inner.Evict | blockstore/src/file_set.rs:251-254 | forgetting a handle keeps order and handles consistent, and what is left is again the result of a trace |
| IndexFile.EntryRoundTrip | blockstore/src/store.rs:114-120 | an index entry survives its 16 bytes |
| IndexFile.IndexHeaderRoundTrip | blockstore/src/store.rs:126-149 | an index header survives its 64 bytes |
| IndexFile.EntryLayout | blockstore/src/store.rs:114-120 | offset, size and reserved bytes of an entry lie at bytes 0, 8 and 12 |
| IndexFile.IndexHeaderLayout | blockstore/src/store.rs:126-149 | the eight fields of the index header lie eight bytes apart, in the order of the declaration |
| IndexFile.IndexLayout | blockstore/src/store.rs:1258-1274 | entry k lies at bytes 64 + 16k to 80 + 16k of the index file |
| IndexFile.PopulatedIff | blockstore/src/store.rs:696-702 | a height is missing exactly when its slot is behind the end of the file or offset and size in it are both zero |
| IndexFile.EveryImageDecodes | blockstore/src/store.rs:113-149 | every file of 64 + 16n bytes is the encoding of an index value |
| IndexFile.EntryWriteOnDisk | blockstore/src/store.rs:1204-1207 | writing 16 bytes at a height's offset changes that entry only and zero-fills skipped ones |
| IndexFile.HeaderWriteOnDisk | blockstore/src/store.rs:1244-1245 | rewriting the header leaves every entry alone |
| IndexFile.EntryReadOnDisk | blockstore/src/store.rs:1258-1274 | 16 bytes at a height's offset are its entry; past the end there is nothing |
| IndexFile.ReplayAbsorbs | blockstore/src/store.rs:1176-1203 | replaying a sequence of entry writes repairs every index image that differs only where they write |
| FloorScan.FloorIsUnique | blockstore/src/store.rs:613-638 | the contiguity floor below a bound is unique |
| FloorScan.FloorFromSpec | blockstore/src/store.rs:1136-1163 | following populated entries upwards ends at the first gap or the bound |
| FloorScan.ResumeIsExactIff | blockstore/src/store.rs:652-659 | resuming from a persisted floor gives the true floor if and only if all heights up to it are populated |
| FloorScan.ScanFloorIs | blockstore/src/store.rs:639-712 | for every resume point: the scan starts there, clamped to lowest height and highwater, ends at the first gap above, and fails only if no entry can exist behind its start |
| FloorScan.ScanContiguousFloor | blockstore/src/store.rs:639-712 | the 4096-entry chunked scan of the index bytes computes the height-by-height definition |
| FloorScan.ScanChunk | blockstore/src/store.rs:694-704 | one chunk advances the floor to its first gap, the highwater, or its end |
| ScanWindow.Window.Read | blockstore/src/store.rs:333-376 | reads through the window succeed exactly when direct reads do and return the same bytes, whatever was read before |
| BlockIo.ReadHeldFrame | blockstore/src/store.rs:1291-1384 | a frame on disk reads back as its block, or is refused for its size |
| BlockIo.ReadDependsOnRange | blockstore/src/store.rs:1338-1346 | a read depends only on the bytes its entry spans |
| BlockIo.ReadAnswers | blockstore/src/store.rs:1291-1384 | for any bytes of index and data files: a block is returned if and only if its size is 1 to 2^30, its bytes exist, the header repeats the size, the payload decodes to it and its hash is the stored checksum; None if and only if the size is 0; any other read is an error |
| Scan.StepAdvances | blockstore/src/store.rs:733-843 | every scan step that continues strictly raises the position, file skips included |
| Scan.RunFollowsWalk | blockstore/src/store.rs:733-844 | a scan's index, end and highwater are determined by the blocks it visits, in order |
| Scan.RunPersists | blockstore/src/store.rs:838-873 | a scan persists its progress as soon as 64 MiB have been validated since the last time and not before |
| Scan.RunAbsorbs | blockstore/src/store.rs:1176-1203 | entries left by an earlier attempt do not change where a scan ends or what it leaves |
| Scan.VisitReadsBack | blockstore/src/store.rs:760-815 | on arbitrary bytes, a block the scan accepts passes every check of `read_block` |
| Scan.ScanIsSound | blockstore/src/store.rs:724-845 | on arbitrary bytes, each visited height is indexed at its last visit and reads back; other entries are unchanged; the highwater is the maximum |
| Scan.VisitStaysInside | blockstore/src/store.rs:778-836 | no visited block ends past the computed layout |
| Scan.ScanOvershootsIff | blockstore/src/store.rs:746-758 | a scan ends past the layout if and only if files are split and a stub shorter than a header ends the last one |
| Log.TightAppend | blockstore/src/store.rs:932-983 | the two data writes of a reserved block extend the laid-out log by exactly that block |
| Log.TightLayout | blockstore/src/file_set.rs:136-176 | the file sizes of a laid-out log imply exactly where it ends |
| Log.ScanVisitsLog | blockstore/src/store.rs:733-844 | the scan visits the blocks of a log in order, over skipped tails, and goes on behind it |
| Log.ScanInvertsWriter | blockstore/src/store.rs:733-844 | from any block boundary the scan yields exactly the remaining blocks and stops at the allocator's position |
| History.ReadsMatchLog | blockstore/src/store.rs:1291-1384 | reads of a store holding a history return the last block written at a height and nothing elsewhere |
| History.RecoversLog | blockstore/src/store.rs:569-611 | with recent index writes missing or stale, recovery restores reads, highwater and floor of the history |
| History.RecoverOkIff | blockstore/src/store.rs:569-611 | recovery succeeds if and only if no data file is missing, the files reach the persisted offset, and the scan ends without an error |
| ScanOutcomes.StepOutcome | blockstore/src/store.rs:733-836 | for any bytes: the scan indexes exactly the whole blocks, moves on exactly at a stub in front of a possible next file, fails exactly at a whole block without a slot or ending beyond 2^64 and at a stub that no file can follow, and stops everywhere else |
| ScanOutcomes.RecoverIff | blockstore/src/store.rs:569-611 | recovery fails if and only if files are missing or too short, or a way of the scan over whole blocks and stubs leads to such failing bytes |
| ScanOutcomes.DamageEndsTheLog | blockstore/src/store.rs:763-808 | a block behind a log whose payload is cut off, does not decode or has another hash, or whose header is refused, ends recovery in front of it: the store opens and holds exactly the log |
| StoreState.AdmittedPlace | blockstore/src/store.rs:896-935 | an admitted block gets space behind all earlier space, inside one file |
| StoreState.AdmitIff | blockstore/src/store.rs:892-935 | a block is accepted if and only if it is neither empty nor of 2^32 bytes, raw or compressed, its height has an index entry below 2^64, and there is room; otherwise the first failing test names the error |
| StoreState.AllBackedSurvives | blockstore/src/store.rs:940-977 | writes into newly reserved space change no read of any published block |
| StoreState.FrameLands | blockstore/src/store.rs:959-977 | payload first and header second leave the whole frame on disk |
| StoreState.PublishChangesOne | blockstore/src/store.rs:996-1004 | writing the index entry changes what is read at that height and nothing else |
| StoreState.FloorSurvivesWrite | blockstore/src/store.rs:1124-1165 | the cascade keeps the floor sound, never lowers it, and finds the first gap again if it was exact |
| StoreState.CheckpointDueIff | blockstore/src/store.rs:1011-1020 | the two checkpoint triggers in numbers: a tip raised to a multiple of 1024, or 64 MiB |
| Store.Store.Create | blockstore/src/store.rs:488-547 | a truncating open is an empty store with the given file size (none for none or 2^64 - 1), version 1 and the mode it was asked for, floor and highwater below the lowest height |
| Store.Store.Attach | blockstore/src/store.rs:494-547 | a reopening store takes file size (none for 0 or 2^64 - 1), lowest height, offset and header from the disk, and is not yet recovered |
| Store.Store.ReserveSpace | blockstore/src/store.rs:1040-1104 | grants space exactly where `HasRoom` says there is some, and moves the highwater to its end |
| Store.Store.ReleaseReservation | blockstore/src/store.rs:1114-1122 | rolls back only the last reservation |
| Store.Store.WriteData | blockstore/src/store.rs:940-988 | the open, which may fail and then leaves no file, payload, header and, in sync mode, sync, each of which may fail half-way |
| Store.Store.AdvanceMaxContiguousHeight | blockstore/src/store.rs:1124-1165 | run by one thread, the loop of exchanges computes the advanced floor |
| Store.Store.UpdateHighwater | blockstore/src/store.rs:877-883 | raises the highwater to the maximum and tells whether it rose |
| Store.Store.Checkpoint | blockstore/src/store.rs:1219-1250 | refuses offset 0 for a non-empty store; otherwise persists offset, highwater and floor, or changes nothing |
| Store.Store.Close | blockstore/src/store.rs:1404-1428 | the final checkpoint; the index is untouched if recovery never finished, the checkpoint is refused, or it fails |
| Store.Store.WriteBlock | blockstore/src/store.rs:892-1026 | succeeds if and only if the block is admissible and no system call it needs fails, all error paths and the bytes each leaves on disk; a published block changes only its own height; a new header is written if and only if the tip rose to a multiple of 1024 or 64 MiB lie behind the last one, and says offset, highwater and floor; failures give space back unless the entry write failed; the recovery gap stays below 64 MiB and every file within the cap; without faults it is `Write` |
| Store.Store.Publish | blockstore/src/store.rs:993-1021 | index entry, floor and highwater; a checkpoint if and only if the tip rose to a multiple of 1024 or 64 MiB were written since the last one |
| Store.Store.NextBlock | blockstore/src/store.rs:733-836 | the scan's decision, read through the window, is the one on the file bytes that StepOutcome characterises |
| Store.Store.UpdateIndexIfChanged | blockstore/src/store.rs:1176-1203 | writes the entry exactly when the index says something else; afterwards it says the entry |
| Store.Store.RecoverUnindexedBlocks | blockstore/src/store.rs:724-845 | the scan loop ends with index, offset, highwater and error of the uninterrupted run |
| Store.Store.CheckpointRecoveryProgress | blockstore/src/store.rs:862-873 | persists offset and highwater and leaves the persisted floor alone |
| Store.Store.Recover | blockstore/src/store.rs:569-611 | succeeds, fails and ends exactly as the function `Recover` says and touches no data file; a store that holds a history of successful writes is valid again, so that every operation may go on |
| Store.Store.Read | blockstore/src/store.rs:1291-1384 | answers what the bytes of index and data files demand, as in ReadAnswers; creates the data file of a non-empty entry if it is missing and changes nothing else |
| Store.DataWritesAreInvisible | blockstore/src/store.rs:940-992 | however far the data writes of a failing call get, no published block notices |
| Store.HeaderIsCommitPoint | blockstore/src/store.rs:943-977 | if a call has changed a byte of a block header, wherever it then failed, the whole payload is there |
| Store.DataStaysWithin | blockstore/src/store.rs:1047-1104 | the data writes of a call, failing ones included, make no file longer than the cap |
| Reopen.WriteKeepsHistory | blockstore/src/store.rs:892-1026 | a successful write appends its block to the history and keeps every agreement |
| Reopen.HistoryIsKept | blockstore/src/store.rs:892-1026 | after any sequence of successful writes, in any order and with rewrites, the state agrees with exactly those blocks |
| Reopen.ReadsAfterHistory | blockstore/src/store.rs:1291-1384 | after any such sequence, reads return the last block written at each height and None elsewhere |
| Reopen.ReopenRestores | blockstore/src/store.rs:569-611 | an unclean reopen with all writes on disk restores reads, offset, highwater and floor |
| Reopen.CleanReopenIsIdentity | blockstore/src/store.rs:1404-1428 | after a clean close the layout equals the persisted offset, nothing is scanned, and the state is the same |
| Reopen.RecoveredStateIsSound | blockstore/src/store.rs:569-611 | recovery of a history re-establishes what every operation of an open store relies on |
| Reopen.KeptHistoryIsHeld | blockstore/src/store.rs:892-1026 | after any sequence of successful writes the files and the index, as a kill leaves them, hold the history |
| Reopen.HistoryRecovers | blockstore/src/store.rs:569-611 | recovery of a store that holds a history succeeds, and every agreement of an open store is back |
| Reopen.ReopenKeepsReadsIff | blockstore/src/store.rs:569-611 | reopening changes no read if and only if each height the scan visits already read as its last visited block |
| Reopen.FailedSyncComesBack | blockstore/src/store.rs:979-992 | a write that failed at its data sync is indexed by the next clean reopen, and no other height changes |
| Reopen.FilesStayWithin | blockstore/src/store.rs:509-514 | in a store created with a file size, no successful writes make a data file longer |
| Reopen.RecoveryGapIsBounded | blockstore/src/store.rs:1013-1020 | after any successful writes a recovery scan would walk less than 64 MiB |
| Restart.EveryImageLeadsThere | blockstore/src/store.rs:847-873 | every index image a power loss can leave during a scan leads recovery to the same end |
| Restart.RecoveryIsRestartable | blockstore/src/store.rs:733-873 | killed any number of times, losing any unsynced index writes, a scan that ends leaves index, offset and highwater of one uninterrupted run |
| Restart.RecoverIsRestartable | blockstore/src/store.rs:569-611 | the whole of recovery, floor and errors included, gives the same result from every such image, and no mid-scan header claims false contiguity |
| Restart.CheckpointsAdvance | blockstore/src/store.rs:838-873 | each mid-scan checkpoint raises the resume point by at least 64 MiB and never past the layout |
| Restart.VisitWritesIff | blockstore/src/store.rs:1176-1203 | the scan rewrites an index entry exactly when the index says something else |
| Durability.DataSurvives | blockstore/src/store.rs:945-988 | every subset of the unsynced data operations leaves one of four images |
| Durability.DataImageRecovers | blockstore/src/store.rs:945-988 | each such image recovers to the history, or the history and the block in flight |
| Durability.KilledWriteHasPayload | blockstore/src/store.rs:943-977 | however far the data operations of a killed process got, a block header stands in front of its whole payload |
| Durability.IndexSurvives | blockstore/src/store.rs:1209-1247 | every subset of the unsynced index writes leaves a header whose prefix is indexed |
| Durability.SurvivorRecovers | blockstore/src/store.rs:569-611 | recovery succeeds on whatever a power loss leaves in any state that keeps the invariant |
| Durability.RunsInv | blockstore/src/store.rs:892-1026 | every run of the sync-mode machine keeps the invariant |
| Durability.AcknowledgedBlocksSurvive | blockstore/src/store.rs:892-1026 | after power loss at any step, the recovered store holds every acknowledged block, at most the one in flight besides, with exact highwater and floor |
| Durability.WritesAreNeverStuck | blockstore/src/store.rs:892-1026 | the steps' guards cut off no behaviour: a write in flight can always go on |
| Durability.UninterruptedWriteIsWrite | blockstore/src/store.rs:892-1026 | the steps of one write in a row do what the sequential write does, and acknowledge it |
| CrashSafety.NothingLostThroughRestarts | blockstore/src/store.rs:569-1026 | after power loss at any step and any number of kills and power losses of the recovery itself, nothing acknowledged is lost, with exact highwater and floor |
| WriterInvariants.BeginInv | blockstore/src/store.rs:1058-1103 | a new reservation overlaps none that is still held |
| WriterInvariants.ReleaseInv | blockstore/src/store.rs:1114-1122 | the conditional rollback keeps all other space and never undercuts the persisted offset |
| WriterInvariants.PublishInv | blockstore/src/store.rs:996-1004 | writing an entry keeps data, index, floor, highwater and header agreements |
| WriterInvariants.FirstExchangeInv | blockstore/src/store.rs:1124-1134 | the first exchange keeps the floor sound and owned |
| WriterInvariants.LookInv | blockstore/src/store.rs:1141-1150 | reading the next entry either stops at a gap or keeps the floor owned |
| WriterInvariants.ExchangeInv | blockstore/src/store.rs:1152-1158 | the cascade's exchange keeps the floor sound and owned |
| WriterInvariants.SaveHeaderInv | blockstore/src/store.rs:1241-1246 | a header written from separately loaded marks is still true |
| WriterInvariants.RunsInv | blockstore/src/store.rs:892-1165 | every interleaving of every number of calls keeps the invariant |
| Concurrency.SpaceIsNeverShared | blockstore/src/store.rs:1040-1122 | in every reachable state the held reservations are disjoint, also on disk, inside one file each and below the highwater |
| Concurrency.CallsAreNeverStuck | blockstore/src/store.rs:892-1026 | the steps' guards cut off no behaviour: a call that has not returned can always go on |
| Concurrency.ViewChangesOnlyAtEntries | blockstore/src/store.rs:996-1004 | what reads see changes only when a call writes its index entry, at its own height |
| Concurrency.ReadsAreAtomic | blockstore/src/store.rs:1291-1384 | a lock-free read returns the whole block current when it loaded the entry, or None, never an error, whatever happens before it loads the data |
| Concurrency.FinishedIsVisible | blockstore/src/store.rs:892-1026 | once a call has returned successfully, its height reads as a block of some call that indexed it |
| Concurrency.FloorIsSoundAndOwned | blockstore/src/store.rs:1124-1165 | all heights up to the floor are indexed, and a floor that can move has a call in flight that will move it |
| Concurrency.FloorIsExactWhenQuiet | blockstore/src/store.rs:1124-1165 | with no call in flight floor and highwater are exact, and the recovery scan computes the same floor from the index as the running process sees it |
| Concurrency.HeadersTellTheTruth | blockstore/src/store.rs:1241-1246 | every header, as the running process sees the index, claims only indexed heights and points at or below the allocator |
| Concurrency.HeaderCarriesLoads | blockstore/src/store.rs:1240-1248 | whatever other calls do meanwhile, a checkpoint writes the end of its own block, the highwater at its first load and the floor at its second, and marks its own end as saved |
| Concurrency.CallCheckpointsIff | blockstore/src/store.rs:1011-1020 | whatever other calls do meanwhile, a call makes a checkpoint if and only if it raised the highwater to a multiple of 1024 or its end is 64 MiB behind the last checkpoint |
| Concurrency.RollbackIff | blockstore/src/store.rs:1106-1122 | whatever other calls do meanwhile, a failing call gives back all it took, skipped bytes included, if and only if its space is still the last |
| Concurrency.EverySystemCallMayFail | blockstore/src/store.rs:940-1020 | a call may fail at each of its system calls and nowhere else; the failure changes no mark and no entry, and decides whether space is given back |
| ConcurrentCrash.QuietIsTight | blockstore/src/store.rs:892-1026 | any interleaving without failures whose calls have returned leaves exactly the log of its reservations on disk |
| ConcurrentCrash.CloseWithoutFailuresReopens | blockstore/src/store.rs:1404-1428 | after such a run a clean close is followed by a successful open |
| AfterPowerLoss.ReadAfterPowerLoss | blockstore/src/store.rs:569-611 | after such a run and a power loss, a height with a block behind the surviving header reads the block whose space was reserved last; any other height reads what the surviving entry says |
| AfterPowerLoss.ReadIsKeptIff | blockstore/src/store.rs:979-1020 | a height reads what it read before the power loss if and only if the block reserved last behind the header is the one that was read, or, without such a block, the surviving entry stands for it |
| AfterPowerLoss.LostIff | blockstore/src/store.rs:979-1020 | a height reads nothing if and only if its entry is lost and the surviving header points past all its blocks; any other height reads a block written for it |
| AfterPowerLoss.KillKeepsReadIff | blockstore/src/store.rs:569-611 | after a process kill every written height reads a block written for it; it is the block that was read before if and only if the one reserved last behind the header was published last, and always for a height written once |
| AfterPowerLoss.FloorAfterIff | blockstore/src/store.rs:594-604 | after a power loss the recovered floor is the true one if and only if each height that the header claims, up to the recovered highwater, has its entry in the image or a block behind the header's offset |
| Overtaken.AcknowledgedWriteIsUndone | blockstore/src/store.rs:979-1020 | counterexample in every quiet state: two more calls return, and a power loss makes a height read what it read before both |
| Overtaken.AcknowledgedBlockIsLost | blockstore/src/store.rs:979-1020 | counterexample: a power loss takes a block whose call has returned, with no failing call |
| Overtaken.AcknowledgedRewriteReverts | blockstore/src/store.rs:979-1020 | counterexample: a power loss brings back the block that an acknowledged rewrite had replaced |
| Overtaken.KillSwapsRewrites | blockstore/src/store.rs:733-836 | counterexample in every quiet state: behind two overlapping calls at one height, a process kill changes which of their blocks is read |
| Overtaken.RecoveredFloorIsFalse | blockstore/src/store.rs:1234-1247 | counterexample: after a power loss recovery succeeds with a floor above a height that reads nothing |
| RefusedOpens.CloseReopensIff | blockstore/src/store.rs:1404-1428 | for every reachable store, a clean close is followed by a successful open if and only if no file is missing, the files reach the highwater, and the scan behind it has no error; without bytes behind the highwater only the first two matter |
| RefusedOpens.TwoFailedWritesStopReopening | blockstore/src/store.rs:1106-1122 | counterexample: two failed writes and a clean close make an empty store refuse to open |
| RefusedOpens.StaleBytesStopReopening | blockstore/src/store.rs:810-815 | counterexample: one rolled-back write leaves bytes behind the data that make the next open fail |
| RefusedOpens.UnopenedFileStopsReopening | blockstore/src/store.rs:1106-1122 | counterexample: with split files, a write that cannot open its file beside one that succeeds makes the next open fail |
| RefusedOpens.RefusedIffPast | blockstore/src/store.rs:569-611 | behind a successful recovery and a clean close, the next open fails if and only if the scan ended beyond the data |
| RefusedOpens.RecoverThenCloseIsRefusedIff | blockstore/src/store.rs:746-758 | recovery and a clean close make the next open fail if and only if a stub shorter than a header ends the last of the split files |
| RefusedOpens.StubBehindLogIsRefusedIff | blockstore/src/store.rs:746-758 | a stub of 0 to 21 bytes behind a log makes it fail if and only if files are split, the stub is not empty, and it does not fill its file |
| RefusedOpens.StubStopsReopening | blockstore/src/store.rs:746-758 | counterexample: a store whose only file is such a stub opens once |
| Agreement.UninterruptedCallIsWrite | blockstore/src/store.rs:892-1026 | a call that no other call interrupts does exactly what the sequential write does |

## Left out

- The FFI crate, the Go wrapper, the command line, the LevelDB import, metrics and benchmarks: argument plumbing without claims about the store.
- `blockstore/src/cached_store.rs`: its coherence rests on the eviction rules of a library that is not visible here.
- The insides of zstd, snappy and xxh64, advisory locks, directory permissions, the creation and naming of directories, and `truncate` removing old data files.
- Lowest height 0: the saturating `min_height - 1` then gives "empty" and "height 0 present" the same value. `IndexFile`, `FloorScan`, `Scan` and `Log` cover it; the exact-floor, whole-history and concurrent claims require a lowest height of at least 1.
- File indices above `u32::MAX`: `WriteBlock` and the machines require that the current file index still fits, which the code does not check; what happens beyond is stated by PlaceIsExclusiveIff and AllocatorCanAliasLastFile.
- Compressed blocks above 2^30 bytes: `WriteBlock` says that they are stored and then refused by reads; histories and machines leave them out.
- AcknowledgedBlocksSurvive: one writer at a time, because the claim is false for concurrent writers, as AcknowledgedBlockIsLost shows. Stale bytes that failed writes left behind the highwater are not covered. A write is kept or lost as a whole, and the index entry and header writes are atomic.
- NothingLostThroughRestarts: power losses strike one run of writes and then recovery, not writes that follow a recovery which left stale bytes behind the highwater.
- ReadAfterPowerLoss: states with calls in flight, and runs with failing writes, are left out; their holes stop the scan early by design. So it is for ReadIsKeptIff, LostIff, KillKeepsReadIff and FloorAfterIff.
- AcknowledgedWriteIsUndone: the counterexamples take one data file, and heights with a gap below them; they need one input each.
- GetOrOpen: opening and locking a file never fails, and calls come one at a time.
- Create: lowest height 0 is left out, as said above; so it is for Attach, Recover and WriteBlock.
- Attach: the index file is shorter than 2^64 bytes.
- WriteBlock: requires that the current file index fits `u32`, as said above.
- UpdateIndexIfChanged: index reads and writes succeed. A failing system call during recovery ends the open with that error, and what it leaves on disk is what a kill at that point leaves, which RecoverIsRestartable covers.
- RecoverUnindexedBlocks: no system call fails, with the same remark.
- CheckpointRecoveryProgress: sync and header write succeed, with the same remark.
- ReadsAreAtomic: no file-system errors while reading, and a file that was evicted from the handle cache and opened again is the same file.
- FloorIsSoundAndOwned: the index reads of the cascade succeed; the code stops the cascade on a failed read, and the floor then stays behind until a write moves it or the store is reopened.
- ScanContiguousFloor: specified for index files of 64 + 16n bytes; for a trailing partial entry it returns `PartialEntry` where the code returns an error, without further claims.
- WriterInvariants: steps are sequentially consistent; relaxed memory orders are not modelled. The checkpoint's first load of the highwater, for its refusal test, is no step, because the offset saved by a write is never 0.
- RecoverThenCloseIsRefusedIff: requires that the recovered index file is shorter than 2^64 bytes; so do RefusedIffPast and StubBehindLogIsRefusedIff.
- The handle cache is proved by itself; the `Store` class reads and writes files by index without it.
- The saturation of `header_end` in the scan cannot be reached, because file offsets are below 2^63.
- The `unwrap` on a compressed length above `u32::MAX` is the error `Panicked`.
- Recover: the index file is assumed to stay shorter than 2^64 bytes while the scan extends it.
- Reopening a store that never held a block sets the height highwater to 0 instead of one less than the lowest height, as the code does; `ReopenRestores` therefore equates the highwater only for non-empty histories.
