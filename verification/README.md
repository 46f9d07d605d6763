# A verified model of the Shunter storage engine

Shunter keeps its committed state in an append-only, segmented commit log with
snapshots. This Dafny project models the logic of that engine and of three
protocols around it, and proves what they promise over whole runs:

- **The log.** Record format and its two readers (`Records`), segments, their writer and
  the recovery scan (`Segments`, `SegmentScan`), the sparse offset index and its cadence
  writer (`OffsetIndex`, `IndexCadence`), replay (`Replay`), recovery and the resume
  plan (`Recovery`, `Resume`), the indexed fast scan (`IndexScan`), compaction (`Compaction`).
- **Crashes.** What an interrupted append leaves (`TornWrites`), directories of such segments
  (`Listings`), and a machine of commit, append, sync, report, rotate, create, snapshot, compact,
  kill, power-loss and restart steps (`CrashRuns`, `Restarts`), with exactly what a loss of power
  can take away (`Kills`) and what holds on every run without kills (`CalmRuns`). The offset index files
  join the machine with their slots, written behind the records, cleared on a resume without a sync
  and synced after the segment (`IndexEntries`, `IndexedRuns`, `StaleEntries`, `EntryEffects`,
  `InventedRuns`). A file is its durable and its
  current bytes. A loss of power keeps any prefix of the current bytes over the durable ones; a
  directory entry that was not synced may be lost or show an earlier file; deletions may be
  undone, the newest first. A kill loses what was still in the writer's buffer: any prefix of the
  current bytes that covers what was flushed stays visible, and no more of it is durable than
  before. A slot of an index file keeps, through a loss of power, its last value or any it had
  since the file was last synced.
- **The durability worker.** Waiters and the durable mark (`Waiters`), the batch loop
  (`Durability`), every interleaving of enqueuers, waiters, the worker and Close
  (`DurabilityRuns`), and the order of sends (`SendOrder`).
- **Codecs.** BSATN values and rows (`Bsatn`, `Rows`, `Utf8`), changesets (`Changesets`,
  `ChangesetForms`) and the schema section of a snapshot (`SchemaCodec`).
- **Snapshot publication.** The lock-file protocol with failures and crashes (`SnapshotPublish`).
- **Lifecycle and shared flights.** Start and Close with the data directory lease (`Lifecycle`,
  `DataDirLease`), declared-view cleanup (`ViewCleanup`), the JWKS refresh (`JwksFlights`), its
  bounded cache set (`RemoteCache`) and that set among its callers (`CacheRuns`).

Code that works in place is modelled by classes and loops proved against specification functions;
the laws are then proved about those functions. Committed state is any type with an apply
function on payloads, so "state" always means the fold of the transactions. CRC-32C and JSON
canonicalisation are uninterpreted functions: every result holds for any choice of them.

Check everything with `dafny verify dfyconfig.toml`.

## Where a promise does not hold

Each of these is proved with a concrete run or input and, where there is one, its exact condition:

- A crash inside the eight header bytes of a new segment makes recovery fail; only an empty file is
  tolerated (`CrashRuns.EveryCrashRecovers`, `Restarts.CutHeaderHappens`).
- When only the process dies, the restarted worker takes every whole record it sees as durable. This is the only
  way for something reported to come to be at risk (`CalmRuns.RiskBegins`): on runs without kills, and on those
  whose kills find everything written synced, the promises hold without a condition
  (`CalmRuns.EveryPowerLossRecovers`, `CalmRuns.DurableThroughPowerLosses`, `CalmRuns.OrderlyIsSafe`). In every
  state that runs with such restarts reach, a loss of power keeps everything reported if and only
  if the mark is synced in the active segment and no segment left behind shows a record that
  is not durable (`Kills.LossExact`, `Kills.KilledMark`). The next sync makes up for a segment reopened
  in place (`Kills.SyncHeals`). A torn segment that is left behind is never synced, so newer transactions can be
  reported durable on top of records that are still to be lost (`Kills.NewerOverLost`, with a run that
  gets there in `Kills.TornKillHappens`), until its removal is durable (`Kills.RiskEnds`). What is lost is never
  made up for: if recovery answers at all, it answers with a prefix of the log (`Kills.LossNeverInvents`).
- An index entry removed on resume can come back, because the removal is not synced before the new
  records are. `InventedRuns.TransactionInvented` is a run in which it then makes recovery apply a
  transaction that nobody committed. In every state an index changes where some seek ends exactly
  when an entry passes its validation without naming its record (`StaleEntries.SeeksExactly`), and a returned
  entry behind the last snapshot changes what recovery answers exactly when each segment has an entry that passes
  its validation, or one goes wrong before a segment has none (`StaleEntries.LostEntryDecides`). An
  entry of the newest segment that passes, wherever the snapshot is, leaves the answer alone exactly when the
  records behind it end like those of the segment and lead from the snapshot to the same state
  (`EntryEffects.EntryDecides`).
- Two enqueuers can hand their transactions over in the wrong order, and the worker then fails for
  good; exactly the runs whose sends follow the order of acceptance avoid it
  (`SendOrder.StreamInOrder`, `SendOrder.Overtaken`).
- On an empty segment reopened in place the durable mark restarts at 0, below the recovered
  transaction (`Resume.ResumePlanAccepted`, with a run that gets there in `Restarts.MarkGoesBack`).
- The size check made before a commit accepts some changesets the encoder then refuses
  (`Changesets.AcceptedEncodes`, `Changesets.ArrayCountUnchecked`).
- An index entry with offset 0 is lost on reopening (`OffsetIndex.ReopenRecovers`).
- Segment deletions that persist out of order leave a log that recovery rejects
  (`Compaction.ScanNeedsPrefix`).
- A listed snapshot can disappear from the listing in a crash while the removal of its lock is not
  durable (`SnapshotPublish.StaysListed`, with a run that gets there in `SnapshotPublish.UnlistedByCrash`).
- Pruning can delete a cache entry in flight: exactly when a caller that held the entry before
  pruning read it launches a refresh before the deletion (`CacheRuns.EvictsInFlight`,
  `CacheRuns.EvictionGuard`, `CacheRuns.RaceHappens`). Two refreshes of one key at the same time need an
  object that the set does not share (`CacheRuns.OneFlightPerKey`), and any such object that is
  held or in flight can lead to them (`CacheRuns.UnsharedFliesTwice`).
- The decoder accepts changesets that the encoder never writes: without JSON columns and within its limits, exactly
  those whose table IDs do not ascend (`ChangesetForms.ChangesetReencodes`).
- A caller can join a refresh that is already cancelled: exactly when it finds no waiter there
  (`JwksFlights.JoinsCancelled`, `JwksFlights.BlockedOnlyByLateJoin`).

## Model

| member | source | states |
|---|---|---|
| `Records.ReadersAgree` | commitlog/segment_scan.go:152-235 | The streaming decoder and the recovery reader return the same result on every input except exactly two families: a zero header with non-zero bytes behind it, and an oversized length in a file too short for it. On both the recovery reader reports a truncated record. They always agree on whether there is a record. |
| `Records.ReadBack` | commitlog/segment.go:96-116 | Encoding then reading, whatever bytes follow, returns the record and its exact length, with either reader. |
| `Records.AcceptedIsEncoded` | commitlog/segment.go:149-205 | Every byte string read as a record is the encoding of that record: a changeset with zero flags and a payload within 64 MiB. |
| `Records.TornTailRead` | commitlog/segment_scan.go:152-235 | A torn record is recognised by its length alone, for any checksum function: all-zero remains end the file, anything else is a truncated record, and an all-zero tail is shorter than a record header. |
| `SegmentScan.ScanOneSegment` | commitlog/segment_scan.go:265-354 | The loop over one file computes the recursive scan: contiguous transactions from the file name on, a damaged tail only after a record or in the last file, the empty file only as the last one, and the resume mode that follows. |
| `SegmentScan.ValidateSegmentContinuity` | commitlog/segment_scan.go:115-132 | Reports the first pair of neighbouring segments that are not contiguous, or that follow the maximum transaction. |
| `SegmentScan.ScanSegments` | commitlog/segment_scan.go:94-113 | The whole-directory scan returns the first failing file, else the first gap, else all reports and the last transaction as horizon. |
| `SegmentScan.ContiguousLog` | commitlog/segment_scan.go:94-132 | An accepted log is one unbroken run: its k-th record carries the first start plus k, and the last one is the horizon. |
| `Segments.SegmentWriter.Create` | commitlog/segment.go:239-267 | A new segment is its eight header bytes and no record. |
| `Segments.SegmentWriter.Append` | commitlog/segment.go:379-408 | Accepts exactly the next contiguous changeset record whose payload length fits its field; it is then written behind the old records and over any padding, with size, last transaction and last offset kept in step, and up to the 64 MiB ceiling the file is the old records and this one; a refused record changes nothing. |
| `Segments.OpenSegmentForAppend` | commitlog/segment.go:291-376 | Reopening positions the writer behind the last whole record, cuts off a torn tail that follows a record, and reports the scan error otherwise. |
| `Segments.ReopenMatchesScan` | commitlog/segment.go:291-376 | The writer's reopen and the recovery scan succeed on the same files except a torn file without a record, and agree on the last transaction. |
| `Segments.ScanEncoded` | commitlog/segment_scan.go:265-354 | Scanning any encoded records followed by any torn tail finds exactly these records and how the file ends. |
| `OffsetIndex.RunWellFormed` | commitlog/offset_index.go:74-209 | After any sequence of appends, truncations and reopens at any capacity the index file is a strictly increasing key prefix followed by zeros. |
| `OffsetIndex.ReopenRecovers` | commitlog/offset_index.go:74-110 | Reopening at the same capacity recovers exactly the written entries, count and last key if and only if no entry has the offset 0. |
| `OffsetIndex.PrefixIsLongest` | commitlog/offset_index.go:302-331 | The prefix scan stops at the longest prefix of increasing keys with non-zero offsets, no earlier and no later. |
| `OffsetIndex.ScanPrefix` | commitlog/offset_index.go:302-331 | The scan loop returns the length of that prefix and its last key. |
| `OffsetIndex.LookupIn` | commitlog/offset_index.go:333-359 | The binary search returns the entry with the greatest key at or below the target, or none exactly when every key is above it. |
| `OffsetIndex.CountBelow` | commitlog/offset_index.go:174-209 | The binary search of truncation counts the keys below the target. |
| `OffsetIndex.OffsetIndexMut.AppendEntry` | commitlog/offset_index.go:131-148 | Appends in place exactly when there is room and the key is above the last one, and otherwise changes nothing and says why. |
| `OffsetIndex.OffsetIndexMut.TruncateFrom` | commitlog/offset_index.go:174-209 | Drops every entry at or above the target in place and zero-fills what it leaves. |
| `OffsetIndex.OffsetIndexMut.KeyLookup` | commitlog/offset_index.go:153-155 | The greatest key at or below the target, or none exactly when there is no such key. |
| `OffsetIndex.ZeroSlots` | commitlog/offset_index.go:211-229 | Zeroes exactly the given range of slots in place. |
| `IndexCadence.StreamNeverFails` | commitlog/offset_index.go:412-461 | For every increasing transaction stream, however interleaved with syncs, the cadence writer never meets a non-monotonic key, keeps what it indexed, and names only pairs it was fed. |
| `IndexCadence.ResumeForgetsLost` | commitlog/durability.go:196-225 | Truncating at last+1 on resume leaves no entry above the last transaction, keeps every other one, and readies the writer for the next commit. |
| `IndexCadence.OffsetIndexWriter.AppendAfterCommit` | commitlog/offset_index.go:412-443 | The fields move as the specification says: candidate kept, flushed at the interval, dropped for good when the index is full. |
| `IndexCadence.OffsetIndexWriter.SyncIndex` | commitlog/offset_index.go:448-461 | Sync flushes the pending candidate, or drops it when the index is full. |
| `Replay.SeekWithIndexIsLinear` | commitlog/segment.go:540-607 | For every target, seeking through an index whose entries either fail validation or name true boundaries ends where the linear scan ends, in a record, at the end or in an error. |
| `Replay.SeekFindsTarget` | commitlog/segment.go:540-579 | For a target inside the segment the seek lands on the record that carries it. |
| `Replay.SegmentReader.SeekToTxID` | commitlog/segment.go:540-579 | The seek loop moves the reader to the specified position, or reports the read error. |
| `Replay.SegmentReader.Next` | commitlog/segment.go:522-536 | Reads one record at the position and advances by exactly its bytes. |
| `Replay.ReplayLog` | commitlog/replay.go:55-127 | The nested replay loops compute the recursive replay: skip covered and artifact segments, seek, apply past the start, stop after the last transaction of a damaged segment. |
| `Replay.ReplayVisitsExactly` | commitlog/replay.go:55-127 | Replaying an accepted log from any point between its first start minus one and its horizon meets no read error and applies from+1 to the horizon, once each and in order, damaged and zero-filled tails included. |
| `Recovery.SelectSnapshot` | commitlog/snapshot_select.go:41-76 | The selection loop returns the chosen snapshot and the skip list of the specification. |
| `Recovery.SelectedIsNewest` | commitlog/snapshot_select.go:41-106 | The chosen snapshot is the newest usable one, and the skip list is exactly the newer ones, in order, each with its reason. |
| `Recovery.BoundaryCovers` | commitlog/recovery.go:301-317 | The snapshot/log boundary check passes if and only if the log begins no later than the transaction after the snapshot. |
| `Recovery.OpenAndRecover` | commitlog/recovery.go:91-168 | The recovery driver returns the specified result or the specified error at every step. |
| `Recovery.RecoveredTx` | commitlog/recovery.go:319-356 | A successful recovery ends exactly at the durable horizon, or at a listed snapshot when there is no segment. |
| `Recovery.RecoveryIsFold` | commitlog/recovery.go:91-168 | If every listed snapshot restores the fold of the transactions up to its own, recovery ends in the fold of the whole history up to the horizon whichever snapshot it picks, or in an error; it never skips a transaction. |
| `Resume.ResumePlanAccepted` | commitlog/durability.go:252-337 | Every plan recovery returns is accepted by the worker's opener on the unchanged directory, and the next transaction taken is recovered+1, in place, after damage and over an empty artifact. The durable mark is the recovered transaction, except that it restarts at 0 on an empty segment reopened in place. |
| `Compaction.Compact` | commitlog/compaction.go:47-61 | Splits the ranges into the covered and the retained ones, in order. |
| `Compaction.CompactionTakesPrefix` | commitlog/compaction.go:29-61 | On an accepted log the covered segments are exactly a prefix and never include the active one. |
| `Compaction.RunCompaction` | commitlog/compaction.go:74-118 | The deletion loop removes that prefix in order and stops at the first removal that fails; a snapshot beyond the horizon or a rejected log deletes nothing. |
| `Compaction.CompactionPreservesRecovery` | commitlog/compaction.go:74-118 | After any number of the in-order deletions, recovery returns the identical result: state, transaction, plan, skip list or error. |
| `Compaction.ScanNeedsPrefix` | commitlog/segment_scan.go:115-132 | If deletions persist out of order, the scan accepts what is left if and only if the lost segments are the oldest ones. |
| `IndexScan.ScanOneSegmentFromOffsetIndex` | commitlog/recovery_index_scan.go:116-197 | The indexed scan loop computes its specification: validated entry, contiguous records to the end, or a refusal to answer. |
| `IndexScan.StrictPrefixMeaning` | commitlog/recovery_index_scan.go:222-249 | The strict reader of the recovery index accepts a table exactly when it is an increasing prefix with offsets of at least eight followed by zeros only. |
| `IndexScan.StrictIsLenient` | commitlog/recovery_index_scan.go:222-249 | Of every table the strict reader accepts, the lenient reader of replay reads the same entries. |
| `IndexScan.IndexedSegmentAgrees` | commitlog/recovery_index_scan.go:116-197 | If the one entry that the lookup returns fails its validation or names its record, whatever the other entries are, what the indexed scan of a segment answers or fails with is what the full scan reports. |
| `IndexScan.IndexedScanAgrees` | commitlog/recovery_index_scan.go:34-107 | If the entries that the scan looks up, one in each covered segment for each snapshot it tries, fail validation or name their records: when the indexed recovery scan answers, it returns the full scan's segments, horizon, snapshot and skip list; when it fails, the full scan fails with the same error. |
| `IndexScan.FastRecoveryIsRecovery` | commitlog/recovery_index_scan.go:13-32 | On the raw slots of the index files, when the entries that the fast scan looks up fail validation or name their records, taking the fast path returns what recovery with the same files and the full scan returns, whatever each of the two readers makes of the files and whatever the other entries are. |
| `IndexScan.SoundIsPlain` | commitlog/recovery.go:91-168 | Recovery with any sound indexes returns exactly what it returns without any. |
| `TornWrites.PrefixIsTorn` | commitlog/segment.go:96-116 | Any prefix of encoded records is whole records and a proper prefix of the next one. |
| `TornWrites.AppendingNext` | commitlog/segment.go:379-408 | Writing the next record, also over the zero padding of a reopened segment, leaves exactly the records so far and this one. |
| `TornWrites.SurvivorHolds` | commitlog/segment.go:428-433 | Whatever prefix of its unsynced bytes a crash keeps, the segment holds every synced transaction, none that was not written, and at most a torn record shorter than the next one, unless a header that was never synced is itself cut off. |
| `Listings.ChainScan` | commitlog/segment_scan.go:94-132 | A gapless chain of such segments is accepted by the scan, and its horizon is the newest whole record. |
| `Listings.LeftChain` | commitlog/durability.go:252-267 | Segments left behind whose shown transactions are all durable, torn ones included, are a gapless chain of the same transactions after every loss of power. |
| `CrashRuns.RecoverOutcome` | commitlog/recovery.go:91-168 | Exactly when recovery of a directory left by a crash succeeds, with which transaction, state and resume mode, and with which error otherwise. |
| `CrashRuns.DieKeeps` | commitlog/segment.go:239-267 | A loss of power at any step, the creation of a segment and the time after a kill included, leaves a directory that recovers to at least the last synced and at most the last written transaction, or one cut off inside the newest header, provided everything reported is synced or durable in a segment left behind. |
| `CrashRuns.KilledReady` | commitlog/durability.go:238-267 | After every kill, whatever it shows, the worker can take over: the newest file is one it can append to, replace or leave behind, and every record it leaves at risk is one it reports. |
| `CrashRuns.StepKeeps` | commitlog/durability.go:565-645 | Every step of the machine (commit, append, sync, report, rotate, the four steps of segment creation, snapshot, compaction, kill, restart from whatever was left, loss of power where nothing reported is at risk) keeps the invariant and every durable transaction in place. |
| `CrashRuns.EveryCrashRecovers` | commitlog/recovery.go:91-168 | With kills in the run as well: in every reachable state in which nothing reported is at risk, after every loss of power: recovery yields a contiguous prefix of the committed transactions holding every one ever reported durable and none never written, in the state they fold to; it fails if and only if the newest segment was cut off inside its header or transaction numbers are used up. |
| `CrashRuns.DurableForever` | commitlog/durability.go:565-645 | With kills in the run as well: along any run, whose losses of power fall on states where nothing reported is at risk, a transaction once reported durable is never lost, moved or replaced. |
| `CalmRuns.RiskBegins` | commitlog/durability.go:169-190 | From a state in which nothing reported is at risk, a step leads to a running worker with something at risk if and only if it is a restart after a kill that takes up a durable mark above the last synced transaction. |
| `CalmRuns.OrderlyIsSafe` | commitlog/durability.go:169-190 | Along every run whose kills, if there are any, find everything written synced, every loss of power falls on a state in which nothing reported is at risk. |
| `CalmRuns.EveryPowerLossRecovers` | commitlog/recovery.go:91-168 | After every run from a fresh directory in which no process is killed, with any number of losses of power and recoveries, and after every next loss of power: recovery yields a contiguous prefix of the committed transactions holding every one ever reported durable and none never written, in the state they fold to; it fails if and only if the newest segment was cut off inside its header or transaction numbers are used up. |
| `CalmRuns.DurableThroughPowerLosses` | commitlog/durability.go:565-645 | Along every such run a transaction once reported durable is never lost, moved or replaced. |
| `Restarts.RestartIsResume` | commitlog/durability.go:252-337 | The directory, the next transaction and the durable mark after the machine's restart, be it after a kill or a loss of power, are those of the worker's own opener; on an empty segment reopened in place the opener's mark is 0. |
| `Restarts.CutHeaderHappens` | commitlog/segment_scan.go:265-275 | A crash in the first creation of a segment can leave any proper non-empty part of the header: the case the scan does not tolerate. |
| `Restarts.FirstCommit` | commitlog/durability.go:565-645 | A run exists that commits, writes, syncs and reports a first transaction on a fresh directory, with exactly these bytes in the segment. |
| `Restarts.MarkGoesBack` | commitlog/durability.go:169-190 | A run exists after which a transaction is reported, recovery ends with it, and the restarted worker reopens the empty next segment in place with a durable mark of 0. |
| `Kills.LossExact` | commitlog/durability.go:169-190 | In every reachable state, whatever kills and restarts led to it, no loss of power makes recovery fail or fall short of a transaction reported durable, cut-off headers and used-up numbers aside, if and only if the mark is synced in the active segment and every segment left behind is durable in all the records it shows. |
| `Kills.LossNeverInvents` | commitlog/recovery.go:91-168 | In every reachable state, safe or not, after every loss of power: recovery fails or answers with a prefix of the committed transactions, none of them never written, in the state they fold to. |
| `Kills.SyncHeals` | commitlog/durability.go:629-645 | After the next sync nothing reported is at risk, whatever mark the worker started from, if and only if that is so of the segments left behind. |
| `Kills.RiskEnds` | commitlog/durability.go:252-267 | A segment left behind with records that are not durable stops being a risk by no step but the directory sync that makes its removal durable. |
| `Kills.KilledMark` | commitlog/durability.go:169-190 | In every reachable state, the worker restarted after a kill has as its durable mark the transaction read back, between what was reported or synced and what was written; every later loss of power keeps everything up to it if and only if the state is safe, and with nothing at risk before, exactly if the mark is at most the last synced transaction. |
| `Kills.NewerOverLost` | commitlog/durability.go:252-267 | In every reachable state in which the worker is about to create a segment behind one that shows more than is durable, it can create it, commit, sync and report a newer transaction, and a loss of power then leaves a log that recovery rejects with any indexes. |
| `Kills.TornKillHappens` | commitlog/segment.go:378-408 | A run from a fresh directory gets there, for any three payloads and any cut inside the third record: the restart reports a transaction that is not durable and leaves its segment behind. |
| `IndexEntries.HarmlessSound` | commitlog/segment.go:581-607 | An entry with any key that points in front of the records, behind the file or at the boundary of a record fails its validation or names the record with its key. |
| `IndexEntries.SeekExact` | commitlog/segment.go:540-607 | In every file that holds part of the log, an index leaves every seek where the linear scan ends if and only if each entry that passes validation names the record with its key. |
| `IndexEntries.LostEntryExact` | commitlog/recovery_index_scan.go:116-197 | If the entry looked up names a transaction the segment has lost, the fast scan misreports the segment if and only if the entry passes validation, and then it fails or reports at least that transaction. |
| `IndexEntries.LurksExactly` | commitlog/segment.go:581-607 | Of an entry for an earlier record, or one left from records that were lost, some next payload makes a wrong one that passes validation if and only if it points behind the write position. |
| `IndexedRuns.ClearAppend` | commitlog/durability.go:575-596 | If every entry of the active segment, in its index or still to come back, points at a record, at the write position or in front of the records, then the next append makes none of them pass wrongly, whatever a loss of power leaves. |
| `IndexedRuns.MoveKeeps` | commitlog/durability.go:196-225 | Every step of the machine with index files (entries, their sync after the segment, their unsynced removal on resume, losses of power that bring values back, torn segments left behind) is a step of the machine without them and keeps every entry right or refused in whatever a loss of power leaves, as long as no append completes bytes that read as the record of an entry. |
| `IndexedRuns.FastRecovers` | commitlog/recovery.go:91-168 | Over every such run, after every loss of power where nothing reported is at risk and with whatever it leaves in the raw index files: recovery with the fast scan answers exactly as without index files, with everything reported and nothing never written. |
| `CalmRuns.FastPowerLossRecovers` | commitlog/recovery.go:91-168 | The same without any condition on the states: over every run without kills in which no append completes bytes that read as the record of an entry, after every loss of power, recovery with the fast scan answers as without index files, with everything reported and nothing never written. |
| `StaleEntries.SeeksExactly` | commitlog/segment.go:540-607 | In every state of every run, whatever is in the index files, all seeks end as without indexes if and only if no entry passes its validation without naming its record. |
| `StaleEntries.DisguiseShows` | commitlog/segment.go:540-607 | If, while the worker runs, some loss of power leaves an entry readable that is wrong about what it leaves of the segment, then that loss of power makes some seek end elsewhere. |
| `StaleEntries.DeclinesExactly` | commitlog/recovery_index_scan.go:76-106 | With every segment covered by the snapshot, the fast scan declines if and only if some segment has no entry at or below the target that passes validation, and the records behind the entries of all segments before it are contiguous. |
| `StaleEntries.LostEntryDecides` | commitlog/recovery_index_scan.go:13-107 | With the newest snapshot at the end of the log and an entry for the next, lost transaction looked up, recovery on the raw index files answers as without them if and only if some segment has no entry that passes its validation, with nothing wrong before it; with a single segment, if and only if that entry does not pass or its file is not in order. Otherwise recovery fails or ends with a transaction that was never written. |
| `EntryEffects.EntryDecides` | commitlog/recovery_index_scan.go:116-197 | Wherever in the newest segment the snapshot is and whatever valid-looking entry is looked up there, if the records behind the entry reach the snapshot: recovery on the raw index files answers as without them if and only if those records end with the same transaction and in the same way as the segment's own and lead from the snapshot to the same state. |
| `InventedRuns.TransactionInvented` | commitlog/durability.go:629-645 | A run from a fresh directory: three transactions are lost but two of their index entries are not, a new transaction 1 is synced by a process that is killed before it syncs the index, the next process takes a snapshot, and a loss of power brings the entries back. The log holds one transaction; recovery with the fast scan answers with a second one, made of bytes inside the first one's payload. |
| `InventedRuns.LossesAreSafe` | commitlog/durability.go:629-645 | Both losses of power of that run fall on states in which everything reported is synced. |
| `Waiters.WaiterTable.WaitUntilDurable` | commitlog/durability.go:445-471 | Transaction 0 gets no channel; a durable one is ready at once; after a failure or close it fails at once; otherwise it is registered. |
| `Waiters.WaiterTable.ReleaseWaitersUpTo` | commitlog/durability.go:647-660 | In whatever order the map is visited, exactly the pending channels at or below the mark get their transaction, each once and while still open. |
| `Waiters.WaiterTable.CloseWaiters` | commitlog/durability.go:662-669 | Exactly the pending channels are closed without a value, each once. |
| `Waiters.MarkedTwice` | commitlog/durability.go:592-604 | Marking and releasing after each transaction comes to the same as doing it once at the end of the batch. |
| `Durability.DurabilityWorker.SyncBatchTail` | commitlog/durability.go:629-645 | The mark moves and waiters are released only after a successful fsync of everything appended. |
| `Durability.DurabilityWorker.WriteItem` | commitlog/durability.go:566-597 | One item is written only if it encodes and is the next transaction; per-transaction mode syncs and marks it. |
| `Durability.DurabilityWorker.ProcessBatch` | commitlog/durability.go:565-627 | A batch that succeeds was the next run of transactions, is synced, marked and released as one, in either sync mode; one that fails stops the mark and the releases at a prefix. |
| `DurabilityRuns.StepKeeps` | commitlog/durability.go:351-396 | Every step of enqueuers, waiters, worker and Close keeps the invariant, never sends on or closes a closed queue, never lowers the mark and never touches a settled channel. |
| `DurabilityRuns.WaitersSettle` | commitlog/durability.go:445-559 | In every reachable state: a delivered value is a synced transaction; a pending channel at or below the mark exists only until the release step already due; nothing is pending after a fatal error or Close; what is synced was accepted. |
| `DurabilityRuns.SettledOnce` | commitlog/durability.go:629-669 | Along every run the mark only grows and a settled channel keeps its outcome. |
| `SendOrder.StreamInOrder` | commitlog/durability.go:351-396 | However many callers enqueue, the worker is handed the next run of transactions, each once and without a gap, if and only if the sends follow the order of acceptance and none follows a transaction that was given up. |
| `SendOrder.WritesAreNext` | commitlog/durability.go:565-597 | After sends in that order the segment never refuses the item the worker is about to write. |
| `SendOrder.Overtaken` | commitlog/durability.go:373-390 | Two enqueuers that overtake each other leave the worker with an item it can only fail on. |
| `Bsatn.EncodesExactly` | bsatn/encode.go:41-201 | A value encodes if and only if it is not null, its text is valid UTF-8 (section 4 of RFC 3629) and its sizes and item count are within limits; the length is then the computed size. |
| `Bsatn.ValidateArrayStringPayloadSize` | bsatn/encode.go:190-201 | The running check accepts exactly the arrays whose whole payload is within 64 MiB. |
| `Bsatn.ItemsBack` | bsatn/decode.go:201-233 | Decoding an encoded array ends in a size error exactly where the encoder's running budget would have refused it, and otherwise gives the array back: both budgets admit the same arrays. |
| `Bsatn.DecodeArrayString` | bsatn/decode.go:201-233 | The decoding loop over a string array computes its specification, errors included. |
| `Bsatn.ValueRoundTrip` | bsatn/decode.go:18-24 | An encoded value of any of the 22 kinds decodes to itself, whatever follows it, and takes exactly its computed size. |
| `Bsatn.ValueReencodes` | bsatn/decode.go:74-253 | Every accepted byte string that is not JSON is the encoding of the value it decodes to. |
| `Bsatn.JsonCanonical` | bsatn/decode.go:74-253 | Every accepted JSON value is a length-prefixed text, and the value is that text's canonical form. |
| `Bsatn.IntegerKinds` | types/value.go:38-61 | Each integer kind takes exactly the values of its Go type; timestamps and durations are 64-bit signed. |
| `Bsatn.NaNs` | types/value.go:163-175 | The rejected float patterns are exactly those with an all-ones exponent and a non-zero fraction. |
| `Bsatn.WideIsLittleEndian` | bsatn/encode.go:105-132 | Written word by word, a 128-bit or 256-bit integer is the little-endian form of the whole number. |
| `Utf8.ValidMeansScalars` | types/value.go:181-186 | The byte table of section 4 of RFC 3629 accepts a string if and only if it is the shortest UTF-8 form of some scalar values: no surrogates, no overlong forms, nothing above U+10FFFF. |
| `Rows.AppendColumnValue` | bsatn/encode.go:336-359 | Appending a column extends the buffer by the specified bytes, the presence mark replacing the inner tag in place, or reports the specified error. |
| `Rows.AppendProductValueForColumns` | bsatn/encode.go:318-334 | The column loop appends the whole row, or gives the buffer back as it was. |
| `Rows.DecodeProductValueColumns` | bsatn/decode.go:313-329 | The column loop decodes the row; running out of bytes in column i is a row of i columns. |
| `Rows.RowEncodes` | bsatn/encode.go:379-406 | The size function predicts the encoder: a row encodes if and only if its size is defined and its values are encodable, and the length is that size. |
| `Rows.RowRoundTrip` | bsatn/decode.go:332-348 | An encoded row of any schema, nullable columns included, decodes to itself and has exactly the computed size. |
| `Rows.RowReencodes` | bsatn/decode.go:332-348 | Without JSON columns every accepted row is the encoding of what it decodes to. |
| `Changesets.AcceptedEncodes` | commitlog/changeset_codec.go:27-167 | A changeset the size check accepts encodes if and only if its rows are writable, and then to exactly the predicted length. |
| `Changesets.SizeAccepts` | commitlog/changeset_codec.go:82-140 | The running size check accepts a changeset if and only if every row and count is within its limit and the whole payload within the record limit. |
| `Changesets.ArrayCountUnchecked` | commitlog/durability.go:341-347 | Under the default limits the size check accepts an array of more than 2^20 empty strings, and the encoder then refuses it. |
| `Changesets.ChangesetRoundTrip` | commitlog/changeset_codec.go:210-330 | Decoding an encoded changeset returns every table that has a change record, with its rows in order, and nothing else. |
| `ChangesetForms.ChangesetReencodes` | commitlog/changeset_codec.go:210-330 | Accepted bytes of tables without JSON columns, within the writer's limits, are what the encoder writes for the changeset they decode to if and only if their table IDs ascend. |
| `Changesets.EncodedChangesetRowsSize` | commitlog/changeset_codec.go:124-140 | The size loop over rows computes the specified size or the first error. |
| `Changesets.AppendChangesetRows` | commitlog/changeset_codec.go:142-167 | The row loop appends the specified bytes; a row never encodes to another length than predicted. |
| `Changesets.EncodeChangeset` | commitlog/changeset_codec.go:27-80 | The table loop, in increasing order of table ID, computes the specified encoding or error. |
| `Changesets.DecodeChangesetRows` | commitlog/changeset_codec.go:246-263 | The row loop decodes a counted list of rows from a position and stops where the specification stops. |
| `Changesets.DecodeChangeset` | commitlog/changeset_codec.go:210-291 | The decoder computes the specified result: version, counts against the remaining bytes, duplicate and unknown tables, trailing bytes. |
| `Changesets.SortedAscends` | commitlog/changeset_codec.go:34-47 | Table IDs are visited once each in increasing order. |
| `SchemaCodec.SchemaRoundTrip` | commitlog/snapshot_io.go:76-149 | Every well-formed schema, event flags included, decodes to itself; with anything behind it, it is rejected. |
| `SchemaCodec.DecodedIsWellFormed` | commitlog/snapshot_io.go:151-374 | Whatever the decoder accepts has no repeated table, column or index, no index on a missing column, index IDs equal to positions, at most one primary index, and auto-increment columns backed by a unique index. |
| `SchemaCodec.ReadColumns` | commitlog/snapshot_io.go:191-243 | The column loop with its sets of seen indexes and names accepts what the specification accepts. |
| `SchemaCodec.ReadIndexes` | commitlog/snapshot_io.go:244-306 | The index loop with its set of names and its count of primary indexes accepts what the specification accepts. |
| `SchemaCodec.ReadTables` | commitlog/snapshot_io.go:163-313 | The table loop with its sets of seen IDs and names accepts what the specification accepts. |
| `SchemaCodec.ReadEventFlags` | commitlog/snapshot_io.go:320-374 | The event-flag loop marks each table once, in any order, and accepts a missing section but not a partial one. |
| `SnapshotPublish.NextKeeps` | commitlog/snapshot_io.go:528-655 | Every call of creation, repair and discard, succeeding or failing with or without effect, and every crash keeps the directory safe. |
| `SnapshotPublish.RunsAreSafe` | commitlog/snapshot_io.go:528-655 | Along every run the name snapshot only ever stands for a complete synced file, an unlocked directory's entry is durable, and discard removes the lock only with both data files gone for good. |
| `SnapshotPublish.ListedIsComplete` | commitlog/snapshot_io.go:1329-1357 | What is listed, before or after any crash, holds a complete synced snapshot or none, and a listed entry is the same after the crash. |
| `SnapshotPublish.StaysListed` | commitlog/snapshot_io.go:584-599 | A listed snapshot stays listed through every crash if and only if the removal of the lock and of the temporary file is durable. |
| `SnapshotPublish.UnlistedByCrash` | commitlog/snapshot_io.go:584-599 | A run publishes a first snapshot up to the removal of its lock: it is then listed, and a crash can take it off the list. |
| `SnapshotPublish.SnapshotDirectory.CreateSnapshot` | commitlog/snapshot_io.go:528-599 | Creation that succeeds leaves the directory listed, durable and complete; over an existing lock it does nothing; a call failing anywhere, with or without effect, leaves it safe. |
| `SnapshotPublish.SnapshotDirectory.RepairSnapshot` | commitlog/snapshot_io.go:605-628 | Repair acts only on a locked, published snapshot, never changes what the directory names, and on success leaves that snapshot unlocked and durable. |
| `SnapshotPublish.SnapshotDirectory.DiscardIncompleteSnapshot` | commitlog/snapshot_io.go:633-655 | Discard acts only on a locked directory; the lock is off only once both data files are durably gone. |
| `Lifecycle.StepKeeps` | lifecycle.go:63-438 | Every step of any number of Start calls and of Close keeps the invariant, never leaves the closed state, and never restarts a failed runtime whose retry is blocked. |
| `Lifecycle.LifecycleSafe` | lifecycle.go:269-427 | After every interleaving: ready exactly in the Ready state; the lease released at most once and only with every durability worker opened by Start closed; a closed runtime has released it or is about to. |
| `Lifecycle.ClosedForGood` | lifecycle.go:269-386 | Once closed, no later calls leave the closed state. |
| `DataDirLease.Registry.Reserve` | datadir_lease.go:108-125 | A lease is granted exactly when it excludes no outstanding one, and the entry counts the outstanding leases. |
| `DataDirLease.Registry.Release` | datadir_lease.go:127-143 | Releasing gives back one lease and removes the entry with the last one. |
| `DataDirLease.WriterIsAlone` | datadir_lease.go:108-143 | A key with a writer has no other holder. |
| `ViewCleanup.OneOwner` | declared_read.go:104-171 | At most one unsubscribe is under way, every wait channel is closed exactly once, and the attempt that releases is the last one. |
| `ViewCleanup.ReleaseIsFinal` | declared_read.go:104-171 | After the release no run makes another call. |
| `JwksFlights.OneFlight` | auth/jwks.go:221-323 | At most one refresh is under way; its waiter count is exactly the number of callers blocked on it; callers blocked on any other flight can wake. |
| `JwksFlights.QuitKeeps` | auth/jwks.go:280-295 | A flight is cancelled only by the quitting of its last waiter. |
| `JwksFlights.JoinsCancelled` | auth/jwks.go:240-248 | A run in which a caller joins a flight that was cancelled when its last waiter quit. |
| `JwksFlights.BlockedOnlyByLateJoin` | auth/jwks.go:221-323 | Along every run, a caller is at some time blocked on a registered refresh that is cancelled if and only if some caller took the join branch at a waiter count of 0. |
| `RemoteCache.OldestEvictable` | auth/remote_cache.go:104-114 | The least recently used entry that is not in flight, or none exactly when all are in flight. |
| `RemoteCache.PruneRemoteCaches` | auth/remote_cache.go:89-102 | Read in one instant, pruning drops idle entries, then the least recently used, never one in flight, until there is room or all the rest is in flight, and no more than it must. |
| `RemoteCache.RemoteJWTCacheSet.JwksCache` | auth/remote_cache.go:52-66 | The set never exceeds its bound; a known key is only touched; a new one is shared exactly when there is room after pruning. |
| `CacheRuns.StepKeeps` | auth/remote_cache.go:52-114 | Every step of lookups, of pruning entry by entry and of callers using their entries, with or without a refresh, keeps the map within its bound, maps each key to an object of that key, and keeps one refresh per object at most. |
| `CacheRuns.EvictsInFlight` | auth/remote_cache.go:89-114 | In every reachable state, if pruning reads an entry and chooses it, in the idle sweep or as the oldest, and deletes it after any steps of the other callers, the deleted object is in flight if and only if a caller that held it before the read launched a refresh that had not ended. |
| `CacheRuns.EvictionGuard` | auth/remote_cache.go:89-114 | With the deletion of an idle entry next, it can still hit the entry in flight if and only if some caller outside the lock of the set holds the object. |
| `CacheRuns.OneFlightPerKey` | auth/jwks.go:230-278 | Two refreshes of one key run at once only if one of their objects is not shared by the set; along runs that delete nothing and never find the set full, a key has one refresh at most. |
| `CacheRuns.LookupEnds` | auth/remote_cache.go:52-114 | From wherever its pruning stands, a lookup that missed can come to its end, with a new object for its key and all other objects as they were. |
| `CacheRuns.UnsharedFliesTwice` | auth/jwks.go:230-278 | In every reachable state, if an object is not shared by the set while a refresh of it runs or a caller holds it, some further steps lead to two refreshes of its key at once. |
| `CacheRuns.RaceHappens` | auth/remote_cache.go:89-114 | A run in which the idle sweep deletes an entry in flight and its key is then refreshed twice at the same time. |

## Left out

- The arithmetic of CRC-32C and BLAKE3, and JSON canonicalisation: uninterpreted functions.
- File modes, symbolic links, same-file checks and real system calls: files are byte strings, and calls that can fail do so freely.
- The store: restoring a snapshot into tables, advancing sequences after recovery and applying a changeset are one abstract apply function.
- The rest of the snapshot body (sequences, next IDs, rows) and its bounds checks: the schema section and the row codec are modelled, the body around them is not.
- Torn writes inside one 16-byte slot of an index file: entries survive a crash whole or not at all.
- Observability, tracing, metrics, HTTP serving, configuration defaults, JWT parsing and contract export: shallow plumbing.
- The executor and the scheduler: a committed changeset is one that applies, and a snapshot is taken only of a durable transaction, as the executor waits for.
- The channel capacity and the batch size of the durability worker: the queue takes any number of transactions and a batch any non-empty run of them, which allows more interleavings than the program has.
- Time in the JWKS cache (expiry, cooldown, retry delay) and its keys: a caller may join or start a flight whenever the state allows it.
- The OIDC discovery cache: it has the same shape as the JWKS cache.
- The maximum allocation check of the changeset size on 32-bit platforms: sizes are bounded by the record limit before it.
- Runtime migration hooks, protocol graph construction and background goroutines of Start: a Start call may fail at any point between opening its durability worker and publishing the runtime.
- SchemaCodec.ReadTables: accepts and rejects as the program does, but does not tell the reasons for rejection apart.
- SchemaCodec.ReadColumns: accepts and rejects as the program does, but does not tell the reasons for rejection apart.
- SchemaCodec.ReadIndexes: accepts and rejects as the program does, but does not tell the reasons for rejection apart.
- SchemaCodec.ReadEventFlags: accepts and rejects as the program does, but does not tell the reasons for rejection apart.
- SchemaCodec.SchemaRoundTrip: the encoder is a function on the sorted tables, so its writer loops and short writes are not modelled.
- Bsatn.ValueRoundTrip: the per-kind append and read statements are a function by payload layout, so writes into the caller's buffer are modelled only from the column on up.
- Bsatn.ValueReencodes: says nothing about JSON, whose accepted text is replaced by its canonical form; Bsatn.JsonCanonical says which text that is.
- Rows.RowReencodes: says nothing about rows with JSON columns, for the same reason.
- CrashRuns.EveryCrashRecovers: losses of power in states where something reported is not synced are left to Kills.LossExact, which shows that the claim fails for exactly those, and to Kills.LossNeverInvents; without kills there are no such states, and CalmRuns.EveryPowerLossRecovers has no such condition.
- CrashRuns.DurableForever: the same losses of power are left out for the same reason; CalmRuns.DurableThroughPowerLosses has no such condition.
- CrashRuns.StepKeeps: a snapshot appears at once and durably, since SnapshotPublish covers its publication.
- IndexedRuns.FastRecovers: appends that complete bytes which read as the record of an entry are left out, for which InventedRuns.TransactionInvented shows the claim to fail and StaleEntries.DisguiseShows what each of them does; the capacity of an index file stays the same across restarts.
- StaleEntries.LostEntryDecides: other entries and snapshots inside the newest segment are the subject of EntryEffects.EntryDecides.
- EntryEffects.EntryDecides: the entries looked up in the segments before the newest name their records, and the records behind the entry reach the snapshot; where they do not, the scan turns to an older snapshot or declines.
- CalmRuns.FastPowerLossRecovers: leaves out the same appends as IndexedRuns.FastRecovers.
- Segments.SegmentWriter.Create: the calls that create the file and their errors; their order and what a crash between them leaves are steps of CrashRuns.
- Compaction.RunCompaction: the index files removed along with their segments, and orphaned ones.
- RemoteCache.OldestEvictable: reads all entries in one instant; reading them one by one among other callers is the subject of CacheRuns.
- RemoteCache.PruneRemoteCaches: reads all entries in one instant; reading them one by one among other callers is the subject of CacheRuns.
