/**
 * Index entries that come back: exactly when one of them changes what a reader or recovery answers, and a run
 * that ends with a transaction nobody committed.
 */
module StaleEntries {
  import opened Bytes
  import opened Records
  import opened SegmentScan
  import opened Segments
  import OffsetIndex
  import opened Replay
  import opened Recovery
  import IndexScan
  import opened TornWrites
  import opened Listings
  import opened CrashRuns
  import opened IndexEntries
  import opened IndexedRuns

  // ---- seeks ----------------------------------------------------------------

  /** Every seek in every file with a header ends where it would without an index. */
  ghost predicate SeeksAgree(dir: seq<SegmentFile>, indexes: OffsetIndex.Sidecars) {
    |dir| == |indexes| &&
    forall i, target: u64 :: 0 <= i < |dir| && |dir[i].data| >= SEGMENT_HEADER ==>
      SeekOf(dir[i].data, target, indexes[i]) == SeekOf(dir[i].data, target, None)
  }

  /**
   * In every state of every run, whatever is in the index files: the entries change where some seek ends exactly
   * when one of them passes its validation without naming the record with its key.
   */
  lemma {:induction false} SeeksExactly<S>(x: Indexed<S>, init: S, apply: Applier<S>)
    requires Inv(x.w, init, apply)
    ensures var dir := AllShown(Found(x.w));
      var indexes := IndexScan.Lenient(TablesOf(dir, x.files));
      SeeksAgree(dir, indexes) <==> SoundIndexes(dir, indexes)
  {
    hide Inv, Found, SoundIndex, SeekOf, DownOk, OffsetIndex.Prefix, Slots;
    FoundOk(x.w, init, apply);
    var dir := AllShown(Found(x.w));
    var tables := TablesOf(dir, x.files);
    var indexes := IndexScan.Lenient(tables);
    forall i | 0 <= i < |dir| && |dir[i].data| >= SEGMENT_HEADER
      ensures SoundIndex(dir[i], indexes[i]) <==>
        forall target: u64 :: SeekOf(dir[i].data, target, indexes[i]) == SeekOf(dir[i].data, target, None)
    {
      if tables[i].Some? {
        var n := HeldFile(x.w, dir, i);
        OffsetIndex.PrefixIsLongest(tables[i].value, 0);
        SeekExact(dir[i], x.w.log, n, indexes[i].value);
      } else {
        IndexScan.NoIndexIsSound(dir[i]);
      }
    }
  }

  lemma {:induction false} HeldFile<S>(w: World<S>, dir: seq<SegmentFile>, i: nat) returns (n: nat)
    requires w.snaps != [] && DownOk(w, dir) && i < |dir| && |dir[i].data| >= SEGMENT_HEADER
    ensures Holds(dir[i], w.log, n) && n == |FileRecords(dir[i])|
  {
    hide Holds, BodyScan, Chain;
    n := |FileRecords(dir[i])|;
    var last := |dir| - 1;
    if i < last {
      ChainBelow(dir[..last], w.log, dir[last].start);
      assert dir[i] == dir[..last][i];
    }
  }

  /** All of every segment left behind. */
  function WholeCuts(ss: seq<Segment>): (r: seq<nat>)
    ensures Cuts(ss, r)
  {
    seq(|ss|, i requires 0 <= i < |ss| => |ss[i].file.current|)
  }

  /**
   * Quietness is not asked for in vain. If, after whatever append, some loss of power leaves an entry readable that is
   * mistaken about what it leaves of the segment, then that loss of power makes some seek go wrong.
   */
  lemma {:induction false} DisguiseShows<S>(x: Indexed<S>, p: nat, table: seq<OffsetIndex.Slot>, e: OffsetIndex.Slot,
      init: S, apply: Applier<S>)
    requires Inv(x.w, init, apply) && Alive(x.w) && x.w.phase.Running? && x.w.start in x.files
    requires Leaves(x.files[x.w.start], table) && e in table[..OffsetIndex.Prefix(table, 0)]
    requires p <= |x.w.phase.active.current| && |Survivor(x.w.phase.active, p)| >= SEGMENT_HEADER
    requires !SoundEntry(SegmentFile(x.w.start, Survivor(x.w.phase.active, p)), e)
    ensures var c := Crash(|x.w.unlinked|, WholeCuts(x.w.unlinked + x.w.sealed), Latest, p);
      && Possible(x.w, c) && Returned(x.files, map[x.w.start := table])
      && var dir := Survivors(x.w, c);
         !SeeksAgree(dir, IndexScan.Lenient(TablesOf(dir, Back(map[x.w.start := table]))))
  {
    hide Inv, Appending, SoundEntry, Survivor, SeekOf, Settled, Kept, Holds, OffsetIndex.Prefix, TailOf, AllLeft;
    var w, f := x.w, x.w.phase.active;
    var c := Crash(|w.unlinked|, WholeCuts(w.unlinked + w.sealed), Latest, p);
    var dir := Survivors(w, c);
    ActiveParts(w, init, apply);
    HeaderKept(f, p);
    var n := SurvivorHolds(w.start, w.log, w.synced, w.written, f, p);
    var k := |dir| - 1;
    assert dir[k] == SegmentFile(w.start, Survivor(f, p));
    var tables := TablesOf(dir, Back(map[w.start := table]));
    assert Slots(Settled(table)) == table by { SettledSlots(table); }
    var index := table[..OffsetIndex.Prefix(table, 0)];
    assert IndexScan.Lenient(tables)[k] == Some(index);
    OffsetIndex.PrefixIsLongest(table, 0);
    SeekExact(dir[k], w.log, n, index);
  }

  lemma {:induction false} SettledSlots(table: seq<OffsetIndex.Slot>)
    ensures Slots(Settled(table)) == table
  {
  }

  lemma {:induction false} HeaderKept(f: File, p: nat)
    requires p <= |f.current| && |Survivor(f, p)| >= SEGMENT_HEADER
    ensures !HeaderLost(f, p)
  {
  }

  // ---- what recovery answers ------------------------------------------------

  /** Replay never takes the last transaction back. */
  lemma {:induction false} ReplayGrows<S>(s: bytes, info: SegmentInfo, from: nat, st: S, maxTx: nat, apply: Applier<S>)
    ensures var r := ReplayRecords(s, info, from, st, maxTx, apply);
      r.Replayed? ==> r.maxTx >= maxTx
    decreases |s|
  {
    hide DecodeRecord;
    match DecodeRecord(s, 0) {
      case End =>
      case Bad(_) =>
      case Got(rec, size) =>
        if rec.txID <= from {
          ReplayGrows(s[size..], info, from, st, maxTx, apply);
        } else if apply(st, rec.payload).Some? {
          ReplayGrows(s[size..], info, from, apply(st, rec.payload).value, if rec.txID > maxTx then rec.txID else maxTx,
            apply);
        }
    }
  }

  /** A file of which replay reads the record that follows `from` is replayed to that record at least. */
  lemma {:induction false} ReplaysFirst<S>(s: bytes, info: SegmentInfo, from: nat, st: S, maxTx: nat, apply: Applier<S>)
    requires DecodeRecord(s, 0).Got? && DecodeRecord(s, 0).rec.txID > from
    ensures var r := ReplayRecords(s, info, from, st, maxTx, apply);
      r.Replayed? ==> r.maxTx >= DecodeRecord(s, 0).rec.txID
  {
    hide DecodeRecord;
    var Got(rec, size) := DecodeRecord(s, 0);
    if apply(st, rec.payload).Some? {
      ReplayGrows(s[size..], info, from, apply(st, rec.payload).value, if rec.txID > maxTx then rec.txID else maxTx,
        apply);
    }
  }

  /** The last file's index leads replay to a record behind `from`. */
  ghost predicate Leads(f: SegmentFile, index: Option<seq<OffsetIndex.Slot>>, from: nat, e: OffsetIndex.Slot) {
    && index.Some? && f.start <= from < MAX_U64 && e.key == from + 1
    && OffsetIndex.Lookup(index.value, from + 1) == Some(e) && ValidIndexedOffset(f.data, e.offset, e.key)
  }

  lemma {:induction false} LedStart(f: SegmentFile, index: Option<seq<OffsetIndex.Slot>>, from: nat,
      e: OffsetIndex.Slot)
    requires Leads(f, index, from, e)
    ensures |f.data| >= SEGMENT_HEADER && ReplayStart(f, from, index) == e.offset
    ensures DecodeRecord(f.data[e.offset..], 0).Got? && DecodeRecord(f.data[e.offset..], 0).rec.txID == from + 1
  {
    hide Records.ScanNext, DecodeRecord, OffsetIndex.Lookup, LinearSeek;
    ReadersAgreeOnGot(f.data[e.offset..]);
    SeekHere(f.data, e.offset, e.key);
  }

  lemma {:induction false} ReplayPast<S>(dir: seq<SegmentFile>, infos: seq<SegmentInfo>, indexes: OffsetIndex.Sidecars,
      from: nat, st: S, maxTx: nat, apply: Applier<S>, e: OffsetIndex.Slot)
    requires |dir| == |infos| == |indexes| > 0 && from <= MAX_U64
    requires Leads(dir[|dir| - 1], indexes[|dir| - 1], from, e)
    requires infos[|dir| - 1].last > from && infos[|dir| - 1].last >= infos[|dir| - 1].start
    ensures var r := ReplayOf(dir, infos, indexes, from, st, maxTx, apply);
      r.Replayed? ==> r.maxTx > from
    decreases |dir|
  {
    hide Leads, ReplayRecords, ReplayStart, ReadSegmentHeader, DecodeRecord;
    if |dir| == 1 {
      LedStart(dir[0], indexes[0], from, e);
      ReplaysFirst(dir[0].data[e.offset..], infos[0], from, st, maxTx, apply);
      assert dir[1..] == [];
    } else {
      var rest := dir[1..];
      assert rest[|rest| - 1] == dir[|dir| - 1];
      if EmptyDamagedTail(infos[0]) || infos[0].last <= from {
        ReplayPast(dir[1..], infos[1..], indexes[1..], from, st, maxTx, apply, e);
      } else if ReadSegmentHeader(dir[0].data).None? {
        var r := ReplayRecords(dir[0].data[ReplayStart(dir[0], from, indexes[0])..], infos[0], from, st, maxTx, apply);
        if r.Replayed? {
          ReplayPast(dir[1..], infos[1..], indexes[1..], from, r.state, r.maxTx, apply, e);
        }
      }
    }
  }

  /** Replay passes over segments that end at or before `from`. */
  lemma {:induction false} ReplayPasses<S>(dir: seq<SegmentFile>, infos: seq<SegmentInfo>,
      indexes: OffsetIndex.Sidecars, from: nat, st: S, maxTx: nat, apply: Applier<S>)
    requires |dir| == |infos| == |indexes| && from <= MAX_U64
    requires forall i :: 0 <= i < |dir| ==> infos[i].last <= from
    ensures ReplayOf(dir, infos, indexes, from, st, maxTx, apply) == Replayed(st, maxTx)
    decreases |dir|
  {
    if dir != [] {
      ReplayPasses(dir[1..], infos[1..], indexes[1..], from, st, maxTx, apply);
    }
  }

  /** No segment of a directory reaches further than the newest. */
  lemma {:induction false} ReportsBelow<S>(w: World<S>, dir: seq<SegmentFile>)
    requires w.snaps != [] && DownOk(w, dir) && dir != [] && !CutHeader(dir)
    ensures ScanOf(dir).Ok? && Horizon(ScanOf(dir).value) == Reach(w, dir)
    ensures forall i :: 0 <= i < |dir| ==> ScanOf(dir).value[i].last <= Reach(w, dir)
  {
    hide Newest, Chain, LogFrom, Listed, SegmentOf;
    var n := |dir| - 1;
    assert dir == dir[..n] + [dir[n]];
    ChainScan(dir[..n], dir[n], w.log);
    ChainBelow(dir[..n], w.log, dir[n].start);
    forall i | 0 <= i < |dir| ensures ScanOf(dir).value[i].last <= Reach(w, dir) {
      SegmentFacts(dir[i], i == n);
      if i < n {
        assert dir[i] == dir[..n][i];
      }
    }
  }

  /** With the newest snapshot at the end of the log, replay reads no segment, so no index. */
  lemma {:induction false} NothingToReplay<S>(w: World<S>, dir: seq<SegmentFile>, indexes: OffsetIndex.Sidecars,
      plain: OffsetIndex.Sidecars, init: S, apply: Applier<S>)
    requires Steady(w, init, apply) && w.snaps != [] && DownOk(w, dir) && dir != [] && !CutHeader(dir)
    requires |dir| == |indexes| == |plain| && Reach(w, dir) == w.snaps[0].txID
    ensures Recover(dir, indexes, w.snaps, init, apply) == Recover(dir, plain, w.snaps, init, apply)
  {
    hide DownOk, ReplayOf, ScanOf, BoundaryError, Fold, CutHeader, Reach, Horizon;
    ReportsBelow(w, dir);
    var from, st := w.snaps[0].txID, w.snaps[0].file.restored.value;
    assert Selected(w.snaps, from) == Selection(Some(w.snaps[0]), []);
    ReplayPasses(dir, ScanOf(dir).value, indexes, from, st, from, apply);
    ReplayPasses(dir, ScanOf(dir).value, plain, from, st, from, apply);
  }

  lemma {:induction false} BoundaryLast(dir: seq<SegmentFile>, snapshotTx: u64, indexes: OffsetIndex.Sidecars)
    requires |dir| == |indexes| > 0 && IndexScan.BoundaryReports(dir, snapshotTx, indexes).Answered?
    ensures var infos := IndexScan.BoundaryReports(dir, snapshotTx, indexes).value;
      var n := |dir| - 1;
      |infos| == |dir| &&
      IndexScan.BoundarySegment(dir[n], true, snapshotTx, indexes[n]) == IndexScan.Answered(infos[n])
    decreases |dir|
  {
    hide IndexScan.BoundarySegment;
    if |dir| > 1 {
      BoundaryLast(dir[1..], snapshotTx, indexes[1..]);
      assert dir[1..][|dir| - 2] == dir[|dir| - 1] && indexes[1..][|dir| - 2] == indexes[|dir| - 1];
    }
  }

  /** The index has an entry at or below the target that passes its validation. */
  predicate Validated(f: SegmentFile, index: Option<seq<OffsetIndex.Slot>>, target: u64) {
    && index.Some? && OffsetIndex.Lookup(index.value, target).Some?
    && var e := OffsetIndex.Lookup(index.value, target).value;
       e.key >= f.start && ValidIndexedOffset(f.data, e.offset, e.key)
  }

  /** The records behind that entry are contiguous up to the end of the file or a torn one. */
  predicate Unbroken(f: SegmentFile, index: Option<seq<OffsetIndex.Slot>>, target: u64) {
    && Validated(f, index, target)
    && var e := OffsetIndex.Lookup(index.value, target).value;
       !ScanRecords(f.data[e.offset..], e.key).end.Broken?
  }

  predicate FirstMissing(dir: seq<SegmentFile>, indexes: OffsetIndex.Sidecars, target: u64, i: nat)
    requires |dir| == |indexes|
  {
    && i < |dir| && !Validated(dir[i], indexes[i], target)
    && forall j :: 0 <= j < i ==> Unbroken(dir[j], indexes[j], target)
  }

  /** Some segment has no entry that passes its validation, and nothing goes wrong in the segments before it. */
  ghost predicate SomeMissing(dir: seq<SegmentFile>, indexes: OffsetIndex.Sidecars, target: u64)
    requires |dir| == |indexes|
  {
    exists i: nat :: FirstMissing(dir, indexes, target, i)
  }

  lemma {:induction false} MissingCons(dir: seq<SegmentFile>, indexes: OffsetIndex.Sidecars, target: u64)
    requires |dir| == |indexes| > 0
    ensures SomeMissing(dir, indexes, target) <==>
      || !Validated(dir[0], indexes[0], target)
      || (Unbroken(dir[0], indexes[0], target) && SomeMissing(dir[1..], indexes[1..], target))
  {
    hide Validated, Unbroken;
    if SomeMissing(dir, indexes, target) {
      var i: nat :| FirstMissing(dir, indexes, target, i);
      if i > 0 {
        assert forall j :: 0 <= j < i - 1 ==> dir[1..][j] == dir[j + 1] && indexes[1..][j] == indexes[j + 1];
        assert FirstMissing(dir[1..], indexes[1..], target, i - 1);
      }
    }
    if !Validated(dir[0], indexes[0], target) {
      assert FirstMissing(dir, indexes, target, 0);
    } else if Unbroken(dir[0], indexes[0], target) && SomeMissing(dir[1..], indexes[1..], target) {
      var i: nat :| FirstMissing(dir[1..], indexes[1..], target, i);
      forall j | 0 <= j < i + 1 ensures Unbroken(dir[j], indexes[j], target) {
        if j > 0 {
          assert dir[j] == dir[1..][j - 1] && indexes[j] == indexes[1..][j - 1];
        }
      }
      assert FirstMissing(dir, indexes, target, i + 1);
    }
  }

  lemma {:induction false} NoneMissing(target: u64)
    ensures !SomeMissing([], [], target)
  {
  }

  /** What the fast scan makes of one covered segment. */
  lemma {:induction false} SegmentAttempt(f: SegmentFile, isLast: bool, target: u64,
      index: Option<seq<OffsetIndex.Slot>>)
    requires ReadSegmentHeader(f.data).None?
    ensures var a := IndexScan.IndexedSegment(f, isLast, target, index);
      && (a.Declined? <==> !Validated(f, index, target))
      && (a.Answered? <==> Unbroken(f, index, target))
  {
    hide ScanRecords, Records.ScanNext, OffsetIndex.Lookup, ReadSegmentHeader, ValidIndexedOffset;
  }

  /** The fast scan declines exactly when such a segment is met. */
  lemma {:induction false} DeclinesExactly(dir: seq<SegmentFile>, snapshotTx: u64, indexes: OffsetIndex.Sidecars)
    requires |dir| == |indexes|
    requires forall i :: 0 <= i < |dir| ==> dir[i].start <= snapshotTx && ReadSegmentHeader(dir[i].data).None?
    ensures IndexScan.BoundaryReports(dir, snapshotTx, indexes).Declined?
       <==> SomeMissing(dir, indexes, IndexScan.BoundaryTarget(snapshotTx))
    decreases |dir|
  {
    hide Validated, Unbroken, SomeMissing, IndexScan.IndexedSegment, ReadSegmentHeader;
    var target := IndexScan.BoundaryTarget(snapshotTx);
    if dir == [] {
      NoneMissing(target);
    } else {
      SegmentAttempt(dir[0], |dir| == 1, target, indexes[0]);
      MissingCons(dir, indexes, target);
      DeclinesExactly(dir[1..], snapshotTx, indexes[1..]);
    }
  }

  /** Every segment of such a directory starts at or before the snapshot, and has its header. */
  lemma {:induction false} AllCovered<S>(w: World<S>, dir: seq<SegmentFile>, i: nat)
    requires w.snaps != [] && DownOk(w, dir) && !CutHeader(dir) && i < |dir|
    requires dir[|dir| - 1].start <= w.snaps[0].txID <= Reach(w, dir)
    ensures dir[i].start <= w.snaps[0].txID && |dir[i].data| >= SEGMENT_HEADER && ReadSegmentHeader(dir[i].data).None?
    ensures i < |dir| - 1 ==> NextStart(dir[i]) <= dir[|dir| - 1].start
  {
    var n := |dir| - 1;
    EmptyHasNone(dir[n].start);
    hide Holds, BodyScan, Chain, ReadSegmentHeader;
    if i == n {
      assert dir[n].data != [];
      HeldScan(dir[n], w.log, |FileRecords(dir[n])|);
      HeldSize(dir[n], w.log, |FileRecords(dir[n])|);
    } else {
      ChainBelow(dir[..n], w.log, dir[n].start);
      assert dir[i] == dir[..n][i];
      HeldScan(dir[i], w.log, |FileRecords(dir[i])|);
      HeldSize(dir[i], w.log, |FileRecords(dir[i])|);
    }
  }

  lemma {:induction false} HeldSize(f: SegmentFile, log: seq<bytes>, n: nat)
    requires Holds(f, log, n)
    ensures |f.data| >= SEGMENT_HEADER
  {
    hide Encoded, TornTail;
  }

  /** The entry that both scans look up in the newest file names the transaction after the last snapshot. */
  ghost predicate NamesNext<S>(w: World<S>, dir: seq<SegmentFile>, tables: IndexScan.Tables, e: OffsetIndex.Slot)
    requires w.snaps != [] && dir != [] && |dir| == |tables|
  {
    var snap, n := w.snaps[0].txID, |dir| - 1;
    && dir[n].start <= snap < MAX_U64 && e.key == snap + 1
    && IndexScan.Lenient(tables)[n].Some?
    && OffsetIndex.Lookup(IndexScan.Lenient(tables)[n].value, snap + 1) == Some(e)
  }

  /** The fast scan of the newest file, when it answers, has read the record at the entry. */
  lemma {:induction false} NewestAnswer<S>(w: World<S>, dir: seq<SegmentFile>, tables: IndexScan.Tables,
      e: OffsetIndex.Slot, infos: seq<SegmentInfo>)
    requires w.snaps != [] && dir != [] && |dir| == |tables| && NamesNext(w, dir, tables, e)
    requires IndexScan.BoundaryReports(dir, w.snaps[0].txID, IndexScan.Strict(tables)) == IndexScan.Answered(infos)
    ensures var n := |dir| - 1;
      && |infos| == |dir| && infos[n].start == dir[n].start && infos[n].last >= e.key
      && Leads(dir[n], IndexScan.Lenient(tables)[n], w.snaps[0].txID, e)
  {
    hide IndexScan.BoundaryReports, OffsetIndex.Lookup, OffsetIndex.Prefix, IndexScan.StrictPrefix, ScanRecords,
      Records.ScanNext, ReadSegmentHeader, ValidIndexedOffset;
    var n := |dir| - 1;
    BoundaryLast(dir, w.snaps[0].txID, IndexScan.Strict(tables));
    IndexScan.StrictIsLenient(tables[n].value);
    FromEntry(dir[n], e.key, IndexScan.Strict(tables)[n].value, e);
  }

  /** Past the scan, what is recovered ends behind the snapshot. */
  lemma {:induction false} RebuiltPast<S>(w: World<S>, dir: seq<SegmentFile>, tables: IndexScan.Tables,
      e: OffsetIndex.Slot, infos: seq<SegmentInfo>, init: S, apply: Applier<S>)
    requires w.snaps != [] && dir != [] && |dir| == |tables| == |infos| && w.snaps[0].txID < MAX_U64
    requires w.snaps[0].file.Readable? && w.snaps[0].file.restored.Some?
    requires Leads(dir[|dir| - 1], IndexScan.Lenient(tables)[|dir| - 1], w.snaps[0].txID, e)
    requires infos[|dir| - 1].last > w.snaps[0].txID && infos[|dir| - 1].last >= infos[|dir| - 1].start
    ensures var r := IndexScan.RebuildFrom(dir, infos, IndexScan.Lenient(tables), Selection(Some(w.snaps[0]), []), init,
                                           apply);
      r.Ok? ==> r.value.txID > w.snaps[0].txID
  {
    hide Leads, ReplayOf, BoundaryError, IndexScan.Lenient;
    var from, st := w.snaps[0].txID, w.snaps[0].file.restored.value;
    ReplayPast(dir, infos, IndexScan.Lenient(tables), from, st, from, apply, e);
  }

  /**
   * The newest snapshot is at the end of the log, and the index of the newest segment has an entry for the transaction
   * behind it, which is not there. Whatever else is in the index files: recovery answers as without them
   * exactly when in some segment no entry passes its validation, before any other goes wrong; with a single
   * segment, when that entry does not pass, or is not read because its file is not in order. Otherwise recovery
   * fails or ends with a transaction that was never written.
   */
  lemma {:induction false} LostEntryDecides<S>(x: Indexed<S>, e: OffsetIndex.Slot, init: S, apply: Applier<S>)
    requires Inv(x.w, init, apply)
    requires var dir := AllShown(Found(x.w)); dir != [] && !CutHeader(dir) && x.w.snaps != []
    requires var dir := AllShown(Found(x.w)); Reach(x.w, dir) == x.w.snaps[0].txID
    requires var dir := AllShown(Found(x.w)); NamesNext(x.w, dir, TablesOf(dir, x.files), e)
    ensures x.w.snaps[0].txID < MAX_U64
    ensures var dir := AllShown(Found(x.w));
      var tables := TablesOf(dir, x.files);
      var fast := IndexScan.RecoverFast(dir, tables, x.w.snaps, init, apply);
      var plain := Recover(dir, NoIndexes(|dir|), x.w.snaps, init, apply);
      && plain.Ok? && plain.value.txID == x.w.snaps[0].txID
      && (fast == plain <==> SomeMissing(dir, IndexScan.Strict(tables), x.w.snaps[0].txID + 1))
      && (fast != plain && fast.Ok? ==> fast.value.txID > plain.value.txID)
      && (|dir| == 1 ==>
            (fast == plain <==>
               IndexScan.Strict(tables)[0].None? || !ValidIndexedOffset(dir[0].data, e.offset, e.key)))
  {
    hide Inv, Found, DownOk, Recover, Fold, SoundIndexes, EndsWhole, CutHeader, Reach, NamesNext, SnapshotsFrom,
      IndexScan.TryIndexed, IndexScan.RebuildFrom, SomeMissing, ValidIndexedOffset;
    FoundOk(x.w, init, apply);
    var w, dir := x.w, AllShown(Found(x.w));
    var tables := TablesOf(dir, x.files);
    NoIndexesSound(dir);
    RecoverOutcome(w, dir, NoIndexes(|dir|), init, apply);
    NextBound(w, dir, tables, e);
    var t := IndexScan.TryIndexed(dir, IndexScan.Strict(tables), w.snaps);
    LostDeclines(w, dir, tables, e, init, apply);
    if t.Declined? {
      NothingToReplay(w, dir, IndexScan.Lenient(tables), NoIndexes(|dir|), init, apply);
    } else if t.Answered? {
      FastAnswer(w, dir, tables, e, init, apply);
    }
    if |dir| == 1 {
      LoneMissing(w, dir, tables, e);
    }
  }

  /** For such an entry no other snapshot is tried. */
  lemma {:induction false} LostDeclines<S>(w: World<S>, dir: seq<SegmentFile>, tables: IndexScan.Tables,
      e: OffsetIndex.Slot, init: S, apply: Applier<S>)
    requires w.snaps != [] && DownOk(w, dir) && dir != [] && !CutHeader(dir) && Reach(w, dir) == w.snaps[0].txID
    requires SnapshotsOk(w, init, apply) && |dir| == |tables| && NamesNext(w, dir, tables, e)
    ensures w.snaps[0].txID < MAX_U64
    ensures IndexScan.TryIndexed(dir, IndexScan.Strict(tables), w.snaps).Declined?
       <==> SomeMissing(dir, IndexScan.Strict(tables), w.snaps[0].txID + 1)
  {
    hide IndexScan.BoundaryReports, IndexScan.Strict, IndexScan.Lenient, NamesNext, FirstGap, Leads, SnapshotsFrom,
      DownOk, CutHeader, Reach, SomeMissing, ReadSegmentHeader;
    NextBound(w, dir, tables, e);
    NamedKey(w, dir, tables, e);
    forall i | 0 <= i < |dir| ensures dir[i].start <= w.snaps[0].txID && ReadSegmentHeader(dir[i].data).None? {
      AllCovered(w, dir, i);
    }
    DeclinesExactly(dir, w.snaps[0].txID, IndexScan.Strict(tables));
    var b := IndexScan.BoundaryReports(dir, w.snaps[0].txID, IndexScan.Strict(tables));
    if b.Answered? {
      NewestAnswer(w, dir, tables, e, b.value);
      assert Usable(w.snaps[0], Horizon(b.value));
    }
  }

  lemma {:induction false} LoneMissing<S>(w: World<S>, dir: seq<SegmentFile>, tables: IndexScan.Tables,
      e: OffsetIndex.Slot)
    requires w.snaps != [] && |dir| == |tables| == 1 && NamesNext(w, dir, tables, e)
    ensures SomeMissing(dir, IndexScan.Strict(tables), w.snaps[0].txID + 1)
       <==> IndexScan.Strict(tables)[0].None? || !ValidIndexedOffset(dir[0].data, e.offset, e.key)
  {
    hide ValidIndexedOffset, OffsetIndex.Lookup, SomeMissing, OffsetIndex.Prefix, IndexScan.StrictPrefix, ScanRecords;
    var ix, target := IndexScan.Strict(tables), w.snaps[0].txID + 1;
    MissingCons(dir, ix, target);
    assert dir[1..] == [] && ix[1..] == [];
    NoneMissing(target);
    if tables[0].Some? {
      IndexScan.StrictIsLenient(tables[0].value);
    }
  }

  lemma {:induction false} NextBound<S>(w: World<S>, dir: seq<SegmentFile>, tables: IndexScan.Tables,
      e: OffsetIndex.Slot)
    requires w.snaps != [] && dir != [] && |dir| == |tables| && NamesNext(w, dir, tables, e)
    ensures w.snaps[0].txID < MAX_U64
  {
    hide OffsetIndex.Lookup, IndexScan.Lenient;
  }

  lemma {:induction false} FastAnswer<S>(w: World<S>, dir: seq<SegmentFile>, tables: IndexScan.Tables,
      e: OffsetIndex.Slot, init: S, apply: Applier<S>)
    requires SnapshotsOk(w, init, apply)
    requires w.snaps != [] && dir != [] && |dir| == |tables| && NamesNext(w, dir, tables, e)
    requires IndexScan.TryIndexed(dir, IndexScan.Strict(tables), w.snaps).Answered?
    ensures var r := IndexScan.RecoverFast(dir, tables, w.snaps, init, apply);
      r.Ok? ==> r.value.txID > w.snaps[0].txID
  {
    hide IndexScan.BoundaryReports, IndexScan.RebuildFrom, IndexScan.Strict, IndexScan.Lenient, NamesNext, FirstGap,
      Leads, SnapshotsFrom;
    NextBound(w, dir, tables, e);
    var infos := IndexScan.BoundaryReports(dir, w.snaps[0].txID, IndexScan.Strict(tables)).value;
    NewestAnswer(w, dir, tables, e, infos);
    NamedKey(w, dir, tables, e);
    assert Usable(w.snaps[0], Horizon(infos));
    RebuiltPast(w, dir, tables, e, infos, init, apply);
  }

  lemma {:induction false} NamedKey<S>(w: World<S>, dir: seq<SegmentFile>, tables: IndexScan.Tables,
      e: OffsetIndex.Slot)
    requires w.snaps != [] && dir != [] && |dir| == |tables| && NamesNext(w, dir, tables, e)
    ensures e.key == w.snaps[0].txID + 1 > dir[|dir| - 1].start
  {
    hide OffsetIndex.Lookup, IndexScan.Lenient;
  }
}
