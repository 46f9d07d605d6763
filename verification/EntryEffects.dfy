/** What an index entry of the newest segment does to recovery, wherever the newest snapshot is. */
module EntryEffects {
  import opened Bytes
  import opened Records
  import opened SegmentScan
  import OffsetIndex
  import opened Replay
  import opened Recovery
  import IndexScan
  import opened Listings
  import opened CrashRuns
  import opened IndexEntries
  import opened IndexedRuns
  import opened StaleEntries

  // ---- the fast scan --------------------------------------------------------

  /** What the fast scan reports of a last segment when it starts at this entry. */
  function ReportFrom(f: SegmentFile, e: OffsetIndex.Slot): (r: IndexScan.Attempt<SegmentInfo>)
    requires e.offset <= |f.data|
  {
    var scan := ScanRecords(f.data[e.offset..], e.key);
    var last := e.key - 1 + |scan.records|;
    match scan.end
    case Broken(b) => IndexScan.Failed(b)
    case Torn => IndexScan.Answered(SegmentInfo(f.start, last, AppendByFreshNextSegment))
    case Clean => IndexScan.Answered(SegmentInfo(f.start, last, AppendInPlace))
  }

  /** With the older segments reported as they are, the entry decides about the newest. */
  lemma {:induction false} FrontAnswers(dir: seq<SegmentFile>, snapshotTx: u64, indexes: OffsetIndex.Sidecars)
    requires |dir| == |indexes| > 0 && Reports(dir).Ok?
    requires forall i :: 0 <= i < |dir| ==> dir[i].start <= snapshotTx
    requires forall i :: 0 <= i < |dir| - 1 ==>
      IndexScan.IndexedSegment(dir[i], false, IndexScan.BoundaryTarget(snapshotTx), indexes[i])
      == IndexScan.Answered(Reports(dir).value[i])
    ensures var n := |dir| - 1;
      var b := IndexScan.BoundaryReports(dir, snapshotTx, indexes);
      match IndexScan.IndexedSegment(dir[n], true, IndexScan.BoundaryTarget(snapshotTx), indexes[n])
      case Declined => b.Declined?
      case Failed(e) => b == IndexScan.Failed(e)
      case Answered(info) => b == IndexScan.Answered(Reports(dir).value[..n] + [info])
    decreases |dir|
  {
    hide Reports, IndexScan.BoundaryReports, IndexScan.IndexedSegment, IndexScan.BoundaryTarget;
    var n, target := |dir| - 1, IndexScan.BoundaryTarget(snapshotTx);
    var infos, last := Reports(dir).value, IndexScan.IndexedSegment(dir[n], true, target, indexes[n]);
    ReportsCons(dir);
    BoundaryCons(dir, snapshotTx, indexes);
    if n == 0 {
      if last.Answered? {
        assert infos[..0] + [last.value] == [last.value] + [];
      }
    } else {
      var rest := infos[1..];
      forall i | 0 <= i < |dir[1..]| - 1
        ensures IndexScan.IndexedSegment(dir[1..][i], false, target, indexes[1..][i]) == IndexScan.Answered(rest[i])
      {
        assert infos[i + 1] == rest[i];
      }
      FrontAnswers(dir[1..], snapshotTx, indexes[1..]);
      assert dir[1..][n - 1] == dir[n] && indexes[1..][n - 1] == indexes[n];
      if last.Answered? {
        assert infos[..n] + [last.value] == [infos[0]] + (rest[..n - 1] + [last.value]);
      }
    }
  }

  lemma {:induction false} ReportsCons(dir: seq<SegmentFile>)
    requires dir != [] && Reports(dir).Ok?
    ensures Reports(dir[1..]) == Ok(Reports(dir).value[1..])
  {
    hide SegmentOf;
  }

  lemma {:induction false} BoundaryCons(dir: seq<SegmentFile>, snapshotTx: u64, indexes: OffsetIndex.Sidecars)
    requires |dir| == |indexes| > 0 && dir[0].start <= snapshotTx
    ensures var first := IndexScan.IndexedSegment(dir[0], |dir| == 1, IndexScan.BoundaryTarget(snapshotTx), indexes[0]);
      var rest := IndexScan.BoundaryReports(dir[1..], snapshotTx, indexes[1..]);
      IndexScan.BoundaryReports(dir, snapshotTx, indexes) ==
        match first
        case Declined => IndexScan.Declined
        case Failed(e) => IndexScan.Failed(e)
        case Answered(info) =>
          (match rest
           case Declined => IndexScan.Declined
           case Failed(e) => IndexScan.Failed(e)
           case Answered(more) => IndexScan.Answered([info] + more))
    ensures |dir| == 1 ==> IndexScan.BoundaryReports(dir[1..], snapshotTx, indexes[1..]) == IndexScan.Answered([])
  {
    hide IndexScan.IndexedSegment;
  }

  /** Gaps between segments do not depend on where the last one ends. */
  lemma {:induction false} GapSame(infos: seq<SegmentInfo>, info: SegmentInfo)
    requires infos != [] && (forall i :: 0 <= i < |infos| ==> -1 <= infos[i].last) && -1 <= info.last
    requires info.start == infos[|infos| - 1].start
    ensures var other := infos[..|infos| - 1] + [info];
      (forall i :: 0 <= i < |other| ==> -1 <= other[i].last) && FirstGap(other) == FirstGap(infos)
    decreases |infos|
  {
    var other := infos[..|infos| - 1] + [info];
    assert forall i :: 0 <= i < |other| ==> -1 <= other[i].last;
    if |infos| > 1 {
      GapSame(infos[1..], info);
      assert other[1..] == infos[1..][..|infos| - 2] + [info];
    }
  }

  // ---- replay ---------------------------------------------------------------

  /** Replay passes over the segments that end at or before `from` to the last one. */
  lemma {:induction false} ReplayLast<S>(dir: seq<SegmentFile>, infos: seq<SegmentInfo>, indexes: OffsetIndex.Sidecars,
      from: nat, st: S, maxTx: nat, apply: Applier<S>)
    requires |dir| == |infos| == |indexes| > 0 && from <= MAX_U64
    requires forall i :: 0 <= i < |dir| - 1 ==> infos[i].last <= from
    ensures var n := |dir| - 1;
      ReplayOf(dir, infos, indexes, from, st, maxTx, apply)
      == ReplayOf([dir[n]], [infos[n]], [indexes[n]], from, st, maxTx, apply)
    decreases |dir|
  {
    if |dir| == 1 {
      assert dir == [dir[0]] && infos == [infos[0]] && indexes == [indexes[0]];
    } else {
      var n := |dir| - 1;
      ReplayLast(dir[1..], infos[1..], indexes[1..], from, st, maxTx, apply);
      assert dir[1..][n - 1] == dir[n] && infos[1..][n - 1] == infos[n] && indexes[1..][n - 1] == indexes[n];
    }
  }

  lemma {:induction false} ReplayOne<S>(f: SegmentFile, info: SegmentInfo, index: Option<seq<OffsetIndex.Slot>>,
      from: nat, st: S, maxTx: nat, apply: Applier<S>)
    requires from <= MAX_U64 && ReadSegmentHeader(f.data).None? && |f.data| >= SEGMENT_HEADER
    ensures ReplayOf([f], [info], [index], from, st, maxTx, apply)
         == if EmptyDamagedTail(info) || info.last <= from then Replayed(st, maxTx)
            else ReplayRecords(f.data[ReplayStart(f, from, index)..], info, from, st, maxTx, apply)
  {
    hide ReplayRecords, ReplayStart, ReadSegmentHeader;
    var ix: OffsetIndex.Sidecars := [index];
    assert [f][1..] == [] && [info][1..] == [] && ix[1..] == [];
  }

  /** The seek for the transaction behind the snapshot goes on from the entry, record by record. */
  lemma {:induction false} SeekFromEntry(f: SegmentFile, index: seq<OffsetIndex.Slot>, target: u64, e: OffsetIndex.Slot)
    requires OffsetIndex.Lookup(index, target) == Some(e) && ValidIndexedOffset(f.data, e.offset, e.key)
    requires e.key <= target < e.key + |ScanRecords(f.data[e.offset..], e.key).records|
    ensures var k := target - e.key;
      var pos := e.offset + Boundary(f.data[e.offset..], e.key, k);
      && pos <= |f.data| && SeekOf(f.data, target, Some(index)) == Ok(pos)
      && f.data[pos..] == f.data[e.offset..][Boundary(f.data[e.offset..], e.key, k)..]
  {
    hide ScanRecords, Records.ScanNext, DecodeRecord, Boundary, LinearSeek, OffsetIndex.Lookup;
    var s, k := f.data[e.offset..], target - e.key;
    var pos := e.offset + Boundary(s, e.key, k);
    SeekSkips(f.data, e.offset, e.key, k, target);
    ScanFromBoundary(s, e.key, k);
    assert s[Boundary(s, e.key, k)..] == f.data[pos..];
    ScanStep(f.data[pos..], target);
    ReadersAgreeOnGot(f.data[pos..]);
    SeekHere(f.data, pos, target);
  }

  /** Replay of the newest segment applies the records behind the entry that follow the snapshot. */
  lemma {:induction false} ReplayFromEntry<S>(f: SegmentFile, index: seq<OffsetIndex.Slot>, from: nat,
      e: OffsetIndex.Slot, info: SegmentInfo, st: S, maxTx: nat, apply: Applier<S>)
    requires f.start <= from < MAX_U64 && OffsetIndex.Lookup(index, from + 1) == Some(e)
    requires ValidIndexedOffset(f.data, e.offset, e.key) && e.key <= from + 1
    requires ReportFrom(f, e) == IndexScan.Answered(info) && info.last > from
    ensures |f.data| >= SEGMENT_HEADER
    ensures ReplayRecords(f.data[ReplayStart(f, from, Some(index))..], info, from, st, maxTx, apply)
         == FoldRecords(ScanRecords(f.data[e.offset..], e.key).records, from, st, maxTx, apply)
  {
    hide ScanRecords, Records.ScanNext, SeekOf, OffsetIndex.Lookup, Boundary, ReplayRecords, FoldRecords;
    var s := f.data[e.offset..];
    var rs, k := ScanRecords(s, e.key).records, from + 1 - e.key;
    SeekFromEntry(f, index, from + 1, e);
    ScanFromBoundary(s, e.key, k);
    var pos := e.offset + Boundary(s, e.key, k);
    ReplayIsFold(f.data[pos..], from + 1, info, from, st, maxTx, apply);
    ScannedTxIDs(s, e.key);
    FoldSkips(rs, k, from, st, maxTx, apply);
  }

  /** Where a fold over contiguous records ends. */
  lemma {:induction false} FoldEnds<S>(rs: seq<Record>, first: nat, from: nat, st: S, maxTx: nat, apply: Applier<S>)
    requires maxTx >= from && forall i :: 0 <= i < |rs| ==> rs[i].txID == first + i
    ensures var r := FoldRecords(rs, from, st, maxTx, apply);
      r.Replayed? ==> r.maxTx == if rs != [] && first + |rs| - 1 > maxTx then first + |rs| - 1 else maxTx
    decreases |rs|
  {
    if rs != [] {
      if rs[0].txID <= from {
        FoldEnds(rs[1..], first + 1, from, st, maxTx, apply);
      } else if apply(st, rs[0].payload).Some? {
        FoldEnds(rs[1..], first + 1, from, apply(st, rs[0].payload).value,
          if rs[0].txID > maxTx then rs[0].txID else maxTx, apply);
      }
    }
  }

  // ---- the rest of recovery -------------------------------------------------

  /** What recovery makes of the replayed state and the report of the newest segment. */
  function Finished<S>(replayed: ReplayResult<S>, info: SegmentInfo): (r: Result<Recovered<S>, RecoveryError>) {
    match replayed
    case Replayed(st, maxTx) =>
      if info.mode == AppendForbidden then Err(TailForbidden)
      else
        (match PlanResume([info], maxTx)
         case Err(e) => Err(e)
         case Ok(plan) => Ok(Recovered(st, maxTx, plan, [])))
    case _ => Err(ReplayFailed)
  }

  lemma {:induction false} NoBoundaryGap(infos: seq<SegmentInfo>, txID: nat)
    requires infos != [] && infos[|infos| - 1].start <= txID + 1
    requires forall i :: 0 <= i < |infos| - 1 ==> infos[i].last <= txID
    ensures BoundaryError(infos, txID).None?
    decreases |infos|
  {
    if |infos| > 1 {
      NoBoundaryGap(infos[1..], txID);
    }
  }

  /** With everything but the newest segment covered by the snapshot, the newest segment decides. */
  lemma {:induction false} RebuildLast<S>(dir: seq<SegmentFile>, infos: seq<SegmentInfo>, indexes: OffsetIndex.Sidecars,
      snap: Snapshot<S>, init: S, apply: Applier<S>)
    requires |dir| == |infos| == |indexes| > 0 && snap.file.Readable? && snap.file.restored.Some?
    requires infos[|infos| - 1].start <= snap.txID + 1
    requires forall i :: 0 <= i < |dir| - 1 ==> infos[i].last <= snap.txID
    ensures var n := |dir| - 1;
      IndexScan.RebuildFrom(dir, infos, indexes, Selection(Some(snap), []), init, apply)
      == Finished(ReplayOf([dir[n]], [infos[n]], [indexes[n]], snap.txID, snap.file.restored.value, snap.txID, apply),
                  infos[n])
  {
    hide ReplayOf, BoundaryError;
    NoBoundaryGap(infos, snap.txID);
    ReplayLast(dir, infos, indexes, snap.txID, snap.file.restored.value, snap.txID, apply);
  }

  // ---- the entry decides ----------------------------------------------------

  /** In every segment the fast scan looks up an entry that passes its validation; e is that of the newest one. */
  ghost predicate Guided<S>(w: World<S>, dir: seq<SegmentFile>, tables: IndexScan.Tables, e: OffsetIndex.Slot)
    requires w.snaps != [] && dir != [] && |dir| == |tables|
  {
    var snap, n, indexes := w.snaps[0].txID, |dir| - 1, IndexScan.Strict(tables);
    && dir[n].start <= snap < MAX_U64
    && Validated(dir[n], indexes[n], snap + 1) && OffsetIndex.Lookup(indexes[n].value, snap + 1) == Some(e)
    && forall i :: 0 <= i < n ==>
         Validated(dir[i], indexes[i], snap + 1) && IndexScan.LookupSound(dir[i], indexes[i], snap + 1)
  }

  /** The state of the newest snapshot after the records that follow it. */
  function Onto<S>(w: World<S>, rs: seq<Record>, apply: Applier<S>): (r: ReplayResult<S>)
    requires w.snaps != [] && w.snaps[0].file.Readable? && w.snaps[0].file.restored.Some?
  {
    FoldRecords(rs, w.snaps[0].txID, w.snaps[0].file.restored.value, w.snaps[0].txID, apply)
  }

  /** Recovery without index files: the newest segment's own records and report. */
  lemma {:induction false} PlainFinished<S>(w: World<S>, dir: seq<SegmentFile>, init: S, apply: Applier<S>)
    requires Steady(w, init, apply) && w.snaps != [] && DownOk(w, dir) && dir != [] && !CutHeader(dir)
    requires dir[|dir| - 1].start <= w.snaps[0].txID <= Reach(w, dir)
    ensures w.snaps[0].file.Readable? && w.snaps[0].file.restored.Some?
    ensures ScanOf(dir).Ok?
    ensures var n := |dir| - 1;
      Recover(dir, NoIndexes(|dir|), w.snaps, init, apply)
      == Finished(Onto(w, FileRecords(dir[n]), apply), ScanOf(dir).value[n])
  {
    hide DownOk, ReplayOf, ScanOf, BoundaryError, Fold, CutHeader, Horizon, IndexScan.RebuildFrom, Finished,
      FileRecords, FoldRecords, SegmentOf, SnapshotsFrom, ReplayRecords, ReplayStart, ReadSegmentHeader;
    ReportsBelow(w, dir);
    var n, infos := |dir| - 1, ScanOf(dir).value;
    var from, st := w.snaps[0].txID, w.snaps[0].file.restored.value;
    OlderEnd(w, dir);
    assert Selected(w.snaps, Horizon(infos)) == Selection(Some(w.snaps[0]), []);
    IndexScan.RebuildSame(dir, NoIndexes(|dir|), Selection(Some(w.snaps[0]), []), init, apply);
    RebuildLast(dir, infos, NoIndexes(|dir|), w.snaps[0], init, apply);
    AllCovered(w, dir, n);
    ReplayOne(dir[n], infos[n], None, from, st, from, apply);
    SegmentFacts(dir[n], true);
    if infos[n].last <= from {
      FileBelow(dir[n], true, from, st, from, apply);
    } else {
      ReplayFile(dir[n], true, None, from, st, from, apply);
    }
  }

  /** The older segments end before the newest starts, and the newest report is that of its file. */
  lemma {:induction false} OlderEnd<S>(w: World<S>, dir: seq<SegmentFile>)
    requires w.snaps != [] && DownOk(w, dir) && dir != [] && !CutHeader(dir) && ScanOf(dir).Ok?
    requires dir[|dir| - 1].start <= w.snaps[0].txID <= Reach(w, dir)
    ensures var infos := ScanOf(dir).value;
      && Reports(dir) == Ok(infos) && FirstGap(infos).None?
      && (forall i :: 0 <= i < |dir| ==> SegmentOf(dir[i], i == |dir| - 1) == Ok(infos[i]))
      && (forall i :: 0 <= i < |dir| - 1 ==> infos[i].last <= w.snaps[0].txID)
      && infos[|dir| - 1].start == dir[|dir| - 1].start > 0 && infos[|dir| - 1].last == Reach(w, dir)
      && dir[|dir| - 1].start <= MAX_U64
  {
    hide DownOk, SegmentOf, CutHeader, FirstGap, NextStart;
    var n, infos := |dir| - 1, ScanOf(dir).value;
    forall i | 0 <= i < |dir| - 1 ensures infos[i].last <= w.snaps[0].txID {
      AllCovered(w, dir, i);
      SegmentFacts(dir[i], false);
      EndOf(dir[i]);
    }
    SegmentFacts(dir[n], true);
    EndOf(dir[n]);
    NewestStart(w, dir);
  }

  lemma {:induction false} EndOf(f: SegmentFile)
    ensures NextStart(f) == f.start + |FileRecords(f)|
  {
  }

  lemma {:induction false} NewestStart<S>(w: World<S>, dir: seq<SegmentFile>)
    requires w.snaps != [] && DownOk(w, dir) && dir != [] && !CutHeader(dir)
    ensures 0 < dir[|dir| - 1].start <= MAX_U64
  {
    hide Chain, FileRecords, NextStart;
    NewestBounds(dir[|dir| - 1], w.log);
  }

  /** Recovery with the fast scan: the records behind the entry, and the report that starts there. */
  lemma {:induction false} FastFinished<S>(w: World<S>, dir: seq<SegmentFile>, tables: IndexScan.Tables,
      e: OffsetIndex.Slot, init: S, apply: Applier<S>)
    requires Steady(w, init, apply) && w.snaps != [] && DownOk(w, dir) && dir != [] && !CutHeader(dir)
    requires |dir| == |tables| && Guided(w, dir, tables, e) && w.snaps[0].txID <= Reach(w, dir)
    requires e.key - 1 + |ScanRecords(dir[|dir| - 1].data[e.offset..], e.key).records| >= w.snaps[0].txID
    ensures w.snaps[0].file.Readable? && w.snaps[0].file.restored.Some? && e.offset <= |dir[|dir| - 1].data|
    ensures var f := dir[|dir| - 1];
      var fast := IndexScan.RecoverFast(dir, tables, w.snaps, init, apply);
      match ReportFrom(f, e)
      case Answered(info) => fast == Finished(Onto(w, ScanRecords(f.data[e.offset..], e.key).records, apply), info)
      case _ => fast.Err?
  {
    hide DownOk, ReplayOf, ScanOf, Fold, CutHeader, IndexScan.RebuildFrom, Finished, IndexScan.BoundaryScan, Guided,
      IndexScan.Strict, IndexScan.Lenient, ScanRecords, Reach, SnapshotsFrom, Onto, ValidIndexedOffset, Recover,
      IndexScan.TryIndexed, OffsetIndex.Lookup, ReadSegmentHeader;
    var f, n := dir[|dir| - 1], |dir| - 1;
    EntryParts(w, dir, tables, e);
    FastReports(w, dir, tables, e);
    AllCovered(w, dir, n);
    var b := IndexScan.BoundaryScan(dir, w.snaps[0].txID, IndexScan.Strict(tables));
    if b.Answered? {
      assert Horizon(b.value) >= w.snaps[0].txID;
    }
    FirstTried(w, dir, IndexScan.Strict(tables));
    if ReportFrom(f, e).Answered? {
      RebuildLast(dir, b.value, IndexScan.Lenient(tables), w.snaps[0], init, apply);
      LastFromEntry(w, f, IndexScan.Lenient(tables)[n], e, ReportFrom(f, e).value, apply);
    }
  }

  /** The newest snapshot is usable, so no other is tried. */
  lemma {:induction false} FirstTried<S>(w: World<S>, dir: seq<SegmentFile>, indexes: OffsetIndex.Sidecars)
    requires w.snaps != [] && w.snaps[0].file.Readable? && dir != [] && |dir| == |indexes|
    ensures match IndexScan.BoundaryScan(dir, w.snaps[0].txID, indexes)
      case Failed(e) => IndexScan.TryIndexed(dir, indexes, w.snaps) == IndexScan.Failed(e)
      case Answered(infos) =>
        Horizon(infos) >= w.snaps[0].txID ==>
          IndexScan.TryIndexed(dir, indexes, w.snaps)
          == IndexScan.Answered(IndexScan.Found(infos, Selection(Some(w.snaps[0]), [])))
      case Declined => true
  {
    hide IndexScan.BoundaryScan;
  }

  lemma {:induction false} EntryParts<S>(w: World<S>, dir: seq<SegmentFile>, tables: IndexScan.Tables,
      e: OffsetIndex.Slot)
    requires w.snaps != [] && dir != [] && |dir| == |tables| && Guided(w, dir, tables, e)
    ensures var n, snap := |dir| - 1, w.snaps[0].txID;
      && dir[n].start <= snap < MAX_U64 && ValidIndexedOffset(dir[n].data, e.offset, e.key)
      && dir[n].start <= e.key <= snap + 1
      && IndexScan.Lenient(tables)[n].Some? && IndexScan.Strict(tables)[n] == IndexScan.Lenient(tables)[n]
      && OffsetIndex.Lookup(IndexScan.Lenient(tables)[n].value, snap + 1) == Some(e)
  {
    hide ValidIndexedOffset, OffsetIndex.Lookup, OffsetIndex.Prefix, IndexScan.StrictPrefix, IndexScan.LookupSound;
    var n := |dir| - 1;
    IndexScan.StrictIsLenient(tables[n].value);
    IndexScan.LookupAmong(IndexScan.Strict(tables)[n].value, w.snaps[0].txID + 1);
  }

  /** What the fast scan reports. */
  lemma {:induction false} FastReports<S>(w: World<S>, dir: seq<SegmentFile>, tables: IndexScan.Tables,
      e: OffsetIndex.Slot)
    requires w.snaps != [] && DownOk(w, dir) && dir != [] && !CutHeader(dir)
    requires |dir| == |tables| && Guided(w, dir, tables, e) && w.snaps[0].txID <= Reach(w, dir)
    ensures var f := dir[|dir| - 1];
      && e.offset <= |f.data| && ScanOf(dir).Ok?
      && var b := IndexScan.BoundaryScan(dir, w.snaps[0].txID, IndexScan.Strict(tables));
         match ReportFrom(f, e)
         case Answered(info) =>
           && b == IndexScan.Answered(ScanOf(dir).value[..|dir| - 1] + [info])
           && forall i :: 0 <= i < |dir| - 1 ==> ScanOf(dir).value[i].last <= w.snaps[0].txID
         case _ => b.Failed?
  {
    hide DownOk, CutHeader, IndexScan.IndexedSegment, SegmentOf, ScanRecords, FirstGap, Reports, ScanOf, Guided,
      OffsetIndex.Lookup, ReadSegmentHeader, IndexScan.Strict, IndexScan.BoundaryScan, Reach;
    var n, snap, indexes := |dir| - 1, w.snaps[0].txID, IndexScan.Strict(tables);
    EntryParts(w, dir, tables, e);
    FrontReady(w, dir, tables, e);
    LastReport(dir[n], indexes[n], snap + 1, e);
    BoundaryLast(dir, snap, indexes, ScanOf(dir).value, ReportFrom(dir[n], e));
  }

  /** The fast scan reports the older segments as the full scan does. */
  lemma {:induction false} FrontReady<S>(w: World<S>, dir: seq<SegmentFile>, tables: IndexScan.Tables,
      e: OffsetIndex.Slot)
    requires w.snaps != [] && DownOk(w, dir) && dir != [] && !CutHeader(dir)
    requires |dir| == |tables| && Guided(w, dir, tables, e) && w.snaps[0].txID <= Reach(w, dir)
    ensures ScanOf(dir).Ok? && dir[|dir| - 1].start <= w.snaps[0].txID < MAX_U64
    ensures var snap, infos := w.snaps[0].txID, ScanOf(dir).value;
      && Reports(dir) == Ok(infos) && FirstGap(infos).None? && infos[|dir| - 1].start == dir[|dir| - 1].start
      && (forall i :: 0 <= i < |dir| ==>
            dir[i].start <= snap && ReadSegmentHeader(dir[i].data).None? && -1 <= infos[i].last)
      && (forall i :: 0 <= i < |dir| - 1 ==>
            && infos[i].last <= snap
            && IndexScan.IndexedSegment(dir[i], false, snap + 1, IndexScan.Strict(tables)[i])
               == IndexScan.Answered(infos[i]))
  {
    hide DownOk, CutHeader, IndexScan.IndexedSegment, SegmentOf, Validated, IndexScan.LookupSound, FirstGap, Reports,
      ScanOf, OffsetIndex.Lookup, ReadSegmentHeader, IndexScan.Strict, Reach;
    ReportsBelow(w, dir);
    OlderEnd(w, dir);
    var snap, infos := w.snaps[0].txID, ScanOf(dir).value;
    forall i | 0 <= i < |dir| ensures dir[i].start <= snap && ReadSegmentHeader(dir[i].data).None? {
      AllCovered(w, dir, i);
    }
    forall i | 0 <= i < |dir| - 1
      ensures IndexScan.IndexedSegment(dir[i], false, snap + 1, IndexScan.Strict(tables)[i])
           == IndexScan.Answered(infos[i])
    {
      OlderAnswer(dir[i], IndexScan.Strict(tables)[i], snap + 1, infos[i]);
    }
  }

  /** The boundary scan puts the last report behind those of the older segments. */
  lemma {:induction false} BoundaryLast(dir: seq<SegmentFile>, snap: u64, indexes: OffsetIndex.Sidecars,
      infos: seq<SegmentInfo>, last: IndexScan.Attempt<SegmentInfo>)
    requires |dir| == |indexes| == |infos| > 0 && snap < MAX_U64
    requires Reports(dir) == Ok(infos) && FirstGap(infos).None?
    requires forall i :: 0 <= i < |dir| ==> dir[i].start <= snap && -1 <= infos[i].last
    requires forall i :: 0 <= i < |dir| - 1 ==>
      IndexScan.IndexedSegment(dir[i], false, snap + 1, indexes[i]) == IndexScan.Answered(infos[i])
    requires last == IndexScan.IndexedSegment(dir[|dir| - 1], true, snap + 1, indexes[|dir| - 1]) && !last.Declined?
    requires last.Answered? ==> last.value.start == infos[|dir| - 1].start && -1 <= last.value.last
    ensures var b := IndexScan.BoundaryScan(dir, snap, indexes);
      match last
      case Answered(info) => b == IndexScan.Answered(infos[..|dir| - 1] + [info])
      case _ => b.Failed?
  {
    hide IndexScan.IndexedSegment, FirstGap, Reports, IndexScan.BoundaryReports;
    FrontAnswers(dir, snap, indexes);
    if last.Answered? {
      GapSame(infos, last.value);
    }
  }

  lemma {:induction false} OlderAnswer(f: SegmentFile, index: Option<seq<OffsetIndex.Slot>>, target: u64,
      info: SegmentInfo)
    requires ReadSegmentHeader(f.data).None? && SegmentOf(f, false) == Ok(info)
    requires Validated(f, index, target) && IndexScan.LookupSound(f, index, target)
    ensures IndexScan.IndexedSegment(f, false, target, index) == IndexScan.Answered(info)
  {
    hide SegmentOf, IndexScan.IndexedSegment, Validated, Unbroken, IndexScan.LookupSound, ReadSegmentHeader;
    SegmentAttempt(f, false, target, index);
    IndexScan.IndexedSegmentAgrees(f, false, target, index);
  }

  lemma {:induction false} LastReport(f: SegmentFile, index: Option<seq<OffsetIndex.Slot>>, target: u64,
      e: OffsetIndex.Slot)
    requires ReadSegmentHeader(f.data).None? && index.Some? && OffsetIndex.Lookup(index.value, target) == Some(e)
    requires e.key >= f.start && ValidIndexedOffset(f.data, e.offset, e.key)
    ensures IndexScan.IndexedSegment(f, true, target, index) == ReportFrom(f, e)
    ensures ReportFrom(f, e).Answered? ==> ReportFrom(f, e).value.last >= e.key
  {
    hide ScanRecords, Records.ScanNext, OffsetIndex.Lookup, ReadSegmentHeader;
    ScanStep(f.data[e.offset..], e.key);
  }

  lemma {:induction false} LastFromEntry<S>(w: World<S>, f: SegmentFile, index: Option<seq<OffsetIndex.Slot>>,
      e: OffsetIndex.Slot, info: SegmentInfo, apply: Applier<S>)
    requires w.snaps != [] && w.snaps[0].file.Readable? && w.snaps[0].file.restored.Some? && index.Some?
    requires f.start <= w.snaps[0].txID < MAX_U64 && f.start <= e.key <= w.snaps[0].txID + 1
    requires OffsetIndex.Lookup(index.value, w.snaps[0].txID + 1) == Some(e)
    requires ValidIndexedOffset(f.data, e.offset, e.key) && ReadSegmentHeader(f.data).None?
    requires ReportFrom(f, e) == IndexScan.Answered(info)
    ensures ReplayOf([f], [info], [index], w.snaps[0].txID, w.snaps[0].file.restored.value, w.snaps[0].txID, apply)
         == Onto(w, ScanRecords(f.data[e.offset..], e.key).records, apply)
  {
    hide ReplayOf, ReplayRecords, ReplayStart, OffsetIndex.Lookup, ScanRecords, Records.ScanNext, FoldRecords,
      ReadSegmentHeader;
    var from, st, rs := w.snaps[0].txID, w.snaps[0].file.restored.value, ScanRecords(f.data[e.offset..], e.key).records;
    LastReport(f, index, from + 1, e);
    ReplayOne(f, info, index, from, st, from, apply);
    if info.last <= from {
      ScannedTxIDs(f.data[e.offset..], e.key);
      FoldSkips(rs, |rs|, from, st, from, apply);
      FoldNone(from, st, from, apply);
      assert rs[|rs|..] == [];
    } else {
      ReplayFromEntry(f, index.value, from, e, info, st, from, apply);
    }
  }

  lemma {:induction false} FinishedSame<S>(a: ReplayResult<S>, i: SegmentInfo, b: ReplayResult<S>, j: SegmentInfo)
    requires i.start == j.start && i.mode != AppendForbidden && j.mode != AppendForbidden && Finished(b, j).Ok?
    ensures b.Replayed?
    ensures Finished(a, i) == Finished(b, j) <==> a == b && i.mode == j.mode
  {
  }

  /** The newest file's own scan ends in the way that its report says. */
  lemma {:induction false} OwnMode(f: SegmentFile, info: SegmentInfo)
    requires SegmentOf(f, true) == Ok(info) && |f.data| >= SEGMENT_HEADER && ReadSegmentHeader(f.data).None?
    ensures FileRecords(f) == BodyScan(f).records && info.mode != AppendForbidden
    ensures BodyScan(f).end == if info.mode == AppendInPlace then Clean else Torn
  {
    hide ScanRecords, ReadSegmentHeader;
  }

  lemma {:induction false} OntoEnds<S>(w: World<S>, s: bytes, want: nat, apply: Applier<S>)
    requires w.snaps != [] && w.snaps[0].file.Readable? && w.snaps[0].file.restored.Some?
    requires want - 1 + |ScanRecords(s, want).records| >= w.snaps[0].txID && want > 0
    ensures var r := Onto(w, ScanRecords(s, want).records, apply);
      r.Replayed? ==> r.maxTx == want - 1 + |ScanRecords(s, want).records| || ScanRecords(s, want).records == []
    ensures ScanRecords(s, want).records == [] ==> Onto(w, [], apply).Replayed?
  {
    hide ScanRecords, FoldRecords;
    var snap := w.snaps[0];
    ScannedTxIDs(s, want);
    FoldEnds(ScanRecords(s, want).records, want, snap.txID, snap.file.restored.value, snap.txID, apply);
    FoldNone(snap.txID, snap.file.restored.value, snap.txID, apply);
  }

  /** Equal outcomes of the two folds come from equally long runs of records. */
  lemma {:induction false} EndsSame<S>(w: World<S>, f: SegmentFile, e: OffsetIndex.Slot, reach: int, apply: Applier<S>)
    requires w.snaps != [] && w.snaps[0].file.Readable? && w.snaps[0].file.restored.Some?
    requires f.start > 0 && |f.data| >= SEGMENT_HEADER && reach == NextStart(f) - 1 >= w.snaps[0].txID
    requires ValidIndexedOffset(f.data, e.offset, e.key) && f.start <= e.key
    requires f.start <= w.snaps[0].txID
    requires e.key - 1 + |ScanRecords(f.data[e.offset..], e.key).records| >= w.snaps[0].txID
    ensures var a, b := Onto(w, ScanRecords(f.data[e.offset..], e.key).records, apply), Onto(w, FileRecords(f), apply);
      a == b && b.Replayed? ==> e.key - 1 + |ScanRecords(f.data[e.offset..], e.key).records| == reach
  {
    hide Onto, ScanRecords, Records.ScanNext;
    ScanStep(f.data[e.offset..], e.key);
    OntoEnds(w, f.data[e.offset..], e.key, apply);
    OntoEnds(w, f.data[SEGMENT_HEADER..], f.start, apply);
    assert FileRecords(f) == ScanRecords(f.data[SEGMENT_HEADER..], f.start).records;
  }

  /** What the entry decides, in a directory left by a crash that recovers without index files. */
  lemma {:induction false} DirectoryDecides<S>(w: World<S>, dir: seq<SegmentFile>, tables: IndexScan.Tables,
      e: OffsetIndex.Slot, init: S, apply: Applier<S>)
    requires Steady(w, init, apply) && w.snaps != [] && DownOk(w, dir) && dir != [] && !CutHeader(dir)
    requires |dir| == |tables| && Guided(w, dir, tables, e) && w.snaps[0].txID <= Reach(w, dir)
    requires Recover(dir, NoIndexes(|dir|), w.snaps, init, apply).Ok?
    requires var f := dir[|dir| - 1];
      && e.offset <= |f.data|
      && e.key - 1 + |ScanRecords(f.data[e.offset..], e.key).records| >= w.snaps[0].txID
    ensures w.snaps[0].file.Readable? && w.snaps[0].file.restored.Some?
    ensures var f := dir[|dir| - 1];
      var behind := ScanRecords(f.data[e.offset..], e.key);
      && |f.data| >= SEGMENT_HEADER
      && (IndexScan.RecoverFast(dir, tables, w.snaps, init, apply)
          == Recover(dir, NoIndexes(|dir|), w.snaps, init, apply)
          <==>
            && behind.end == BodyScan(f).end
            && e.key - 1 + |behind.records| == Reach(w, dir)
            && Onto(w, behind.records, apply) == Onto(w, FileRecords(f), apply))
  {
    hide DownOk, Recover, Fold, CutHeader, SnapshotsFrom, ScanOf, ScanRecords, IndexScan.RecoverFast, Finished, Onto,
      Guided, SegmentOf, BodyScan, FileRecords, ReadSegmentHeader, ValidIndexedOffset, OffsetIndex.Lookup, FirstGap,
      Reports, IndexScan.Lenient, IndexScan.Strict;
    var n, f := |dir| - 1, dir[|dir| - 1];
    EntryParts(w, dir, tables, e);
    PlainFinished(w, dir, init, apply);
    FastFinished(w, dir, tables, e, init, apply);
    AllCovered(w, dir, n);
    OlderEnd(w, dir);
    OwnMode(f, ScanOf(dir).value[n]);
    if ReportFrom(f, e).Answered? {
      FinishedSame(Onto(w, ScanRecords(f.data[e.offset..], e.key).records, apply), ReportFrom(f, e).value,
                   Onto(w, FileRecords(f), apply), ScanOf(dir).value[n]);
    }
    EndsSame(w, f, e, Reach(w, dir), apply);
  }

  /**
   * The newest segment starts at or before the newest snapshot, in every segment the fast scan finds an entry that
   * passes its validation, those of the older segments are right, and the records read from the entry e
   * of the newest one reach the snapshot. Whatever e is: recovery answers as without index files if and only
   * if the records behind e end with the last transaction of the segment and in the same way as the segment,
   * and those that follow the snapshot take its state where the segment's own records take it.
   */
  lemma {:induction false} EntryDecides<S>(x: Indexed<S>, e: OffsetIndex.Slot, init: S, apply: Applier<S>)
    requires Inv(x.w, init, apply)
    requires var dir := AllShown(Found(x.w)); dir != [] && !CutHeader(dir) && x.w.snaps != []
    requires var dir := AllShown(Found(x.w)); Guided(x.w, dir, TablesOf(dir, x.files), e) && Reach(x.w, dir) < MAX_U64
    requires var f := AllShown(Found(x.w))[|Found(x.w)| - 1];
      && e.offset <= |f.data|
      && e.key - 1 + |ScanRecords(f.data[e.offset..], e.key).records| >= x.w.snaps[0].txID
    ensures x.w.snaps[0].file.Readable? && x.w.snaps[0].file.restored.Some?
    ensures var dir := AllShown(Found(x.w));
      var f := dir[|dir| - 1];
      var behind := ScanRecords(f.data[e.offset..], e.key);
      && |f.data| >= SEGMENT_HEADER
      && (IndexScan.RecoverFast(dir, TablesOf(dir, x.files), x.w.snaps, init, apply)
          == Recover(dir, NoIndexes(|dir|), x.w.snaps, init, apply)
          <==>
            && behind.end == BodyScan(f).end
            && e.key - 1 + |behind.records| == Reach(x.w, dir)
            && Onto(x.w, behind.records, apply) == Onto(x.w, FileRecords(f), apply))
  {
    hide Inv, Found, DownOk, Recover, Fold, SoundIndexes, EndsWhole, CutHeader, Reach, SnapshotsFrom, ScanRecords,
      IndexScan.RecoverFast, Onto, Guided, BodyScan, FileRecords, TablesOf, ValidIndexedOffset, OffsetIndex.Lookup;
    var dir := AllShown(Found(x.w));
    FoundOk(x.w, init, apply);
    NoIndexesSound(dir);
    RecoverOutcome(x.w, dir, NoIndexes(|dir|), init, apply);
    DirectoryDecides(x.w, dir, TablesOf(dir, x.files), e, init, apply);
  }
}
