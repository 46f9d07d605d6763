/** The indexed recovery scan: starting each covered segment at an indexed record instead of its first. */
module IndexScan {
  import opened Bytes
  import opened Records
  import opened SegmentScan
  import opened OffsetIndex
  import opened Replay
  import opened Recovery

  /** The fast path answers, declines in favour of the full scan, or fails with a scan error. */
  datatype Attempt<T> = Answered(value: T) | Declined | Failed(error: ScanError)

  // ---- opening an index for recovery -------------------------------------

  /** scanRecoveryOffsetIndexPrefix: the entry count, or None when the file is corrupt. */
  function StrictPrefix(s: seq<Slot>, from: nat): (r: Option<nat>)
    requires from <= |s|
    ensures r.Some? ==> from <= r.value <= |s|
    decreases |s| - from
  {
    if from == |s| then Some(from)
    else if s[from] == EMPTY then (if Blank(s[from..]) then Some(from) else None)
    else if s[from].key == 0 || s[from].offset < SEGMENT_HEADER || (from > 0 && s[from].key <= s[from - 1].key) then
      None
    else StrictPrefix(s, from + 1)
  }

  /** The first n slots are entries with real offsets in increasing order. */
  ghost predicate StrictEntries(s: seq<Slot>, n: nat) {
    n <= |s| && Increasing(s[..n]) && forall i :: 0 <= i < n ==> s[i].offset >= SEGMENT_HEADER
  }

  ghost predicate StrictTable(s: seq<Slot>, n: nat) {
    StrictEntries(s, n) && Blank(s[n..])
  }

  lemma {:induction false} StrictNext(s: seq<Slot>, n: nat)
    requires StrictEntries(s, n) && n < |s|
    ensures StrictEntries(s, n + 1) <==>
      s[n].key != 0 && s[n].offset >= SEGMENT_HEADER && (n > 0 ==> s[n].key > s[n - 1].key)
  {
    assert s[..n + 1] == s[..n] + [s[n]];
    assert s[..n + 1][n] == s[n] && (n > 0 ==> s[..n + 1][n - 1] == s[..n][n - 1] == s[n - 1]);
  }

  lemma {:induction false} StrictShorter(s: seq<Slot>, m: nat, n: nat)
    requires m <= n && StrictEntries(s, n)
    ensures StrictEntries(s, m)
  {
    assert s[..m] == s[..n][..m];
  }

  /** The strict reader accepts exactly the tables of entries followed by empty slots, and counts the entries. */
  lemma {:induction false} StrictPrefixMeaning(s: seq<Slot>, from: nat)
    requires StrictEntries(s, from)
    ensures forall n: nat :: from <= n ==> (StrictTable(s, n) <==> StrictPrefix(s, from) == Some(n))
    decreases |s| - from
  {
    hide Increasing;
    if from < |s| {
      StrictNext(s, from);
      assert s[from..][0] == s[from];
      if StrictEntries(s, from + 1) {
        StrictPrefixMeaning(s, from + 1);
      } else {
        forall n: nat | from < n ensures !StrictTable(s, n) {
          if StrictEntries(s, n) {
            StrictShorter(s, from + 1, n);
          }
        }
      }
    }
  }

  // ---- one segment --------------------------------------------------------

  /** scanOneSegmentFromOffsetIndex. */
  function IndexedSegment(f: SegmentFile, isLast: bool, target: u64,
      index: Option<seq<Slot>>): (r: Attempt<SegmentInfo>)
  {
    if ReadSegmentHeader(f.data).Some? || index.None? then Declined
    else
      match Lookup(index.value, target)
      case None => Declined
      case Some(slot) =>
        if slot.key < f.start || !ValidIndexedOffset(f.data, slot.offset, slot.key) then Declined
        else
          var scan := ScanRecords(f.data[slot.offset..], slot.key);
          var last := slot.key - 1 + |scan.records|;
          match scan.end
          case Broken(e) => Failed(e)
          case Torn => Answered(SegmentInfo(f.start, last, AppendByFreshNextSegment))
          case Clean => Answered(SegmentInfo(f.start, last, if isLast then AppendInPlace else AppendForbidden))
  }

  /** Loop form: the record at the indexed offset first, then contiguous records to the end. */
  method ScanOneSegmentFromOffsetIndex(f: SegmentFile, isLast: bool, target: u64, index: Option<seq<Slot>>)
    returns (r: Attempt<SegmentInfo>)
    requires 0 < f.start <= MAX_U64
    ensures r == IndexedSegment(f, isLast, target, index)
  {
    hide Records.ScanNext, ScanRecords, ReadSegmentHeader, Lookup;
    if ReadSegmentHeader(f.data).Some? || index.None? {
      return Declined;
    }
    var found := Lookup(index.value, target);
    if found.None? || found.value.key < f.start || !ValidIndexedOffset(f.data, found.value.offset, found.value.key) {
      return Declined;
    }
    var key, pos := found.value.key, found.value.offset;
    var mode := if isLast then AppendInPlace else AppendForbidden;
    ghost var whole := ScanRecords(f.data[pos..], key);
    ScanStep(f.data[pos..], key);
    var first := ScanNext(f.data[pos..]);
    assert f.data[pos..][first.size..] == f.data[pos + first.size..];
    pos := pos + first.size;
    var lastTx, count := first.rec.txID, 1;
    while true
      invariant pos <= |f.data| && 1 <= count <= |whole.records| && lastTx == key - 1 + count <= MAX_U64
      invariant ScanRecords(f.data[pos..], key + count) == RecordScan(whole.records[count..], whole.end)
      decreases |f.data| - pos
    {
      ScanStep(f.data[pos..], key + count);
      match ScanNext(f.data[pos..]) {
        case End =>
          break;
        case Bad(e) =>
          if !DamagedTail(e) {
            return Failed(ReadFault(e));
          }
          mode := AppendByFreshNextSegment;
          break;
        case Got(rec, size) =>
          var expected := NextContiguous(lastTx, rec.txID);
          if expected.Err? {
            return Failed(expected.error);
          }
          if rec.txID != expected.value {
            return Failed(HistoryGap(expected.value, rec.txID));
          }
          assert f.data[pos..][size..] == f.data[pos + size..];
          lastTx, count, pos := rec.txID, count + 1, pos + size;
      }
    }
    return Answered(SegmentInfo(f.start, lastTx, mode));
  }

  /** If the index has an entry at or below the target, the last such entry is sound. */
  ghost predicate LookupSound(f: SegmentFile, index: Option<seq<Slot>>, target: u64) {
    |f.data| >= SEGMENT_HEADER && index.Some? && Lookup(index.value, target).Some? ==>
      SoundEntry(f, Lookup(index.value, target).value)
  }

  /** When the entry looked up is sound, whatever the fast path reports about a file is what the full scan reports. */
  lemma {:induction false} IndexedSegmentAgrees(f: SegmentFile, isLast: bool, target: u64, index: Option<seq<Slot>>)
    requires LookupSound(f, index, target)
    ensures match IndexedSegment(f, isLast, target, index)
      case Answered(info) => SegmentOf(f, isLast) == Ok(info)
      case Failed(e) => SegmentOf(f, isLast) == Err(e)
      case Declined => true
  {
    hide Records.ScanNext, ScanRecords, Boundary;
    if !IndexedSegment(f, isLast, target, index).Declined? {
      var slot := Lookup(index.value, target).value;
      assert SoundEntry(f, slot);
      var body, k := f.data[SEGMENT_HEADER..], slot.key - f.start;
      ScanFromBoundary(body, f.start, k);
      assert body[Boundary(body, f.start, k)..] == f.data[slot.offset..];
    }
  }

  // ---- the whole log ------------------------------------------------------

  function BoundaryTarget(snapshotTx: u64): (r: u64) {
    if snapshotTx == MAX_U64 then snapshotTx else snapshotTx + 1
  }

  /** One file of scanSegmentPathsForSnapshotBoundary: only covered files may use their index. */
  function BoundarySegment(f: SegmentFile, isLast: bool, snapshotTx: u64,
      index: Option<seq<Slot>>): (r: Attempt<SegmentInfo>) {
    if f.start <= snapshotTx then IndexedSegment(f, isLast, BoundaryTarget(snapshotTx), index)
    else
      match SegmentOf(f, isLast)
      case Ok(info) => Answered(info)
      case Err(e) => Failed(e)
  }

  function BoundaryReports(dir: seq<SegmentFile>, snapshotTx: u64, indexes: Sidecars): (r: Attempt<seq<SegmentInfo>>)
    requires |dir| == |indexes|
    ensures r.Answered? ==> |r.value| == |dir| && forall i :: 0 <= i < |dir| ==> -1 <= r.value[i].last
  {
    if dir == [] then Answered([])
    else
      match BoundarySegment(dir[0], |dir| == 1, snapshotTx, indexes[0])
      case Declined => Declined
      case Failed(e) => Failed(e)
      case Answered(info) =>
        match BoundaryReports(dir[1..], snapshotTx, indexes[1..])
        case Declined => Declined
        case Failed(e) => Failed(e)
        case Answered(rest) => Answered([info] + rest)
  }

  /** Of every segment that starts at or before the snapshot, the entry looked up is sound. */
  ghost predicate CoveredSound(dir: seq<SegmentFile>, indexes: Sidecars, snapshotTx: u64) {
    && |dir| == |indexes|
    && forall i :: 0 <= i < |dir| && dir[i].start <= snapshotTx ==>
         LookupSound(dir[i], indexes[i], BoundaryTarget(snapshotTx))
  }

  lemma {:induction false} BoundaryReportsAgree(dir: seq<SegmentFile>, snapshotTx: u64, indexes: Sidecars)
    requires CoveredSound(dir, indexes, snapshotTx)
    ensures match BoundaryReports(dir, snapshotTx, indexes)
      case Answered(infos) => Reports(dir) == Ok(infos)
      case Failed(e) => Reports(dir) == Err(e)
      case Declined => true
    decreases |dir|
  {
    hide SegmentOf, IndexedSegment, LookupSound;
    if dir != [] {
      if dir[0].start <= snapshotTx {
        IndexedSegmentAgrees(dir[0], |dir| == 1, BoundaryTarget(snapshotTx), indexes[0]);
      }
      BoundaryReportsAgree(dir[1..], snapshotTx, indexes[1..]);
    }
  }

  function BoundaryScan(dir: seq<SegmentFile>, snapshotTx: u64, indexes: Sidecars): (r: Attempt<seq<SegmentInfo>>)
    requires |dir| == |indexes|
    ensures r.Answered? ==> |r.value| == |dir|
  {
    match BoundaryReports(dir, snapshotTx, indexes)
    case Declined => Declined
    case Failed(e) => Failed(e)
    case Answered(infos) => if FirstGap(infos).Some? then Failed(FirstGap(infos).value) else Answered(infos)
  }

  lemma {:induction false} BoundaryScanAgrees(dir: seq<SegmentFile>, snapshotTx: u64, indexes: Sidecars)
    requires CoveredSound(dir, indexes, snapshotTx)
    ensures match BoundaryScan(dir, snapshotTx, indexes)
      case Answered(infos) => ScanOf(dir) == Ok(infos)
      case Failed(e) => ScanOf(dir) == Err(e)
      case Declined => true
  {
    hide Reports, BoundaryReports, CoveredSound, FirstGap;
    BoundaryReportsAgree(dir, snapshotTx, indexes);
  }

  // ---- scan and selection -------------------------------------------------

  /** What either scan hands to the rest of recovery. */
  datatype Found<S> = Found(infos: seq<SegmentInfo>, selection: Selection<S>)

  /** tryIndexedSnapshotRecoveryScan: the newest usable snapshot decides, each one with its own boundary scan. */
  function TryIndexed<S>(dir: seq<SegmentFile>, indexes: Sidecars, snaps: seq<Snapshot<S>>): (r: Attempt<Found<S>>)
    requires |dir| == |indexes|
    ensures r.Answered? ==> |r.value.infos| == |dir|
    decreases snaps
  {
    if snaps == [] || dir == [] then Declined
    else
      match BoundaryScan(dir, snaps[0].txID, indexes)
      case Declined => Declined
      case Failed(e) => Failed(e)
      case Answered(infos) =>
        if Usable(snaps[0], Horizon(infos)) then Answered(Found(infos, Selection(Some(snaps[0]), [])))
        else
          match TryIndexed(dir, indexes, snaps[1..])
          case Declined => Declined
          case Failed(e) => Failed(e)
          case Answered(found) =>
            var reason := if snaps[0].txID > Horizon(infos) then PastDurableHorizon else ReadFailure;
            Answered(found.(selection :=
                found.selection.(skipped := [Skip(snaps[0].txID, reason)] + found.selection.skipped)))
  }

  /** Every entry that the indexed scan looks up is sound: for each snapshot it comes to, in the segments covered. */
  ghost predicate TriedSound<S>(dir: seq<SegmentFile>, indexes: Sidecars, snaps: seq<Snapshot<S>>)
    requires |dir| == |indexes|
    decreases |snaps|
  {
    snaps == [] || dir == [] ||
    (&& CoveredSound(dir, indexes, snaps[0].txID)
     && var scan := BoundaryScan(dir, snaps[0].txID, indexes);
        scan.Answered? && !Usable(snaps[0], Horizon(scan.value)) ==> TriedSound(dir, indexes, snaps[1..]))
  }

  /** Sound indexes are sound wherever they are looked up. */
  lemma {:induction false} SoundTried<S>(dir: seq<SegmentFile>, indexes: Sidecars, snaps: seq<Snapshot<S>>)
    requires SoundIndexes(dir, indexes)
    ensures |dir| == |indexes| && TriedSound(dir, indexes, snaps)
    decreases |snaps|
  {
    hide SoundEntry, BoundaryScan;
    if snaps != [] {
      var target := BoundaryTarget(snaps[0].txID);
      forall i | 0 <= i < |dir| && indexes[i].Some? && Lookup(indexes[i].value, target).Some?
        ensures Lookup(indexes[i].value, target).value in indexes[i].value
      {
        LookupAmong(indexes[i].value, target);
      }
      SoundTried(dir, indexes, snaps[1..]);
    }
  }

  lemma {:induction false} LookupAmong(s: seq<Slot>, target: u64)
    ensures Lookup(s, target).Some? ==> Lookup(s, target).value in s && Lookup(s, target).value.key <= target
    decreases |s|
  {
    if s != [] && s[|s| - 1].key > target {
      LookupAmong(s[..|s| - 1], target);
    }
  }

  /**
   * When the indexed scan answers, it returns the segments, the horizon, the snapshot
   * and the skip list of the full scan; when it fails, the full scan fails with the
   * same error.
   */
  lemma {:induction false} IndexedScanAgrees<S>(dir: seq<SegmentFile>, indexes: Sidecars, snaps: seq<Snapshot<S>>)
    requires |dir| == |indexes| && TriedSound(dir, indexes, snaps)
    ensures match TryIndexed(dir, indexes, snaps)
      case Answered(found) =>
        ScanOf(dir) == Ok(found.infos) && Selected(snaps, Horizon(found.infos)) == found.selection
      case Failed(e) => ScanOf(dir) == Err(e)
      case Declined => true
    decreases |snaps|
  {
    hide ScanOf, BoundaryScan, CoveredSound;
    if snaps != [] && dir != [] {
      BoundaryScanAgrees(dir, snaps[0].txID, indexes);
      var scan := BoundaryScan(dir, snaps[0].txID, indexes);
      if scan.Answered? && !Usable(snaps[0], Horizon(scan.value)) {
        IndexedScanAgrees(dir, indexes, snaps[1..]);
      }
    }
  }

  // ---- the two readers of an index file ----------------------------------

  /** The slots of each segment's index file, where there is one. */
  type Tables = seq<Option<seq<Slot>>>

  /** Replay reads the leading valid entries and ignores the rest. */
  function Lenient(tables: Tables): (r: Sidecars)
    ensures |r| == |tables|
  {
    seq(|tables|, i requires 0 <= i < |tables| =>
      if tables[i].None? then None else Some(tables[i].value[..Prefix(tables[i].value, 0)]))
  }

  /** The recovery scan does without an index that is not a strict table. */
  function Strict(tables: Tables): (r: Sidecars)
    ensures |r| == |tables|
  {
    seq(|tables|, i requires 0 <= i < |tables| =>
      if tables[i].None? || StrictPrefix(tables[i].value, 0).None? then None
      else Some(tables[i].value[..StrictPrefix(tables[i].value, 0).value]))
  }

  /** Of a table both readers accept they read the same entries. */
  lemma {:induction false} StrictIsLenient(s: seq<Slot>)
    ensures StrictPrefix(s, 0).Some? ==> StrictPrefix(s, 0).value == Prefix(s, 0)
  {
    if StrictPrefix(s, 0).Some? {
      var n := StrictPrefix(s, 0).value;
      StrictPrefixMeaning(s, 0);
      PrefixIsLongest(s, 0);
      hide StrictPrefix, Prefix;
      assert StrictTable(s, n) && ValidPrefix(s, n);
      assert n < |s| ==> s[n] == s[n..][0];
    }
  }

  lemma {:induction false} StrictSound(dir: seq<SegmentFile>, tables: Tables)
    requires SoundIndexes(dir, Lenient(tables))
    ensures SoundIndexes(dir, Strict(tables))
  {
    hide StrictPrefix, Prefix, SoundIndex;
    forall i | 0 <= i < |dir| && |dir[i].data| >= SEGMENT_HEADER ensures SoundIndex(dir[i], Strict(tables)[i]) {
      assert SoundIndex(dir[i], Lenient(tables)[i]);
      if tables[i].Some? {
        StrictIsLenient(tables[i].value);
      }
      NoIndexIsSound(dir[i]);
    }
  }

  lemma {:induction false} NoIndexIsSound(f: SegmentFile)
    requires |f.data| >= SEGMENT_HEADER
    ensures SoundIndex(f, None)
  {
  }

  // ---- recovery with the fast scan ---------------------------------------

  /** Everything after scan and snapshot selection, on whatever segment reports the scan handed over. */
  function RebuildFrom<S>(dir: seq<SegmentFile>, infos: seq<SegmentInfo>, indexes: Sidecars, selection: Selection<S>,
                          init: S, apply: Applier<S>): (r: Result<Recovered<S>, RecoveryError>)
    requires |dir| == |infos| == |indexes|
  {
    match ChooseBase(infos, selection.chosen, init)
    case Err(e) => Err(e)
    case Ok(Base(st, from)) =>
      var gap := if selection.chosen.Some? then BoundaryError(infos, from) else None;
      if gap.Some? then Err(gap.value)
      else
        match ReplayOf(dir, infos, indexes, from, st, from, apply)
        case Replayed(state, maxTx) =>
          if infos != [] && infos[|infos| - 1].mode == AppendForbidden then Err(TailForbidden)
          else
            (match PlanResume(infos, maxTx)
             case Err(e) => Err(e)
             case Ok(plan) => Ok(Recovered(state, maxTx, plan, selection.skipped)))
        case _ => Err(ReplayFailed)
  }

  lemma {:induction false} RebuildSame<S>(dir: seq<SegmentFile>, indexes: Sidecars, selection: Selection<S>,
                                          init: S, apply: Applier<S>)
    requires ScanOf(dir).Ok? && |dir| == |indexes|
    ensures RebuildFrom(dir, ScanOf(dir).value, indexes, selection, init, apply)
         == Rebuild(dir, indexes, selection, init, apply)
  {
    hide ScanOf, ReplayOf, BoundaryError, ChooseBase;
    TailNotForbidden(dir);
  }

  /**
   * scanRecoverySegmentsAndSelectSnapshot followed by the rest of recovery, on the raw slots of the index
   * files: the fast scan reads them strictly, replay leniently.
   */
  function RecoverFast<S>(dir: seq<SegmentFile>, tables: Tables, snaps: seq<Snapshot<S>>,
                          init: S, apply: Applier<S>): (r: Result<Recovered<S>, RecoveryError>)
    requires |dir| == |tables|
  {
    match TryIndexed(dir, Strict(tables), snaps)
    case Failed(e) => Err(ScanFailed(e))
    case Declined => Recover(dir, Lenient(tables), snaps, init, apply)
    case Answered(found) => RebuildFrom(dir, found.infos, Lenient(tables), found.selection, init, apply)
  }

  /**
   * Taking the fast path never changes what recovery returns, whatever the strict reader makes of the files, as long
   * as the entries that the fast scan looks up are sound.
   */
  lemma {:induction false} FastRecoveryIsRecovery<S>(dir: seq<SegmentFile>, tables: Tables, snaps: seq<Snapshot<S>>,
                                                     init: S, apply: Applier<S>)
    requires |dir| == |tables| && TriedSound(dir, Strict(tables), snaps)
    ensures RecoverFast(dir, tables, snaps, init, apply) == Recover(dir, Lenient(tables), snaps, init, apply)
  {
    hide ScanOf, Rebuild, RebuildFrom, Selected, Lenient, Strict, TriedSound;
    IndexedScanAgrees(dir, Strict(tables), snaps);
    NeedsSegments(dir, Strict(tables), snaps);
    if TryIndexed(dir, Strict(tables), snaps).Answered? {
      RebuildSame(dir, Lenient(tables), TryIndexed(dir, Strict(tables), snaps).value.selection, init, apply);
    }
  }

  lemma {:induction false} NeedsSegments<S>(dir: seq<SegmentFile>, indexes: Sidecars, snaps: seq<Snapshot<S>>)
    requires |dir| == |indexes|
    ensures dir == [] ==> TryIndexed(dir, indexes, snaps).Declined?
  {
  }

  /** Sound indexes make no difference to recovery, so neither do sound tables to the fast path. */
  lemma {:induction false} SoundIsPlain<S>(dir: seq<SegmentFile>, indexes: Sidecars, plain: Sidecars,
                                           snaps: seq<Snapshot<S>>, init: S, apply: Applier<S>)
    requires ScanOf(dir).Ok? ==> Listed(dir)
    requires SoundIndexes(dir, indexes) && SoundIndexes(dir, plain)
    ensures |dir| == |indexes| == |plain|
    ensures Recover(dir, indexes, snaps, init, apply) == Recover(dir, plain, snaps, init, apply)
  {
    assert |dir| == |indexes| == |plain|;
    hide ScanOf, ReplayOf, Selected, BoundaryError, ChooseBase, SoundIndexes, Listed;
    if ScanOf(dir).Ok? {
      var infos := ScanOf(dir).value;
      var horizon := if dir == [] then MAX_U64 else Horizon(infos);
      var base := ChooseBase(infos, Selected(snaps, horizon).chosen, init);
      if base.Ok? {
        ReplayIsLogFold(dir, indexes, base.value.from, base.value.state, base.value.from, apply);
        ReplayIsLogFold(dir, plain, base.value.from, base.value.state, base.value.from, apply);
      }
    }
  }
}
