/** Deleting the segments a snapshot covers. */
module Compaction {
  import opened Bytes
  import opened SegmentScan
  import opened OffsetIndex
  import opened Replay
  import opened Recovery

  datatype SegmentRange = SegmentRange(minTx: nat, maxTx: int, active: bool)

  /** SegmentCoverage: the last segment is the active one. */
  function Coverage(infos: seq<SegmentInfo>): (r: seq<SegmentRange>)
    ensures |r| == |infos|
  {
    seq(|infos|, i requires 0 <= i < |infos| => SegmentRange(infos[i].start, infos[i].last, i == |infos| - 1))
  }

  /** A range the snapshot makes redundant. */
  predicate Covered(r: SegmentRange, snapshotTx: nat) {
    !r.active && snapshotTx != 0 && r.maxTx <= snapshotTx
  }

  /** The ranges, in order, whose coverage is as asked. */
  function Picked(ranges: seq<SegmentRange>, snapshotTx: nat, covered: bool): (r: seq<SegmentRange>) {
    if ranges == [] then []
    else
      var last := ranges[|ranges| - 1];
      Picked(ranges[..|ranges| - 1], snapshotTx, covered)
      + (if Covered(last, snapshotTx) == covered then [last] else [])
  }

  method Compact(ranges: seq<SegmentRange>, snapshotTx: nat)
    returns (deleted: seq<SegmentRange>, retained: seq<SegmentRange>)
    ensures deleted == Picked(ranges, snapshotTx, true)
    ensures retained == Picked(ranges, snapshotTx, false)
  {
    deleted, retained := [], [];
    for i := 0 to |ranges|
      invariant deleted == Picked(ranges[..i], snapshotTx, true)
      invariant retained == Picked(ranges[..i], snapshotTx, false)
    {
      assert ranges[..i + 1][..i] == ranges[..i];
      if ranges[i].active || snapshotTx == 0 || ranges[i].maxTx > snapshotTx {
        retained := retained + [ranges[i]];
      } else {
        deleted := deleted + [ranges[i]];
      }
    }
    assert ranges[..|ranges|] == ranges;
  }

  /** When the covered ranges are the first k, Compact splits the list there. */
  lemma {:induction false} PickedPrefix(ranges: seq<SegmentRange>, snapshotTx: nat, k: nat)
    requires CoveredPrefix(ranges, snapshotTx, k)
    ensures Picked(ranges, snapshotTx, true) == ranges[..k] && Picked(ranges, snapshotTx, false) == ranges[k..]
    decreases |ranges|
  {
    if ranges != [] {
      var n := |ranges| - 1;
      PickedPrefix(ranges[..n], snapshotTx, if k > n then n else k);
      assert ranges[..n] + [ranges[n]] == ranges;
    }
  }

  /** The covered ranges are exactly the first k. */
  ghost predicate CoveredPrefix(ranges: seq<SegmentRange>, snapshotTx: nat, k: nat) {
    k <= |ranges| && forall i :: 0 <= i < |ranges| ==> (Covered(ranges[i], snapshotTx) <==> i < k)
  }

  /** How many leading segments of an accepted log the snapshot covers. */
  function CoveredCount(infos: seq<SegmentInfo>, snapshotTx: nat): (k: nat)
    ensures if infos == [] then k == 0 else k < |infos|
    ensures forall i :: 0 <= i < k ==> infos[i].last <= snapshotTx
  {
    if |infos| < 2 || snapshotTx == 0 || infos[0].last > snapshotTx then 0
    else 1 + CoveredCount(infos[1..], snapshotTx)
  }

  /** In an accepted log, last transactions do not decrease from one segment to the next. */
  lemma {:induction false} LastsGrow(dir: seq<SegmentFile>, i: nat, j: nat)
    requires ScanOf(dir).Ok? && i <= j < |dir|
    ensures ScanOf(dir).value[i].last <= ScanOf(dir).value[j].last
    decreases |dir|
  {
    hide SegmentOf;
    if i < j {
      ScanTail(dir);
      if i > 0 {
        LastsGrow(dir[1..], i - 1, j - 1);
      } else {
        LastsGrow(dir[1..], 0, j - 1);
        SegmentFacts(dir[0], false);
        SegmentFacts(dir[1], |dir| == 2);
      }
    }
  }

  /** What Compact deletes from an accepted log is a prefix of its segments, and never the active one. */
  lemma {:induction false} CompactionTakesPrefix(dir: seq<SegmentFile>, snapshotTx: nat)
    requires dir != [] && ScanOf(dir).Ok?
    ensures var infos := ScanOf(dir).value;
      && CoveredPrefix(Coverage(infos), snapshotTx, CoveredCount(infos, snapshotTx))
      && CoveredCount(infos, snapshotTx) < |dir|
  {
    hide ScanOf;
    var infos := ScanOf(dir).value;
    var k := CoveredCount(infos, snapshotTx);
    CountStops(infos, snapshotTx);
    forall i | 0 <= i < |infos| ensures Covered(Coverage(infos)[i], snapshotTx) <==> i < k {
      if k <= i {
        LastsGrow(dir, k, i);
      } else {
        CoveredNonzero(infos, snapshotTx);
      }
    }
  }

  lemma {:induction false} CountStops(infos: seq<SegmentInfo>, snapshotTx: nat)
    requires infos != []
    ensures var k := CoveredCount(infos, snapshotTx);
      k == |infos| - 1 || snapshotTx == 0 || infos[k].last > snapshotTx
  {
    if |infos| >= 2 && snapshotTx != 0 && infos[0].last <= snapshotTx {
      CountStops(infos[1..], snapshotTx);
    }
  }

  lemma {:induction false} CoveredNonzero(infos: seq<SegmentInfo>, snapshotTx: nat)
    ensures CoveredCount(infos, snapshotTx) > 0 ==> snapshotTx != 0
  {
  }

  // ---- recovery does not notice ------------------------------------------

  lemma {:induction false} ScanSuffix(dir: seq<SegmentFile>, j: nat)
    requires ScanOf(dir).Ok? && j <= |dir|
    ensures ScanOf(dir[j..]) == Ok(ScanOf(dir).value[j..])
    decreases j
  {
    hide ScanOf;
    if j == 0 {
      assert dir[0..] == dir && ScanOf(dir).value[0..] == ScanOf(dir).value;
    } else {
      ScanTail(dir);
      ScanSuffix(dir[1..], j - 1);
      assert dir[1..][j - 1..] == dir[j..];
      assert ScanOf(dir).value[1..][j - 1..] == ScanOf(dir).value[j..];
    }
  }

  lemma {:induction false} BoundarySuffix(infos: seq<SegmentInfo>, j: nat, txID: nat)
    requires j <= |infos| && forall i :: 0 <= i < j ==> infos[i].last <= txID
    ensures BoundaryError(infos, txID) == BoundaryError(infos[j..], txID)
    decreases j
  {
    if j > 0 {
      BoundarySuffix(infos[1..], j - 1, txID);
      assert infos[1..][j - 1..] == infos[j..];
    }
  }

  lemma {:induction false} ReplaySuffix<S>(dir: seq<SegmentFile>, infos: seq<SegmentInfo>, indexes: Sidecars,
                                           j: nat, from: nat, st: S, apply: Applier<S>)
    requires |dir| == |infos| == |indexes| && j <= |dir| && from <= MAX_U64
    requires forall i :: 0 <= i < j ==> infos[i].last <= from
    ensures ReplayOf(dir, infos, indexes, from, st, from, apply)
         == ReplayOf(dir[j..], infos[j..], indexes[j..], from, st, from, apply)
    decreases j
  {
    hide ReadSegmentHeader, ReplayStart, ReplayRecords;
    if j == 0 {
      assert dir[0..] == dir && infos[0..] == infos && indexes[0..] == indexes;
    } else {
      ReplaySuffix(dir[1..], infos[1..], indexes[1..], j - 1, from, st, apply);
      assert dir[1..][j - 1..] == dir[j..] && infos[1..][j - 1..] == infos[j..] &&
        indexes[1..][j - 1..] == indexes[j..];
    }
  }

  /** The snapshot at snapshotTx is listed, readable and inside the horizon. */
  ghost predicate Validated<S>(snaps: seq<Snapshot<S>>, snapshotTx: nat, horizon: int) {
    exists i :: 0 <= i < |snaps| && snaps[i].txID == snapshotTx && Usable(snaps[i], horizon)
  }

  /** A validated snapshot bounds the chosen one from below. */
  lemma {:induction false} ChosenAtLeast<S>(snaps: seq<Snapshot<S>>, snapshotTx: nat, horizon: int)
    requires NewestFirst(snaps) && Validated(snaps, snapshotTx, horizon)
    ensures var c := Selected(snaps, horizon).chosen;
      c.Some? && c.value in snaps && snapshotTx <= c.value.txID <= horizon
  {
    hide Selected;
    SelectedIsNewest(snaps, horizon);
  }

  /**
   * However many of its in-order deletions compaction gets through before it stops,
   * recovery returns exactly what it returned before: same state, same transaction,
   * same resume plan, same skip list, same error.
   */
  lemma {:induction false} CompactionPreservesRecovery<S>(dir: seq<SegmentFile>, indexes: Sidecars,
      snaps: seq<Snapshot<S>>,
                                       snapshotTx: nat, j: nat, init: S, apply: Applier<S>)
    requires dir != [] && ScanOf(dir).Ok? && |dir| == |indexes| && NewestFirst(snaps)
    requires Validated(snaps, snapshotTx, Horizon(ScanOf(dir).value))
    requires j <= CoveredCount(ScanOf(dir).value, snapshotTx)
    ensures j < |dir|
    ensures ScanOf(dir[j..]).Ok?
    ensures Recover(dir[j..], indexes[j..], snaps, init, apply) == Recover(dir, indexes, snaps, init, apply)
  {
    hide ScanOf, ReplayOf, Selected, BoundaryError;
    var infos := ScanOf(dir).value;
    var horizon := Horizon(infos);
    ScanSuffix(dir, j);
    assert Horizon(infos[j..]) == horizon;
    ChosenAtLeast(snaps, snapshotTx, horizon);
    var chosen := Selected(snaps, horizon).chosen.value;
    if chosen.file.Readable? && chosen.file.restored.Some? {
      BoundarySuffix(infos, j, chosen.txID);
      ReplaySuffix(dir, infos, indexes, j, chosen.txID, chosen.file.restored.value, apply);
    }
  }

  datatype CompactionError = ScanRejected(error: ScanError) | BeyondHorizon | RemoveFailed(after: nat)

  /** runCompaction's deletion loop, which stops for good at the first removal that fails. */
  method RunCompaction(dir: seq<SegmentFile>, snapshotTx: nat, removals: nat)
    returns (r: Result<nat, CompactionError>, left: seq<SegmentFile>)
    requires Listed(dir)
    ensures ScanOf(dir).Err? ==> r.Err? && left == dir
    ensures ScanOf(dir).Ok? && dir != [] ==>
      var k := CoveredCount(ScanOf(dir).value, snapshotTx);
      if snapshotTx != 0 && snapshotTx > Horizon(ScanOf(dir).value) then r == Err(BeyondHorizon) && left == dir
      else if removals < k then r == Err(RemoveFailed(removals)) && left == dir[removals..]
      else r == Ok(k) && left == dir[k..]
    ensures dir == [] ==> left == []
  {
    hide SegmentScan.ScanOf, Coverage;
    left := dir;
    var scan, horizon := ScanSegments(dir);
    if scan.Err? {
      return Err(ScanRejected(scan.error)), left;
    }
    if snapshotTx != 0 && dir != [] && snapshotTx > horizon {
      return Err(BeyondHorizon), left;
    }
    var deleted, _ := Compact(Coverage(scan.value), snapshotTx);
    if dir != [] {
      CompactionTakesPrefix(dir, snapshotTx);
    }
    PickedPrefix(Coverage(scan.value), snapshotTx, CoveredCount(scan.value, snapshotTx));
    for i := 0 to |deleted|
      invariant i <= removals && left == dir[i..]
    {
      if i == removals {
        return Err(RemoveFailed(i)), left;
      }
      left := left[1..];
    }
    return Ok(|deleted|), left;
  }

  // ---- deletions that persist out of order --------------------------------

  /** The listing when exactly the marked files are gone. */
  function Kept(dir: seq<SegmentFile>, gone: seq<bool>): (r: seq<SegmentFile>)
    requires |dir| == |gone|
    ensures |r| <= |dir|
    ensures dir != [] && !gone[|dir| - 1] ==> r != [] && r[|r| - 1] == dir[|dir| - 1]
  {
    if dir == [] then []
    else if gone[0] then Kept(dir[1..], gone[1..])
    else [dir[0]] + Kept(dir[1..], gone[1..])
  }

  /** The files that are gone are the oldest ones. */
  predicate OldestGone(gone: seq<bool>) {
    gone == [] || (if gone[0] then OldestGone(gone[1..]) else forall i :: 0 <= i < |gone| ==> !gone[i])
  }

  /**
   * If the directory loses any set of segments other than the active one, the scan
   * accepts what is left if and only if the lost segments are the oldest ones.
   */
  lemma {:induction false} ScanNeedsPrefix(dir: seq<SegmentFile>, gone: seq<bool>)
    requires dir != [] && Listed(dir) && ScanOf(dir).Ok? && |gone| == |dir| && !gone[|dir| - 1]
    ensures ScanOf(Kept(dir, gone)).Ok? <==> OldestGone(gone)
    decreases |dir|
  {
    hide ScanOf;
    if forall i :: 0 <= i < |gone| ==> !gone[i] {
      KeptAll(dir, gone);
    } else {
      ScanTail(dir);
      ScanNeedsPrefix(dir[1..], gone[1..]);
      if !gone[0] {
        assert Kept(dir, gone)[1..] == Kept(dir[1..], gone[1..]);
        AcceptedTail(Kept(dir, gone));
        GapAfterFirst(dir, gone);
      }
    }
  }

  /** Losing the second file while the first stays leaves a gap. */
  lemma {:induction false} GapAfterFirst(dir: seq<SegmentFile>, gone: seq<bool>)
    requires Listed(dir) && ScanOf(dir).Ok? && |gone| == |dir| >= 2 && !gone[|dir| - 1] && !gone[0]
    ensures gone[1] ==> ScanOf(Kept(dir, gone)).Err?
  {
    hide SegmentOf, Reports;
    if gone[1] {
      var left, rest := Kept(dir, gone), Kept(dir[2..], gone[2..]);
      assert dir[1..][1..] == dir[2..] && gone[1..][1..] == gone[2..];
      assert Kept(dir[1..], gone[1..]) == rest;
      assert left == [dir[0]] + rest;
      FirstKept(dir[2..], gone[2..]);
      assert rest[0].start > dir[1].start by {
        var i :| 0 <= i < |dir[2..]| && dir[2..][i] == rest[0];
        assert dir[2..][i] == dir[i + 2];
      }
      AcceptedTail(dir);
      AcceptedTail(left);
    }
  }

  lemma {:induction false} AcceptedTail(dir: seq<SegmentFile>)
    ensures ScanOf(dir).Ok? && |dir| >= 2 ==>
      dir[1].start == dir[0].start + |FileRecords(dir[0])| && ScanOf(dir[1..]).Ok?
  {
    hide SegmentOf;
    if ScanOf(dir).Ok? && |dir| >= 2 {
      ScanTail(dir);
      SegmentFacts(dir[0], false);
      SegmentFacts(dir[1], |dir| == 2);
    }
  }

  lemma {:induction false} FirstKept(dir: seq<SegmentFile>, gone: seq<bool>)
    requires |gone| == |dir|
    ensures Kept(dir, gone) != [] ==> Kept(dir, gone)[0] in dir
  {
    if dir != [] && gone[0] {
      FirstKept(dir[1..], gone[1..]);
    }
  }

  lemma {:induction false} KeptAll(dir: seq<SegmentFile>, gone: seq<bool>)
    requires |gone| == |dir| && forall i :: 0 <= i < |gone| ==> !gone[i]
    ensures Kept(dir, gone) == dir && OldestGone(gone)
  {
    if dir != [] {
      KeptAll(dir[1..], gone[1..]);
    }
  }
}
