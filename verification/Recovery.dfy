/** Recovery: scan, choose a snapshot, replay, and plan how appending resumes. */
module Recovery {
  import opened Bytes
  import opened Records
  import opened SegmentScan
  import opened Segments
  import opened OffsetIndex
  import opened Replay

  // ---- snapshots ----------------------------------------------------------

  /**
   * What reading one listed snapshot comes to: data that restores to a state (or fails
   * to restore), a failure that recovery skips, or one that stops recovery.
   */
  datatype SnapshotFile<S> = Readable(restored: Option<S>) | Unreadable | Refused

  datatype Snapshot<S> = Snapshot(txID: u64, file: SnapshotFile<S>)

  /** ListSnapshots: newest first. */
  ghost predicate NewestFirst<S>(snaps: seq<Snapshot<S>>) {
    forall i, j :: 0 <= i < j < |snaps| ==> snaps[i].txID > snaps[j].txID
  }

  datatype SkipReason = PastDurableHorizon | ReadFailure

  datatype Skip = Skip(txID: nat, reason: SkipReason)

  datatype RecoveryError =
    | ScanFailed(error: ScanError)
    | SnapshotRefused(txID: nat)
    | RestoreFailed(txID: nat)
    | EmptyTornLog
    | NoData
    | MissingBaseSnapshot
    | BoundaryGap(expected: nat, got: nat)
    | ReplayFailed
    | NoNextTx
    | TailForbidden

  /** The first snapshot at or below the horizon that is not skipped. */
  datatype Selection<S> = Selection(chosen: Option<Snapshot<S>>, skipped: seq<Skip>)

  function Selected<S>(snaps: seq<Snapshot<S>>, horizon: int): (r: Selection<S>)
    decreases snaps
  {
    if snaps == [] then Selection(None, [])
    else
      var rest := Selected(snaps[1..], horizon);
      if snaps[0].txID > horizon then
        rest.(skipped := [Skip(snaps[0].txID, PastDurableHorizon)] + rest.skipped)
      else if snaps[0].file.Unreadable? then
        rest.(skipped := [Skip(snaps[0].txID, ReadFailure)] + rest.skipped)
      else Selection(Some(snaps[0]), [])
  }

  /** A selection behind snapshots already skipped. */
  function SkippedFirst<S>(skipped: seq<Skip>, rest: Selection<S>): (r: Selection<S>) {
    Selection(rest.chosen, skipped + rest.skipped)
  }

  lemma {:induction false} SelectStep<S>(snaps: seq<Snapshot<S>>, horizon: int, skipped: seq<Skip>)
    ensures snaps == [] ==> SkippedFirst(skipped, Selected(snaps, horizon)) == Selection(None, skipped)
    ensures snaps != [] && snaps[0].txID <= horizon && !snaps[0].file.Unreadable? ==>
      SkippedFirst(skipped, Selected(snaps, horizon)) == Selection(Some(snaps[0]), skipped)
    ensures snaps != [] && snaps[0].txID > horizon ==>
      SkippedFirst(skipped, Selected(snaps, horizon))
        == SkippedFirst(skipped + [Skip(snaps[0].txID, PastDurableHorizon)], Selected(snaps[1..], horizon))
    ensures snaps != [] && snaps[0].txID <= horizon && snaps[0].file.Unreadable? ==>
      SkippedFirst(skipped, Selected(snaps, horizon))
        == SkippedFirst(skipped + [Skip(snaps[0].txID, ReadFailure)], Selected(snaps[1..], horizon))
  {
    assert skipped + [] == skipped;
    if snaps != [] {
      var rest := Selected(snaps[1..], horizon).skipped;
      assert forall s: Skip :: skipped + ([s] + rest) == skipped + [s] + rest;
    }
  }

  method SelectSnapshot<S>(snaps: seq<Snapshot<S>>, horizon: int) returns (r: Selection<S>)
    ensures r == Selected(snaps, horizon)
  {
    hide Selected;
    var skipped: seq<Skip> := [];
    assert snaps[0..] == snaps;
    assert [] + Selected(snaps, horizon).skipped == Selected(snaps, horizon).skipped;
    for i := 0 to |snaps|
      invariant Selected(snaps, horizon) == SkippedFirst(skipped, Selected(snaps[i..], horizon))
    {
      SelectStep(snaps[i..], horizon, skipped);
      assert snaps[i..][1..] == snaps[i + 1..];
      if snaps[i].txID > horizon {
        skipped := skipped + [Skip(snaps[i].txID, PastDurableHorizon)];
        continue;
      }
      if snaps[i].file.Unreadable? {
        skipped := skipped + [Skip(snaps[i].txID, ReadFailure)];
        continue;
      }
      return Selection(Some(snaps[i]), skipped);
    }
    SelectStep(snaps[|snaps|..], horizon, skipped);
    return Selection(None, skipped);
  }

  predicate Usable<S>(s: Snapshot<S>, horizon: int) {
    s.txID <= horizon && !s.file.Unreadable?
  }

  /** What is chosen is the newest usable snapshot; everything newer is skipped, in order, with its reason. */
  lemma {:induction false} SelectedIsNewest<S>(snaps: seq<Snapshot<S>>, horizon: int)
    ensures var r := Selected(snaps, horizon);
      && |r.skipped| <= |snaps|
      && (forall i :: 0 <= i < |r.skipped| ==>
           && !Usable(snaps[i], horizon)
           && r.skipped[i].txID == snaps[i].txID
           && (r.skipped[i].reason == PastDurableHorizon <==> snaps[i].txID > horizon))
      && (if |r.skipped| == |snaps| then r.chosen.None?
          else r.chosen == Some(snaps[|r.skipped|]) && Usable(snaps[|r.skipped|], horizon))
    decreases |snaps|
  {
    if snaps != [] {
      SelectedIsNewest(snaps[1..], horizon);
    }
  }

  // ---- the log boundary and the resume plan ------------------------------

  /**
   * validateSnapshotLogBoundary: the first segment reaching past the snapshot must start no later than the
   * next transaction.
   */
  function BoundaryError(infos: seq<SegmentInfo>, txID: nat): (r: Option<RecoveryError>) {
    if infos == [] then None
    else if infos[0].last <= txID then BoundaryError(infos[1..], txID)
    else if infos[0].start > txID + 1 then Some(BoundaryGap(txID + 1, infos[0].start))
    else None
  }

  datatype ResumePlan = ResumePlan(segmentStart: nat, nextTx: nat, mode: AppendMode)

  function PlanResume(infos: seq<SegmentInfo>, maxApplied: nat): (r: Result<ResumePlan, RecoveryError>)
    requires infos != [] ==> infos[|infos| - 1].mode != AppendForbidden
  {
    if maxApplied == MAX_U64 then Err(NoNextTx)
    else
      var next := maxApplied + 1;
      if infos == [] then Ok(ResumePlan(next, next, AppendByFreshNextSegment))
      else
        var last := infos[|infos| - 1];
        match last.mode
        case AppendInPlace => Ok(ResumePlan(last.start, next, AppendInPlace))
        case AppendByFreshNextSegment => Ok(ResumePlan(next, next, AppendByFreshNextSegment))
  }

  lemma {:induction false} TailNotForbidden(dir: seq<SegmentFile>)
    requires ScanOf(dir).Ok?
    ensures var infos := ScanOf(dir).value; infos != [] ==> infos[|infos| - 1].mode != AppendForbidden
  {
    hide SegmentOf;
    if dir != [] {
      SegmentFacts(dir[|dir| - 1], true);
    }
  }

  // ---- the driver ---------------------------------------------------------

  datatype Recovered<S> = Recovered(state: S, txID: nat, plan: ResumePlan, skipped: seq<Skip>)

  /** The state and transaction replay starts from. */
  datatype Base<S> = Base(state: S, from: u64)

  function ChooseBase<S>(infos: seq<SegmentInfo>, chosen: Option<Snapshot<S>>,
                         init: S): (r: Result<Base<S>, RecoveryError>) {
    match chosen
    case Some(Snapshot(txID, file)) =>
      (match file
       case Readable(Some(st)) => Ok(Base(st, txID))
       case Readable(None) => Err(RestoreFailed(txID))
       case _ => Err(SnapshotRefused(txID)))
    case None =>
      if infos == [] then Err(NoData)
      else if infos[0].start > 1 then Err(MissingBaseSnapshot)
      else if EmptyDamagedTail(infos[0]) then Err(EmptyTornLog)
      else Ok(Base(init, 0))
  }

  /** Everything after scan and snapshot selection. */
  function Rebuild<S>(dir: seq<SegmentFile>, indexes: Sidecars, selection: Selection<S>,
                      init: S, apply: Applier<S>): (r: Result<Recovered<S>, RecoveryError>)
    requires ScanOf(dir).Ok? && |dir| == |indexes|
  {
    var infos := ScanOf(dir).value;
    match ChooseBase(infos, selection.chosen, init)
    case Err(e) => Err(e)
    case Ok(Base(st, from)) =>
      var gap := if selection.chosen.Some? then BoundaryError(infos, from) else None;
      if gap.Some? then Err(gap.value)
      else
        match ReplayOf(dir, infos, indexes, from, st, from, apply)
        case Replayed(state, maxTx) =>
          TailNotForbidden(dir);
          (match PlanResume(infos, maxTx)
           case Err(e) => Err(e)
           case Ok(plan) => Ok(Recovered(state, maxTx, plan, selection.skipped)))
        case _ => Err(ReplayFailed)
  }

  /** OpenAndRecover over a listed log directory and its snapshots. */
  function Recover<S>(dir: seq<SegmentFile>, indexes: Sidecars, snaps: seq<Snapshot<S>>,
                      init: S, apply: Applier<S>): (r: Result<Recovered<S>, RecoveryError>)
    requires |dir| == |indexes|
  {
    match ScanOf(dir)
    case Err(e) => Err(ScanFailed(e))
    case Ok(infos) =>
      var horizon := if dir == [] then MAX_U64 else Horizon(infos);
      SelectedIsListed(snaps, horizon);
      Rebuild(dir, indexes, Selected(snaps, horizon), init, apply)
  }

  lemma {:induction false} SelectedIsListed<S>(snaps: seq<Snapshot<S>>, horizon: int)
    ensures var c := Selected(snaps, horizon).chosen; c.Some? ==> c.value in snaps && c.value.txID <= horizon
    decreases |snaps|
  {
    if snaps != [] {
      SelectedIsListed(snaps[1..], horizon);
    }
  }

  method OpenAndRecover<S>(dir: seq<SegmentFile>, indexes: Sidecars, snaps: seq<Snapshot<S>>,
                           init: S, apply: Applier<S>) returns (r: Result<Recovered<S>, RecoveryError>)
    requires Listed(dir) && |dir| == |indexes|
    ensures r == Recover(dir, indexes, snaps, init, apply)
  {
    hide ReplayOf, Selected, Reports;
    var scan, horizon := ScanSegments(dir);
    if scan.Err? {
      return Err(ScanFailed(scan.error));
    }
    if dir == [] {
      horizon := MAX_U64;
    }
    var selection := SelectSnapshot(snaps, horizon);
    SelectedIsListed(snaps, horizon);
    var base := ChooseBase(scan.value, selection.chosen, init);
    if base.Err? {
      return Err(base.error);
    }
    if selection.chosen.Some? {
      var gap := BoundaryError(scan.value, base.value.from);
      if gap.Some? {
        return Err(gap.value);
      }
    }
    var replayed := ReplayLog(dir, scan.value, indexes, base.value.from, base.value.state, apply);
    if !replayed.Replayed? {
      return Err(ReplayFailed);
    }
    TailNotForbidden(dir);
    var plan := PlanResume(scan.value, replayed.maxTx);
    if plan.Err? {
      return Err(plan.error);
    }
    return Ok(Recovered(replayed.state, replayed.maxTx, plan.value, selection.skipped));
  }

  // ---- recovery ends at the horizon --------------------------------------

  /** With no boundary error, the log holds every transaction between the snapshot and the horizon. */
  lemma {:induction false} BoundaryCovers(dir: seq<SegmentFile>, txID: nat)
    requires dir != [] && Listed(dir) && ScanOf(dir).Ok? && txID <= Horizon(ScanOf(dir).value)
    ensures BoundaryError(ScanOf(dir).value, txID).None? <==> dir[0].start <= txID + 1
  {
    hide SegmentOf;
    var infos := ScanOf(dir).value;
    SegmentFacts(dir[0], |dir| == 1);
    if dir[0].start <= txID + 1 {
      LaterSegmentsCovered(dir, txID);
    }
  }

  lemma {:induction false} LaterSegmentsCovered(dir: seq<SegmentFile>, txID: nat)
    requires dir != [] && ScanOf(dir).Ok? && dir[0].start <= txID + 1
    ensures BoundaryError(ScanOf(dir).value, txID).None?
    decreases |dir|
  {
    hide SegmentOf;
    var infos := ScanOf(dir).value;
    SegmentFacts(dir[0], |dir| == 1);
    if infos[0].last <= txID && |dir| > 1 {
      ScanTail(dir);
      SegmentFacts(dir[1], |dir| == 2);
      LaterSegmentsCovered(dir[1..], txID);
    }
  }

  lemma {:induction false} HorizonInRange(dir: seq<SegmentFile>)
    requires dir != [] && Listed(dir) && ScanOf(dir).Ok?
    ensures 0 <= dir[0].start - 1 <= Horizon(ScanOf(dir).value) <= MAX_U64
  {
    hide ScanOf, LogRecords;
    ContiguousLog(dir);
    var rs := LogRecords(dir);
    assert rs != [] ==> rs[|rs| - 1].txID == dir[0].start + |rs| - 1;
  }

  /** A successful recovery of a log with segments ends exactly at its durable horizon. */
  lemma {:induction false} RecoveredTx<S>(dir: seq<SegmentFile>, indexes: Sidecars, snaps: seq<Snapshot<S>>,
                       init: S, apply: Applier<S>)
    requires Listed(dir) && SoundIndexes(dir, indexes)
    requires Recover(dir, indexes, snaps, init, apply).Ok?
    ensures var r := Recover(dir, indexes, snaps, init, apply).value;
      && r.txID < MAX_U64
      && (dir != [] ==> r.txID == Horizon(ScanOf(dir).value))
      && (dir == [] ==> exists s :: s in snaps && s.txID == r.txID)
  {
    hide ScanOf, ReplayOf, Selected, Fold, LogRecords, BoundaryError;
    var infos := ScanOf(dir).value;
    var selection := Selected(snaps, if dir == [] then MAX_U64 else Horizon(infos));
    SelectedIsListed(snaps, if dir == [] then MAX_U64 else Horizon(infos));
    var Base(st, from) := ChooseBase(infos, selection.chosen, init).value;
    if dir == [] {
      ReplayNothing(indexes, from, st, apply);
    } else {
      HorizonInRange(dir);
      ScannedStart(dir);
      BoundaryCovers(dir, from);
      ReplayVisitsExactly(dir, indexes, from, st, apply);
    }
  }

  /** Recovery runs out of transaction numbers only on a log that ends at the maximum. */
  lemma {:induction false} NoNextMeans<S>(dir: seq<SegmentFile>, indexes: Sidecars, snaps: seq<Snapshot<S>>,
                       init: S, apply: Applier<S>)
    requires dir != [] && Listed(dir) && SoundIndexes(dir, indexes)
    requires Recover(dir, indexes, snaps, init, apply) == Err(NoNextTx)
    ensures ScanOf(dir).Ok? && Horizon(ScanOf(dir).value) == MAX_U64
  {
    hide ScanOf, ReplayOf, Selected, Fold, LogRecords, BoundaryError;
    var infos := ScanOf(dir).value;
    var selection := Selected(snaps, Horizon(infos));
    SelectedIsListed(snaps, Horizon(infos));
    var Base(st, from) := ChooseBase(infos, selection.chosen, init).value;
    HorizonInRange(dir);
    ScannedStart(dir);
    GapKind(infos, from);
    BoundaryCovers(dir, from);
    ReplayVisitsExactly(dir, indexes, from, st, apply);
  }

  lemma {:induction false} GapKind(infos: seq<SegmentInfo>, txID: nat)
    ensures BoundaryError(infos, txID).Some? ==> BoundaryError(infos, txID).value.BoundaryGap?
    decreases |infos|
  {
    if infos != [] {
      GapKind(infos[1..], txID);
    }
  }

  // ---- recovery reaches the fold of the history --------------------------

  /** history[t - 1] is the payload of transaction t; the log's records all come from it. */
  ghost predicate LogFrom(dir: seq<SegmentFile>, history: seq<bytes>) {
    var rs := LogRecords(dir);
    forall i :: 0 <= i < |rs| ==> 0 < rs[i].txID <= |history| && rs[i].payload == history[rs[i].txID - 1]
  }

  /** Every readable snapshot restores the state after its own transaction. */
  ghost predicate SnapshotsFrom<S>(snaps: seq<Snapshot<S>>, history: seq<bytes>, init: S, apply: Applier<S>) {
    forall s :: s in snaps && s.file.Readable? && s.file.restored.Some? ==>
      s.txID <= |history| && s.file.restored == Fold(init, history[..s.txID], apply)
  }

  lemma {:induction false} PayloadsOf(rs: seq<Record>, first: nat, history: seq<bytes>)
    requires first > 0 && first - 1 + |rs| <= |history|
    requires forall i :: 0 <= i < |rs| ==> rs[i].payload == history[first - 1 + i]
    ensures Payloads(rs) == history[first - 1..first - 1 + |rs|]
  {
  }

  lemma {:induction false} DuePayloads(dir: seq<SegmentFile>, history: seq<bytes>, from: nat)
    requires dir != [] && ScanOf(dir).Ok? && LogFrom(dir, history)
    requires dir[0].start - 1 <= from <= Horizon(ScanOf(dir).value) && from <= |history|
    ensures Horizon(ScanOf(dir).value) <= |history|
    ensures Payloads(After(dir, from)) == history[from..Horizon(ScanOf(dir).value)]
  {
    hide ScanOf, LogRecords, Payloads;
    ContiguousLog(dir);
    var rs, due, start := LogRecords(dir), After(dir, from), dir[0].start;
    assert rs != [] ==> rs[|rs| - 1].txID <= |history|;
    forall i | 0 <= i < |due| ensures due[i].payload == history[from + i] {
      assert due[i] == rs[from + 1 - start + i];
    }
    PayloadsOf(due, from + 1, history);
  }

  /** Replay takes the state after `from` to the state at the horizon. */
  lemma {:induction false} ReplayReachesHorizon<S>(dir: seq<SegmentFile>, indexes: Sidecars, history: seq<bytes>,
                                from: nat, st: S, init: S, apply: Applier<S>)
    requires dir != [] && Listed(dir) && ScanOf(dir).Ok? && SoundIndexes(dir, indexes)
    requires LogFrom(dir, history) && |history| <= MAX_U64
    requires dir[0].start - 1 <= from <= Horizon(ScanOf(dir).value) && from <= |history|
    requires Fold(init, history[..from], apply) == Some(st)
    ensures var horizon := Horizon(ScanOf(dir).value);
      && horizon <= |history|
      && var r := ReplayOf(dir, ScanOf(dir).value, indexes, from, st, from, apply);
         match Fold(init, history[..horizon], apply)
         case Some(state) => r == Replayed(state, horizon)
         case None => r.ApplyFailed?
  {
    hide ScanOf, ReplayOf, Fold, SoundIndexes, LogFrom, After, Listed;
    var horizon := Horizon(ScanOf(dir).value);
    HorizonInRange(dir);
    ReplayVisitsExactly(dir, indexes, from, st, apply);
    DuePayloads(dir, history, from);
    assert history[..horizon] == history[..from] + history[from..horizon];
    FoldSplit(init, history[..from], history[from..horizon], apply);
  }

  /**
   * Whichever snapshot recovery picks, it ends in the state of the whole history up to
   * the durable horizon, or in an error; it never skips a transaction.
   */
  lemma {:induction false} RecoveryIsFold<S>(dir: seq<SegmentFile>, indexes: Sidecars, snaps: seq<Snapshot<S>>,
                          history: seq<bytes>, init: S, apply: Applier<S>)
    requires Listed(dir) && SoundIndexes(dir, indexes) && NewestFirst(snaps)
    requires LogFrom(dir, history) && |history| <= MAX_U64
    requires SnapshotsFrom(snaps, history, init, apply)
    ensures var r := Recover(dir, indexes, snaps, init, apply);
      r.Ok? ==>
        && r.value.txID <= |history|
        && Fold(init, history[..r.value.txID], apply) == Some(r.value.state)
        && (dir != [] ==> r.value.txID == Horizon(ScanOf(dir).value))
        && (dir == [] ==> exists s :: s in snaps && s.txID == r.value.txID)
  {
    hide ScanOf, ReplayOf, Selected, Fold, LogRecords, BoundaryError;
    var r := Recover(dir, indexes, snaps, init, apply);
    if r.Ok? {
      var infos := ScanOf(dir).value;
      var horizon := if dir == [] then MAX_U64 else Horizon(infos);
      var selection := Selected(snaps, horizon);
      SelectedIsListed(snaps, horizon);
      var Base(st, from) := ChooseBase(infos, selection.chosen, init).value;
      assert history[..0] == [];
      FoldNothing(init, apply);
      if dir != [] {
        ContiguousLog(dir);
        ScannedStart(dir);
        BoundaryCovers(dir, from);
        ReplayReachesHorizon(dir, indexes, history, from, st, init, apply);
      } else {
        ReplayNothing(indexes, from, st, apply);
      }
    }
  }

  lemma {:induction false} FoldNothing<S>(init: S, apply: Applier<S>)
    ensures Fold(init, [], apply) == Some(init)
  {
  }

  lemma {:induction false} ReplayNothing<S>(indexes: Sidecars, from: nat, st: S, apply: Applier<S>)
    requires indexes == [] && from <= MAX_U64
    ensures ScanOf([]) == Ok([])
    ensures ReplayOf([], [], indexes, from, st, from, apply) == Replayed(st, from)
  {
  }

  lemma {:induction false} ScannedStart(dir: seq<SegmentFile>)
    requires dir != [] && ScanOf(dir).Ok?
    ensures |ScanOf(dir).value| == |dir| && ScanOf(dir).value[0].start == dir[0].start
  {
    hide SegmentOf;
    SegmentFacts(dir[0], |dir| == 1);
  }
}
