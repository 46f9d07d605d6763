/** How the durability worker opens the log that recovery left it. */
module Resume {
  import opened Bytes
  import opened SegmentScan
  import opened Segments
  import opened OffsetIndex
  import opened Replay
  import opened Recovery
  import opened Waiters

  datatype OpenError =
    | InvalidPlan
    | Forbidden
    | OpenFailed(error: ScanError)
    | AlreadyExists

  /** The directory and the worker state after opening: durable mark and last accepted transaction. */
  datatype Opened = Opened(dir: seq<SegmentFile>, startTx: nat, lastTx: nat, durable: nat, lastEnq: nat)

  /** The position of the file with this start in a listing. */
  function Find(dir: seq<SegmentFile>, start: nat): (r: Option<nat>)
    ensures r.Some? ==> r.value < |dir| && dir[r.value].start == start
    ensures r.None? ==> forall i :: 0 <= i < |dir| ==> dir[i].start != start
  {
    if dir == [] then None
    else if dir[|dir| - 1].start == start then Some(|dir| - 1)
    else Find(dir[..|dir| - 1], start)
  }

  /** newDurabilityWorkerFromSegment. */
  function Launched(dir: seq<SegmentFile>, startTx: nat, lastTx: nat, durable: nat): (r: Opened) {
    var mark := if durable > 0 then durable else lastTx;
    Opened(dir, startTx, lastTx, mark, mark)
  }

  /** A created segment joins the listing as its newest file. */
  function Created(dir: seq<SegmentFile>, start: nat): (r: seq<SegmentFile>) {
    dir + [SegmentFile(start, SEGMENT_PREFIX)]
  }

  function OpenInPlace(dir: seq<SegmentFile>, plan: ResumePlan): (r: Result<Opened, OpenError>)
  {
    if plan.segmentStart == 0 || plan.nextTx == 0 then Err(InvalidPlan)
    else
      match Find(dir, plan.segmentStart)
      case None =>
        if plan.nextTx != plan.segmentStart then Err(InvalidPlan)
        else Ok(Launched(Created(dir, plan.segmentStart), plan.segmentStart, 0, 0))
      case Some(i) =>
        match ReopenOf(dir[i])
        case Err(e) => Err(OpenFailed(e))
        case Ok(w) =>
          var lastTx := if w.payloads == [] then 0 else plan.segmentStart - 1 + |w.payloads|;
          var expected := if w.payloads == [] then plan.segmentStart else lastTx + 1;
          if plan.nextTx != expected then Err(InvalidPlan)
          else Ok(Launched(dir[i := SegmentFile(plan.segmentStart, w.data)], plan.segmentStart, lastTx, lastTx))
  }

  /** removeFreshSegmentArtifact: only a file without a single record may be removed. */
  function WithoutArtifact(dir: seq<SegmentFile>, start: nat): (r: Result<seq<SegmentFile>, OpenError>) {
    match Find(dir, start)
    case None => Ok(dir)
    case Some(i) =>
      match SegmentOf(dir[i], true)
      case Err(e) => Err(OpenFailed(e))
      case Ok(info) => if info.last >= info.start then Err(AlreadyExists) else Ok(dir[..i] + dir[i + 1..])
  }

  /** openSegmentForResumePlan followed by the start of the worker. */
  function OpenForResume(dir: seq<SegmentFile>, plan: ResumePlan): (r: Result<Opened, OpenError>) {
    match plan.mode
    case AppendForbidden => Err(Forbidden)
    case AppendInPlace => OpenInPlace(dir, plan)
    case AppendByFreshNextSegment =>
      if plan.segmentStart == 0 || plan.nextTx == 0 || plan.segmentStart != plan.nextTx then Err(InvalidPlan)
      else
        match WithoutArtifact(dir, plan.segmentStart)
        case Err(e) => Err(e)
        case Ok(rest) => Ok(Launched(Created(rest, plan.segmentStart), plan.segmentStart, 0, plan.nextTx - 1))
  }

  lemma {:induction false} FindLast(dir: seq<SegmentFile>, i: nat)
    requires Listed(dir) && i < |dir|
    ensures Find(dir, dir[i].start) == Some(i)
  {
  }

  lemma {:induction false} LastReport(dir: seq<SegmentFile>)
    requires dir != [] && ScanOf(dir).Ok?
    ensures var infos := ScanOf(dir).value;
      && infos != [] && SegmentOf(dir[|dir| - 1], true) == Ok(infos[|infos| - 1])
      && infos[|infos| - 1].start == dir[|dir| - 1].start
  {
    hide SegmentOf;
    SegmentFacts(dir[|dir| - 1], true);
  }

  /** The plan made for the horizon of an accepted log opens on that log, and recovered + 1 comes next. */
  lemma {:induction false} PlanOpens(dir: seq<SegmentFile>, horizon: nat)
    requires Listed(dir) && ScanOf(dir).Ok? && horizon < MAX_U64
    requires dir != [] ==> horizon == Horizon(ScanOf(dir).value)
    requires ScanOf(dir).value != [] ==> ScanOf(dir).value[|dir| - 1].mode != AppendForbidden
    ensures PlanResume(ScanOf(dir).value, horizon).Ok?
    ensures var plan := PlanResume(ScanOf(dir).value, horizon).value;
      var w := OpenForResume(dir, plan);
      && w.Ok?
      && NextEnqueued(w.value.lastEnq, w.value.startTx) == Some(horizon + 1)
      && (w.value.durable == if plan.mode == AppendInPlace && plan.segmentStart == horizon + 1 then 0 else horizon)
      && StartsAt(w.value.startTx, horizon, w.value.durable)
  {
    hide SegmentOf, ReopenOf, Reports, FirstGap, FileRecords;
    if dir != [] {
      var f, info := dir[|dir| - 1], ScanOf(dir).value[|dir| - 1];
      LastReport(dir);
      FindLast(dir, |dir| - 1);
      SegmentFacts(f, true);
      ReopenMatchesScan(f);
    }
  }

  /**
   * Every resume plan that recovery returns is accepted by the worker on the
   * unchanged directory, and the first transaction the worker then takes is the one
   * after the recovered one. The worker's durable mark is the recovered transaction,
   * except when an empty segment is reopened in place: then it restarts at zero.
   */
  lemma {:induction false} ResumePlanAccepted<S>(dir: seq<SegmentFile>, indexes: Sidecars, snaps: seq<Snapshot<S>>,
                              init: S, apply: Applier<S>)
    requires Listed(dir) && SoundIndexes(dir, indexes)
    requires Recover(dir, indexes, snaps, init, apply).Ok?
    ensures var r := Recover(dir, indexes, snaps, init, apply).value;
      var w := OpenForResume(dir, r.plan);
      && w.Ok?
      && NextEnqueued(w.value.lastEnq, w.value.startTx) == Some(r.txID + 1)
      && (w.value.durable == if r.plan.mode == AppendInPlace && r.plan.segmentStart == r.txID + 1 then 0 else r.txID)
      && StartsAt(w.value.startTx, r.txID, w.value.durable)
  {
    hide ScanOf, ReplayOf, Selected, Fold, OpenForResume, BoundaryError, NextEnqueued;
    RecoveredTx(dir, indexes, snaps, init, apply);
    TailNotForbidden(dir);
    PlanOpens(dir, Recover(dir, indexes, snaps, init, apply).value.txID);
  }
}
