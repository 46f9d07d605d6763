/** How a restart matches the worker's own resumption, and runs that show the machine at work. */
module Restarts {
  import opened Bytes
  import opened Records
  import opened SegmentScan
  import opened Segments
  import OffsetIndex
  import opened Replay
  import opened Recovery
  import Resume
  import opened Waiters
  import opened TornWrites
  import opened Listings
  import opened CrashRuns

  // ---- the machine resumes as the worker does ----------------------------

  lemma {:induction false} RecoveredPlan<S>(dir: seq<SegmentFile>, indexes: OffsetIndex.Sidecars,
      snaps: seq<Snapshot<S>>, init: S, apply: Applier<S>)
    requires |dir| == |indexes|
    requires Recover(dir, indexes, snaps, init, apply).Ok?
    ensures ScanOf(dir).Ok?
    ensures ScanOf(dir).value != [] ==> ScanOf(dir).value[|dir| - 1].mode != AppendForbidden
    ensures var r := Recover(dir, indexes, snaps, init, apply).value;
      PlanResume(ScanOf(dir).value, r.txID) == Ok(r.plan)
  {
    hide ScanOf, ReplayOf, Selected, BoundaryError;
    TailNotForbidden(dir);
  }

  /** The segment files once any segment under creation is in place. */
  function Listing<S>(w: World<S>): (r: seq<SegmentFile>) {
    match w.phase
    case Running(f) => AllShown(w.sealed) + [SegmentFile(w.start, f.current)]
    case Creating(_, _) => Resume.Created(AllShown(w.sealed), w.start)
    case Down(dir) => dir
  }

  /** Opening an accepted directory leaves the listing that the machine resumes with. */
  lemma {:induction false} OpenedDirectory<S>(w: World<S>, dir: seq<SegmentFile>, r: Recovered<S>)
    requires dir == AllShown(Found(w)) && Listed(dir) && ScanOf(dir).Ok? && r.txID <= |w.log| && r.txID < MAX_U64
    requires dir != [] ==> r.txID == Horizon(ScanOf(dir).value)
    requires ScanOf(dir).value != [] ==> ScanOf(dir).value[|dir| - 1].mode != AppendForbidden
    requires PlanResume(ScanOf(dir).value, r.txID) == Ok(r.plan)
    ensures Resume.OpenForResume(dir, r.plan).Ok?
    ensures var o := Resume.OpenForResume(dir, r.plan).value;
      && o.dir == Listing(Resumed(w, r))
      && NextEnqueued(o.lastEnq, o.startTx) == Some(r.txID + 1)
      && o.durable == if r.plan.mode == AppendInPlace && r.plan.segmentStart == r.txID + 1 then 0 else r.txID
  {
    hide ScanOf, Resume.OpenForResume, Listing, Resumed, NextEnqueued, Listed, Found;
    Resume.PlanOpens(dir, r.txID);
    if dir == [] {
      OpenedEmpty(w, r);
    } else {
      Resume.LastReport(dir);
      OpenedNewest(w, dir, r, ScanOf(dir).value[|dir| - 1]);
    }
  }

  lemma {:induction false} OpenedEmpty<S>(w: World<S>, r: Recovered<S>)
    requires Found(w) == [] && r.txID <= |w.log|
    requires r.plan == ResumePlan(r.txID + 1, r.txID + 1, AppendByFreshNextSegment)
    ensures Resume.OpenForResume([], r.plan).Ok?
    ensures Resume.OpenForResume([], r.plan).value.dir == Listing(Resumed(w, r))
  {
    hide Found;
    assert AllShown([]) == [];
  }

  lemma {:induction false} OpenedNewest<S>(w: World<S>, dir: seq<SegmentFile>, r: Recovered<S>, info: SegmentInfo)
    requires dir == AllShown(Found(w)) && dir != [] && Listed(dir) && r.txID <= |w.log|
    requires SegmentOf(dir[|dir| - 1], true) == Ok(info) && info.start == dir[|dir| - 1].start
    requires info.last == r.txID && info.mode != AppendForbidden
    requires r.plan == ResumePlan(if info.mode == AppendInPlace then info.start else r.txID + 1, r.txID + 1, info.mode)
    requires Resume.OpenForResume(dir, r.plan).Ok?
    ensures Resume.OpenForResume(dir, r.plan).value.dir == Listing(Resumed(w, r))
  {
    var n := |dir| - 1;
    Resume.FindLast(dir, n);
    NoFileAt(dir, r.txID + 1);
    InRange(dir, n);
    ReopenMatchesScan(dir[n]);
    SegmentFacts(dir[n], true);
    hide SegmentOf, ReopenOf, FileRecords, Resume.Find, Listed, Resume.OpenForResume, Listing, Resumed, Found;
    if info.mode == AppendInPlace {
      OpenedInPlace(w, dir, r);
    } else {
      OpenedFresh(w, dir, r);
    }
  }

  /** The segments found, and their listing, without the newest one. */
  lemma {:induction false} ShownFront(ss: seq<Segment>)
    requires ss != []
    ensures AllShown(ss) == AllShown(ss[..|ss| - 1]) + [Shown(ss[|ss| - 1])]
    ensures AllShown(ss[..|ss| - 1]) == AllShown(ss)[..|ss| - 1]
  {
  }

  lemma {:induction false} OpenedInPlace<S>(w: World<S>, dir: seq<SegmentFile>, r: Recovered<S>)
    requires dir == AllShown(Found(w)) && dir != [] && r.txID <= |w.log| && Resume.OpenForResume(dir, r.plan).Ok?
    requires r.plan == ResumePlan(dir[|dir| - 1].start, r.txID + 1, AppendInPlace)
    requires Resume.Find(dir, dir[|dir| - 1].start) == Some(|dir| - 1)
    requires ReopenOf(dir[|dir| - 1]).Ok? ==> ReopenOf(dir[|dir| - 1]).value.data == dir[|dir| - 1].data
    ensures Resume.OpenForResume(dir, r.plan).value.dir == Listing(Resumed(w, r))
  {
    hide ReopenOf, Resume.Find, Found;
    var n := |dir| - 1;
    ShownFront(Found(w));
    assert dir[n := dir[n]] == dir;
  }

  lemma {:induction false} OpenedFresh<S>(w: World<S>, dir: seq<SegmentFile>, r: Recovered<S>)
    requires dir == AllShown(Found(w)) && dir != [] && r.txID <= |w.log| && Resume.OpenForResume(dir, r.plan).Ok?
    requires r.plan == ResumePlan(r.txID + 1, r.txID + 1, AppendByFreshNextSegment)
    requires dir[|dir| - 1].start <= r.txID + 1
    requires Resume.Find(dir, dir[|dir| - 1].start) == Some(|dir| - 1)
    requires dir[|dir| - 1].start < r.txID + 1 ==> Resume.Find(dir, r.txID + 1) == None
    ensures Resume.OpenForResume(dir, r.plan).value.dir == Listing(Resumed(w, r))
  {
    hide SegmentOf, Resume.Find, Found;
    var n := |dir| - 1;
    ShownFront(Found(w));
    assert dir[..n] + dir[n + 1..] == dir[..n];
  }

  lemma {:induction false} InRange(dir: seq<SegmentFile>, i: nat)
    requires Listed(dir) && i < |dir|
    ensures 0 < dir[i].start <= MAX_U64
  {
  }

  /** No file of the directory starts past its newest one. */
  lemma {:induction false} NoFileAt(dir: seq<SegmentFile>, start: nat)
    requires Listed(dir) && dir != []
    ensures dir[|dir| - 1].start < start ==> Resume.Find(dir, start) == None
  {
    assert forall i :: 0 <= i < |dir| ==> dir[i].start <= dir[|dir| - 1].start;
  }

  /** A restart leaves the directory, the next transaction and the durable mark that the worker's own opening leaves. */
  lemma {:induction false} RestartIsResume<S>(w: World<S>, indexes: OffsetIndex.Sidecars, init: S, apply: Applier<S>)
    requires Inv(w, init, apply) && AfterRestart(w, indexes, init, apply).Some?
    ensures !Alive(w) && SoundIndexes(AllShown(Found(w)), indexes) && NewestFirst(w.snaps)
    ensures var w' := AfterRestart(w, indexes, init, apply).value;
      var r := Recover(AllShown(Found(w)), indexes, w.snaps, init, apply).value;
      var o := Resume.OpenForResume(AllShown(Found(w)), r.plan);
      && o.Ok?
      && o.value.dir == Listing(w')
      && NextEnqueued(o.value.lastEnq, o.value.startTx) == Some(|w'.log| + 1)
      && o.value.durable ==
           if r.plan.mode == AppendInPlace && r.plan.segmentStart == |w'.log| + 1 then 0 else w'.durable
  {
    RestartShape(w, indexes, init, apply);
    FoundOk(w, init, apply);
    hide *;
    OpenRecovered(w, AllShown(Found(w)), indexes, init, apply);
  }

  lemma {:induction false} OpenRecovered<S>(w: World<S>, dir: seq<SegmentFile>, indexes: OffsetIndex.Sidecars,
      init: S, apply: Applier<S>)
    requires dir == AllShown(Found(w)) && Steady(w, init, apply) && w.snaps != [] && DownOk(w, dir)
    requires SoundIndexes(dir, indexes) && |dir| == |indexes|
    requires Recover(dir, indexes, w.snaps, init, apply).Ok?
    ensures var r := Recover(dir, indexes, w.snaps, init, apply).value;
      && r.txID <= |w.log|
      && Resume.OpenForResume(dir, r.plan).Ok?
      && var o := Resume.OpenForResume(dir, r.plan).value;
         && o.dir == Listing(Resumed(w, r))
         && NextEnqueued(o.lastEnq, o.startTx) == Some(r.txID + 1)
         && o.durable == if r.plan.mode == AppendInPlace && r.plan.segmentStart == r.txID + 1 then 0 else r.txID
  {
    hide *;
    RecoverReached(w, dir, indexes, init, apply);
    RecoveredPlan(dir, indexes, w.snaps, init, apply);
    DownScan(w, dir);
    OpenedDirectory(w, dir, Recover(dir, indexes, w.snaps, init, apply).value);
  }

  lemma {:induction false} RecoverReached<S>(w: World<S>, dir: seq<SegmentFile>, indexes: OffsetIndex.Sidecars,
      init: S, apply: Applier<S>)
    requires Steady(w, init, apply) && w.snaps != [] && DownOk(w, dir) && SoundIndexes(dir, indexes) &&
      |dir| == |indexes|
    requires Recover(dir, indexes, w.snaps, init, apply).Ok?
    ensures var r := Recover(dir, indexes, w.snaps, init, apply).value;
      && !CutHeader(dir) && r.txID == Reach(w, dir) && w.durable <= r.txID <= |w.log| && r.txID < MAX_U64
      && (r.plan.mode == AppendInPlace <==> dir != [] && EndsWhole(dir[|dir| - 1], w.log))
  {
    assert |w.log| <= MAX_U64;
    hide Recover, Steady, DownOk, SoundIndexes, CutHeader, Reach, EndsWhole;
    RecoverOutcome(w, dir, indexes, init, apply);
  }

  lemma {:induction false} DownScan<S>(w: World<S>, dir: seq<SegmentFile>)
    requires w.snaps != [] && DownOk(w, dir) && !CutHeader(dir)
    ensures Listed(dir) && ScanOf(dir).Ok? && (dir != [] ==> Horizon(ScanOf(dir).value) == Reach(w, dir))
  {
    hide Newest, Chain, FileRecords, Reports;
    if dir == [] {
      assert Reports([]) == Ok([]) by { EmptyReports(); }
    } else {
      var n := |dir| - 1;
      assert dir == dir[..n] + [dir[n]];
      ChainScan(dir[..n], dir[n], w.log);
    }
  }

  lemma {:induction false} EmptyReports()
    ensures Reports([]) == Ok([])
  {
  }

  // ---- crashes that recovery refuses, and crashes it must not see --------

  /** A run through known worlds. */
  ghost predicate Path<S>(ws: seq<World<S>>, actions: seq<Action>, init: S, apply: Applier<S>) {
    && |ws| == |actions| + 1
    && forall i :: 0 <= i < |actions| ==> CrashRuns.Step(ws[i], actions[i], init, apply) == Some(ws[i + 1])
  }

  lemma {:induction false} RunPath<S>(ws: seq<World<S>>, actions: seq<Action>, init: S, apply: Applier<S>)
    requires Path(ws, actions, init, apply)
    ensures Run(ws[0], actions, init, apply) == Some(ws[|actions|])
    decreases |actions|
  {
    hide CrashRuns.Step;
    if actions != [] {
      forall i | 0 <= i < |actions[1..]|
        ensures CrashRuns.Step(ws[1..][i], actions[1..][i], init, apply) == Some(ws[1..][i + 1])
      {
        assert CrashRuns.Step(ws[i + 1], actions[i + 1], init, apply) == Some(ws[i + 2]);
      }
      RunPath(ws[1..], actions[1..], init, apply);
    }
  }

  lemma {:induction false} RunJoined<S>(w: World<S>, first: seq<Action>, rest: seq<Action>, init: S, apply: Applier<S>)
    requires Run(w, first, init, apply).Some?
    ensures Run(w, first + rest, init, apply) == Run(Run(w, first, init, apply).value, rest, init, apply)
    decreases |first|
  {
    hide CrashRuns.Step;
    if first == [] {
      assert first + rest == rest;
    } else {
      assert (first + rest)[1..] == first[1..] + rest;
      RunJoined(CrashRuns.Step(w, first[0], init, apply).value, first[1..], rest, init, apply);
    }
  }

  /** Header cut-offs do happen: on a fresh directory, three steps into the first start. */
  lemma {:induction false} CutHeaderHappens<S>(init: S, apply: Applier<S>, kept: nat)
    requires 0 < kept < SEGMENT_HEADER
    ensures
      var w := Run(Fresh(init), [Restart([]), MakeFile, WriteHeader, Die(Crash(0, [], Latest, kept))], init, apply);
      w.Some? && w.value.phase.Down? && CutHeader(w.value.phase.dir)
  {
    hide Fold, Recover, Run, CrashRuns.Step;
    var die := Die(Crash(0, [], Latest, kept));
    var w := FirstCreation(init, apply);
    var w2 := w.(phase := Creating(Some(File([], [])), []));
    var w3 := w.(phase := Creating(Some(File([], SEGMENT_PREFIX)), []));
    HeaderSteps(w, kept, init, apply);
    var end := CrashRuns.Step(w3, die, init, apply).value;
    RunPath([Fresh(init), w, w2, w3, end], [Restart([]), MakeFile, WriteHeader, die], init, apply);
  }

  /** The first start of a fresh directory goes on to create segment 1. */
  lemma {:induction false} FirstCreation<S>(init: S, apply: Applier<S>) returns (w: World<S>)
    ensures CrashRuns.Step(Fresh(init), Restart([]), init, apply) == Some(w)
    ensures w == Fresh(init).(phase := Creating(None, []))
  {
    hide Fold, Recover;
    RecoverWithoutSegments(Fresh(init).snaps, init, apply);
    w := Fresh(init).(phase := Creating(None, []));
  }

  lemma {:induction false} HeaderSteps<S>(w: World<S>, kept: nat, init: S, apply: Applier<S>)
    requires 0 < kept < SEGMENT_HEADER && w == Fresh(init).(phase := Creating(None, []))
    ensures var w2 := w.(phase := Creating(Some(File([], [])), []));
      var w3 := w.(phase := Creating(Some(File([], SEGMENT_PREFIX)), []));
      var end := CrashRuns.Step(w3, Die(Crash(0, [], Latest, kept)), init, apply);
      && CrashRuns.Step(w, MakeFile, init, apply) == Some(w2)
      && CrashRuns.Step(w2, WriteHeader, init, apply) == Some(w3)
      && end.Some? && end.value.phase.Down? && CutHeader(end.value.phase.dir)
  {
    hide Fold, AfterAppend, AfterRestart;
  }

  // ---- runs get somewhere ---------------------------------------------------

  /** The steps that create a segment. */
  const CREATE := [MakeFile, WriteHeader, SyncHeader, SyncDirectory]

  /** The world after these steps. */
  function CreatedWorld<S>(w: World<S>): (r: World<S>) {
    w.(unlinked := [], flushed := SEGMENT_HEADER, phase := Running(File(SEGMENT_PREFIX, SEGMENT_PREFIX)))
  }

  lemma {:induction false} CreateRun<S>(w: World<S>, init: S, apply: Applier<S>)
    requires Alive(w) && w.phase.Creating? && w.phase.file.None?
    ensures Run(w, CREATE, init, apply) == Some(CreatedWorld(w))
  {
    hide Run, CrashRuns.Step;
    var w1 := w.(flushed := 0, phase := w.phase.(file := Some(File([], []))));
    var w2 := w1.(phase := w.phase.(file := Some(File([], SEGMENT_PREFIX))));
    var w3 := w1.(flushed := SEGMENT_HEADER, phase := w.phase.(file := Some(File(SEGMENT_PREFIX, SEGMENT_PREFIX))));
    CreationSteps(w, init, apply);
    RunPath([w, w1, w2, w3, CreatedWorld(w)], CREATE, init, apply);
  }

  lemma {:induction false} CreationSteps<S>(w: World<S>, init: S, apply: Applier<S>)
    requires Alive(w) && w.phase.Creating? && w.phase.file.None?
    ensures var w1 := w.(flushed := 0, phase := w.phase.(file := Some(File([], []))));
      var w2 := w1.(phase := w.phase.(file := Some(File([], SEGMENT_PREFIX))));
      var w3 := w1.(flushed := SEGMENT_HEADER, phase := w.phase.(file := Some(File(SEGMENT_PREFIX, SEGMENT_PREFIX))));
      && CrashRuns.Step(w, MakeFile, init, apply) == Some(w1)
      && CrashRuns.Step(w1, WriteHeader, init, apply) == Some(w2)
      && CrashRuns.Step(w2, SyncHeader, init, apply) == Some(w3)
      && CrashRuns.Step(w3, SyncDirectory, init, apply) == Some(CreatedWorld(w))
  {
    hide Fold, AfterAppend, AfterRestart;
  }

  lemma {:induction false} CommitStep<S>(w: World<S>, p: bytes, log: seq<bytes>, init: S, apply: Applier<S>)
    requires Alive(w) && |w.log| < MAX_U64 && w.log + [p] == log && Fold(init, log, apply).Some?
    ensures CrashRuns.Step(w, Enqueue(p), init, apply) == Some(w.(log := log))
  {
    hide AfterAppend, AfterRestart, Fold;
  }

  /** The worker has written exactly the records of these transactions. */
  predicate WritesAt<S>(w: World<S>, ps: seq<bytes>) {
    && Alive(w) && w.start > 0 && w.phase.Running? && Fits(w.start, ps) && w.written == w.start - 1 + |ps|
    && w.phase.active.current == SegmentBytes(w.start, ps)
  }

  lemma {:induction false} WriteStep<S>(w: World<S>, ps: seq<bytes>, p: bytes, init: S, apply: Applier<S>)
    requires WritesAt(w, ps) && w.flushed <= |SegmentBytes(w.start, ps)|
    requires Storable(w.log, w.written + 1) && w.log[w.start - 1..w.written + 1] == ps + [p]
    ensures Fits(w.start, ps + [p])
    ensures CrashRuns.Step(w, Append, init, apply) == Some(w.(written := w.written + 1,
      phase := Running(File(w.phase.active.durable, SegmentBytes(w.start, ps + [p])))))
  {
    hide RecordBytes, Encoded, AfterRestart, AfterOther, WriteAt;
    var both := ps + [p];
    assert Stretch(w.log, w.start - 1, w.written + 1) == both;
    assert Stretch(w.log, w.start - 1, w.written) == w.log[w.start - 1..w.written + 1][..|ps|] == ps;
    assert w.log[w.written] == both[|ps|];
    NextBytes(w.start, w.log, w.written, w.phase.active.current);
  }

  lemma {:induction false} SyncStep<S>(w: World<S>, init: S, apply: Applier<S>)
    requires Alive(w) && w.phase.Running?
    ensures var f := w.phase.active.current;
      CrashRuns.Step(w, Sync, init, apply) ==
      Some(w.(synced := w.written, flushed := |f|, phase := Running(File(f, f))))
  {
    hide AfterAppend, AfterRestart, Fold;
  }

  lemma {:induction false} ReportStep<S>(w: World<S>, t: nat, init: S, apply: Applier<S>)
    requires Alive(w) && w.durable <= t <= w.synced
    ensures CrashRuns.Step(w, Report(t), init, apply) == Some(w.(durable := t))
  {
    hide AfterAppend, AfterRestart, Fold;
  }

  lemma {:induction false} KillStep<S>(w: World<S>, q: nat, init: S, apply: Applier<S>)
    requires Alive(w) && w.flushed <= q <= NewestSize(w)
    ensures CrashRuns.Step(w, Kill(q), init, apply) == Some(w.(killed := Some(q)))
  {
    hide AfterAppend, AfterRestart, Fold;
  }

  /** The steps that create the next segment, commit a transaction and report it durable. */
  function Onward(p: bytes, t: nat): (r: seq<Action>) {
    CREATE + [Enqueue(p), Append, Sync, Report(t)]
  }

  /** The world after these steps. */
  function OnwardWorld<S>(w: World<S>, p: bytes): (r: World<S>)
    requires |w.log| < MAX_U64 && |p| <= MAX_PAYLOAD
  {
    var t := |w.log| + 1;
    var data := SegmentBytes(t, [p]);
    w.(log := w.log + [p], durable := t, synced := t, written := t, flushed := |data|, unlinked := [],
       phase := Running(File(data, data)))
  }

  lemma {:induction false} OnwardRun<S>(w: World<S>, p: bytes, init: S, apply: Applier<S>)
    requires Alive(w) && w.phase.Creating? && w.phase.file.None? && w.durable <= |w.log| < MAX_U64
    requires w.start == |w.log| + 1 && w.written == |w.log| && Storable(w.log, |w.log|)
    requires |p| <= MAX_PAYLOAD && Fold(init, w.log + [p], apply).Some?
    ensures Run(w, Onward(p, |w.log| + 1), init, apply) == Some(OnwardWorld(w, p))
    ensures OnwardWorld(w, p).durable == |w.log| + 1
  {
    hide *;
    CreateRun(w, init, apply);
    CommitRun(w, p, init, apply);
    RunJoined(w, CREATE, [Enqueue(p), Append, Sync, Report(|w.log| + 1)], init, apply);
    OnwardParts(p, |w.log| + 1);
  }

  lemma {:induction false} CommitRun<S>(w: World<S>, p: bytes, init: S, apply: Applier<S>)
    requires Alive(w) && w.durable <= |w.log| < MAX_U64
    requires w.start == |w.log| + 1 && w.written == |w.log| && Storable(w.log, |w.log|)
    requires |p| <= MAX_PAYLOAD && Fold(init, w.log + [p], apply).Some?
    ensures Run(CreatedWorld(w), [Enqueue(p), Append, Sync, Report(|w.log| + 1)], init, apply) ==
      Some(OnwardWorld(w, p))
    ensures OnwardWorld(w, p).durable == |w.log| + 1
  {
    var t := |w.log| + 1;
    var data := SegmentBytes(t, [p]);
    var w0 := CreatedWorld(w);
    var w1 := w0.(log := w.log + [p]);
    var w2 := w1.(written := t, phase := Running(File(SEGMENT_PREFIX, data)));
    var w3 := w2.(synced := t, flushed := |data|, phase := Running(File(data, data)));
    HeaderWrites(w1, p);
    hide Run, CrashRuns.Step, SegmentBytes, Fold, Storable, WritesAt;
    CommitStep(w0, p, w.log + [p], init, apply);
    WriteStep(w1, [], p, init, apply);
    assert [] + [p] == [p];
    RunPath([w0, w1, w2], [Enqueue(p), Append], init, apply);
    SyncStep(w2, init, apply);
    ReportStep(w3, t, init, apply);
    RunPath([w2, w3, w3.(durable := t)], [Sync, Report(t)], init, apply);
    RunJoined(w0, [Enqueue(p), Append], [Sync, Report(t)], init, apply);
    assert [Enqueue(p), Append] + [Sync, Report(t)] == [Enqueue(p), Append, Sync, Report(t)];
  }

  lemma {:induction false} HeaderWrites<S>(w: World<S>, p: bytes)
    requires Alive(w) && w.phase == Running(File(SEGMENT_PREFIX, SEGMENT_PREFIX)) && |w.log| <= MAX_U64
    requires w.start == |w.log| == w.written + 1 && Storable(w.log, w.written) && w.log[w.written] == p
    requires |p| <= MAX_PAYLOAD
    ensures WritesAt(w, []) && |SegmentBytes(w.start, [])| == SEGMENT_HEADER
    ensures Storable(w.log, w.written + 1) && w.log[w.start - 1..w.written + 1] == [] + [p]
  {
    NoRecords(w.start);
  }

  lemma {:induction false} OnwardParts(p: bytes, t: nat)
    ensures Onward(p, t) == CREATE + [Enqueue(p), Append, Sync, Report(t)]
  {
  }

  /** From a fresh directory a transaction is committed, written, synced and reported durable. */
  lemma {:induction false} FirstCommit<S>(p: bytes, init: S, apply: Applier<S>)
    requires |p| <= MAX_PAYLOAD && apply(init, p).Some?
    ensures Run(Fresh(init), [Restart([])] + Onward(p, 1), init, apply)
         == Some(OnwardWorld(Fresh(init).(phase := Creating(None, [])), p))
  {
    hide Recover, Run, CrashRuns.Step, SegmentBytes, Fold, Onward;
    var w := FirstCreation(init, apply);
    assert [] + [p] == [p];
    OneApplied(p, init, apply);
    OnwardRun(w, p, init, apply);
    RunPath([Fresh(init), w], [Restart([])], init, apply);
    RunJoined(Fresh(init), [Restart([])], Onward(p, 1), init, apply);
  }

  lemma {:induction false} OneApplied<S>(p: bytes, init: S, apply: Applier<S>)
    ensures Fold(init, [p], apply) == apply(init, p)
  {
    assert [p][1..] == [];
    if apply(init, p).Some? {
      assert Fold(apply(init, p).value, [], apply) == apply(init, p);
    }
  }

  /** A run without a loss of power. */
  lemma {:induction false} NoLossSafe<S>(w: World<S>, actions: seq<Action>, init: S, apply: Applier<S>)
    requires forall i :: 0 <= i < |actions| ==> !actions[i].Die?
    ensures SafeRun(w, actions, init, apply)
    decreases |actions|
  {
    hide CrashRuns.Step;
    if actions != [] && CrashRuns.Step(w, actions[0], init, apply).Some? {
      NoLossSafe(CrashRuns.Step(w, actions[0], init, apply).value, actions[1..], init, apply);
    }
  }

  lemma {:induction false} ReachedBy<S(!new)>(w: World<S>, actions: seq<Action>, init: S, apply: Applier<S>)
    requires Run(Fresh(init), actions, init, apply) == Some(w) && SafeRun(Fresh(init), actions, init, apply)
    ensures Reachable(w, init, apply)
  {
    hide Run, SafeRun;
  }

  // ---- an empty segment reopened in place ----------------------------------

  /** Segment 1 is full, segment 2 has been created, and the process is killed before it writes to it. */
  const ROLL := [Rotate] + CREATE + [Kill(SEGMENT_HEADER)]

  function RolledWorld<S>(p: bytes, init: S): (r: World<S>)
    requires |p| <= MAX_PAYLOAD
  {
    var data := SegmentBytes(1, [p]);
    World([p], 1, Fresh(init).snaps, [], [Segment(1, File(data, data))], 2, 1, 1, SEGMENT_HEADER,
          Running(File(SEGMENT_PREFIX, SEGMENT_PREFIX)), Some(SEGMENT_HEADER))
  }

  lemma {:induction false} RollRun<S>(p: bytes, init: S, apply: Applier<S>)
    requires |p| <= MAX_PAYLOAD
    ensures Run(OnwardWorld(Fresh(init).(phase := Creating(None, [])), p), ROLL, init, apply) ==
      Some(RolledWorld(p, init))
  {
    hide SegmentBytes, Fold, Run, AfterAppend, AfterRestart;
    var w0 := OnwardWorld(Fresh(init).(phase := Creating(None, [])), p);
    var data := SegmentBytes(1, [p]);
    assert [] + [p] == [p] && [] + [Segment(1, File(data, data))] == [Segment(1, File(data, data))];
    var w1 := w0.(sealed := [Segment(1, File(data, data))], start := 2, flushed := 0, phase := Creating(None, []));
    assert CrashRuns.Step(w0, Rotate, init, apply) == Some(w1);
    hide CrashRuns.Step;
    CreateRun(w1, init, apply);
    KillStep(CreatedWorld(w1), SEGMENT_HEADER, init, apply);
    RunPath([w0, w1], [Rotate], init, apply);
    RunPath([CreatedWorld(w1), RolledWorld(p, init)], [Kill(SEGMENT_HEADER)], init, apply);
    RunJoined(w0, [Rotate], CREATE, init, apply);
    RunJoined(w0, [Rotate] + CREATE, [Kill(SEGMENT_HEADER)], init, apply);
  }

  lemma {:induction false} RolledReached<S(!new)>(p: bytes, init: S, apply: Applier<S>)
    requires |p| <= MAX_PAYLOAD && apply(init, p).Some?
    ensures Run(Fresh(init), [Restart([])] + Onward(p, 1) + ROLL, init, apply) == Some(RolledWorld(p, init))
    ensures Reachable(RolledWorld(p, init), init, apply)
  {
    var actions := [Restart([])] + Onward(p, 1) + ROLL;
    NoLossSafe(Fresh(init), actions, init, apply);
    hide Run, SafeRun, Reachable, RolledWorld, OnwardWorld, Onward;
    FirstCommit(p, init, apply);
    RollRun(p, init, apply);
    RunJoined(Fresh(init), [Restart([])] + Onward(p, 1), ROLL, init, apply);
    ReachedBy(RolledWorld(p, init), actions, init, apply);
  }

  lemma {:induction false} RolledFound<S>(p: bytes, init: S)
    requires |p| <= MAX_PAYLOAD
    ensures var w := RolledWorld(p, init);
      && AllShown(Found(w)) == [SegmentFile(1, SegmentBytes(1, [p])), SegmentFile(2, SEGMENT_PREFIX)]
      && Newest(SegmentFile(2, SEGMENT_PREFIX), w.log) && NextStart(SegmentFile(2, SEGMENT_PREFIX)) == 2
      && EndsWhole(SegmentFile(2, SEGMENT_PREFIX), w.log)
  {
    hide Encoded, FileRecords;
    var w := RolledWorld(p, init);
    assert Survivor(w.phase.active, SEGMENT_HEADER) == SEGMENT_PREFIX;
    HeaderOnly(2, w.log);
    HeldRecords(SegmentFile(2, SEGMENT_PREFIX), w.log, 0);
  }

  /**
   * The durable mark does go back: a transaction is reported, its segment is full and the next one is still
   * empty. The restarted worker reopens the empty segment in place, with a durable mark of zero.
   */
  lemma {:induction false} MarkGoesBack<S(!new)>(p: bytes, init: S, apply: Applier<S>)
    requires |p| <= MAX_PAYLOAD && apply(init, p).Some?
    ensures var w := RolledWorld(p, init);
      && Reachable(w, init, apply) && !Alive(w) && w.durable == 1
      && var dir := AllShown(Found(w));
         var r := Recover(dir, NoIndexes(|dir|), w.snaps, init, apply);
         && r.Ok? && r.value.txID == 1
         && Resume.OpenForResume(dir, r.value.plan).Ok?
         && Resume.OpenForResume(dir, r.value.plan).value.durable == 0
  {
    hide Reachable, Found, Recover, SegmentBytes, Resume.OpenForResume, Fold, Inv, DownOk, Steady, Newest, EndsWhole,
      SoundIndexes, ScanOf, Listed, FileRecords;
    var w := RolledWorld(p, init);
    RolledReached(p, init, apply);
    ReachableOk(w, init, apply);
    FoundOk(w, init, apply);
    RolledFound(p, init);
    var dir := AllShown(Found(w));
    NoIndexesSound(dir);
    assert !CutHeader(dir) && Reach(w, dir) == 1;
    RecoverOutcome(w, dir, NoIndexes(2), init, apply);
    DownScan(w, dir);
    Resume.ResumePlanAccepted(dir, NoIndexes(2), w.snaps, init, apply);
    RecoveredPlan(dir, NoIndexes(2), w.snaps, init, apply);
    Resume.LastReport(dir);
  }
}
