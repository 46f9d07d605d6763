/**
 * Whole runs: committing, appending, syncing, rotating, snapshotting, compacting, being killed or
 * losing power at any point, recovering and resuming, any number of times.
 */
module CrashRuns {
  import opened Bytes
  import opened Records
  import opened SegmentScan
  import opened Segments
  import OffsetIndex
  import opened Replay
  import opened Recovery
  import Resume
  import opened TornWrites
  import opened Listings

  // ---- the machine --------------------------------------------------------

  /**
   * Running: the worker appends to the active segment. Creating: CreateSegment is under way for
   * the segment `start`; its directory entry is not durable yet, so a loss of power may still show
   * one of the earlier files of that name. Down: power was lost and this is what the directory lists.
   */
  datatype Phase =
    | Running(active: File)
    | Creating(file: Option<File>, earlier: seq<File>)
    | Down(dir: seq<SegmentFile>)

  /**
   * log[t - 1] is the payload of committed transaction t. `durable` is the highest transaction ever
   * reported durable, `written` and `synced` the last transactions appended to and synced in the
   * active segment. `unlinked` are segments deleted by compaction whose deletion is not durable
   * yet. Of the newest file at least the first `flushed` bytes have reached the operating system; the
   * rest may be in the writer's buffer. Once the process is killed, `killed` says how many had.
   */
  datatype World<S> = World(
    log: seq<bytes>, durable: nat, snaps: seq<Snapshot<S>>,
    unlinked: seq<Segment>, sealed: seq<Segment>,
    start: nat, synced: nat, written: nat, flushed: nat, phase: Phase, killed: Option<nat>)

  /** What a loss of power makes of the newest file's name while it is being created. */
  datatype Name = Gone | Earlier(which: nat) | Latest

  /**
   * The outcomes of a loss of power: how many deletions stand, how much of each segment that is no longer
   * written survives, which newest file, and how much of it.
   */
  datatype Crash = Crash(restored: nat, cuts: seq<nat>, name: Name, kept: nat)

  datatype Action =
    | Enqueue(payload: bytes)
    | Append
    | Sync
    | Report(txID: nat)
    | Rotate
    | MakeFile
    | WriteHeader
    | SyncHeader
    | SyncDirectory
    | TakeSnapshot(txID: nat)
    | Unlink
    | Die(crash: Crash)      // power is lost
    | Kill(flushed: nat)     // only the process dies
    | Restart(indexes: OffsetIndex.Sidecars)

  predicate Alive<S>(w: World<S>) {
    !w.phase.Down? && w.killed.None?
  }

  /** How many bytes of the newest file are beyond the process. */
  function Flushed<S>(w: World<S>, f: File): (r: nat)
    ensures r <= |f.current|
  {
    if w.killed.None? || w.killed.value > |f.current| then |f.current| else w.killed.value
  }

  function NewestSize<S>(w: World<S>): (r: nat) {
    match w.phase
    case Running(f) => |f.current|
    case Creating(Some(f), _) => |f.current|
    case _ => 0
  }

  predicate NewestPossible<S>(w: World<S>, name: Name, kept: nat) {
    match w.phase
    case Running(f) => name == Latest && kept <= Flushed(w, f)
    case Creating(file, earlier) =>
      (match name
       case Gone => true
       case Earlier(i) => i < |earlier| && kept <= |earlier[i].current|
       case Latest => file.Some? && kept <= Flushed(w, file.value))
    case Down(_) => false
  }

  predicate Possible<S>(w: World<S>, c: Crash) {
    && c.restored <= |w.unlinked| && Cuts(w.unlinked + w.sealed, c.cuts)
    && NewestPossible(w, c.name, c.kept)
  }

  /** The newest file a loss of power leaves. */
  function NewestLeft<S>(w: World<S>, name: Name, kept: nat): (r: seq<SegmentFile>)
    requires NewestPossible(w, name, kept)
  {
    match w.phase
    case Running(f) => [SegmentFile(w.start, Survivor(f, kept))]
    case Creating(file, earlier) =>
      match name
      case Gone => []
      case Earlier(i) => [SegmentFile(w.start, Survivor(earlier[i], kept))]
      case Latest => [SegmentFile(w.start, Survivor(file.value, kept))]
  }

  /** The directory a loss of power leaves: deletions may be undone, oldest first being redone. */
  function Survivors<S>(w: World<S>, c: Crash): (r: seq<SegmentFile>)
    requires Possible(w, c)
  {
    AllLeft(w.unlinked + w.sealed, c.cuts)[c.restored..] + NewestLeft(w, c.name, c.kept)
  }

  /** The newest file as the operating system shows it. */
  function NewestShown<S>(w: World<S>): (r: seq<Segment>) {
    match w.phase
    case Running(f) => [Segment(w.start, File(f.durable, Survivor(f, Flushed(w, f))))]
    case Creating(Some(f), _) => [Segment(w.start, File(f.durable, Survivor(f, Flushed(w, f))))]
    case _ => []
  }

  /** The segments a restarted process finds. */
  function Found<S>(w: World<S>): (r: seq<Segment>) {
    match w.phase
    case Down(dir) => Solid(dir)
    case _ => w.sealed + NewestShown(w)
  }

  /** Deletions, and earlier files of the newest name, that a later loss of power may still undo. */
  function Pending<S>(w: World<S>): (r: seq<Segment>) {
    if w.phase.Down? then [] else w.unlinked
  }

  function Names<S>(w: World<S>): (r: seq<File>) {
    if w.phase.Creating? then w.phase.earlier else []
  }

  /** Whether the listing already shows a file newer than the sealed ones. */
  predicate HasActive(p: Phase) {
    p.Running? || (p.Creating? && p.file.Some?)
  }

  /** After a loss of power what is found is durable; after a kill, what was synced before. */
  function SyncedOf<S>(w: World<S>, h: nat): (r: nat) {
    if w.phase.Down? then h else w.synced
  }

  /**
   * The worker takes over from recovery as the resume plan says, with the recovered transaction as its
   * durable mark. Opening in place syncs the directory but not the segment, and what it reads back is
   * with the operating system.
   */
  function Resumed<S>(w: World<S>, r: Recovered<S>): (w': World<S>)
    requires r.txID <= |w.log|
  {
    var ss, h := Found(w), r.txID;
    var n := |ss| - 1;
    var base := w.(log := w.log[..h], durable := h, written := h, synced := h, flushed := 0,
                   unlinked := Pending(w), killed := None);
    if n < 0 then base.(sealed := [], start := h + 1, phase := Creating(None, Names(w)))
    else if r.plan.mode == AppendInPlace then
      base.(unlinked := [], sealed := ss[..n], start := ss[n].start, phase := Running(ss[n].file),
            synced := SyncedOf(w, h), flushed := |ss[n].file.current|)
    else if ss[n].start == h + 1 then
      base.(sealed := ss[..n], start := h + 1, phase := Creating(None, Names(w) + [ss[n].file]))
    else base.(sealed := ss, start := h + 1, phase := Creating(None, Names(w)))
  }

  /** The active file after the next transaction is written behind the existing records. */
  ghost function AfterAppend<S>(w: World<S>): (r: Option<World<S>>) {
    if !Alive(w) || !w.phase.Running? || !(0 < w.start <= w.written + 1) || !Storable(w.log, w.written + 1) then None
    else
      var f := w.phase.active;
      var size := |SegmentBytes(w.start, Stretch(w.log, w.start - 1, w.written))|;
      if size > |f.current| then None
      else
        var rec := Entry(w.written + 1, w.log[w.written]);
        Some(w.(written := w.written + 1, flushed := if w.flushed < size then w.flushed else size,
                phase := Running(f.(current := WriteAt(f.current, size, RecordBytes(rec))))))
  }

  ghost function AfterRestart<S>(w: World<S>, indexes: OffsetIndex.Sidecars, init: S,
      apply: Applier<S>): (r: Option<World<S>>) {
    if Alive(w) || !SoundIndexes(AllShown(Found(w)), indexes) || !NewestFirst(w.snaps) then None
    else
      match Recover(AllShown(Found(w)), indexes, w.snaps, init, apply)
      case Err(_) => None
      case Ok(r) => if r.txID > |w.log| then None else Some(Resumed(w, r))
  }

  /** The steps of CreateSegment: the file, its header, the sync of the file, the sync of the directory. */
  function AfterCreation<S>(w: World<S>, a: Action): (r: Option<World<S>>) {
    if !Alive(w) || !w.phase.Creating? then None
    else
      match a
      case MakeFile =>
        if w.phase.file.None? then Some(w.(flushed := 0, phase := w.phase.(file := Some(File([], []))))) else None
      case WriteHeader =>
        if w.phase.file.Some? && w.phase.file.value.current == [] then
          Some(w.(phase := w.phase.(file := Some(w.phase.file.value.(current := SEGMENT_PREFIX)))))
        else None
      case SyncHeader =>
        if w.phase.file.Some? && w.phase.file.value.current == SEGMENT_PREFIX then
          Some(w.(flushed := SEGMENT_HEADER, phase := w.phase.(file := Some(File(SEGMENT_PREFIX, SEGMENT_PREFIX)))))
        else None
      case SyncDirectory =>
        if w.phase.file == Some(File(SEGMENT_PREFIX, SEGMENT_PREFIX)) then
          Some(w.(unlinked := [], flushed := SEGMENT_HEADER, phase := Running(File(SEGMENT_PREFIX, SEGMENT_PREFIX))))
        else None
      case _ => None
  }

  /** One step of a run; None where the step is not enabled. */
  ghost function Step<S>(w: World<S>, a: Action, init: S, apply: Applier<S>): (r: Option<World<S>>) {
    match a
    case Die(c) =>
      if Possible(w, c) then Some(w.(phase := Down(Survivors(w, c)), killed := None)) else None
    case Restart(indexes) => AfterRestart(w, indexes, init, apply)
    case Append => AfterAppend(w)
    case _ => if Alive(w) then AfterOther(w, a, init, apply) else None
  }

  ghost function AfterOther<S>(w: World<S>, a: Action, init: S, apply: Applier<S>): (r: Option<World<S>>)
    requires Alive(w)
  {
    match a
    case Enqueue(p) =>
      // a committed changeset applies to the committed state, and transaction numbers do not wrap
      if |w.log| < MAX_U64 && Fold(init, w.log + [p], apply).Some? then Some(w.(log := w.log + [p])) else None
    case Sync =>
      if w.phase.Running? then
        var f := w.phase.active.current;
        Some(w.(synced := w.written, flushed := |f|, phase := Running(File(f, f))))
      else None
    case Report(t) => if w.durable <= t <= w.synced then Some(w.(durable := t)) else None
    case Rotate =>
      // closing the old segment syncs it
      if w.phase.Running? && w.synced == w.written && w.start <= w.written < MAX_U64 then
        var f := w.phase.active.current;
        Some(w.(sealed := w.sealed + [Segment(w.start, File(f, f))], start := w.written + 1, flushed := 0,
                phase := Creating(None, [])))
      else None
    case TakeSnapshot(t) =>
      // a snapshot is written only once its transaction is durable
      if w.snaps != [] && w.snaps[0].txID < t <= w.durable && t <= |w.log| <= MAX_U64 then
        Some(w.(snaps := [Snapshot(t, Readable(Fold(init, w.log[..t], apply)))] + w.snaps))
      else None
    case Unlink =>
      // compaction removes the oldest segment a snapshot covers, never the active one
      if w.sealed != [] && w.snaps != [] && (HasActive(w.phase) || |w.sealed| > 1)
         && NextStart(Shown(w.sealed[0])) - 1 <= w.snaps[0].txID then
        Some(w.(unlinked := w.unlinked + [w.sealed[0]], sealed := w.sealed[1..]))
      else None
    case Kill(q) => if w.flushed <= q <= NewestSize(w) then Some(w.(killed := Some(q))) else None
    case SyncDirectory => if w.phase.Running? then Some(w.(unlinked := [])) else AfterCreation(w, a)
    case _ => AfterCreation(w, a)
  }

  ghost function Run<S>(w: World<S>, actions: seq<Action>, init: S, apply: Applier<S>): (r: Option<World<S>>)
    decreases |actions|
  {
    if actions == [] then Some(w)
    else
      match Step(w, actions[0], init, apply)
      case None => None
      case Some(w') => Run(w', actions[1..], init, apply)
  }

  /** A data directory as first built: the snapshot of transaction 0 and no segments. */
  function Fresh<S>(init: S): (r: World<S>) {
    World([], 0, [Snapshot(0, Readable(Some(init)))], [], [], 1, 0, 0, 0, Down([]), None)
  }

  // ---- the invariant ------------------------------------------------------

  /** A segment whose creation was cut off inside its eight header bytes. */
  predicate PartialHeader(f: SegmentFile) {
    0 < |f.data| < SEGMENT_HEADER
  }

  ghost predicate CutHeader(dir: seq<SegmentFile>) {
    dir != [] && PartialHeader(dir[|dir| - 1])
  }

  function FirstStart(dir: seq<SegmentFile>, start: nat): (r: nat) {
    if dir == [] then start else dir[0].start
  }

  /** Snapshots, newest first: the newest is durable, and each restores the state after its transaction. */
  ghost predicate SnapshotsOk<S>(w: World<S>, init: S, apply: Applier<S>) {
    && w.snaps != [] && NewestFirst(w.snaps) && w.snaps[0].txID <= w.durable
    && w.snaps[0].file.Readable? && w.snaps[0].file.restored.Some?
    && SnapshotsFrom(w.snaps, w.log, init, apply)
  }

  /** The bytes of a segment file while its header is being written. */
  predicate HeaderFile(f: File) {
    f == File([], []) || f == File([], SEGMENT_PREFIX) || f == File(SEGMENT_PREFIX, SEGMENT_PREFIX)
  }

  /** A file without a whole record, or cut off inside its header. */
  ghost predicate Blank(f: SegmentFile, log: seq<bytes>) {
    PartialHeader(f) || (Newest(f, log) && NextStart(f) == f.start)
  }

  /** Whatever is left of an earlier file of the name, it has no whole record. */
  ghost predicate EarlierOk(start: nat, log: seq<bytes>, f: File) {
    forall p :: 0 <= p <= |f.current| ==> Blank(Left(Segment(start, f), p), log)
  }

  /** The transactions that a kill leaves to be seen. */
  function Reported<S>(w: World<S>): (r: nat) {
    if w.durable < w.synced then w.synced else w.durable
  }

  ghost predicate FlushOk<S>(w: World<S>, f: File)
    requires 0 < w.start <= w.synced + 1 && w.synced <= w.written && w.durable <= w.written &&
      Storable(w.log, w.written)
  {
    && |SegmentBytes(w.start, Stretch(w.log, w.start - 1, Reported(w)))| <= w.flushed <= |f.current|
    && (w.killed.Some? ==> w.flushed <= w.killed.value <= |f.current|)
  }

  /** A segment left behind that can still lose records showed them to a restart, which reported them. */
  predicate LossesReported(ss: seq<Segment>, durable: nat) {
    forall i :: 0 <= i < |ss| && !Whole(ss[i]) ==> NextStart(Shown(ss[i])) - 1 <= durable
  }

  ghost predicate UpOk<S>(w: World<S>)
    requires !w.phase.Down? && w.snaps != []
  {
    && 0 < w.start <= MAX_U64 && w.start <= w.synced + 1
    && w.synced <= w.written && w.durable <= w.written && Storable(w.log, w.written)
    && StoredChain(w.unlinked + w.sealed, w.log, w.start)
    && LossesReported(w.unlinked + w.sealed, w.durable)
    && FirstStart(AllShown(w.sealed), w.start) <= w.snaps[0].txID + 1
    && match w.phase
       case Running(f) => Appending(w.start, w.log, w.synced, w.written, f) && FlushOk(w, f)
       case Creating(file, earlier) =>
         && w.written == w.synced == w.start - 1
         && (file.Some? ==> HeaderFile(file.value))
         && (forall i :: 0 <= i < |earlier| ==> EarlierOk(w.start, w.log, earlier[i]))
  }

  /** No loss of power can take away what was reported durable. */
  predicate Safe<S>(w: World<S>) {
    w.durable <= w.synced && AllWhole(w.unlinked + w.sealed)
  }

  /** A directory that recovery reads back to at least the durable transaction. */
  ghost predicate DownOk<S>(w: World<S>, dir: seq<SegmentFile>)
    requires w.snaps != []
  {
    if dir == [] then w.durable <= w.snaps[0].txID
    else
      var n := |dir| - 1;
      && Chain(dir[..n], w.log, dir[n].start)
      && (CutHeader(dir) ||
          (&& Newest(dir[n], w.log)
           && dir[0].start <= w.snaps[0].txID + 1
           && w.durable <= NextStart(dir[n]) - 1))
  }

  ghost predicate Steady<S>(w: World<S>, init: S, apply: Applier<S>) {
    && |w.log| <= MAX_U64 && Storable(w.log, w.durable)
    && Fold(init, w.log, apply).Some?
    && SnapshotsOk(w, init, apply)
  }

  ghost predicate Inv<S>(w: World<S>, init: S, apply: Applier<S>) {
    && Steady(w, init, apply)
    && if w.phase.Down? then w.killed.None? && DownOk(w, w.phase.dir) else UpOk(w)
  }

  // ---- what recovery makes of a directory --------------------------------

  lemma {:induction false} FoldPrefix<S>(init: S, ps: seq<bytes>, k: nat, apply: Applier<S>)
    requires k <= |ps| && Fold(init, ps, apply).Some?
    ensures Fold(init, ps[..k], apply).Some?
  {
    hide Fold;
    assert ps == ps[..k] + ps[k..];
    FoldSplit(init, ps[..k], ps[k..], apply);
  }

  /** With the newest snapshot inside the log, recovery runs to the horizon. */
  lemma {:induction false} RecoverWithSegments<S>(dir: seq<SegmentFile>, indexes: OffsetIndex.Sidecars,
      snaps: seq<Snapshot<S>>,
                               history: seq<bytes>, init: S, apply: Applier<S>)
    requires dir != [] && Listed(dir) && ScanOf(dir).Ok? && SoundIndexes(dir, indexes)
    requires LogFrom(dir, history) && |history| <= MAX_U64 && Fold(init, history, apply).Some?
    requires snaps != [] && NewestFirst(snaps) && snaps[0].txID <= Horizon(ScanOf(dir).value)
    requires snaps[0].file.Readable? && snaps[0].file.restored.Some? && SnapshotsFrom(snaps, history, init, apply)
    requires dir[0].start <= snaps[0].txID + 1
    ensures var h := Horizon(ScanOf(dir).value);
      && 0 <= h <= |history|
      && var r := Recover(dir, indexes, snaps, init, apply);
         if h == MAX_U64 then r == Err(NoNextTx)
         else
           && r.Ok? && r.value.txID == h
           && Fold(init, history[..h], apply) == Some(r.value.state)
           && (ScanOf(dir).value[|dir| - 1].mode == AppendInPlace <==> r.value.plan.mode == AppendInPlace)
           && r.value.plan.mode != AppendForbidden
  {
    hide ScanOf, ReplayOf, Fold, LogRecords, LogFrom, SoundIndexes, Listed, BoundaryError, Horizon;
    var h := Horizon(ScanOf(dir).value);
    var from, st := snaps[0].txID, snaps[0].file.restored.value;
    assert snaps[0] in snaps;
    assert Selected(snaps, h) == Selection(Some(snaps[0]), []);
    BoundaryCovers(dir, from);
    ReplayReachesHorizon(dir, indexes, history, from, st, init, apply);
    FoldPrefix(init, history, h, apply);
    TailNotForbidden(dir);
    assert PlanResume(ScanOf(dir).value, h) == if h == MAX_U64 then Err(NoNextTx) else PlanResume(ScanOf(dir).value, h);
  }

  lemma {:induction false} RecoverWithoutSegments<S>(snaps: seq<Snapshot<S>>, init: S, apply: Applier<S>)
    requires snaps != [] && NewestFirst(snaps)
    requires snaps[0].file.Readable? && snaps[0].file.restored.Some?
    ensures var r := Recover([], [], snaps, init, apply);
      if snaps[0].txID == MAX_U64 then r == Err(NoNextTx)
      else
        && r.Ok? && r.value.txID == snaps[0].txID && Some(r.value.state) == snaps[0].file.restored
        && r.value.plan == ResumePlan(snaps[0].txID + 1, snaps[0].txID + 1, AppendByFreshNextSegment)
  {
    hide ReplayOf;
    ReplayNothing([], snaps[0].txID, snaps[0].file.restored.value, apply);
    assert Selected(snaps, MAX_U64) == Selection(Some(snaps[0]), []);
  }

  /** A newest file cut off inside its header is refused, whatever precedes it. */
  lemma {:induction false} CutHeaderRefused(dir: seq<SegmentFile>, log: seq<bytes>)
    requires CutHeader(dir) && Chain(dir[..|dir| - 1], log, dir[|dir| - 1].start)
    ensures ScanOf(dir) == Err(ReadFault(UnexpectedEof))
  {
    hide FileRecords, Sealed;
    var n := |dir| - 1;
    ChainBelow(dir[..n], log, dir[n].start);
    forall k | 0 <= k < n ensures SegmentOf(dir[k], k == n).Ok? {
      assert dir[k] == dir[..n][k];
      SealedReport(dir[k], log);
    }
    FirstBadReport(dir, n);
  }

  /** The transaction a directory is recovered to. */
  function Reach<S>(w: World<S>, dir: seq<SegmentFile>): (r: int)
    requires w.snaps != []
  {
    if dir == [] then w.snaps[0].txID else NextStart(dir[|dir| - 1]) - 1
  }

  /** The newest file has a header and no torn record behind its records. */
  ghost predicate EndsWhole(f: SegmentFile, log: seq<bytes>)
    requires Newest(f, log)
  {
    f.data != [] && AllZero(TailOf(f, log, |FileRecords(f)|))
  }

  /** Exactly when recovery succeeds after a crash, and with which state. */
  lemma {:induction false} RecoverOutcome<S>(w: World<S>, dir: seq<SegmentFile>, indexes: OffsetIndex.Sidecars,
      init: S, apply: Applier<S>)
    requires Steady(w, init, apply) && DownOk(w, dir) && SoundIndexes(dir, indexes)
    ensures var r := Recover(dir, indexes, w.snaps, init, apply);
      if CutHeader(dir) then r == Err(ScanFailed(ReadFault(UnexpectedEof)))
      else
        && w.durable <= Reach(w, dir) <= |w.log|
        && if Reach(w, dir) == MAX_U64 then r == Err(NoNextTx)
           else
             && r.Ok? && r.value.txID == Reach(w, dir)
             && Fold(init, w.log[..r.value.txID], apply) == Some(r.value.state)
             && (r.value.plan.mode == AppendInPlace <==> dir != [] && EndsWhole(dir[|dir| - 1], w.log))
  {
    assert dir == [] ==> indexes == [];
    hide Fold, Recover, SoundIndexes, Newest, FileRecords, Chain, SnapshotsOk, EndsWhole, Storable;
    SnapshotBound(w, init, apply);
    if dir == [] {
      NewestRestores(w, init, apply);
      RecoverWithoutSegments(w.snaps, init, apply);
    } else if CutHeader(dir) {
      CutHeaderRefused(dir, w.log);
      ScanStops(dir, indexes, w.snaps, init, apply);
    } else {
      RecoverSegments(w, dir, indexes, init, apply);
    }
  }

  lemma {:induction false} ScanStops<S>(dir: seq<SegmentFile>, indexes: OffsetIndex.Sidecars, snaps: seq<Snapshot<S>>,
      init: S, apply: Applier<S>)
    requires |dir| == |indexes| && ScanOf(dir).Err?
    ensures Recover(dir, indexes, snaps, init, apply) == Err(ScanFailed(ScanOf(dir).error))
  {
  }

  lemma {:induction false} RecoverSegments<S>(w: World<S>, dir: seq<SegmentFile>, indexes: OffsetIndex.Sidecars,
      init: S, apply: Applier<S>)
    requires Steady(w, init, apply) && DownOk(w, dir) && SoundIndexes(dir, indexes) && dir != [] && !CutHeader(dir)
    ensures var r := Recover(dir, indexes, w.snaps, init, apply);
      && w.durable <= Reach(w, dir) <= |w.log|
      && if Reach(w, dir) == MAX_U64 then r == Err(NoNextTx)
         else
           && r.Ok? && r.value.txID == Reach(w, dir)
           && Fold(init, w.log[..r.value.txID], apply) == Some(r.value.state)
           && (r.value.plan.mode == AppendInPlace <==> EndsWhole(dir[|dir| - 1], w.log))
  {
    hide Fold, ScanOf, Recover, SoundIndexes, Newest, FileRecords, LogFrom, Listed, SnapshotsFrom, TailOf, SegmentOf;
    var n := |dir| - 1;
    assert dir == dir[..n] + [dir[n]];
    ChainScan(dir[..n], dir[n], w.log);
    NewestBounds(dir[n], w.log);
    NewestReport(dir[n], w.log);
    Resume.LastReport(dir);
    RecoverWithSegments(dir, indexes, w.snaps, w.log, init, apply);
  }

  lemma {:induction false} NewestRestores<S>(w: World<S>, init: S, apply: Applier<S>)
    requires SnapshotsOk(w, init, apply)
    ensures w.snaps[0].txID <= |w.log| && w.snaps[0].file.restored == Fold(init, w.log[..w.snaps[0].txID], apply)
  {
    assert w.snaps[0] in w.snaps;
  }

  // ---- every step keeps the invariant ------------------------------------

  lemma {:induction false} SnapshotBound<S>(w: World<S>, init: S, apply: Applier<S>)
    requires SnapshotsOk(w, init, apply)
    ensures w.snaps != [] && w.snaps[0].txID <= w.durable
  {
  }

  lemma {:induction false} SnapshotsAgain<S>(w: World<S>, w': World<S>, init: S, apply: Applier<S>)
    requires SnapshotsOk(w, init, apply) && w'.snaps == w.snaps
    requires w.durable <= w'.durable && w.durable <= |w.log| && w.durable <= |w'.log|
    requires w.log[..w.durable] == w'.log[..w.durable]
    ensures SnapshotsOk(w', init, apply)
  {
    hide Fold;
    forall s | s in w.snaps && s.file.Readable? && s.file.restored.Some?
      ensures s.txID <= |w'.log| && s.file.restored == Fold(init, w'.log[..s.txID], apply)
    {
      var i :| 0 <= i < |w.snaps| && w.snaps[i] == s;
      assert s.txID <= w.snaps[0].txID;
      assert w.log[..s.txID] == w.log[..w.durable][..s.txID] == w'.log[..s.txID];
    }
  }

  lemma {:induction false} PaddedAgain(start: nat, log: seq<bytes>, log': seq<bytes>, upto: nat, data: bytes, h: nat)
    requires Padded(start, log, upto, data) && upto <= h <= |log| && h <= |log'| && log[..h] == log'[..h]
    ensures Padded(start, log', upto, data)
  {
    hide Holds, Encoded, TailOf;
    HoldsAgain(SegmentFile(start, data), log, log', upto + 1 - start, h);
  }

  lemma {:induction false} AppendingAgain(start: nat, log: seq<bytes>, log': seq<bytes>, synced: nat, written: nat,
      f: File, h: nat)
    requires Appending(start, log, synced, written, f)
    requires written <= h <= |log| && h <= |log'| && log[..h] == log'[..h]
    ensures Appending(start, log', synced, written, f)
  {
    hide Padded, Encoded;
    if f.durable != [] {
      PaddedAgain(start, log, log', synced, f.durable, h);
    }
    PaddedAgain(start, log, log', written, f.current, h);
    PaddedShape(start, log', written, f.current);
  }

  /** Only the part of the log that is written matters to what is flushed. */
  lemma {:induction false} FlushAgain<S>(w: World<S>, w': World<S>, f: File)
    requires 0 < w.start <= w.synced + 1 && w.synced <= w.written && w.durable <= w.written &&
      Storable(w.log, w.written)
    requires FlushOk(w, f) && w.log <= w'.log && Storable(w'.log, w.written)
    requires w' == w.(log := w'.log)
    ensures FlushOk(w', f)
  {
    hide Encoded;
    assert Stretch(w.log, w.start - 1, Reported(w)) == Stretch(w'.log, w.start - 1, Reported(w));
  }

  lemma {:induction false} NewestAgain(f: SegmentFile, log: seq<bytes>, log': seq<bytes>, h: nat)
    requires Newest(f, log) && NextStart(f) - 1 <= h <= |log| && h <= |log'| && log[..h] == log'[..h]
    ensures Newest(f, log')
  {
    hide Holds, BodyScan;
    if f.data != [] {
      HoldsAgain(f, log, log', |FileRecords(f)|, h);
    } else {
      assert forall i :: 0 <= i < f.start - 1 ==> log'[i] == log'[..h][i] == log[..h][i];
    }
  }

  lemma {:induction false} EarlierAgain(start: nat, log: seq<bytes>, log': seq<bytes>, f: File, h: nat)
    requires EarlierOk(start, log, f) && start <= h + 1 && h <= |log| && h <= |log'| && log[..h] == log'[..h]
    ensures EarlierOk(start, log', f)
  {
    hide Newest, FileRecords, Survivor;
    forall p | 0 <= p <= |f.current| ensures Blank(Left(Segment(start, f), p), log') {
      assert Blank(Left(Segment(start, f), p), log);
      if !PartialHeader(Left(Segment(start, f), p)) {
        NewestAgain(Left(Segment(start, f), p), log, log', h);
      }
    }
  }

  lemma {:induction false} EnqueueKeeps<S>(w: World<S>, p: bytes, init: S, apply: Applier<S>)
    requires Inv(w, init, apply) && Step(w, Enqueue(p), init, apply).Some?
    ensures Inv(Step(w, Enqueue(p), init, apply).value, init, apply)
  {
    hide Fold, StoredChain, SnapshotsOk, Appending, EarlierOk, SnapshotsFrom, FlushOk, LossesReported;
    var w' := w.(log := w.log + [p]);
    assert w'.log[..|w.log|] == w.log[..|w.log|] == w.log;
    assert w.log[..w.durable] == w'.log[..w.durable];
    SnapshotsAgain(w, w', init, apply);
    StoredAgain(w.unlinked + w.sealed, w.log, w'.log, w.start, |w.log|);
    match w.phase {
      case Running(f) =>
        AppendingAgain(w.start, w.log, w'.log, w.synced, w.written, f, |w.log|);
        FlushAgain(w, w', f);
      case Creating(_, earlier) =>
        forall i | 0 <= i < |earlier| ensures EarlierOk(w.start, w'.log, earlier[i]) {
          EarlierAgain(w.start, w.log, w'.log, earlier[i], |w.log|);
        }
    }
  }

  /** A longer stretch takes no fewer bytes. */
  lemma {:induction false} StretchGrows(start: nat, log: seq<bytes>, u: nat, v: nat)
    requires 0 < start <= u + 1 && u <= v && Storable(log, v)
    ensures |SegmentBytes(start, Stretch(log, start - 1, u))| <= |SegmentBytes(start, Stretch(log, start - 1, v))|
  {
    hide Encoded;
    var ps, m := Stretch(log, start - 1, v), u + 1 - start;
    assert Stretch(log, start - 1, u) == ps[..m];
    EncodedSplit(start, ps, m);
  }

  lemma {:induction false} AppendKeeps<S>(w: World<S>, init: S, apply: Applier<S>)
    requires Inv(w, init, apply) && AfterAppend(w).Some?
    ensures Inv(AfterAppend(w).value, init, apply)
  {
    hide Fold, StoredChain, SnapshotsOk, Appending, RecordBytes, Encoded, LossesReported;
    AppendingNext(w.start, w.log, w.synced, w.written, w.phase.active);
    StretchGrows(w.start, w.log, Reported(w), w.written);
    SnapshotsAgain(w, AfterAppend(w).value, init, apply);
  }

  lemma {:induction false} SyncKeeps<S>(w: World<S>, init: S, apply: Applier<S>)
    requires Inv(w, init, apply) && Step(w, Sync, init, apply).Some?
    ensures Inv(Step(w, Sync, init, apply).value, init, apply)
  {
    hide Fold, StoredChain, SnapshotsOk, Appending, RecordBytes, Encoded, LossesReported;
    AppendingSynced(w.start, w.log, w.synced, w.written, w.phase.active);
    AppendingShape(w.start, w.log, w.synced, w.written, w.phase.active);
    SnapshotsAgain(w, Step(w, Sync, init, apply).value, init, apply);
  }

  lemma {:induction false} ReportKeeps<S>(w: World<S>, t: nat, init: S, apply: Applier<S>)
    requires Inv(w, init, apply) && Step(w, Report(t), init, apply).Some?
    ensures Inv(Step(w, Report(t), init, apply).value, init, apply)
  {
    hide Fold, StoredChain, SnapshotsOk, Appending, EarlierOk;
    SnapshotsAgain(w, w.(durable := t), init, apply);
  }

  lemma {:induction false} KillKeeps<S>(w: World<S>, q: nat, init: S, apply: Applier<S>)
    requires Inv(w, init, apply) && Step(w, Kill(q), init, apply).Some?
    ensures Inv(Step(w, Kill(q), init, apply).value, init, apply)
  {
    hide Fold, StoredChain, SnapshotsOk, Appending, EarlierOk, LossesReported;
    SnapshotsAgain(w, w.(killed := Some(q)), init, apply);
  }

  lemma {:induction false} RotateKeeps<S>(w: World<S>, init: S, apply: Applier<S>)
    requires Inv(w, init, apply) && Step(w, Rotate, init, apply).Some?
    ensures Inv(Step(w, Rotate, init, apply).value, init, apply)
  {
    hide Fold, StoredChain, SnapshotsOk, FileRecords, Appending, Whole;
    var w' := Step(w, Rotate, init, apply).value;
    var f := SegmentFile(w.start, w.phase.active.current);
    var g := Segment(f.start, File(f.data, f.data));
    RotatedSeals(w.start, w.log, w.synced, w.phase.active);
    SolidOk(f, w.log);
    StoredSnoc(w.unlinked + w.sealed, g, w.log);
    assert w'.unlinked + w'.sealed == w.unlinked + w.sealed + [g];
    assert AllShown(w'.sealed) == AllShown(w.sealed) + [f];
    SnapshotsAgain(w, w', init, apply);
  }

  lemma {:induction false} RotatedSeals(start: nat, log: seq<bytes>, written: nat, f: File)
    requires Appending(start, log, written, written, f) && start <= written
    ensures Sealed(SegmentFile(start, f.current), log) && NextStart(SegmentFile(start, f.current)) == written + 1
  {
    hide FileRecords, Encoded;
    HeldRecords(SegmentFile(start, f.current), log, written + 1 - start);
  }

  lemma {:induction false} SnapshotKeeps<S>(w: World<S>, t: nat, init: S, apply: Applier<S>)
    requires Inv(w, init, apply) && Step(w, TakeSnapshot(t), init, apply).Some?
    ensures Inv(Step(w, TakeSnapshot(t), init, apply).value, init, apply)
  {
    hide Fold, StoredChain, Appending, EarlierOk, FlushOk, LossesReported;
    FoldPrefix(init, w.log, t, apply);
    FlushSame(w, Step(w, TakeSnapshot(t), init, apply).value);
  }

  lemma {:induction false} FlushSame<S>(w: World<S>, w': World<S>)
    requires 0 < w.start <= w.synced + 1 && w.synced <= w.written && w.durable <= w.written &&
      Storable(w.log, w.written)
    requires w'.log == w.log && w'.durable == w.durable && w'.start == w.start && w'.synced == w.synced
    requires w'.written == w.written && w'.flushed == w.flushed && w'.killed == w.killed
    ensures forall f :: FlushOk(w, f) ==> FlushOk(w', f)
  {
    hide Encoded;
  }

  lemma {:induction false} UnlinkKeeps<S>(w: World<S>, init: S, apply: Applier<S>)
    requires Inv(w, init, apply) && Step(w, Unlink, init, apply).Some?
    ensures Inv(Step(w, Unlink, init, apply).value, init, apply)
  {
    hide Fold, SnapshotsOk, Appending, EarlierOk, FileRecords, Sealed, StoredChain, FlushOk, LossesReported;
    var w' := Step(w, Unlink, init, apply).value;
    FlushSame(w, w');
    assert w'.unlinked + w'.sealed == w.unlinked + w.sealed;
    SnapshotsAgain(w, w', init, apply);
    StoredSuffix(w.unlinked + w.sealed, w.log, w.start, |w.unlinked|);
    assert (w.unlinked + w.sealed)[|w.unlinked|..] == w.sealed;
    FirstThenSecond(w.sealed, w.log, w.start);
  }

  lemma {:induction false} FirstThenSecond(ss: seq<Segment>, log: seq<bytes>, end: nat)
    requires StoredChain(ss, log, end) && ss != []
    ensures NextStart(Shown(ss[0])) == FirstStart(AllShown(ss[1..]), end)
  {
    hide Sealed, FileRecords;
    assert AllShown(ss)[0] == Shown(ss[0]);
    if |ss| > 1 {
      assert AllShown(ss)[1] == AllShown(ss[1..])[0];
    }
  }

  lemma {:induction false} HeaderKeeps<S>(w: World<S>, a: Action, init: S, apply: Applier<S>)
    requires Inv(w, init, apply) && Step(w, a, init, apply).Some?
    requires a.MakeFile? || a.WriteHeader? || a.SyncHeader?
    ensures Inv(Step(w, a, init, apply).value, init, apply)
  {
    hide Fold, StoredChain, SnapshotsOk, EarlierOk, AfterAppend, AfterRestart;
    SnapshotsAgain(w, Step(w, a, init, apply).value, init, apply);
  }

  /** Once the directory is synced no deletion can be undone. */
  lemma {:induction false} DirectorySynced<S>(w: World<S>, w': World<S>, init: S, apply: Applier<S>)
    requires Inv(w, init, apply) && !w.phase.Down? && w'.phase.Running?
    requires w' == w.(unlinked := [], phase := w'.phase, flushed := w'.flushed)
    requires Appending(w.start, w.log, w.synced, w.written, w'.phase.active)
    requires FlushOk(w', w'.phase.active)
    ensures Inv(w', init, apply)
  {
    hide Fold, StoredChain, SnapshotsOk, EarlierOk, Encoded, Appending, FlushOk, Whole;
    SnapshotsAgain(w, w', init, apply);
    StoredSuffix(w.unlinked + w.sealed, w.log, w.start, |w.unlinked|);
    assert (w.unlinked + w.sealed)[|w.unlinked|..] == w.sealed == w'.unlinked + w'.sealed;
  }

  lemma {:induction false} DirectoryKeeps<S>(w: World<S>, init: S, apply: Applier<S>)
    requires Inv(w, init, apply) && Step(w, SyncDirectory, init, apply).Some?
    ensures Inv(Step(w, SyncDirectory, init, apply).value, init, apply)
  {
    hide Fold, StoredChain, SnapshotsOk, EarlierOk, Appending, AfterAppend, AfterRestart, LossesReported, Encoded;
    var w' := Step(w, SyncDirectory, init, apply).value;
    if w.phase.Creating? {
      HeaderOnly(w.start, w.log);
      HeaderSize(w.start, w.log);
    }
    DirectorySynced(w, w', init, apply);
  }

  lemma {:induction false} HeaderSize(start: nat, log: seq<bytes>)
    requires start > 0 && Storable(log, start - 1)
    ensures |SegmentBytes(start, Stretch(log, start - 1, start - 1))| == SEGMENT_HEADER
  {
    NoRecords(start);
    assert Stretch(log, start - 1, start - 1) == [];
  }

  /** A segment that is just its header holds no transaction yet. */
  lemma {:induction false} HeaderOnly(start: nat, log: seq<bytes>)
    requires 0 < start <= MAX_U64 && Storable(log, start - 1)
    ensures Appending(start, log, start - 1, start - 1, File(SEGMENT_PREFIX, SEGMENT_PREFIX))
    ensures Padded(start, log, start - 1, SEGMENT_PREFIX)
    ensures Newest(SegmentFile(start, SEGMENT_PREFIX), log) && NextStart(SegmentFile(start, SEGMENT_PREFIX)) == start
  {
    hide Encoded, FileRecords;
    EmptyPadded(start, log);
    HeldRecords(SegmentFile(start, SEGMENT_PREFIX), log, 0);
  }

  // ---- losses of power -----------------------------------------------------

  lemma {:induction false} SealedIsNewest(f: SegmentFile, log: seq<bytes>)
    requires Sealed(f, log) && f.start <= MAX_U64
    ensures Newest(f, log) && !PartialHeader(f)
  {
    hide BodyScan;
    HeldBounds(f, log, |FileRecords(f)|);
  }

  /** An empty file stands for no transaction. */
  lemma {:induction false} EmptyIsNewest(start: nat, log: seq<bytes>)
    requires 0 < start <= MAX_U64 && Storable(log, start - 1)
    ensures Newest(SegmentFile(start, []), log) && NextStart(SegmentFile(start, [])) == start
  {
    hide BodyScan;
  }

  /** A crash during an append leaves a segment with every synced transaction and none not kept. */
  lemma {:induction false} ActiveSurvives(start: nat, log: seq<bytes>, synced: nat, written: nat, f: File, p: nat)
    requires Appending(start, log, synced, written, f) && p <= |f.current| && start <= MAX_U64
    ensures 0 < start <= synced + 1 && synced <= written && Storable(log, written)
    ensures var left := SegmentFile(start, Survivor(f, p));
      if HeaderLost(f, p) then synced == start - 1 && Blank(left, log)
      else
        && Newest(left, log) && !PartialHeader(left)
        && NextStart(left) == start + Kept(start, log, synced, written, p)
        && synced <= NextStart(left) - 1 <= written
  {
    AppendingShape(start, log, synced, written, f);
    DurablePadded(start, log, synced, written, f);
    if HeaderLost(f, p) {
      assert |Survivor(f, p)| == p;
      if p == 0 {
        assert Survivor(f, p) == [];
        EmptyIsNewest(start, log);
      }
    } else {
      hide Appending, Encoded, TornTail, BodyScan, Survivor, Kept;
      var n := SurvivorHolds(start, log, synced, written, f, p);
      HeldRecords(SegmentFile(start, Survivor(f, p)), log, n);
    }
  }

  /** A crash during the creation of a segment leaves it empty, cut off in its header, or whole. */
  lemma {:induction false} HeaderSurvives(start: nat, log: seq<bytes>, f: File, p: nat)
    requires HeaderFile(f) && p <= |f.current| && 0 < start <= MAX_U64 && Storable(log, start - 1)
    ensures Blank(SegmentFile(start, Survivor(f, p)), log)
    ensures |Survivor(f, p)| == SEGMENT_HEADER ==> Survivor(f, p) == SEGMENT_PREFIX
    ensures |Survivor(f, p)| <= SEGMENT_HEADER
  {
    hide Encoded, BodyScan;
    HeaderOnly(start, log);
    EmptyIsNewest(start, log);
    var data := Survivor(f, p);
    assert |data| <= SEGMENT_HEADER;
    if |data| == SEGMENT_HEADER {
      assert data == SEGMENT_PREFIX;
    } else if |data| == 0 {
      assert data == [];
    }
  }

  /** The newest file left, if any, has every synced transaction. */
  lemma {:induction false} NewestLeftOk<S>(w: World<S>, name: Name, kept: nat)
    requires !w.phase.Down? && w.snaps != [] && UpOk(w) && NewestPossible(w, name, kept)
    ensures LeftOk(w, NewestLeft(w, name, kept), w.synced)
  {
    hide StoredChain, Appending, Newest, FileRecords, Survivor, FlushOk, LossesReported;
    match w.phase
    case Running(f) => ActiveSurvives(w.start, w.log, w.synced, w.written, f, kept);
    case Creating(file, earlier) =>
      match name {
        case Gone =>
        case Earlier(i) =>
          assert EarlierOk(w.start, w.log, earlier[i]);
          assert Blank(Left(Segment(w.start, earlier[i]), kept), w.log);
        case Latest => HeaderSurvives(w.start, w.log, file.value, kept);
      }
  }

  /** What is left of the newest file reaches at least transaction `low`, or is cut off in its header. */
  ghost predicate LeftOk<S>(w: World<S>, left: seq<SegmentFile>, low: nat) {
    if left == [] then low <= w.written == w.start - 1
    else
      && |left| == 1 && left[0].start == w.start
      && (PartialHeader(left[0]) || (Newest(left[0], w.log) && low <= NextStart(left[0]) - 1 <= w.written))
  }

  /** The segments before the newest one, with some deletions undone: the oldest is old enough. */
  lemma {:induction false} OldestLeft(unlinked: seq<Segment>, sealed: seq<Segment>, cuts: seq<nat>, log: seq<bytes>,
      start: nat, k: nat)
    requires StoredChain(unlinked + sealed, log, start) && AllWhole(unlinked + sealed)
    requires k <= |unlinked| && Cuts(unlinked + sealed, cuts)
    ensures var left := AllLeft(unlinked + sealed, cuts)[k..];
      Chain(left, log, start) && FirstStart(left, start) <= FirstStart(AllShown(sealed), start)
  {
    hide Sealed, FileRecords, StoredChain, Chain, AllWhole;
    var ss := unlinked + sealed;
    var left := AllLeft(ss, cuts);
    LeftChain(ss, cuts, log, start);
    ChainSuffix(left, log, start, k);
    if k < |unlinked| {
      ChainPrefix(left, log, start, |unlinked|);
      ChainBelow(left[..|unlinked|], log, if |unlinked| == |left| then start else left[|unlinked|].start);
      assert left[k] == left[..|unlinked|][k];
      if sealed != [] {
        assert left[|unlinked|].start == ss[|unlinked|].start == AllShown(sealed)[0].start;
      }
    } else if sealed != [] {
      assert left[k].start == ss[k].start == AllShown(sealed)[0].start;
    }
  }

  /** A directory made of a chain of segments and what is left of the newest file. */
  lemma {:induction false} DirectoryOk<S>(w: World<S>, front: seq<SegmentFile>, left: seq<SegmentFile>, low: nat,
      init: S, apply: Applier<S>)
    requires Steady(w, init, apply) && !w.phase.Down? && w.snaps != [] && UpOk(w)
    requires Chain(front, w.log, w.start) && FirstStart(front, w.start) <= w.snaps[0].txID + 1
    requires w.durable <= low && LeftOk(w, left, low)
    ensures DownOk(w, front + left)
    ensures w.written <= |w.log|
    ensures !CutHeader(front + left) ==> low <= Reach(w, front + left) <= w.written
  {
    hide Fold, SnapshotsOk, Appending, Newest, FileRecords, Chain, EarlierOk, SnapshotsFrom, StoredChain, FlushOk,
      LossesReported;
    SnapshotBound(w, init, apply);
    var dir := front + left;
    if left != [] {
      assert dir[..|dir| - 1] == front && dir[|dir| - 1] == left[0];
    } else if front != [] {
      assert dir == front;
      ChainFront(front, w.log, w.start);
      ChainBelow(front, w.log, w.start);
      SealedIsNewest(front[|front| - 1], w.log);
    }
  }

  lemma {:induction false} UpParts<S>(w: World<S>, init: S, apply: Applier<S>)
    requires Inv(w, init, apply) && !w.phase.Down?
    ensures Steady(w, init, apply) && w.snaps != [] && UpOk(w)
    ensures StoredChain(w.unlinked + w.sealed, w.log, w.start)
    ensures FirstStart(AllShown(w.sealed), w.start) <= w.snaps[0].txID + 1
  {
    hide Fold, StoredChain, Appending, EarlierOk, FlushOk, LossesReported;
  }

  lemma {:induction false} SafeParts<S>(w: World<S>)
    requires Safe(w)
    ensures w.durable <= w.synced && AllWhole(w.unlinked + w.sealed)
  {
  }

  /** A world whose files are now exactly what this directory lists. */
  lemma {:induction false} WentDown<S>(w: World<S>, dir: seq<SegmentFile>, init: S, apply: Applier<S>)
    requires Steady(w, init, apply) && w.snaps != [] && DownOk(w, dir)
    ensures var w' := w.(phase := Down(dir), killed := None);
      Inv(w', init, apply) && Reach(w', dir) == Reach(w, dir)
  {
    hide Fold, Chain, Newest, FileRecords;
    SnapshotsAgain(w, w.(phase := Down(dir), killed := None), init, apply);
  }

  lemma {:induction false} PossibleParts<S>(w: World<S>, c: Crash)
    requires Possible(w, c)
    ensures !w.phase.Down? && c.restored <= |w.unlinked| && Cuts(w.unlinked + w.sealed, c.cuts)
    ensures NewestPossible(w, c.name, c.kept)
    ensures Survivors(w, c) == AllLeft(w.unlinked + w.sealed, c.cuts)[c.restored..] + NewestLeft(w, c.name, c.kept)
  {
  }

  lemma {:induction false} DieKeeps<S>(w: World<S>, c: Crash, init: S, apply: Applier<S>)
    requires Inv(w, init, apply) && Possible(w, c) && Safe(w)
    ensures w.snaps != []
    ensures var w' := w.(phase := Down(Survivors(w, c)), killed := None);
      && Inv(w', init, apply) && w.written <= |w.log|
      && (!CutHeader(Survivors(w, c)) ==> w.synced <= Reach(w', Survivors(w, c)) <= w.written)
  {
    hide *;
    SafeParts(w);
    PossibleParts(w, c);
    UpParts(w, init, apply);
    NewestLeftOk(w, c.name, c.kept);
    OldestLeft(w.unlinked, w.sealed, c.cuts, w.log, w.start, c.restored);
    var front := AllLeft(w.unlinked + w.sealed, c.cuts)[c.restored..];
    DirectoryOk(w, front, NewestLeft(w, c.name, c.kept), w.synced, init, apply);
    WentDown(w, Survivors(w, c), init, apply);
  }

  // ---- recovery and resumption -------------------------------------------

  /**
   * What resuming needs of the newest file it finds: to be reopened in place, it is the file of a segment
   * appended to; to be replaced, it has no whole record; to be left behind, it is such a segment.
   */
  ghost predicate Resumable(g: Segment, log: seq<bytes>, synced: nat) {
    && Newest(Shown(g), log)
    && (if EndsWhole(Shown(g), log) then Appending(g.start, log, synced, NextStart(Shown(g)) - 1, g.file)
        else if NextStart(Shown(g)) == g.start then EarlierOk(g.start, log, g.file)
        else SegmentOk(g, log))
  }

  lemma {:induction false} WithRecords(f: SegmentFile, log: seq<bytes>)
    requires Newest(f, log) && NextStart(f) != f.start
    ensures f.data != [] && Sealed(f, log)
  {
    EmptyHasNone(f.start);
  }

  lemma {:induction false} EmptyHasNone(start: nat)
    ensures FileRecords(SegmentFile(start, [])) == []
  {
  }

  /** What the segments found must be for the worker to take over where recovery ended. */
  ghost predicate Ready<S>(w: World<S>, h: nat) {
    var ss := Found(w);
    && (forall i :: 0 <= i < |Names(w)| ==> EarlierOk(h + 1, w.log, Names(w)[i]))
    && LossesReported(Pending(w) + ss, h)
    && if ss == [] then StoredChain(Pending(w), w.log, h + 1)
       else
         && StoredChain(Pending(w) + ss[..|ss| - 1], w.log, ss[|ss| - 1].start)
         && Resumable(ss[|ss| - 1], w.log, SyncedOf(w, h))
  }

  lemma {:induction false} ResumedOk<S>(w: World<S>, r: Recovered<S>)
    requires w.snaps != [] && Ready(w, r.txID) && DownOk(w, AllShown(Found(w))) && !CutHeader(AllShown(Found(w)))
    requires Storable(w.log, w.durable) && w.snaps[0].txID <= w.durable
    requires r.txID == Reach(w, AllShown(Found(w))) <= |w.log| && r.txID < MAX_U64 && w.durable <= r.txID
    requires r.plan.mode == AppendInPlace <==>
      Found(w) != [] && EndsWhole(Shown(Found(w)[|Found(w)| - 1]), w.log)
    ensures !Resumed(w, r).phase.Down? && UpOk(Resumed(w, r))
  {
    hide StoredChain, Newest, FileRecords, Appending, TailOf, EarlierOk, Resumable, Found, EndsWhole, Chain,
      LossesReported;
    var ss, h := Found(w), r.txID;
    ReachStorable(w, AllShown(ss));
    NamesAgain(w, h);
    if ss == [] {
      ResumedEmpty(w, r);
    } else {
      var n := |ss| - 1;
      NewestBounds(Shown(ss[n]), w.log);
      if r.plan.mode == AppendInPlace {
        ResumedInPlace(w, r, ss, n);
      } else {
        ResumedFresh(w, r, ss, n);
      }
    }
  }

  lemma {:induction false} ResumedEmpty<S>(w: World<S>, r: Recovered<S>)
    requires w.snaps != [] && Found(w) == [] && r.txID < MAX_U64 && Storable(w.log, r.txID)
    requires StoredChain(Pending(w), w.log, r.txID + 1) && r.txID == w.snaps[0].txID
    requires LossesReported(Pending(w) + [], r.txID)
    requires forall i :: 0 <= i < |Names(w)| ==> EarlierOk(r.txID + 1, w.log[..r.txID], Names(w)[i])
    ensures !Resumed(w, r).phase.Down? && UpOk(Resumed(w, r))
  {
    hide StoredChain, EarlierOk, Found, LossesReported;
    var h := r.txID;
    assert w.log[..h][..h] == w.log[..h];
    StoredAgain(Pending(w), w.log, w.log[..h], h + 1, h);
    assert Pending(w) + [] == Pending(w);
  }

  lemma {:induction false} ResumedInPlace<S>(w: World<S>, r: Recovered<S>, ss: seq<Segment>, n: nat)
    requires w.snaps != [] && Found(w) == ss && n == |ss| - 1 && r.txID < MAX_U64 && Storable(w.log, r.txID)
    requires r.plan.mode == AppendInPlace && LossesReported(Pending(w) + ss, r.txID)
    requires Resumable(ss[n], w.log, SyncedOf(w, r.txID)) && EndsWhole(Shown(ss[n]), w.log)
    requires NextStart(Shown(ss[n])) == r.txID + 1
    requires StoredChain(Pending(w) + ss[..n], w.log, ss[n].start) && 0 < ss[n].start <= MAX_U64
    requires ss[0].start <= w.snaps[0].txID + 1
    ensures !Resumed(w, r).phase.Down? && UpOk(Resumed(w, r))
  {
    hide StoredChain, Newest, Appending, Found, EndsWhole, FileRecords, Encoded, Whole;
    var h, f := r.txID, ss[n].file;
    assert w.log[..h][..h] == w.log[..h];
    assert ss[n].start <= h + 1;
    AppendingAgain(ss[n].start, w.log, w.log[..h], SyncedOf(w, h), h, f, h);
    AppendingShape(ss[n].start, w.log[..h], SyncedOf(w, h), h, f);
    StoredAgain(Pending(w) + ss[..n], w.log, w.log[..h], ss[n].start, h);
    StoredSuffix(Pending(w) + ss[..n], w.log[..h], ss[n].start, |Pending(w)|);
    assert (Pending(w) + ss[..n])[|Pending(w)|..] == ss[..n] == [] + ss[..n];
    assert LossesReported([] + ss[..n], h) by {
      FewerLosses(Pending(w) + ss, ss[..n], h, |Pending(w)|);
      assert [] + ss[..n] == ss[..n];
    }
  }

  /** Dropping segments drops what they can lose. */
  lemma {:induction false} FewerLosses(all: seq<Segment>, ss: seq<Segment>, durable: nat, k: nat)
    requires LossesReported(all, durable) && k + |ss| <= |all| && ss == all[k..k + |ss|]
    ensures LossesReported(ss, durable)
  {
    hide Whole, NextStart;
    forall i | 0 <= i < |ss| && !Whole(ss[i]) ensures NextStart(Shown(ss[i])) - 1 <= durable {
      assert ss[i] == all[k + i];
    }
  }

  lemma {:induction false} ResumedFresh<S>(w: World<S>, r: Recovered<S>, ss: seq<Segment>, n: nat)
    requires w.snaps != [] && Found(w) == ss && n == |ss| - 1 && r.txID < MAX_U64 && Storable(w.log, r.txID)
    requires r.plan.mode != AppendInPlace && LossesReported(Pending(w) + ss, r.txID)
    requires Resumable(ss[n], w.log, SyncedOf(w, r.txID)) && !EndsWhole(Shown(ss[n]), w.log)
    requires NextStart(Shown(ss[n])) == r.txID + 1
    requires StoredChain(Pending(w) + ss[..n], w.log, ss[n].start) && 0 < ss[n].start <= MAX_U64
    requires ss[0].start <= w.snaps[0].txID + 1
    requires forall i :: 0 <= i < |Names(w)| ==> EarlierOk(r.txID + 1, w.log[..r.txID], Names(w)[i])
    ensures !Resumed(w, r).phase.Down? && UpOk(Resumed(w, r))
  {
    hide StoredChain, Newest, EarlierOk, Found, EndsWhole, FileRecords, SegmentOk, LossesReported, Appending;
    var h := r.txID;
    assert w.log[..h][..h] == w.log[..h];
    if ss[n].start == h + 1 {
      EarlierAgain(ss[n].start, w.log, w.log[..h], ss[n].file, h);
      StoredAgain(Pending(w) + ss[..n], w.log, w.log[..h], ss[n].start, h);
      FewerLosses(Pending(w) + ss, Pending(w) + ss[..n], h, 0);
    } else {
      StoredSnoc(Pending(w) + ss[..n], ss[n], w.log);
      assert Pending(w) + ss[..n] + [ss[n]] == Pending(w) + ss;
      StoredAgain(Pending(w) + ss, w.log, w.log[..h], h + 1, h);
    }
  }

  lemma {:induction false} NamesAgain<S>(w: World<S>, h: nat)
    requires Ready(w, h) && h <= |w.log|
    ensures forall i :: 0 <= i < |Names(w)| ==> EarlierOk(h + 1, w.log[..h], Names(w)[i])
  {
    hide EarlierOk, StoredChain, Resumable, Found, LossesReported;
    assert w.log[..h][..h] == w.log[..h];
    forall i | 0 <= i < |Names(w)| ensures EarlierOk(h + 1, w.log[..h], Names(w)[i]) {
      EarlierAgain(h + 1, w.log, w.log[..h], Names(w)[i], h);
    }
  }

  lemma {:induction false} ReachStorable<S>(w: World<S>, dir: seq<SegmentFile>)
    requires w.snaps != [] && DownOk(w, dir) && !CutHeader(dir) && Storable(w.log, w.durable) &&
      w.snaps[0].txID <= w.durable
    ensures 0 <= Reach(w, dir) && Storable(w.log, Reach(w, dir))
  {
    hide Newest, FileRecords, Chain;
    if dir != [] {
      NewestBounds(dir[|dir| - 1], w.log);
    }
  }

  // ---- the two ways to find the directory after a stop -------------------

  /** A file that ends with whole records holds these and zeros. */
  lemma {:induction false} EndsPadded(f: SegmentFile, log: seq<bytes>)
    requires Newest(f, log) && EndsWhole(f, log)
    ensures Padded(f.start, log, NextStart(f) - 1, f.data)
  {
    hide BodyScan;
    HeldBounds(f, log, |FileRecords(f)|);
  }

  lemma {:induction false} AppendingFrom(start: nat, log: seq<bytes>, synced: nat, written: nat, f: File)
    requires 0 < start <= synced + 1 && synced <= written && Padded(start, log, written, f.current)
    requires if f.durable == [] then synced == start - 1 else Padded(start, log, synced, f.durable)
    ensures Appending(start, log, synced, written, f)
  {
    hide Padded;
    PaddedShape(start, log, written, f.current);
  }

  lemma {:induction false} SolidResumable(f: SegmentFile, log: seq<bytes>)
    requires Newest(f, log)
    ensures Resumable(Segment(f.start, File(f.data, f.data)), log, NextStart(f) - 1)
    ensures Whole(Segment(f.start, File(f.data, f.data)))
  {
    hide FileRecords, Newest, EndsWhole, Padded, Appending, SegmentOk;
    var g := Segment(f.start, File(f.data, f.data));
    NewestBounds(f, log);
    if EndsWhole(f, log) {
      EndsPadded(f, log);
      PaddedShape(f.start, log, NextStart(f) - 1, f.data);
      AppendingFrom(f.start, log, NextStart(f) - 1, NextStart(f) - 1, g.file);
    } else if NextStart(f) == f.start {
      forall p | 0 <= p <= |f.data| ensures Blank(Left(g, p), log) {
        assert Survivor(g.file, p) == f.data;
      }
      assert Segment(g.start, g.file) == g;
    } else {
      WithRecords(f, log);
      SolidOk(f, log);
    }
  }

  /** After a loss of power everything found is durable. */
  lemma {:induction false} DownReady<S>(w: World<S>, init: S, apply: Applier<S>)
    requires Inv(w, init, apply) && w.phase.Down? && !CutHeader(w.phase.dir)
    ensures w.snaps != [] && AllShown(Found(w)) == w.phase.dir && DownOk(w, w.phase.dir)
    ensures Reach(w, w.phase.dir) >= 0 && Ready(w, Reach(w, w.phase.dir))
  {
    hide Fold, Chain, Newest, FileRecords, Resumable, SnapshotsOk, Sealed, NextStart, Whole, StoredChain;
    var dir := w.phase.dir;
    var n := |dir| - 1;
    assert AllShown(Solid(dir)) == dir;
    SnapshotBound(w, init, apply);
    ReachStorable(w, dir);
    SolidWhole(dir);
    assert LossesReported([] + Solid(dir), Reach(w, dir));
    if dir != [] {
      SolidChain(dir[..n], w.log, dir[n].start);
      assert Solid(dir)[..n] == Solid(dir[..n]) == [] + Solid(dir[..n]);
      SolidResumable(dir[n], w.log);
    } else {
      NoChain(w.log, Reach(w, dir) + 1);
    }
  }

  lemma {:induction false} SolidWhole(dir: seq<SegmentFile>)
    ensures AllWhole([] + Solid(dir))
  {
    hide FileRecords;
  }

  lemma {:induction false} NoChain(log: seq<bytes>, end: nat)
    ensures StoredChain([], log, end)
  {
    assert AllShown([]) == [];
  }

  /** After a kill the segments left behind are as they were, and the newest one shows what was flushed. */
  lemma {:induction false} KilledDirectory<S>(w: World<S>, init: S, apply: Applier<S>)
    requires Inv(w, init, apply) && !w.phase.Down?
    ensures w.snaps != []
    ensures DownOk(w, AllShown(Found(w))) && w.written <= |w.log|
    ensures !CutHeader(AllShown(Found(w))) ==> Reported(w) <= Reach(w, AllShown(Found(w))) <= w.written
  {
    assert w.durable <= Reported(w);
    hide *;
    UpParts(w, init, apply);
    SealedChain(w.unlinked, w.sealed, w.log, w.start);
    ShownIsLeft(w);
    ShownOk(w);
    DirectoryOk(w, AllShown(w.sealed), AllShown(NewestShown(w)), Reported(w), init, apply);
  }

  lemma {:induction false} SealedChain(unlinked: seq<Segment>, sealed: seq<Segment>, log: seq<bytes>, start: nat)
    requires StoredChain(unlinked + sealed, log, start)
    ensures Chain(AllShown(sealed), log, start)
  {
    hide SegmentOk, Chain;
    StoredSuffix(unlinked + sealed, log, start, |unlinked|);
    assert (unlinked + sealed)[|unlinked|..] == sealed;
  }

  function ShownName<S>(w: World<S>): (r: Name) {
    if w.phase.Creating? && w.phase.file.None? then Gone else Latest
  }

  function ShownKept<S>(w: World<S>): (r: nat) {
    match w.phase
    case Running(f) => Flushed(w, f)
    case Creating(Some(f), _) => Flushed(w, f)
    case _ => 0
  }

  lemma {:induction false} ShownIsLeft<S>(w: World<S>)
    requires !w.phase.Down?
    ensures NewestPossible(w, ShownName(w), ShownKept(w))
    ensures AllShown(NewestShown(w)) == NewestLeft(w, ShownName(w), ShownKept(w))
    ensures AllShown(Found(w)) == AllShown(w.sealed) + AllShown(NewestShown(w))
  {
    hide Survivor;
  }

  /** What a kill leaves to be seen has every transaction reported or synced. */
  lemma {:induction false} ShownOk<S>(w: World<S>)
    requires !w.phase.Down? && w.snaps != [] && UpOk(w) && NewestPossible(w, ShownName(w), ShownKept(w))
    ensures LeftOk(w, NewestLeft(w, ShownName(w), ShownKept(w)), Reported(w))
  {
    NewestLeftOk(w, ShownName(w), ShownKept(w));
    if w.phase.Running? {
      var f := w.phase.active;
      FlushedSize(w, f);
      hide StoredChain, Newest, FileRecords, Survivor, LossesReported, Appending, Kept, Encoded, EarlierOk;
      ActiveSurvives(w.start, w.log, w.synced, w.written, f, Flushed(w, f));
      KeptCovers(w.start, w.log, w.synced, w.written, Reported(w), Flushed(w, f));
    }
  }

  lemma {:induction false} FlushedSize<S>(w: World<S>, f: File)
    requires 0 < w.start <= w.synced + 1 && w.synced <= w.written && w.durable <= w.written &&
      Storable(w.log, w.written)
    requires FlushOk(w, f)
    ensures |SegmentBytes(w.start, Stretch(w.log, w.start - 1, Reported(w)))| <= Flushed(w, f)
    ensures SEGMENT_HEADER <= Flushed(w, f)
  {
    hide Encoded;
  }

  lemma {:induction false} DurableHeader(start: nat, log: seq<bytes>, synced: nat, written: nat, f: File)
    requires Appending(start, log, synced, written, f) && start <= MAX_U64
    ensures f.durable == [] || |f.durable| >= SEGMENT_HEADER
    ensures NextStart(SegmentFile(start, f.durable)) == synced + 1
  {
    AppendingShape(start, log, synced, written, f);
    DurablePadded(start, log, synced, written, f);
    hide Appending, Encoded;
    if f.durable != [] {
      PaddedShape(start, log, synced, f.durable);
      HeldRecords(SegmentFile(start, f.durable), log, synced + 1 - start);
    } else {
      EmptyHasNone(start);
    }
  }

  lemma {:induction false} KilledResumable(start: nat, log: seq<bytes>, synced: nat, written: nat, f: File, q: nat)
    requires Appending(start, log, synced, written, f) && q <= |f.current| && start <= MAX_U64
    requires !PartialHeader(SegmentFile(start, Survivor(f, q)))
    ensures Resumable(Segment(start, File(f.durable, Survivor(f, q))), log, synced)
  {
    var g := Segment(start, File(f.durable, Survivor(f, q)));
    hide Appending, Newest, FileRecords, Survivor, Kept, EndsWhole, SegmentOk, EarlierOk;
    KilledNewest(start, log, synced, written, f, q);
    if EndsWhole(Shown(g), log) {
      KilledReopens(start, log, synced, written, f, q);
    } else if NextStart(Shown(g)) == start {
      KilledEarlier(start, log, synced, written, f, q);
    } else {
      KilledSegment(start, log, synced, written, f, q);
    }
  }

  lemma {:induction false} KilledNewest(start: nat, log: seq<bytes>, synced: nat, written: nat, f: File, q: nat)
    requires Appending(start, log, synced, written, f) && q <= |f.current| && start <= MAX_U64
    requires !PartialHeader(SegmentFile(start, Survivor(f, q)))
    ensures Newest(SegmentFile(start, Survivor(f, q)), log)
  {
    hide Appending, Newest, FileRecords, Survivor, Kept;
    ActiveSurvives(start, log, synced, written, f, q);
  }

  lemma {:induction false} KilledReopens(start: nat, log: seq<bytes>, synced: nat, written: nat, f: File, q: nat)
    requires Appending(start, log, synced, written, f) && q <= |f.current| && start <= MAX_U64
    requires var v := SegmentFile(start, Survivor(f, q));
      !PartialHeader(v) && Newest(v, log) && EndsWhole(v, log)
    ensures var v := SegmentFile(start, Survivor(f, q));
      NextStart(v) > 0 && Appending(start, log, synced, NextStart(v) - 1, File(f.durable, v.data))
  {
    hide Appending, Newest, FileRecords, Survivor, Padded, EndsWhole;
    var v := SegmentFile(start, Survivor(f, q));
    DurablePadded(start, log, synced, written, f);
    EndsPadded(v, log);
    KilledReach(start, log, synced, written, f, q);
    AppendingFrom(start, log, synced, NextStart(v) - 1, File(f.durable, v.data));
  }

  lemma {:induction false} KilledReach(start: nat, log: seq<bytes>, synced: nat, written: nat, f: File, q: nat)
    requires Appending(start, log, synced, written, f) && q <= |f.current| && start <= MAX_U64
    requires !PartialHeader(SegmentFile(start, Survivor(f, q)))
    ensures 0 < start <= synced + 1 && synced <= NextStart(SegmentFile(start, Survivor(f, q))) - 1 <= written
  {
    hide Appending, Newest, FileRecords, Survivor, Kept;
    ActiveSurvives(start, log, synced, written, f, q);
  }

  /** A loss of power after a kill leaves no more transactions than the kill did. */
  lemma {:induction false} KilledLeft(start: nat, log: seq<bytes>, synced: nat, written: nat, f: File, q: nat, p: nat)
    requires Appending(start, log, synced, written, f) && q <= |f.current| && start <= MAX_U64
    requires !PartialHeader(SegmentFile(start, Survivor(f, q)))
    requires p <= |Survivor(f, q)|
    ensures var left := Left(Segment(start, File(f.durable, Survivor(f, q))), p);
      || (synced == start - 1 && Blank(left, log))
      || (Newest(left, log) && synced < NextStart(left) <= NextStart(SegmentFile(start, Survivor(f, q))))
  {
    hide Appending, Newest, FileRecords, Survivor, Kept;
    var p' := if p <= q then p else q;
    SurvivorTwice(f, q, p);
    ActiveSurvives(start, log, synced, written, f, q);
    ActiveSurvives(start, log, synced, written, f, p');
    KeptGrows(start, log, synced, written, p', q);
  }

  lemma {:induction false} KilledEarlier(start: nat, log: seq<bytes>, synced: nat, written: nat, f: File, q: nat)
    requires Appending(start, log, synced, written, f) && q <= |f.current| && start <= MAX_U64
    requires !PartialHeader(SegmentFile(start, Survivor(f, q)))
    requires NextStart(SegmentFile(start, Survivor(f, q))) == start
    ensures EarlierOk(start, log, File(f.durable, Survivor(f, q)))
  {
    hide Appending, Newest, FileRecords, Survivor;
    KilledReach(start, log, synced, written, f, q);
    var g := Segment(start, File(f.durable, Survivor(f, q)));
    forall p | 0 <= p <= |g.file.current| ensures Blank(Left(g, p), log) {
      KilledLeft(start, log, synced, written, f, q, p);
    }
  }

  lemma {:induction false} KilledSegment(start: nat, log: seq<bytes>, synced: nat, written: nat, f: File, q: nat)
    requires Appending(start, log, synced, written, f) && q <= |f.current| && start <= MAX_U64
    requires var v := SegmentFile(start, Survivor(f, q));
      !PartialHeader(v) && Newest(v, log) && !EndsWhole(v, log) && NextStart(v) != start
    ensures SegmentOk(Segment(start, File(f.durable, Survivor(f, q))), log)
  {
    var g := Segment(start, File(f.durable, Survivor(f, q)));
    WithRecords(Shown(g), log);
    assert !AllZero(TailOf(Shown(g), log, |FileRecords(Shown(g))|));
    hide Appending, Newest, FileRecords, Survivor, Sealed, TailOf, EndsWhole;
    DurableHeader(start, log, synced, written, f);
    KilledReach(start, log, synced, written, f, q);
    if Whole(g) {
      forall p | 0 <= p <= |g.file.current|
        ensures Sealed(Left(g, p), log) && NextStart(Left(g, p)) == NextStart(Shown(g))
      {
        KilledLeft(start, log, synced, written, f, q, p);
        WithRecords(Left(g, p), log);
      }
    } else {
      forall p | 0 <= p <= |g.file.current|
        ensures Honest(Left(g, p), log) && NextStart(Left(g, p)) <= NextStart(Shown(g))
      {
        KilledLeft(start, log, synced, written, f, q, p);
        BlankHonest(Left(g, p), log);
      }
    }
  }

  /** What is left of a file is honest whenever it is cut off in its header or can be the newest of a directory. */
  lemma {:induction false} BlankHonest(f: SegmentFile, log: seq<bytes>)
    requires PartialHeader(f) || Newest(f, log)
    ensures Honest(f, log)
    ensures PartialHeader(f) ==> NextStart(f) == f.start
  {
    hide Holds, BodyScan;
  }

  lemma {:induction false} CreatedResumable(start: nat, log: seq<bytes>, f: File, q: nat)
    requires HeaderFile(f) && q <= |f.current| && 0 < start <= MAX_U64 && Storable(log, start - 1)
    requires !PartialHeader(SegmentFile(start, Survivor(f, q)))
    ensures Resumable(Segment(start, File(f.durable, Survivor(f, q))), log, start - 1)
    ensures NextStart(SegmentFile(start, Survivor(f, q))) == start
  {
    var g := Segment(start, File(f.durable, Survivor(f, q)));
    HeaderSurvives(start, log, f, q);
    HeaderOnly(start, log);
    hide Newest, FileRecords, Survivor, Padded, EndsWhole, Appending;
    if EndsWhole(Shown(g), log) {
      EndsPadded(Shown(g), log);
      AppendingFrom(start, log, start - 1, start - 1, g.file);
    } else {
      forall p | 0 <= p <= |g.file.current| ensures Blank(Left(g, p), log) {
        SurvivorTwice(f, q, p);
        HeaderSurvives(start, log, f, if p <= q then p else q);
      }
    }
  }

  /** The last segment left behind, when there is no newer file. */
  lemma {:induction false} SealedResumable(g: Segment, log: seq<bytes>)
    requires SegmentOk(g, log) && g.start <= MAX_U64
    ensures Resumable(g, log, NextStart(Shown(g)) - 1)
  {
    SealedIsNewest(Shown(g), log);
    SealedNonempty(Shown(g), log);
    if EndsWhole(Shown(g), log) {
      assert g == Segment(g.start, File(g.file.current, g.file.current));
      SolidResumable(Shown(g), log);
    }
  }

  /** After a kill, whatever it shows, the worker can take over. */
  lemma {:induction false} KilledReady<S>(w: World<S>, init: S, apply: Applier<S>)
    requires Inv(w, init, apply) && !w.phase.Down? && w.snaps != [] && !CutHeader(AllShown(Found(w)))
    ensures Reach(w, AllShown(Found(w))) >= 0 && Ready(w, Reach(w, AllShown(Found(w))))
  {
    KilledDirectory(w, init, apply);
    UpParts(w, init, apply);
    hide Inv, Ready, Found, UpOk, Reach, StoredChain, CutHeader;
    match w.phase {
      case Running(f) => RunningReady(w, f);
      case Creating(file, earlier) => CreatingReady(w, file, earlier);
    }
  }

  lemma {:induction false} RunningReady<S>(w: World<S>, f: File)
    requires w.phase == Running(f) && w.snaps != [] && UpOk(w) && !CutHeader(AllShown(Found(w)))
    requires Reported(w) <= Reach(w, AllShown(Found(w)))
    ensures Ready(w, Reach(w, AllShown(Found(w))))
  {
    hide StoredChain, Appending, FileRecords, Survivor, Resumable, FlushOk;
    var q := Flushed(w, f);
    var g := Segment(w.start, File(f.durable, Survivor(f, q)));
    var ss, h := w.sealed + [g], Reach(w, AllShown(Found(w)));
    assert Found(w) == ss && AllShown(ss)[|w.sealed|] == Shown(g);
    KilledResumable(w.start, w.log, w.synced, w.written, f, q);
    assert Pending(w) + ss[..|w.sealed|] == w.unlinked + w.sealed;
    MoreReported(w.unlinked + w.sealed, g, w.durable, h);
    assert Pending(w) + ss == w.unlinked + w.sealed + [g];
  }

  /** One more segment, all of whose transactions are reported. */
  lemma {:induction false} MoreReported(ss: seq<Segment>, g: Segment, durable: nat, h: nat)
    requires LossesReported(ss, durable) && durable <= h && NextStart(Shown(g)) - 1 <= h
    ensures LossesReported(ss + [g], h)
  {
    hide FileRecords, Whole;
  }

  lemma {:induction false} CreatingReady<S>(w: World<S>, file: Option<File>, earlier: seq<File>)
    requires w.phase == Creating(file, earlier) && w.snaps != [] && UpOk(w) && !CutHeader(AllShown(Found(w)))
    requires Reported(w) <= Reach(w, AllShown(Found(w))) <= w.written
    ensures Ready(w, Reach(w, AllShown(Found(w))))
  {
    assert Reach(w, AllShown(Found(w))) == w.synced;
    if file.Some? {
      CreatedReady(w, file.value, earlier);
    } else {
      UncreatedReady(w, earlier);
    }
  }

  lemma {:induction false} CreatedReady<S>(w: World<S>, f: File, earlier: seq<File>)
    requires w.phase == Creating(Some(f), earlier) && w.snaps != [] && UpOk(w)
    requires !CutHeader(AllShown(Found(w)))
    ensures Ready(w, w.synced)
  {
    hide StoredChain, EarlierOk, FileRecords, Survivor, Resumable, HeaderFile, Storable, LossesReported;
    var g := Segment(w.start, File(f.durable, Survivor(f, Flushed(w, f))));
    var ss := w.sealed + [g];
    assert Found(w) == ss && AllShown(ss)[|w.sealed|] == Shown(g);
    StorableBelow(w.log, w.written, w.start - 1);
    CreatedResumable(w.start, w.log, f, Flushed(w, f));
    assert Pending(w) + ss[..|w.sealed|] == w.unlinked + w.sealed;
    MoreReported(w.unlinked + w.sealed, g, w.durable, w.synced);
    assert Pending(w) + ss == w.unlinked + w.sealed + [g];
  }

  lemma {:induction false} StorableBelow(log: seq<bytes>, n: nat, m: nat)
    requires Storable(log, n) && m <= n
    ensures Storable(log, m)
  {
  }

  lemma {:induction false} UncreatedReady<S>(w: World<S>, earlier: seq<File>)
    requires w.phase == Creating(None, earlier) && w.snaps != [] && UpOk(w)
    ensures Ready(w, w.synced)
  {
    hide StoredChain, EarlierOk, FileRecords, Survivor, Resumable, SegmentOk, HeaderFile, Whole;
    var ss, all := Found(w), w.unlinked + w.sealed;
    assert ss == w.sealed + [] == w.sealed;
    assert LossesReported(all, w.synced);
    if ss == [] {
      assert Pending(w) == all;
    } else {
      var n := |ss| - 1;
      StoredFront(all, w.log, w.start);
      assert all[..|all| - 1] == w.unlinked + ss[..n] && all[|all| - 1] == ss[n];
      SegmentBounds(ss[n], w.log);
      SealedResumable(ss[n], w.log);
    }
  }

  lemma {:induction false} SegmentBounds(g: Segment, log: seq<bytes>)
    requires SegmentOk(g, log)
    ensures g.start < NextStart(Shown(g)) <= MAX_U64 + 1
  {
    hide BodyScan;
    HeldBounds(Shown(g), log, |FileRecords(Shown(g))|);
  }

  lemma {:induction false} ResumedKeeps<S>(w: World<S>, r: Recovered<S>, init: S, apply: Applier<S>)
    requires Steady(w, init, apply) && w.snaps != [] && DownOk(w, AllShown(Found(w))) && !CutHeader(AllShown(Found(w)))
    requires r.txID == Reach(w, AllShown(Found(w))) <= |w.log| && r.txID < MAX_U64 && w.durable <= r.txID
    requires Ready(w, r.txID)
    requires Fold(init, w.log[..r.txID], apply).Some?
    requires r.plan.mode == AppendInPlace <==>
      Found(w) != [] && EndsWhole(Shown(Found(w)[|Found(w)| - 1]), w.log)
    ensures Inv(Resumed(w, r), init, apply)
  {
    hide Fold, SnapshotsOk, FileRecords, Newest, Chain, UpOk, Ready, Found, EndsWhole, Storable, StoredChain;
    SnapshotBound(w, init, apply);
    var w' := Resumed(w, r);
    ResumedOk(w, r);
    assert w.log[..w.durable] == w'.log[..w.durable];
    SnapshotsAgain(w, w', init, apply);
    ReachStorable(w, AllShown(Found(w)));
    StorablePrefix(w.log, r.txID);
  }

  lemma {:induction false} StorablePrefix(log: seq<bytes>, n: nat)
    requires Storable(log, n)
    ensures n <= |log| && Storable(log[..n], n)
  {
  }

  /** The directory found after either kind of stop. */
  lemma {:induction false} FoundOk<S>(w: World<S>, init: S, apply: Applier<S>)
    requires Inv(w, init, apply)
    ensures Steady(w, init, apply) && w.snaps != [] && DownOk(w, AllShown(Found(w)))
  {
    if w.phase.Down? {
      assert AllShown(Found(w)) == w.phase.dir;
    } else {
      KilledDirectory(w, init, apply);
    }
  }

  lemma {:induction false} FoundReady<S>(w: World<S>, init: S, apply: Applier<S>)
    requires Inv(w, init, apply) && w.snaps != [] && !CutHeader(AllShown(Found(w)))
    ensures Reach(w, AllShown(Found(w))) >= 0
    ensures Ready(w, Reach(w, AllShown(Found(w))))
  {
    hide Inv, Ready, CutHeader, Reach;
    if w.phase.Down? {
      assert AllShown(Found(w)) == w.phase.dir;
      DownReady(w, init, apply);
    } else {
      KilledReady(w, init, apply);
    }
  }

  lemma {:induction false} LastShown<S>(w: World<S>)
    ensures |AllShown(Found(w))| == |Found(w)|
    ensures Found(w) != [] ==> AllShown(Found(w))[|Found(w)| - 1] == Shown(Found(w)[|Found(w)| - 1])
  {
    hide Found;
  }

  /** Taking over from what recovery reads off the directory keeps the invariant and every reported transaction. */
  lemma {:induction false} ResumeKeeps<S>(w: World<S>, indexes: OffsetIndex.Sidecars, init: S, apply: Applier<S>)
    requires Inv(w, init, apply) && SoundIndexes(AllShown(Found(w)), indexes)
    requires |AllShown(Found(w))| == |indexes|
    requires Recover(AllShown(Found(w)), indexes, w.snaps, init, apply).Ok?
    ensures var r := Recover(AllShown(Found(w)), indexes, w.snaps, init, apply).value;
      && w.durable <= r.txID <= |w.log| && Inv(Resumed(w, r), init, apply)
  {
    hide *;
    FoundOk(w, init, apply);
    var dir := AllShown(Found(w));
    var r := Recover(dir, indexes, w.snaps, init, apply).value;
    RecoverOutcome(w, dir, indexes, init, apply);
    LogBound(w, init, apply);
    FoundReady(w, init, apply);
    LastShown(w);
    ResumedKeeps(w, r, init, apply);
  }

  lemma {:induction false} LogBound<S>(w: World<S>, init: S, apply: Applier<S>)
    requires Steady(w, init, apply)
    ensures |w.log| <= MAX_U64
  {
  }

  lemma {:induction false} RestartShape<S>(w: World<S>, indexes: OffsetIndex.Sidecars, init: S, apply: Applier<S>)
    requires AfterRestart(w, indexes, init, apply).Some?
    ensures !Alive(w) && SoundIndexes(AllShown(Found(w)), indexes) && NewestFirst(w.snaps)
    ensures |AllShown(Found(w))| == |indexes|
    ensures var r := Recover(AllShown(Found(w)), indexes, w.snaps, init, apply);
      && r.Ok? && r.value.txID <= |w.log|
      && AfterRestart(w, indexes, init, apply) == Some(Resumed(w, r.value))
      && |Resumed(w, r.value).log| == r.value.txID == Resumed(w, r.value).durable
      && Resumed(w, r.value).log <= w.log
  {
    hide Recover, Fold, Found;
  }

  lemma {:induction false} RestartKeeps<S>(w: World<S>, indexes: OffsetIndex.Sidecars, init: S, apply: Applier<S>)
    requires Inv(w, init, apply) && AfterRestart(w, indexes, init, apply).Some?
    ensures var w' := AfterRestart(w, indexes, init, apply).value;
      && Inv(w', init, apply)
      && w.durable <= w'.durable == |w'.log| && w'.log <= w.log
  {
    hide *;
    RestartShape(w, indexes, init, apply);
    ResumeKeeps(w, indexes, init, apply);
  }

  // ---- runs ---------------------------------------------------------------

  /**
   * Every step keeps the invariant, and leaves every durable transaction where it was: all steps of the
   * worker, kills, restarts from whatever a kill shows, and losses of power in a safe state.
   */
  lemma {:induction false} StepKeeps<S>(w: World<S>, a: Action, init: S, apply: Applier<S>)
    requires Inv(w, init, apply) && Step(w, a, init, apply).Some? && (a.Die? ==> Safe(w))
    ensures var w' := Step(w, a, init, apply).value;
      && Inv(w', init, apply)
      && w.durable <= w'.durable <= |w'.log| && w.durable <= |w.log|
      && w'.log[..w.durable] == w.log[..w.durable]
  {
    hide Fold, SnapshotsOk, UpOk, DownOk, AfterAppend, AfterRestart, Survivors, Safe;
    match a {
      case Enqueue(p) => EnqueueKeeps(w, p, init, apply);
      case Append =>
        AppendKeeps(w, init, apply);
        AppendedLog(w);
      case Sync => SyncKeeps(w, init, apply);
      case Report(t) => ReportKeeps(w, t, init, apply);
      case Rotate => RotateKeeps(w, init, apply);
      case TakeSnapshot(t) => SnapshotKeeps(w, t, init, apply);
      case Unlink => UnlinkKeeps(w, init, apply);
      case SyncDirectory => DirectoryKeeps(w, init, apply);
      case Die(c) => DieKeeps(w, c, init, apply);
      case Kill(q) => KillKeeps(w, q, init, apply);
      case Restart(indexes) => RestartKeeps(w, indexes, init, apply);
      case _ => HeaderKeeps(w, a, init, apply);
    }
  }

  lemma {:induction false} AppendedLog<S>(w: World<S>)
    requires AfterAppend(w).Some?
    ensures AfterAppend(w).value.log == w.log && AfterAppend(w).value.durable == w.durable
  {
    hide RecordBytes, SegmentBytes;
  }

  /** Every loss of power of the run falls on a safe state. */
  ghost predicate SafeRun<S>(w: World<S>, actions: seq<Action>, init: S, apply: Applier<S>)
    decreases |actions|
  {
    actions == [] ||
    (&& (actions[0].Die? ==> Safe(w))
     && (Step(w, actions[0], init, apply).Some? ==>
           SafeRun(Step(w, actions[0], init, apply).value, actions[1..], init, apply)))
  }

  /** The same over a whole run: what was once durable is never lost, reordered or replaced. */
  lemma {:induction false} RunKeeps<S>(w: World<S>, actions: seq<Action>, init: S, apply: Applier<S>)
    requires Inv(w, init, apply) && Run(w, actions, init, apply).Some? && SafeRun(w, actions, init, apply)
    ensures var w' := Run(w, actions, init, apply).value;
      && Inv(w', init, apply)
      && w.durable <= w'.durable <= |w'.log| && w.durable <= |w.log|
      && w'.log[..w.durable] == w.log[..w.durable]
    decreases |actions|
  {
    hide Fold, Inv, Step, Safe;
    if actions == [] {
      SteadyBounds(w, init, apply);
    } else {
      var next := Step(w, actions[0], init, apply).value;
      StepKeeps(w, actions[0], init, apply);
      RunKeeps(next, actions[1..], init, apply);
      var w' := Run(w, actions, init, apply).value;
      assert w'.log[..w.durable] == w'.log[..next.durable][..w.durable];
      assert next.log[..w.durable] == next.log[..next.durable][..w.durable];
    }
  }

  lemma {:induction false} SteadyBounds<S>(w: World<S>, init: S, apply: Applier<S>)
    requires Inv(w, init, apply)
    ensures w.durable <= |w.log|
  {
  }

  lemma {:induction false} FreshOk<S>(init: S, apply: Applier<S>)
    ensures Inv(Fresh(init), init, apply)
  {
    hide Fold;
    FoldNothing(init, apply);
    var w := Fresh(init);
    assert w.log[..0] == [];
  }

  /** Reached from a fresh directory by a run whose losses of power fell on safe states. */
  ghost predicate Reachable<S(!new)>(w: World<S>, init: S, apply: Applier<S>) {
    exists actions: seq<Action> ::
      Run(Fresh(init), actions, init, apply) == Some(w) && SafeRun(Fresh(init), actions, init, apply)
  }

  lemma {:induction false} ReachableOk<S(!new)>(w: World<S>, init: S, apply: Applier<S>)
    requires Reachable(w, init, apply)
    ensures Inv(w, init, apply)
  {
    hide Inv, Run, SafeRun;
    var actions: seq<Action> :|
      Run(Fresh(init), actions, init, apply) == Some(w) && SafeRun(Fresh(init), actions, init, apply);
    FreshOk(init, apply);
    RunKeeps(Fresh(init), actions, init, apply);
  }

  /**
   * In whatever safe state a run has reached, after whatever loss of power, with whatever sound
   * indexes: recovery yields a contiguous prefix of the committed transactions that holds every
   * transaction ever reported durable and none that was never written, in the state
   * those transactions fold to. It fails exactly when the newest segment was cut off
   * inside its header, or when the last transaction number is used up.
   */
  lemma {:induction false} EveryCrashRecovers<S(!new)>(w: World<S>, c: Crash, indexes: OffsetIndex.Sidecars, init: S,
      apply: Applier<S>)
    requires Reachable(w, init, apply) && Safe(w) && Possible(w, c) && SoundIndexes(Survivors(w, c), indexes)
    ensures NewestFirst(w.snaps) && w.snaps != []
    ensures var dir := Survivors(w, c);
      var r := Recover(dir, indexes, w.snaps, init, apply);
      && (r.Ok? <==> !CutHeader(dir) && Reach(w, dir) < MAX_U64)
      && (CutHeader(dir) ==> r == Err(ScanFailed(ReadFault(UnexpectedEof))))
      && (r.Ok? ==>
            && w.durable <= r.value.txID <= w.written <= |w.log|
            && Fold(init, w.log[..r.value.txID], apply) == Some(r.value.state))
  {
    hide Fold, Newest, FileRecords, Chain, Recover, SoundIndexes, SnapshotsFrom, Survivors, Possible, Reachable, Safe;
    ReachableOk(w, init, apply);
    DieKeeps(w, c, init, apply);
    var w' := w.(phase := Down(Survivors(w, c)), killed := None);
    RecoverOutcome(w', Survivors(w, c), indexes, init, apply);
  }

  /** Durable transactions across any number of kills, losses of power and recoveries. */
  lemma {:induction false} DurableForever<S(!new)>(w: World<S>, actions: seq<Action>, init: S, apply: Applier<S>)
    requires Reachable(w, init, apply) && Run(w, actions, init, apply).Some? && SafeRun(w, actions, init, apply)
    ensures var w' := Run(w, actions, init, apply).value;
      w.durable <= w'.durable <= |w'.log| && w.durable <= |w.log| && w'.log[..w.durable] == w.log[..w.durable]
  {
    hide Inv, Run, Reachable, SafeRun;
    ReachableOk(w, init, apply);
    RunKeeps(w, actions, init, apply);
  }
}
