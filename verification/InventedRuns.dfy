/** A run after which recovery with the fast scan applies a transaction that nobody committed. */
module InventedRuns {
  import opened Bytes
  import opened Records
  import opened SegmentScan
  import opened Segments
  import OffsetIndex
  import opened Replay
  import opened Recovery
  import IndexScan
  import opened TornWrites
  import opened Listings
  import opened CrashRuns
  import opened Restarts
  import opened IndexEntries
  import opened IndexedRuns
  import opened StaleEntries

  // ---- runs through known states --------------------------------------------

  ghost predicate Trail<S>(xs: seq<Indexed<S>>, moves: seq<Move>, init: S, apply: Applier<S>) {
    && |xs| == |moves| + 1
    && forall i :: 0 <= i < |moves| ==> Next(xs[i], moves[i], init, apply) == Some(xs[i + 1])
  }

  lemma {:induction false} MovesTrail<S>(xs: seq<Indexed<S>>, moves: seq<Move>, init: S, apply: Applier<S>)
    requires Trail(xs, moves, init, apply)
    ensures Moves(xs[0], moves, init, apply) == Some(xs[|moves|])
    decreases |moves|
  {
    hide Next;
    if moves != [] {
      forall i | 0 <= i < |moves[1..]|
        ensures Next(xs[1..][i], moves[1..][i], init, apply) == Some(xs[1..][i + 1])
      {
        assert Next(xs[i + 1], moves[i + 1], init, apply) == Some(xs[i + 2]);
      }
      MovesTrail(xs[1..], moves[1..], init, apply);
    }
  }

  lemma {:induction false} MovesJoined<S>(x: Indexed<S>, first: seq<Move>, rest: seq<Move>, init: S, apply: Applier<S>)
    requires Moves(x, first, init, apply).Some?
    ensures Moves(x, first + rest, init, apply) == Moves(Moves(x, first, init, apply).value, rest, init, apply)
    decreases |first|
  {
    hide Next;
    if first == [] {
      assert first + rest == rest;
    } else {
      assert (first + rest)[1..] == first[1..] + rest;
      MovesJoined(Next(x, first[0], init, apply).value, first[1..], rest, init, apply);
    }
  }

  // ---- segments behind the newest snapshot ----------------------------------

  /** With every segment behind the newest snapshot, no index is read. */
  lemma {:induction false} UncoveredReports(dir: seq<SegmentFile>, snapshotTx: u64, indexes: OffsetIndex.Sidecars)
    requires |dir| == |indexes| && forall i :: 0 <= i < |dir| ==> dir[i].start > snapshotTx
    ensures match Reports(dir)
      case Ok(infos) => IndexScan.BoundaryReports(dir, snapshotTx, indexes) == IndexScan.Answered(infos)
      case Err(e) => IndexScan.BoundaryReports(dir, snapshotTx, indexes) == IndexScan.Failed(e)
    decreases |dir|
  {
    hide SegmentOf, IndexScan.IndexedSegment;
    if dir != [] {
      UncoveredReports(dir[1..], snapshotTx, indexes[1..]);
    }
  }

  lemma {:induction false} UncoveredReplay<S>(dir: seq<SegmentFile>, infos: seq<SegmentInfo>,
      indexes: OffsetIndex.Sidecars, plain: OffsetIndex.Sidecars, from: nat, st: S, maxTx: nat, apply: Applier<S>)
    requires |dir| == |infos| == |indexes| == |plain| && from <= MAX_U64
    requires forall i :: 0 <= i < |dir| ==> dir[i].start > from
    ensures ReplayOf(dir, infos, indexes, from, st, maxTx, apply) == ReplayOf(dir, infos, plain, from, st, maxTx, apply)
    decreases |dir|
  {
    hide ReplayRecords, ReadSegmentHeader, SeekOf;
    if dir != [] {
      if EmptyDamagedTail(infos[0]) || infos[0].last <= from {
        UncoveredReplay(dir[1..], infos[1..], indexes[1..], plain[1..], from, st, maxTx, apply);
      } else if ReadSegmentHeader(dir[0].data).None? {
        var r := ReplayRecords(dir[0].data[SEGMENT_HEADER..], infos[0], from, st, maxTx, apply);
        if r.Replayed? {
          UncoveredReplay(dir[1..], infos[1..], indexes[1..], plain[1..], from, r.state, r.maxTx, apply);
        }
      }
    }
  }

  lemma {:induction false} UncoveredIsPlain<S>(w: World<S>, dir: seq<SegmentFile>, tables: IndexScan.Tables, init: S,
      apply: Applier<S>)
    requires Steady(w, init, apply) && w.snaps != [] && DownOk(w, dir) && dir != [] && !CutHeader(dir)
    requires |dir| == |tables| && forall i :: 0 <= i < |dir| ==> dir[i].start > w.snaps[0].txID
    ensures IndexScan.RecoverFast(dir, tables, w.snaps, init, apply)
         == Recover(dir, NoIndexes(|dir|), w.snaps, init, apply)
  {
    hide DownOk, ReplayOf, Reports, BoundaryError, Fold, CutHeader, FirstGap, IndexScan.BoundaryReports, SnapshotsFrom,
      IndexScan.Lenient, IndexScan.Strict;
    ReportsBelow(w, dir);
    ReachAbove(w, dir, init, apply);
    var from, st := w.snaps[0].txID, w.snaps[0].file.restored.value;
    var infos := ScanOf(dir).value;
    UncoveredReports(dir, from, IndexScan.Strict(tables));
    UncoveredReplay(dir, infos, IndexScan.Lenient(tables), NoIndexes(|dir|), from, st, from, apply);
    assert Selected(w.snaps, Horizon(infos)) == Selection(Some(w.snaps[0]), []);
    IndexScan.RebuildSame(dir, IndexScan.Lenient(tables), Selection(Some(w.snaps[0]), []), init, apply);
  }

  lemma {:induction false} ReachAbove<S>(w: World<S>, dir: seq<SegmentFile>, init: S, apply: Applier<S>)
    requires Steady(w, init, apply) && w.snaps != [] && DownOk(w, dir) && dir != [] && !CutHeader(dir)
    ensures w.snaps[0].txID <= Reach(w, dir)
  {
    hide Chain, Newest, NextStart, Fold, SnapshotsFrom;
  }

  // ---- the run --------------------------------------------------------------

  /** A state that is the list of the payloads applied to it. */
  function Collect(st: seq<bytes>, p: bytes): (r: Option<seq<bytes>>) {
    Some(st + [p])
  }

  lemma {:induction false} Collected(st: seq<bytes>, ps: seq<bytes>)
    ensures Fold(st, ps, Collect) == Some(st + ps)
    decreases |ps|
  {
    if ps == [] {
      assert st + ps == st;
    } else {
      Collected(st + [ps[0]], ps[1..]);
      assert st + [ps[0]] + ps[1..] == st + ps;
    }
  }

  /** The entry for transaction 2 behind an empty transaction 1. */
  const LOST := OffsetIndex.Slot(2, 26)
  const TABLE := [OffsetIndex.Slot(1, SEGMENT_HEADER), LOST]
  /** A payload that reads as a record of transaction 2 where the entry points. */
  const DISGUISE := Disguised(4, 2)

  /** The first start creates segment 1 and its index. */
  const START: seq<Move> := [Resume(None), Log(MakeFile), Log(WriteHeader), Log(SyncHeader), Activate(Some(2))]
  const WRITE: seq<Move> := [Log(Enqueue([])), Log(Append)]
  const INDEX: seq<Move> := [MakeEntry(1), MakeEntry(2)]
  const LOSE: seq<Move> := [LosePower(Crash(0, [], Latest, SEGMENT_HEADER), map[1 := TABLE])]

  /** Three transactions are written and indexed; all are lost, the index entries of two are not. */
  function FirstRun(): (r: seq<Move>) {
    START + WRITE + WRITE + WRITE + INDEX + LOSE
  }

  /** The worker removes the entries, writes a new transaction 1, and is killed before it syncs the index. */
  function SecondRun(size: nat): (r: seq<Move>) {
    [Resume(Some(2))] + [Log(Enqueue(DISGUISE)), Log(Append)] + [Log(Sync), Log(Kill(size))]
  }

  /** The next process takes a snapshot; a loss of power brings the entries back. */
  function ThirdRun(size: nat): (r: seq<Move>) {
    [Resume(None), Log(TakeSnapshot(1)), LosePower(Crash(0, [], Latest, size), map[1 := TABLE])]
  }

  type History = seq<bytes>

  /** The worker on segment 1. */
  function Working(log: seq<bytes>, written: nat, flushed: nat, f: File): (r: World<History>) {
    Fresh<History>([]).(log := log, written := written, flushed := flushed, phase := Running(f))
  }

  lemma {:induction false} LogStep<S>(x: Indexed<S>, a: Action, w: World<S>, init: S, apply: Applier<S>)
    requires Direct(x, a) && !a.Rotate? && CrashRuns.Step(x.w, a, init, apply) == Some(w)
    ensures Next(x, Log(a), init, apply) == Some(x.(w := w, open := x.open && !a.Kill?))
  {
    hide CrashRuns.Step;
  }

  /** The first start finds nothing and creates segment 1 with an empty index. */
  lemma {:induction false} FirstStart()
    ensures Moves(Unindexed([]), START, [], Collect) ==
      Some(Indexed(Working([], 0, SEGMENT_HEADER, File(SEGMENT_PREFIX, SEGMENT_PREFIX)),
                   map[1 := Settled(OffsetIndex.Blanks(2))], true))
  {
    hide Moves, Next, CrashRuns.Step, OffsetIndex.Blanks;
    var x := Unindexed<History>([]);
    var w := FirstCreation<History>([], Collect);
    var w1 := w.(flushed := 0, phase := w.phase.(file := Some(File([], []))));
    var w2 := w1.(phase := w.phase.(file := Some(File([], SEGMENT_PREFIX))));
    var w3 := w1.(flushed := SEGMENT_HEADER, phase := w.phase.(file := Some(File(SEGMENT_PREFIX, SEGMENT_PREFIX))));
    FirstResume();
    CreationSteps(w, [], Collect);
    LogStep(x.(w := w), MakeFile, w1, [], Collect);
    LogStep(x.(w := w1), WriteHeader, w2, [], Collect);
    LogStep(x.(w := w2), SyncHeader, w3, [], Collect);
    FirstActivate(w3);
    var end := Indexed(CreatedWorld(w), map[1 := Settled(OffsetIndex.Blanks(2))], true);
    MovesTrail([x, x.(w := w), x.(w := w1), x.(w := w2), x.(w := w3), end], START, [], Collect);
  }

  lemma {:induction false} FirstResume()
    ensures var x := Unindexed<History>([]);
      Next(x, Resume(None), [], Collect) == Some(x.(w := Fresh<History>([]).(phase := Creating(None, []))))
  {
    hide Fold, Recover;
    var w := Fresh<History>([]);
    RecoverWithoutSegments(w.snaps, [], Collect);
    assert AllShown(Found(w)) == [];
    assert IndexScan.Lenient(TablesOf([], map[])) == [];
  }

  lemma {:induction false} FirstActivate(w: World<History>)
    requires w == Fresh<History>([]).(flushed := SEGMENT_HEADER,
      phase := Creating(Some(File(SEGMENT_PREFIX, SEGMENT_PREFIX)), []))
    ensures Next(Unindexed<History>([]).(w := w), Activate(Some(2)), [], Collect) ==
      Some(Indexed(CreatedWorld(w), map[1 := Settled(OffsetIndex.Blanks(2))], true))
  {
    hide Fold, OffsetIndex.Blanks, Settled;
  }

  /** One transaction is committed and written. */
  lemma {:induction false} Written(x: Indexed<History>, ps: seq<bytes>, p: bytes, f: File)
    requires Fits(1, ps) && |p| <= MAX_PAYLOAD && |ps| < MAX_U64 - 1
    requires x.w == Working(ps, |ps|, SEGMENT_HEADER, f) && f.current == SegmentBytes(1, ps)
    ensures Fits(1, ps + [p])
    ensures Moves(x, [Log(Enqueue(p)), Log(Append)], [], Collect) ==
      Some(x.(w := Working(ps + [p], |ps| + 1, SEGMENT_HEADER, File(f.durable, SegmentBytes(1, ps + [p])))))
  {
    hide Moves, Next, CrashRuns.Step, SegmentBytes, Fold;
    var w1 := Working(ps + [p], |ps|, SEGMENT_HEADER, f);
    var w2 := Working(ps + [p], |ps| + 1, SEGMENT_HEADER, File(f.durable, SegmentBytes(1, ps + [p])));
    Collected([], ps + [p]);
    CommitStep(x.w, p, ps + [p], [], Collect);
    WriteStep(w1, ps, p, [], Collect);
    LogStep(x, Enqueue(p), w1, [], Collect);
    LogStep(x.(w := w1), Append, w2, [], Collect);
    MovesTrail([x, x.(w := w1), x.(w := w2)], [Log(Enqueue(p)), Log(Append)], [], Collect);
  }

  const EMPTIES: seq<bytes> := [[], [], []]
  /** What is in the index once two entries were made, and what was in it before. */
  const MADE: IndexFile := [Cell(TABLE[0], {OffsetIndex.EMPTY}), Cell(LOST, {OffsetIndex.EMPTY})]

  lemma {:induction false} EmptyOffsets()
    ensures |SegmentBytes(1, EMPTIES)| >= SEGMENT_HEADER && SegmentBytes(1, EMPTIES)[..SEGMENT_HEADER] == SEGMENT_PREFIX
    ensures OffsetOf(1, EMPTIES, 0) == SEGMENT_HEADER && OffsetOf(1, EMPTIES, 1) == LOST.offset
  {
    var one: seq<bytes> := [[]];
    assert EMPTIES[..0] == [] && EMPTIES[..1] == one && one[1..] == [];
    NoRecords(1);
    EncodedCons(1, one);
    EncodedNone(2);
  }

  lemma {:induction false} EntryStep(w: World<History>, file: IndexFile, txID: nat, ix: OffsetIndex.Index)
    requires w == Working(EMPTIES, 3, SEGMENT_HEADER, File(SEGMENT_PREFIX, SegmentBytes(1, EMPTIES)))
    requires 1 <= txID <= 2 && OffsetOf(1, EMPTIES, txID - 1) <= MAX_U64
    requires OffsetIndex.Appended(OffsetIndex.Reopened(Slots(file), |file|), txID, OffsetOf(1, EMPTIES, txID - 1)) ==
      Ok(ix)
    ensures |ix.slots| == |file|
    ensures Next(Indexed(w, map[1 := file], true), MakeEntry(txID), [], Collect) ==
      Some(Indexed(w, map[1 := Rewritten(file, ix.slots)], true))
  {
    hide SegmentBytes, OffsetOf, OffsetIndex.Prefix, Slots, Rewritten, CrashRuns.Step, AfterResume;
    assert Stretch(EMPTIES, 0, 3) == EMPTIES && Storable(w.log, 3) && Due(w, txID);
    assert EntryOffset(w, txID) == OffsetOf(1, EMPTIES, txID - 1);
    var x := Indexed(w, map[1 := file], true);
    assert x.files[1 := Rewritten(file, ix.slots)] == map[1 := Rewritten(file, ix.slots)];
    assert AfterEntry(x, txID) == Some(Indexed(w, map[1 := Rewritten(file, ix.slots)], true));
  }

  lemma {:induction false} TwoEntries(w: World<History>)
    requires w == Working(EMPTIES, 3, SEGMENT_HEADER, File(SEGMENT_PREFIX, SegmentBytes(1, EMPTIES)))
    ensures var none := Settled(OffsetIndex.Blanks(2));
      Moves(Indexed(w, map[1 := none], true), INDEX, [], Collect) ==
      Some(Indexed(w, map[1 := MADE], true))
  {
    hide Moves, Next, SegmentBytes, OffsetOf, Slots, Settled, Rewritten, OffsetIndex.Appended, OffsetIndex.Reopened,
      OffsetIndex.Blanks;
    var none, one := Settled(OffsetIndex.Blanks(2)), [MADE[0], Cell(OffsetIndex.EMPTY, {})];
    EmptyOffsets();
    var ix1, ix2 := SlotsFilled();
    EntryStep(w, none, 1, ix1);
    EntryStep(w, one, 2, ix2);
    MovesTrail([Indexed(w, map[1 := none], true), Indexed(w, map[1 := one], true), Indexed(w, map[1 := MADE], true)],
      INDEX, [], Collect);
  }

  lemma {:induction false} SlotsFilled() returns (ix1: OffsetIndex.Index, ix2: OffsetIndex.Index)
    ensures var none, one := Settled(OffsetIndex.Blanks(2)), [MADE[0], Cell(OffsetIndex.EMPTY, {})];
      && OffsetIndex.Appended(OffsetIndex.Reopened(Slots(none), |none|), 1, SEGMENT_HEADER) == Ok(ix1)
      && |ix1.slots| == |none| && Rewritten(none, ix1.slots) == one
      && OffsetIndex.Appended(OffsetIndex.Reopened(Slots(one), |one|), 2, LOST.offset) == Ok(ix2)
      && |ix2.slots| == |one| && Rewritten(one, ix2.slots) == MADE
  {
    var none, one := Settled(OffsetIndex.Blanks(2)), [MADE[0], Cell(OffsetIndex.EMPTY, {})];
    var s1, s2 := [TABLE[0], OffsetIndex.EMPTY], TABLE;
    var s0 := [OffsetIndex.EMPTY, OffsetIndex.EMPTY];
    assert Slots(none) == s0 && Slots(one) == s1;
    ix1, ix2 := OffsetIndex.Index(s1, 1, 1), OffsetIndex.Index(s2, 2, 2);
    Opened0();
    Opened1();
    hide OffsetIndex.Reopened, OffsetIndex.Prefix;
    assert s0[0 := TABLE[0]] == s1 && s1[1 := LOST] == s2;
    var was: set<OffsetIndex.Slot> := {};
    assert was + {OffsetIndex.EMPTY} == {OffsetIndex.EMPTY};
    assert Rewritten(none, s1) == one && Rewritten(one, s2) == MADE;
  }

  lemma {:induction false} Opened0()
    ensures var s := [OffsetIndex.EMPTY, OffsetIndex.EMPTY];
      OffsetIndex.Reopened(s, 2) == OffsetIndex.Index(s, 0, 0)
  {
    var s := [OffsetIndex.EMPTY, OffsetIndex.EMPTY];
    assert OffsetIndex.Resized(s, 2) == s && OffsetIndex.Prefix(s, 0) == 0;
    assert s[..0] + OffsetIndex.Blanks(2) == s;
  }

  lemma {:induction false} Opened1()
    ensures var s := [TABLE[0], OffsetIndex.EMPTY];
      OffsetIndex.Reopened(s, 2) == OffsetIndex.Index(s, 1, 1)
  {
    var s := [TABLE[0], OffsetIndex.EMPTY];
    assert OffsetIndex.Resized(s, 2) == s && OffsetIndex.Prefix(s, 1) == 1 && OffsetIndex.Prefix(s, 0) == 1;
    assert s[..1] == [TABLE[0]] && s[..1] + OffsetIndex.Blanks(1) == s;
  }

  lemma {:induction false} Opened2()
    ensures OffsetIndex.Reopened(TABLE, 2) == OffsetIndex.Index(TABLE, 2, 2)
    ensures OffsetIndex.Prefix(TABLE, 0) == 2
    ensures IndexScan.StrictPrefix(TABLE, 0) == Some(2)
  {
    assert OffsetIndex.Resized(TABLE, 2) == TABLE;
    assert OffsetIndex.Prefix(TABLE, 2) == 2 && OffsetIndex.Prefix(TABLE, 1) == 2 && OffsetIndex.Prefix(TABLE, 0) == 2;
    assert IndexScan.StrictPrefix(TABLE, 2) == Some(2) && IndexScan.StrictPrefix(TABLE, 1) == Some(2);
    assert TABLE[..2] == TABLE && TABLE + OffsetIndex.Blanks(0) == TABLE;
  }

  /** All three transactions are lost with the bytes behind the synced header. */
  lemma {:induction false} FirstLoss(w: World<History>)
    requires w == Working(EMPTIES, 3, SEGMENT_HEADER, File(SEGMENT_PREFIX, SegmentBytes(1, EMPTIES)))
    ensures Next(Indexed(w, map[1 := MADE], true), LosePower(Crash(0, [], Latest, SEGMENT_HEADER), map[1 := TABLE]), [],
                 Collect) ==
      Some(Indexed(w.(phase := Down([SegmentFile(1, SEGMENT_PREFIX)])), map[1 := Settled(TABLE)], false))
  {
    hide CrashRuns.Step, SegmentBytes, OffsetOf, Next, Settled;
    EmptyOffsets();
    var c := Crash(0, [], Latest, SEGMENT_HEADER);
    assert w.unlinked + w.sealed == [];
    assert Survivor(w.phase.active, SEGMENT_HEADER) == SEGMENT_PREFIX;
    assert Survivors(w, c) == [SegmentFile(1, SEGMENT_PREFIX)];
    assert Leaves(MADE, TABLE);
    LossStep(Indexed(w, map[1 := MADE], true), c, TABLE);
  }

  lemma {:induction false} LossStep(x: Indexed<History>, c: Crash, table: seq<OffsetIndex.Slot>)
    requires Possible(x.w, c) && x.files.Keys == {1} && Leaves(x.files[1], table)
    ensures Next(x, LosePower(c, map[1 := table]), [], Collect) ==
      Some(Indexed(x.w.(phase := Down(Survivors(x.w, c)), killed := None), map[1 := Settled(table)], false))
  {
    hide CrashRuns.Step, Survivors, Possible, Settled, AfterResume, AfterEntry;
    var tables: map<nat, seq<OffsetIndex.Slot>> := map[1 := table];
    assert tables.Keys == {1};
    assert Back(tables) == map[1 := Settled(table)];
  }

  /** The worker on segment 1 with nothing synced but the header, and an empty index. */
  function Begun(ps: seq<bytes>): (r: Indexed<History>)
    requires Fits(1, ps)
  {
    Indexed(Working(ps, |ps|, SEGMENT_HEADER, File(SEGMENT_PREFIX, SegmentBytes(1, ps))),
            map[1 := Settled(OffsetIndex.Blanks(2))], true)
  }

  lemma {:induction false} OneWritten(moves: seq<Move>, ps: seq<bytes>)
    requires Fits(1, ps) && |ps| < 3 && Moves(Unindexed([]), moves, [], Collect) == Some(Begun(ps))
    ensures Fits(1, ps + [[]])
    ensures Moves(Unindexed([]), moves + WRITE, [], Collect) == Some(Begun(ps + [[]]))
  {
    hide Moves, Next, SegmentBytes, Settled, OffsetIndex.Blanks;
    Written(Begun(ps), ps, [], Begun(ps).w.phase.active);
    MovesJoined(Unindexed([]), moves, WRITE, [], Collect);
  }

  lemma {:induction false} FirstBegun()
    ensures Moves(Unindexed([]), START, [], Collect) == Some(Begun([]))
  {
    hide Moves, Next, SegmentBytes, Settled, OffsetIndex.Blanks;
    FirstStart();
    assert SegmentBytes(1, []) == SEGMENT_PREFIX by { NoRecords(1); }
  }

  lemma {:induction false} FirstWritten()
    ensures Moves(Unindexed([]), START + WRITE + WRITE + WRITE, [], Collect) == Some(Begun(EMPTIES))
  {
    hide Moves, Next, Begun;
    FirstBegun();
    OneWritten(START, []);
    OneWritten(START + WRITE, [] + [[]]);
    OneWritten(START + WRITE + WRITE, [] + [[]] + [[]]);
    assert [] + [[]] + [[]] + [[]] == EMPTIES;
  }

  /** Segment 1 is back to its header, and its index still has two entries. */
  function AllLost(): (r: Indexed<History>) {
    Indexed(Working(EMPTIES, 3, SEGMENT_HEADER, File(SEGMENT_PREFIX, SegmentBytes(1, EMPTIES)))
            .(phase := Down([SegmentFile(1, SEGMENT_PREFIX)])), map[1 := Settled(TABLE)], false)
  }

  lemma {:induction false} FirstReached()
    ensures Moves(Unindexed([]), FirstRun(), [], Collect) == Some(AllLost())
  {
    hide Moves, Next, SegmentBytes, Settled, OffsetIndex.Blanks, Working;
    var w := Working(EMPTIES, 3, SEGMENT_HEADER, File(SEGMENT_PREFIX, SegmentBytes(1, EMPTIES)));
    FirstWritten();
    TwoEntries(w);
    FirstLoss(w);
    MovesTrail([Indexed(w, map[1 := MADE], true), AllLost()], LOSE, [], Collect);
    MovesJoined(Unindexed([]), START + WRITE + WRITE + WRITE, INDEX, [], Collect);
    MovesJoined(Unindexed([]), START + WRITE + WRITE + WRITE + INDEX, LOSE, [], Collect);
  }

  // ---- restarts with a single segment -------------------------------------

  /** A directory with segment 1 alone, which holds the transactions ps. */
  lemma {:induction false} LoneDirectory(w: World<History>, ps: seq<bytes>)
    requires w.snaps == Fresh<History>([]).snaps && |ps| <= |w.log| < MAX_U64 && w.log[..|ps|] == ps
    requires w.durable <= |ps| && Fits(1, ps)
    ensures var dir := [SegmentFile(1, SegmentBytes(1, ps))];
      && Steady(w, [], Collect) && DownOk(w, dir) && !CutHeader(dir) && Reach(w, dir) == |ps|
      && Newest(dir[0], w.log) && EndsWhole(dir[0], w.log)
  {
    hide Fold, Encoded, FileRecords;
    Collected([], w.log);
    Collected([], w.log[..0]);
    assert forall i :: 0 <= i < |ps| ==> w.log[i] == w.log[..|ps|][i];
    assert [] + w.log[..0] == [];
    var f := SegmentFile(1, SegmentBytes(1, ps));
    assert Stretch(w.log, 0, |ps|) == ps;
    assert f.data[|SegmentBytes(1, ps)|..] == [];
    assert Holds(f, w.log, |ps|);
    HeldRecords(f, w.log, |ps|);
    assert [f][..0] == [];
  }

  /** The restart that finds it, with any index beside it. */
  lemma {:induction false} LoneResume(w: World<History>, ps: seq<bytes>, files: map<nat, IndexFile>)
    requires w.snaps == Fresh<History>([]).snaps && |ps| <= |w.log| < MAX_U64 && w.log[..|ps|] == ps
    requires w.durable <= |ps| && Fits(1, ps) && !Alive(w)
    requires AllShown(Found(w)) == [SegmentFile(1, SegmentBytes(1, ps))]
    ensures var dir := AllShown(Found(w));
      var r := IndexScan.RecoverFast(dir, TablesOf(dir, files), w.snaps, [], Collect);
      && r.Ok? && r.value.txID == |ps| && r.value.plan.mode == AppendInPlace
      && forall cap :: AfterResume(Indexed(w, files, false), cap, [], Collect)
                    == Started(Indexed(Resumed(w, r.value), files, false), cap)
  {
    hide Steady, DownOk, CutHeader, Reach, EndsWhole, Newest, SegmentBytes, Fold, IndexScan.RecoverFast, Recover,
      SoundIndexes, Found, Started, Resumed;
    LoneDirectory(w, ps);
    var dir := AllShown(Found(w));
    UncoveredIsPlain(w, dir, TablesOf(dir, files), [], Collect);
    NoIndexesSound(dir);
    RecoverOutcome(w, dir, NoIndexes(1), [], Collect);
  }

  // ---- the second and the third process ------------------------------------

  /** The entries are removed, but a loss of power can still bring them back. */
  const CLEARED: IndexFile := [Cell(OffsetIndex.EMPTY, {TABLE[0]}), Cell(OffsetIndex.EMPTY, {LOST})]

  /** The file of segment 1 with the disguised transaction. */
  function Data(): (r: bytes)
    ensures |r| >= SEGMENT_HEADER
  {
    DisguiseFits();
    SegmentBytes(1, [DISGUISE])
  }

  lemma {:induction false} DisguiseFits()
    ensures |DISGUISE| <= MAX_PAYLOAD && Fits(1, [DISGUISE])
    ensures ValidIndexedOffset(SegmentBytes(1, [DISGUISE]), LOST.offset, LOST.key)
  {
    hide Encoded;
    NoRecords(1);
    var _ := DisguiseRead(1, [], LOST);
    assert [] + [DISGUISE] == [DISGUISE];
  }

  lemma {:induction false} EntriesCleared()
    ensures OpenedIndex(map[1 := Settled(TABLE)], 1, 0, 2) == Some(map[1 := CLEARED])
  {
    hide OffsetIndex.Reopened;
    var files, none := map[1 := Settled(TABLE)], [OffsetIndex.EMPTY, OffsetIndex.EMPTY];
    assert Slots(Settled(TABLE)) == TABLE;
    Opened2();
    var ix := OffsetIndex.Index(TABLE, 2, 2);
    assert OffsetIndex.Entries(ix) == TABLE && OffsetIndex.Below(TABLE, 1) == 0;
    assert TABLE[..0] + OffsetIndex.Blanks(2) + TABLE[2..] == none;
    var was: set<OffsetIndex.Slot> := {};
    assert was + {TABLE[0]} == {TABLE[0]} && was + {LOST} == {LOST};
    assert Rewritten(Settled(TABLE), none) == CLEARED;
    assert files[1 := CLEARED] == map[1 := CLEARED];
  }

  /** The second process on the empty segment. */
  function Again(): (r: Indexed<History>) {
    Indexed(Working([], 0, SEGMENT_HEADER, File(SEGMENT_PREFIX, SEGMENT_PREFIX)), map[1 := CLEARED], true)
  }

  lemma {:induction false} SecondStart()
    ensures Next(AllLost(), Resume(Some(2)), [], Collect) == Some(Again())
  {
    hide IndexScan.RecoverFast, SegmentBytes, Settled, OpenedIndex, CrashRuns.Step, Found, AfterResume, TablesOf;
    var w, files := AllLost().w, map[1 := Settled(TABLE)];
    assert SegmentBytes(1, []) == SEGMENT_PREFIX by { NoRecords(1); }
    LostFound(w);
    LoneResume(w, [], files);
    var dir := AllShown(Found(w));
    var r := IndexScan.RecoverFast(dir, TablesOf(dir, files), w.snaps, [], Collect).value;
    LostResumed(w, r);
    EntriesCleared();
    assert Started(Indexed(Resumed(w, r), files, false), Some(2)) == Some(Again());
  }

  lemma {:induction false} LostFound(w: World<History>)
    requires w.phase == Down([SegmentFile(1, SEGMENT_PREFIX)])
    ensures Found(w) == [Segment(1, File(SEGMENT_PREFIX, SEGMENT_PREFIX))]
    ensures AllShown(Found(w)) == [SegmentFile(1, SEGMENT_PREFIX)]
  {
  }

  lemma {:induction false} LostResumed(w: World<History>, r: Recovered<History>)
    requires w == AllLost().w
    requires r.txID == 0 && r.plan.mode == AppendInPlace
    ensures Resumed(w, r) == Working([], 0, SEGMENT_HEADER, File(SEGMENT_PREFIX, SEGMENT_PREFIX))
  {
    hide SegmentBytes;
    LostFound(w);
    assert w.log[..0] == [];
  }

  /** The new transaction 1 is written; the process is killed once it is synced. */
  function Replaced(): (r: Indexed<History>) {
    Again().(w := Working([DISGUISE], 1, SEGMENT_HEADER, File(SEGMENT_PREFIX, Data())))
  }

  function Killed(): (r: Indexed<History>) {
    Indexed(Working([DISGUISE], 1, |Data()|, File(Data(), Data())).(synced := 1, killed := Some(|Data()|)),
            map[1 := CLEARED], false)
  }

  lemma {:induction false} ReplacedRun()
    ensures Moves(Again(), [Log(Enqueue(DISGUISE)), Log(Append)], [], Collect) == Some(Replaced())
  {
    hide Moves, Next, SegmentBytes, Disguised, RecordBytes, ValidIndexedOffset;
    DisguiseFits();
    assert SegmentBytes(1, []) == SEGMENT_PREFIX by { NoRecords(1); }
    assert [] + [DISGUISE] == [DISGUISE];
    Written(Again(), [], DISGUISE, File(SEGMENT_PREFIX, SEGMENT_PREFIX));
  }

  lemma {:induction false} KilledRun()
    ensures Moves(Replaced(), [Log(Sync), Log(Kill(|Data()|))], [], Collect) == Some(Killed())
  {
    hide Moves, Next, Data, CrashRuns.Step;
    var n := |Data()|;
    var x := Replaced().(w := Working([DISGUISE], 1, n, File(Data(), Data())).(synced := 1));
    SyncStep(Replaced().w, [], Collect);
    LogStep(Replaced(), Sync, x.w, [], Collect);
    KillStep(x.w, n, [], Collect);
    LogStep(x, Kill(n), Killed().w, [], Collect);
    MovesTrail([Replaced(), x, Killed()], [Log(Sync), Log(Kill(n))], [], Collect);
  }

  lemma {:induction false} SecondReached()
    ensures Moves(AllLost(), SecondRun(|Data()|), [], Collect) == Some(Killed())
  {
    hide Moves, Next, Data, AllLost, Again, Replaced, Killed;
    SecondStart();
    ReplacedRun();
    KilledRun();
    MovesTrail([AllLost(), Again()], [Resume(Some(2))], [], Collect);
    MovesJoined(AllLost(), [Resume(Some(2))], [Log(Enqueue(DISGUISE)), Log(Append)], [], Collect);
    MovesJoined(AllLost(), [Resume(Some(2))] + [Log(Enqueue(DISGUISE)), Log(Append)],
      [Log(Sync), Log(Kill(|Data()|))], [], Collect);
  }

  /** The third process comes up with the transaction durable, and takes a snapshot. */
  function Third(): (r: Indexed<History>) {
    Indexed(Working([DISGUISE], 1, |Data()|, File(Data(), Data())).(synced := 1, durable := 1), map[1 := CLEARED],
            false)
  }

  function SnapshotTaken(): (r: Indexed<History>) {
    Third().(w := Third().w.(snaps := [Snapshot(1, Readable(Some([DISGUISE])))] + Third().w.snaps))
  }

  /** Power is lost; the removed entries are back. */
  function EntriesBack(): (r: Indexed<History>) {
    Indexed(SnapshotTaken().w.(phase := Down([SegmentFile(1, Data())])), map[1 := Settled(TABLE)], false)
  }

  lemma {:induction false} KilledFound()
    ensures Found(Killed().w) == [Segment(1, File(Data(), Data()))]
    ensures AllShown(Found(Killed().w)) == [SegmentFile(1, Data())]
  {
    hide Data;
    assert Survivor(File(Data(), Data()), |Data()|) == Data();
  }

  lemma {:induction false} ThirdStart()
    ensures Next(Killed(), Resume(None), [], Collect) == Some(Third())
  {
    hide IndexScan.RecoverFast, SegmentBytes, CrashRuns.Step, Found, AfterResume, TablesOf, Disguised, RecordBytes,
      ValidIndexedOffset, Resumed;
    var w, files := Killed().w, map[1 := CLEARED];
    DisguiseFits();
    KilledFound();
    assert w.log[..1] == [DISGUISE];
    LoneResume(w, [DISGUISE], files);
    var dir := AllShown(Found(w));
    var r := IndexScan.RecoverFast(dir, TablesOf(dir, files), w.snaps, [], Collect).value;
    ThirdResumed(w, r);
  }

  lemma {:induction false} ThirdResumed(w: World<History>, r: Recovered<History>)
    requires w == Killed().w && r.txID == 1 && r.plan.mode == AppendInPlace
    ensures Resumed(w, r) == Third().w
  {
    hide Data, Found, Disguised;
    KilledFound();
    assert w.log[..1] == [DISGUISE];
    assert [Segment(1, File(Data(), Data()))][..0] == [];
  }

  lemma {:induction false} SnapshotStep()
    ensures Next(Third(), Log(TakeSnapshot(1)), [], Collect) == Some(SnapshotTaken())
  {
    hide Data, AfterAppend, AfterRestart, Fold, AfterResume, AfterEntry;
    var w := Third().w;
    assert w.log[..1] == [DISGUISE] && [] + [DISGUISE] == [DISGUISE];
    Collected([], [DISGUISE]);
  }

  lemma {:induction false} LastLoss()
    ensures Next(SnapshotTaken(), LosePower(Crash(0, [], Latest, |Data()|), map[1 := TABLE]), [], Collect)
         == Some(EntriesBack())
  {
    hide Data, Next, Settled;
    var w, c := SnapshotTaken().w, Crash(0, [], Latest, |Data()|);
    assert w.unlinked + w.sealed == [];
    assert Survivor(w.phase.active, |Data()|) == Data();
    assert Survivors(w, c) == [SegmentFile(1, Data())];
    assert Leaves(CLEARED, TABLE);
    LossStep(SnapshotTaken(), c, TABLE);
  }

  lemma {:induction false} ThirdReached()
    ensures Moves(Killed(), ThirdRun(|Data()|), [], Collect) == Some(EntriesBack())
  {
    hide Moves, Next, Data, Killed, Third, SnapshotTaken, EntriesBack;
    ThirdStart();
    SnapshotStep();
    LastLoss();
    MovesTrail([Killed(), Third(), SnapshotTaken(), EntriesBack()], ThirdRun(|Data()|), [], Collect);
  }

  // ---- what recovery makes of it -------------------------------------------

  /** From the returned entry on, the bytes read as transaction 2 and the checksum of transaction 1. */
  lemma {:induction false} DisguiseBytes() returns (crc: bytes)
    ensures |crc| == RECORD_CRC && LOST.offset <= |Data()| && Data()[LOST.offset..] == RecordBytes(Entry(2, [])) + crc
  {
    hide RecordBytes, Encoded, Disguised, ValidIndexedOffset;
    NoRecords(1);
    crc := DisguiseRead(1, [], LOST);
    assert [] + [DISGUISE] == [DISGUISE];
  }

  /** A record of transaction 2 and four bytes behind it. */
  lemma {:induction false} ScanTwo(crc: bytes)
    requires |crc| == RECORD_CRC
    ensures ScanRecords(RecordBytes(Entry(2, [])) + crc, 2)
         == RecordScan([Entry(2, [])], if AllZero(crc) then Clean else Torn)
  {
    var s := RecordBytes(Entry(2, [])) + crc;
    ReadBack(Entry(2, []), crc);
    hide RecordBytes, ScanRecords;
    ScanStep(s, 2);
    assert s[|RecordBytes(Entry(2, []))|..] == crc;
    ScanStep(crc, 3);
  }

  /** The fast scan ends with transaction 2. */
  lemma {:induction false} DisguiseScanned() returns (info: SegmentInfo, crc: bytes)
    ensures IndexScan.IndexedSegment(SegmentFile(1, Data()), true, 2, Some(TABLE)) == IndexScan.Answered(info)
    ensures info == SegmentInfo(1, 2, if AllZero(crc) then AppendInPlace else AppendByFreshNextSegment)
    ensures |crc| == RECORD_CRC && LOST.offset <= |Data()| && Data()[LOST.offset..] == RecordBytes(Entry(2, [])) + crc
    ensures ValidIndexedOffset(Data(), LOST.offset, LOST.key)
  {
    hide RecordBytes, Data, ReadSegmentHeader, Disguised, ValidIndexedOffset, ScanRecords, Records.ScanNext, AllZero,
      OffsetIndex.Lookup;
    crc := DisguiseBytes();
    DataValid();
    HeaderRead();
    LostLookup();
    ScanTwo(crc);
    info := IndexScan.IndexedSegment(SegmentFile(1, Data()), true, 2, Some(TABLE)).value;
  }

  lemma {:induction false} DataValid()
    ensures ValidIndexedOffset(Data(), LOST.offset, LOST.key)
  {
    hide Disguised, Encoded, Records.ScanNext;
    DisguiseFits();
  }

  lemma {:induction false} LostLookup()
    ensures OffsetIndex.Lookup(TABLE, 2) == Some(LOST)
  {
  }

  lemma {:induction false} HeaderRead()
    ensures ReadSegmentHeader(Data()).None?
  {
    DisguiseFits();
    hide Encoded, Disguised;
    assert Data()[..SEGMENT_HEADER] == SEGMENT_PREFIX;
  }

  /** Replay applies transaction 2, and nothing behind it. */
  lemma {:induction false} ReplayTwo(info: SegmentInfo, crc: bytes, st: History)
    requires |crc| == RECORD_CRC
    requires info == SegmentInfo(1, 2, if AllZero(crc) then AppendInPlace else AppendByFreshNextSegment)
    ensures ReplayRecords(RecordBytes(Entry(2, [])) + crc, info, 1, st, 1, Collect) == Replayed(st + [[]], 2)
  {
    var s := RecordBytes(Entry(2, [])) + crc;
    ReadBack(Entry(2, []), crc);
    hide RecordBytes;
    assert s[|RecordBytes(Entry(2, []))|..] == crc;
    if AllZero(crc) {
      ReadersAgree(crc);
      assert DecodeRecord(crc, 0).End?;
    }
    hide DecodeRecord;
  }

  lemma {:induction false} BackTables()
    ensures AllShown(Found(EntriesBack().w)) == [SegmentFile(1, Data())]
    ensures TablesOf([SegmentFile(1, Data())], EntriesBack().files) == [Some(TABLE)]
    ensures IndexScan.Lenient([Some(TABLE)]) == [Some(TABLE)] && IndexScan.Strict([Some(TABLE)]) == [Some(TABLE)]
  {
    hide Data;
    Opened2();
    assert Slots(Settled(TABLE)) == TABLE && TABLE[..2] == TABLE;
  }

  lemma {:induction false} LoneFast(f: SegmentFile, info: SegmentInfo, snaps: seq<Snapshot<History>>)
    requires f.start == 1 && info == SegmentInfo(1, 2, info.mode)
    requires IndexScan.IndexedSegment(f, true, 2, Some(TABLE)) == IndexScan.Answered(info)
    requires snaps != [] && snaps[0].txID == 1 && snaps[0].file.Readable?
    ensures IndexScan.TryIndexed([f], [Some(TABLE)], snaps)
         == IndexScan.Answered(IndexScan.Found([info], Selection(Some(snaps[0]), [])))
  {
    hide IndexScan.IndexedSegment;
    var ix: OffsetIndex.Sidecars := [Some(TABLE)];
    assert [f][1..] == [] && ix[1..] == [];
    assert IndexScan.BoundaryReports([f], 1, ix) == IndexScan.Answered([info] + []);
    assert [info] + [] == [info];
  }

  lemma {:induction false} LoneRebuilt(f: SegmentFile, info: SegmentInfo, crc: bytes, snap: Snapshot<History>)
    requires f.start == 1 && info == SegmentInfo(1, 2, if AllZero(crc) then AppendInPlace else AppendByFreshNextSegment)
    requires |crc| == RECORD_CRC && LOST.offset <= |f.data| && f.data[LOST.offset..] == RecordBytes(Entry(2, [])) + crc
    requires ReadSegmentHeader(f.data).None? && ValidIndexedOffset(f.data, LOST.offset, LOST.key)
    requires snap == Snapshot(1, Readable(Some([DISGUISE])))
    ensures var r := IndexScan.RebuildFrom([f], [info], [Some(TABLE)], Selection(Some(snap), []), [], Collect);
      r.Ok? && r.value.txID == 2 && r.value.state == [DISGUISE, []]
  {
    hide RecordBytes, ValidIndexedOffset, ReadSegmentHeader, ReplayRecords, AllZero, OffsetIndex.Lookup, Disguised,
      ReplayStart;
    LostLookup();
    var ix: OffsetIndex.Sidecars := [Some(TABLE)];
    assert [f][1..] == [] && [info][1..] == [] && ix[1..] == [];
    LedStart(f, Some(TABLE), 1, LOST);
    ReplayTwo(info, crc, [DISGUISE]);
    assert [DISGUISE] + [[]] == [DISGUISE, []];
    assert ReplayOf([f], [info], ix, 1, [DISGUISE], 1, Collect) == Replayed([DISGUISE, []], 2);
  }

  /** Recovery with the fast scan answers with two transactions. */
  lemma {:induction false} TwoRecovered(snaps: seq<Snapshot<History>>)
    requires snaps != [] && snaps[0] == Snapshot(1, Readable(Some([DISGUISE])))
    ensures var r := IndexScan.RecoverFast([SegmentFile(1, Data())], [Some(TABLE)], snaps, [], Collect);
      r.Ok? && r.value.txID == 2 && r.value.state == [DISGUISE, []]
  {
    hide Data, IndexScan.IndexedSegment, IndexScan.Lenient, IndexScan.Strict, RecordBytes, ValidIndexedOffset,
      ReadSegmentHeader, AllZero, Disguised, IndexScan.TryIndexed, IndexScan.RebuildFrom;
    var f := SegmentFile(1, Data());
    var info, crc := DisguiseScanned();
    BackTables();
    HeaderRead();
    LoneFast(f, info, snaps);
    LoneRebuilt(f, info, crc, snaps[0]);
  }

  /**
   * The whole run: transactions 1 to 3 are lost, a new transaction 1 is synced and snapshotted, and then an index
   * entry of the lost transaction 2 comes back. The log holds one transaction and so does
   * what is recovered without indexes; recovery with the fast scan ends with a transaction 2 that was
   * never committed, made of bytes inside the payload of transaction 1.
   */
  lemma {:induction false} TransactionInvented()
    ensures var x := Moves(Unindexed([]), FirstRun() + SecondRun(|Data()|) + ThirdRun(|Data()|), [], Collect);
      && x.Some? && x.value.w.log == [DISGUISE] && x.value.w.durable == 1
      && var dir := AllShown(Found(x.value.w));
         var fast := IndexScan.RecoverFast(dir, TablesOf(dir, x.value.files), x.value.w.snaps, [], Collect);
         var plain := Recover(dir, NoIndexes(|dir|), x.value.w.snaps, [], Collect);
         && plain.Ok? && plain.value.txID == 1 && plain.value.state == [DISGUISE]
         && fast.Ok? && fast.value.txID == 2 && fast.value.state == [DISGUISE, []]
  {
    hide Moves, Data, FirstRun, SecondRun, ThirdRun, IndexScan.RecoverFast, Found, Recover, TablesOf;
    FirstReached();
    SecondReached();
    ThirdReached();
    MovesJoined(Unindexed([]), FirstRun(), SecondRun(|Data()|), [], Collect);
    MovesJoined(Unindexed([]), FirstRun() + SecondRun(|Data()|), ThirdRun(|Data()|), [], Collect);
    BackTables();
    TwoRecovered(EntriesBack().w.snaps);
    OneRecovered();
  }

  /** Both losses of power fall on states in which everything reported is synced. */
  lemma {:induction false} LossesAreSafe()
    ensures Safe(Begun(EMPTIES).w) && Safe(SnapshotTaken().w)
    ensures Begun(EMPTIES).w.durable == 0 && SnapshotTaken().w.durable == SnapshotTaken().w.synced == 1
  {
    hide Data, SegmentBytes, Disguised;
    assert Begun(EMPTIES).w.unlinked + Begun(EMPTIES).w.sealed == [];
    assert SnapshotTaken().w.unlinked + SnapshotTaken().w.sealed == [];
  }

  /** Recovery without indexes answers with the one transaction there is. */
  lemma {:induction false} OneRecovered()
    ensures var dir := [SegmentFile(1, Data())];
      var plain := Recover(dir, NoIndexes(|dir|), EntriesBack().w.snaps, [], Collect);
      plain.Ok? && plain.value.txID == 1 && plain.value.state == [DISGUISE]
  {
    hide Steady, DownOk, CutHeader, Reach, EndsWhole, Newest, SegmentBytes, Recover, SoundIndexes, Fold, Disguised;
    var w, dir := EntriesBack().w, [SegmentFile(1, Data())];
    DisguiseFits();
    LoneDirectory(w.(snaps := Fresh<History>([]).snaps), [DISGUISE]);
    BackSteady();
    NoIndexesSound(dir);
    RecoverOutcome(w, dir, NoIndexes(1), [], Collect);
    assert w.log[..1] == [DISGUISE];
    Collected([], [DISGUISE]);
    assert [] + [DISGUISE] == [DISGUISE];
  }

  lemma {:induction false} BackSteady()
    ensures var w, dir := EntriesBack().w, [SegmentFile(1, Data())];
      Steady(w, [], Collect) && DownOk(w, dir) && !CutHeader(dir) && Reach(w, dir) == 1
  {
    hide Fold, Disguised, Newest, FileRecords, SegmentBytes, ValidIndexedOffset;
    var w, dir := EntriesBack().w, [SegmentFile(1, Data())];
    DisguiseFits();
    assert w.log[..1] == [DISGUISE];
    LoneDirectory(w.(snaps := Fresh<History>([]).snaps), [DISGUISE]);
    Collected([], w.log);
    Collected([], w.log[..1]);
    Collected([], w.log[..0]);
    assert [] + w.log[..0] == [] && [] + w.log[..1] == [DISGUISE];
  }
}
