/**
 * Runs in which nothing reported is ever at risk: power is lost at any point, any number of times, but no
 * process is killed while it has written more than it has synced.
 */
module CalmRuns {
  import opened Bytes
  import opened Records
  import opened SegmentScan
  import opened Segments
  import OffsetIndex
  import opened Replay
  import opened Recovery
  import IndexScan
  import opened TornWrites
  import opened Listings
  import opened CrashRuns
  import opened Restarts
  import Kills
  import opened IndexedRuns

  // ---- where risk begins ----------------------------------------------------

  /** A restart after a loss of power finds everything durable. */
  lemma {:induction false} RestoredSafe<S>(w: World<S>, r: Recovered<S>)
    requires w.phase.Down? && r.txID <= |w.log|
    ensures !Resumed(w, r).phase.Down? && Safe(Resumed(w, r))
  {
    hide NextStart;
    var ss := Solid(w.phase.dir);
    forall s | s in ss ensures Whole(s) {
      var i :| 0 <= i < |ss| && ss[i] == s;
    }
  }

  lemma {:induction false} SolidSegmentWhole(start: nat, data: bytes)
    ensures Whole(Segment(start, File(data, data)))
  {
    hide NextStart;
  }

  lemma {:induction false} WrittenBound<S>(w: World<S>, init: S, apply: Applier<S>)
    requires Inv(w, init, apply) && !w.phase.Down?
    ensures w.snaps != [] && UpOk(w) && w.durable <= w.written && w.synced <= w.written
  {
    hide Fold, StoredChain, Appending, EarlierOk, FlushOk, LossesReported, SnapshotsFrom;
  }

  lemma {:induction false} AppendReports<S>(w: World<S>)
    requires AfterAppend(w).Some?
    ensures var w' := AfterAppend(w).value;
      && w'.durable == w.durable && w'.synced == w.synced && w'.unlinked == w.unlinked && w'.sealed == w.sealed
      && !w'.phase.Down?
  {
    hide Storable, Encoded, RecordBytes;
  }

  /** A step of a running worker leaves everything reported as safe as it was. */
  lemma {:induction false} WorkStaysSafe<S>(w: World<S>, a: Action, init: S, apply: Applier<S>)
    requires Inv(w, init, apply) && !w.phase.Down? && Safe(w)
    requires !a.Die? && !a.Restart? && CrashRuns.Step(w, a, init, apply).Some?
    ensures var w' := CrashRuns.Step(w, a, init, apply).value;
      !w'.phase.Down? && Safe(w')
  {
    hide Inv, UpOk, Fold, Whole, NextStart, AfterRestart, AfterAppend;
    WrittenBound(w, init, apply);
    var w' := CrashRuns.Step(w, a, init, apply).value;
    match a {
      case Append => AppendReports(w);
      case Rotate =>
        var data := w.phase.active.current;
        SolidSegmentWhole(w.start, data);
        assert w'.unlinked + w'.sealed == w.unlinked + w.sealed + [Segment(w.start, File(data, data))];
      case Unlink => assert w'.unlinked + w'.sealed == w.unlinked + w.sealed;
      case SyncDirectory =>
        assert forall i :: 0 <= i < |w.sealed| ==> w.sealed[i] == (w.unlinked + w.sealed)[|w.unlinked| + i];
      case Die(_) =>
      case Restart(_) =>
      case _ =>
    }
  }

  /**
   * Where risk begins. From a state in which nothing reported is at risk, a step leads to one in which something is
   * if and only if it is a restart after a kill that takes up a mark above the last synced transaction.
   */
  lemma {:induction false} RiskBegins<S>(w: World<S>, a: Action, init: S, apply: Applier<S>)
    requires Inv(w, init, apply) && (w.phase.Down? || Safe(w)) && CrashRuns.Step(w, a, init, apply).Some?
    ensures var w' := CrashRuns.Step(w, a, init, apply).value;
      !w'.phase.Down? ==> (!Safe(w') <==> a.Restart? && w.killed.Some? && w'.durable > w.synced)
  {
    hide Inv, Fold, AfterRestart, AfterAppend, Safe, AfterOther, UpOk, Resumed;
    match a {
      case Die(_) =>
      case Restart(indexes) => RestartRisk(w, indexes, init, apply);
      case _ =>
        if w.phase.Down? {
          StaysDown(w, a, init, apply);
        } else {
          WorkStaysSafe(w, a, init, apply);
        }
    }
  }

  lemma {:induction false} StaysDown<S>(w: World<S>, a: Action, init: S, apply: Applier<S>)
    requires w.phase.Down? && !a.Restart?
    ensures CrashRuns.Step(w, a, init, apply).None?
  {
    hide Fold, AfterRestart;
  }

  lemma {:induction false} RestartRisk<S>(w: World<S>, indexes: OffsetIndex.Sidecars, init: S, apply: Applier<S>)
    requires Inv(w, init, apply) && (w.phase.Down? || Safe(w)) && AfterRestart(w, indexes, init, apply).Some?
    ensures var w' := AfterRestart(w, indexes, init, apply).value;
      !w'.phase.Down? && (!Safe(w') <==> w.killed.Some? && w'.durable > w.synced)
  {
    hide Inv, Fold, AfterRestart, UpOk, Resumed, Recover, Found, SoundIndexes, Whole, Reach;
    RestartShape(w, indexes, init, apply);
    var r := Recover(AllShown(Found(w)), indexes, w.snaps, init, apply).value;
    if w.phase.Down? {
      RestoredSafe(w, r);
      DownUnkilled(w, init, apply);
    } else {
      FoundOk(w, init, apply);
      RecoverReached(w, AllShown(Found(w)), indexes, init, apply);
      KilledDirectory(w, init, apply);
      WrittenBound(w, init, apply);
      Kills.StandsUp(w, r);
      Kills.KilledSafe(w, r);
    }
  }

  lemma {:induction false} DownUnkilled<S>(w: World<S>, init: S, apply: Applier<S>)
    requires Inv(w, init, apply) && w.phase.Down?
    ensures w.killed.None?
  {
    hide Steady, DownOk;
  }

  // ---- runs -----------------------------------------------------------------

  /** Nothing reported is at risk, nor will be by a restart. */
  predicate Calm<S>(w: World<S>) {
    w.phase.Down? || (Safe(w) && (w.killed.Some? ==> w.synced == w.written))
  }

  /** Every kill of the run hits a process that has synced all it has written. */
  ghost predicate Orderly<S>(w: World<S>, actions: seq<Action>, init: S, apply: Applier<S>)
    decreases |actions|
  {
    actions == [] ||
    (&& (actions[0].Kill? ==> w.synced == w.written)
     && (CrashRuns.Step(w, actions[0], init, apply).Some? ==>
           Orderly(CrashRuns.Step(w, actions[0], init, apply).value, actions[1..], init, apply)))
  }

  predicate NoKill(actions: seq<Action>) {
    forall i :: 0 <= i < |actions| ==> !actions[i].Kill?
  }

  lemma {:induction false} NoKillOrderly<S>(w: World<S>, actions: seq<Action>, init: S, apply: Applier<S>)
    requires NoKill(actions)
    ensures Orderly(w, actions, init, apply)
    decreases |actions|
  {
    hide CrashRuns.Step;
    if actions != [] && CrashRuns.Step(w, actions[0], init, apply).Some? {
      NoKillOrderly(CrashRuns.Step(w, actions[0], init, apply).value, actions[1..], init, apply);
    }
  }

  lemma {:induction false} StaysCalm<S>(w: World<S>, a: Action, init: S, apply: Applier<S>)
    requires Inv(w, init, apply) && Calm(w) && CrashRuns.Step(w, a, init, apply).Some?
    requires a.Kill? ==> w.synced == w.written
    ensures a.Die? ==> Safe(w)
    ensures Calm(CrashRuns.Step(w, a, init, apply).value) && Inv(CrashRuns.Step(w, a, init, apply).value, init, apply)
  {
    hide Inv, Fold, AfterAppend, Safe, Resumed, Found, Recover, SoundIndexes, Survivors, UpOk, NextStart;
    assert a.Die? ==> !w.phase.Down?;
    StepKeeps(w, a, init, apply);
    RiskBegins(w, a, init, apply);
    KilledBy(w, a, init, apply);
    if w.phase.Down? {
      DownUnkilled(w, init, apply);
    } else if a.Restart? && w.killed.Some? {
      RestartMark(w, a.indexes, init, apply);
    }
  }

  lemma {:induction false} KilledBy<S>(w: World<S>, a: Action, init: S, apply: Applier<S>)
    requires CrashRuns.Step(w, a, init, apply).Some?
    ensures var w' := CrashRuns.Step(w, a, init, apply).value;
      w'.killed.Some? ==> a.Kill? && w'.synced == w.synced && w'.written == w.written
  {
    hide Fold, Recover, Found, SoundIndexes, Survivors, Possible, NextStart, SegmentBytes, Storable, RecordBytes;
  }

  /** A restart after a kill reads back nothing that was not written. */
  lemma {:induction false} RestartMark<S>(w: World<S>, indexes: OffsetIndex.Sidecars, init: S, apply: Applier<S>)
    requires Inv(w, init, apply) && w.killed.Some? && AfterRestart(w, indexes, init, apply).Some?
    ensures AfterRestart(w, indexes, init, apply).value.durable <= w.written
  {
    hide Inv, Fold, AfterRestart, UpOk, Resumed, Recover, Found, SoundIndexes, Reach;
    if w.phase.Down? {
      DownUnkilled(w, init, apply);
    } else {
      RestartShape(w, indexes, init, apply);
      FoundOk(w, init, apply);
      RecoverReached(w, AllShown(Found(w)), indexes, init, apply);
      KilledDirectory(w, init, apply);
    }
  }

  /**
   * Along every run whose kills, if any, hit processes that have synced all they have written, every loss of power
   * falls on a safe state, and the run ends in one.
   */
  lemma {:induction false} OrderlyIsSafe<S>(w: World<S>, actions: seq<Action>, init: S, apply: Applier<S>)
    requires Inv(w, init, apply) && Calm(w) && Orderly(w, actions, init, apply) && Run(w, actions, init, apply).Some?
    ensures SafeRun(w, actions, init, apply) && Calm(Run(w, actions, init, apply).value)
    decreases |actions|
  {
    hide Inv, Calm, CrashRuns.Step, Safe;
    if actions != [] {
      StaysCalm(w, actions[0], init, apply);
      OrderlyIsSafe(CrashRuns.Step(w, actions[0], init, apply).value, actions[1..], init, apply);
    }
  }

  lemma {:induction false} OrderlyReached<S(!new)>(w: World<S>, actions: seq<Action>, init: S, apply: Applier<S>)
    requires Run(Fresh(init), actions, init, apply) == Some(w) && Orderly(Fresh(init), actions, init, apply)
    ensures Reachable(w, init, apply) && Calm(w)
  {
    hide Run, SafeRun, Inv, Orderly;
    FreshOk(init, apply);
    OrderlyIsSafe(Fresh(init), actions, init, apply);
  }

  /**
   * The promise of the log, on every run in which no process is killed. However commits, writes, syncs, rotations,
   * segment creations, snapshots, compactions, losses of power and recoveries follow each other, and
   * however power is lost next: recovery yields a contiguous prefix of the committed transactions
   * that holds every transaction ever reported durable and none that was never written, in the state those
   * transactions fold to. It fails exactly when the newest segment was cut off inside its header, or when
   * the last transaction number is used up.
   */
  lemma {:induction false} EveryPowerLossRecovers<S(!new)>(actions: seq<Action>, w: World<S>, c: Crash,
      indexes: OffsetIndex.Sidecars, init: S, apply: Applier<S>)
    requires Run(Fresh(init), actions, init, apply) == Some(w) && NoKill(actions)
    requires Possible(w, c) && SoundIndexes(Survivors(w, c), indexes)
    ensures w.snaps != [] && |Survivors(w, c)| == |indexes|
    ensures var dir := Survivors(w, c);
      var r := Recover(dir, indexes, w.snaps, init, apply);
      && (r.Ok? <==> !CutHeader(dir) && Reach(w, dir) < MAX_U64)
      && (CutHeader(dir) ==> r == Err(ScanFailed(ReadFault(UnexpectedEof))))
      && (r.Ok? ==>
            && w.durable <= r.value.txID <= w.written <= |w.log|
            && Fold(init, w.log[..r.value.txID], apply) == Some(r.value.state))
  {
    assert !w.phase.Down? && |Survivors(w, c)| == |indexes|;
    hide Run, Fold, Recover, SoundIndexes, Survivors, Possible, Reachable, Safe, Orderly, NoKill, CutHeader, Reach;
    NoKillOrderly(Fresh(init), actions, init, apply);
    OrderlyReached(w, actions, init, apply);
    EveryCrashRecovers(w, c, indexes, init, apply);
  }

  /** And over two such runs: what was durable after the first is where it was after the second. */
  lemma {:induction false} DurableThroughPowerLosses<S(!new)>(first: seq<Action>, w: World<S>, rest: seq<Action>,
      w': World<S>, init: S, apply: Applier<S>)
    requires Run(Fresh(init), first, init, apply) == Some(w) && Run(w, rest, init, apply) == Some(w')
    requires NoKill(first) && NoKill(rest)
    ensures w.durable <= w'.durable <= |w'.log| && w.durable <= |w.log| && w'.log[..w.durable] == w.log[..w.durable]
  {
    hide Run, Reachable, Orderly, NoKill, Inv, Calm, SafeRun;
    NoKillOrderly(Fresh(init), first, init, apply);
    OrderlyReached(w, first, init, apply);
    ReachableOk(w, init, apply);
    NoKillOrderly(w, rest, init, apply);
    OrderlyIsSafe(w, rest, init, apply);
    DurableForever(w, rest, init, apply);
  }

  // ---- with the index files -------------------------------------------------

  predicate NoKillMoves(moves: seq<Move>) {
    forall i :: 0 <= i < |moves| ==> !(moves[i].Log? && moves[i].action.Kill?)
  }

  /** No append of the run completes anything that reads as the record of an entry. */
  ghost predicate UndisguisedRun<S>(x: Indexed<S>, moves: seq<Move>, init: S, apply: Applier<S>)
    decreases |moves|
  {
    moves == [] ||
    (&& (moves[0] == Log(Append) ==> Undisguised(x))
     && (Next(x, moves[0], init, apply).Some? ==>
           UndisguisedRun(Next(x, moves[0], init, apply).value, moves[1..], init, apply)))
  }

  lemma {:induction false} LossPossible<S>(x: Indexed<S>, m: Move, init: S, apply: Applier<S>)
    requires Next(x, m, init, apply).Some? && m.LosePower?
    ensures !x.w.phase.Down?
  {
    hide CrashRuns.Step, AfterEntry, AfterResume, Started, Survivors, Returned;
  }

  lemma {:induction false} MoveStaysCalm<S>(x: Indexed<S>, m: Move, init: S, apply: Applier<S>)
    requires Good(x, init, apply) && Calm(x.w) && Next(x, m, init, apply).Some?
    requires !(m.Log? && m.action.Kill?) && (m == Log(Append) ==> Undisguised(x))
    ensures Careful(x, m) && Good(Next(x, m, init, apply).value, init, apply) && Calm(Next(x, m, init, apply).value.w)
  {
    hide Next, Inv, AllQuiet, Undisguised, Safe, Run, CrashRuns.Step, SafeRun, Held;
    if m.LosePower? {
      LossPossible(x, m, init, apply);
    }
    MoveKeeps(x, m, init, apply);
    if Shadow(x, m) == [] {
      RunNothing(x.w, init, apply);
    } else {
      LoneStep(x.w, Shadow(x, m)[0], init, apply);
      StaysCalm(x.w, Shadow(x, m)[0], init, apply);
    }
  }

  lemma {:induction false} RunNothing<S>(w: World<S>, init: S, apply: Applier<S>)
    ensures Run(w, [], init, apply) == Some(w)
  {
  }

  lemma {:induction false} CalmIsCareful<S>(x: Indexed<S>, moves: seq<Move>, init: S, apply: Applier<S>)
    requires Good(x, init, apply) && Calm(x.w) && Moves(x, moves, init, apply).Some?
    requires NoKillMoves(moves) && UndisguisedRun(x, moves, init, apply)
    ensures CarefulRun(x, moves, init, apply) && Calm(Moves(x, moves, init, apply).value.w)
    decreases |moves|
  {
    hide Good, Careful, Next, Calm, Undisguised;
    if moves != [] {
      MoveStaysCalm(x, moves[0], init, apply);
      CalmIsCareful(Next(x, moves[0], init, apply).value, moves[1..], init, apply);
    }
  }

  /**
   * The same with the index files in the run: without kills, and without an append that completes anything that
   * reads as the record of an entry, recovery with the fast scan on whatever power loss leaves of
   * the segments and brings back in the index files answers exactly as without index files.
   */
  lemma {:induction false} FastPowerLossRecovers<S(!new)>(moves: seq<Move>, x: Indexed<S>, c: Crash,
      tables: map<nat, seq<OffsetIndex.Slot>>, init: S, apply: Applier<S>)
    requires Moves(Unindexed(init), moves, init, apply) == Some(x)
    requires NoKillMoves(moves) && UndisguisedRun(Unindexed(init), moves, init, apply)
    requires Possible(x.w, c) && Returned(x.files, tables)
    ensures x.w.snaps != []
    ensures var dir := Survivors(x.w, c);
      var r := IndexScan.RecoverFast(dir, TablesOf(dir, Back(tables)), x.w.snaps, init, apply);
      && r == Recover(dir, NoIndexes(|dir|), x.w.snaps, init, apply)
      && (r.Ok? <==> !CutHeader(dir) && Reach(x.w, dir) < MAX_U64)
      && (r.Ok? ==>
            && x.w.durable <= r.value.txID <= x.w.written <= |x.w.log|
            && Fold(init, x.w.log[..r.value.txID], apply) == Some(r.value.state))
  {
    assert !x.w.phase.Down?;
    hide Moves, CarefulRun, UndisguisedRun, NoKillMoves, Good, Safe, Possible, Returned, Survivors, Fold, Recover,
      IndexScan.RecoverFast, CutHeader, Reach, Reachable, Back, TablesOf;
    UnindexedGood(init, apply);
    CalmIsCareful(Unindexed(init), moves, init, apply);
    FastRecovers(moves, x, c, tables, init, apply);
  }
}
