/**
 * What losses of power take away. After the death of the process alone a restart reports every record the
 * operating system shows, on disk or not; the worker syncs the segment it reopens with its next
 * batch, and a torn segment it leaves behind never.
 */
module Kills {
  import opened Bytes
  import opened Records
  import opened SegmentScan
  import opened Segments
  import OffsetIndex
  import opened Replay
  import opened Recovery
  import Resume
  import opened TornWrites
  import opened Listings
  import opened CrashRuns
  import opened Restarts

  // ---- losing what was reported ------------------------------------------

  function NoneKept(n: nat): (r: seq<nat>)
    ensures |r| == n && forall i :: 0 <= i < n ==> r[i] == 0
  {
    seq(n, _ => 0)
  }

  /**
   * When power is lost in this way, recovery fails or comes back short of a transaction reported durable,
   * though the newest header is not cut off and there are transaction numbers left.
   */
  ghost predicate Loses<S>(w: World<S>, c: Crash, init: S, apply: Applier<S>) {
    && Possible(w, c)
    && var dir := Survivors(w, c);
       var r := Recover(dir, NoIndexes(|dir|), w.snaps, init, apply);
       !CutHeader(dir) && r != Err(NoNextTx) && !(r.Ok? && w.durable <= r.value.txID)
  }

  /** In a safe state no loss of power loses what was reported. */
  lemma {:induction false} NothingLost<S>(w: World<S>, c: Crash, init: S, apply: Applier<S>)
    requires Inv(w, init, apply) && Safe(w)
    ensures !Loses(w, c, init, apply)
  {
    if Possible(w, c) {
      var dir := Survivors(w, c);
      var w' := w.(phase := Down(dir), killed := None);
      hide *;
      DieKeeps(w, c, init, apply);
      DownHas(w', dir, init, apply);
      NoIndexesSound(dir);
      RecoverOutcome(w', dir, NoIndexes(|dir|), init, apply);
      NotLost(w, c, init, apply);
    }
  }

  lemma {:induction false} DownHas<S>(w: World<S>, dir: seq<SegmentFile>, init: S, apply: Applier<S>)
    requires Inv(w, init, apply) && w.phase == Down(dir)
    ensures Steady(w, init, apply) && w.snaps != [] && DownOk(w, dir)
  {
  }

  lemma {:induction false} NotLost<S>(w: World<S>, c: Crash, init: S, apply: Applier<S>)
    requires Possible(w, c)
    ensures var dir := Survivors(w, c);
      var r := Recover(dir, NoIndexes(|dir|), w.snaps, init, apply);
      Loses(w, c, init, apply) <==> !CutHeader(dir) && r != Err(NoNextTx) && !(r.Ok? && w.durable <= r.value.txID)
  {
    hide Recover, Survivors, Possible;
  }

  // ---- the barest loss -----------------------------------------------------

  /** The loss of power that undoes every deletion and keeps no unsynced byte of any segment. */
  function Barest<S>(w: World<S>): (c: Crash) {
    Crash(0, NoneKept(|w.unlinked + w.sealed|), if w.phase.Running? then Latest else Gone, 0)
  }

  /** The durable part of each segment. */
  function NoneLeft(ss: seq<Segment>): (r: seq<SegmentFile>)
    ensures |r| == |ss| && forall i :: 0 <= i < |ss| ==> r[i] == Bare(ss[i])
  {
    seq(|ss|, i requires 0 <= i < |ss| => Bare(ss[i]))
  }

  lemma {:induction false} BarestLeft<S>(w: World<S>)
    requires !w.phase.Down?
    ensures Possible(w, Barest(w))
    ensures Survivors(w, Barest(w)) ==
      NoneLeft(w.unlinked + w.sealed) + if w.phase.Running? then [SegmentFile(w.start, w.phase.active.durable)] else []
  {
    var ss := w.unlinked + w.sealed;
    forall i | 0 <= i < |ss| ensures Left(ss[i], 0) == Bare(ss[i]) {
      assert Survivor(ss[i].file, 0) == ss[i].file.durable;
    }
    assert AllLeft(ss, NoneKept(|ss|)) == NoneLeft(ss);
    if w.phase.Running? {
      assert Survivor(w.phase.active, 0) == w.phase.active.durable;
    }
  }

  lemma {:induction false} FirstTwoMeet(dir: seq<SegmentFile>)
    requires ScanOf(dir).Ok? && |dir| > 1
    ensures NextStart(dir[0]) == dir[1].start
  {
    hide SegmentOf, FileRecords;
    SegmentFacts(dir[0], false);
    SegmentFacts(dir[1], |dir| == 2);
  }

  /** Neighbouring segments of an accepted log meet. */
  lemma {:induction false} NeighboursMeet(dir: seq<SegmentFile>, i: nat)
    requires ScanOf(dir).Ok? && i + 1 < |dir|
    ensures NextStart(dir[i]) == dir[i + 1].start
    decreases i
  {
    hide ScanOf, FileRecords;
    if i == 0 {
      FirstTwoMeet(dir);
    } else {
      ScanTail(dir);
      NeighboursMeet(dir[1..], i - 1);
    }
  }

  lemma {:induction false} HorizonIsLast(dir: seq<SegmentFile>)
    requires dir != [] && ScanOf(dir).Ok?
    ensures Horizon(ScanOf(dir).value) == NextStart(dir[|dir| - 1]) - 1
  {
    hide ScanOf, SegmentOf, FileRecords;
    Resume.LastReport(dir);
    SegmentFacts(dir[|dir| - 1], true);
  }

  /** A directory whose log is broken, or ends before a transaction reported durable, loses it. */
  lemma {:induction false} ShortLoses<S>(w: World<S>, c: Crash, init: S, apply: Applier<S>)
    requires Possible(w, c) && w.durable <= MAX_U64
    requires var dir := Survivors(w, c);
      && dir != [] && Listed(dir) && !CutHeader(dir)
      && (ScanOf(dir).Ok? ==> NextStart(dir[|dir| - 1]) - 1 < w.durable)
    ensures Loses(w, c, init, apply)
  {
    var dir := Survivors(w, c);
    var ix := NoIndexes(|dir|);
    hide *;
    NoIndexesSound(dir);
    NotLost(w, c, init, apply);
    if ScanOf(dir).Err? {
      ScanStops(dir, ix, w.snaps, init, apply);
    } else {
      HorizonIsLast(dir);
      if Recover(dir, ix, w.snaps, init, apply).Ok? {
        RecoveredTx(dir, ix, w.snaps, init, apply);
      } else if Recover(dir, ix, w.snaps, init, apply) == Err(NoNextTx) {
        NoNextMeans(dir, ix, w.snaps, init, apply);
      }
    }
  }

  lemma {:induction false} SameStarts(dir: seq<SegmentFile>, dir': seq<SegmentFile>)
    requires Listed(dir) && |dir'| == |dir| && forall i :: 0 <= i < |dir| ==> dir'[i].start == dir[i].start
    ensures Listed(dir')
  {
  }

  /** Each segment of a chain ends where the next one starts. */
  lemma {:induction false} ChainNext(dir: seq<SegmentFile>, log: seq<bytes>, end: nat, i: nat)
    requires Chain(dir, log, end) && i < |dir|
    ensures NextStart(dir[i]) == if i + 1 < |dir| then dir[i + 1].start else end
    decreases i
  {
    hide Sealed, FileRecords;
    if i > 0 {
      ChainNext(dir[1..], log, end, i - 1);
    }
  }

  /** The segments left behind, as they show themselves, and the newest one. */
  lemma {:induction false} ShownListed<S>(w: World<S>)
    requires !w.phase.Down? && w.snaps != [] && UpOk(w)
    ensures w.phase.Running? ==>
      Listed(AllShown(w.unlinked + w.sealed) + [SegmentFile(w.start, w.phase.active.current)])
    ensures w.phase.Creating? ==> Listed(AllShown(w.unlinked + w.sealed))
  {
    hide FileRecords, Newest, SegmentOk, Appending, EarlierOk, FlushOk, LossesReported, Whole;
    var dir := AllShown(w.unlinked + w.sealed);
    if w.phase.Running? {
      CurrentIsNewest(w.start, w.log, w.synced, w.written, w.phase.active);
      ChainScan(dir, SegmentFile(w.start, w.phase.active.current), w.log);
    } else if dir != [] {
      var n := |dir| - 1;
      ChainFront(dir, w.log, w.start);
      ChainBelow(dir, w.log, w.start);
      SealedIsNewest(dir[n], w.log);
      ChainScan(dir[..n], dir[n], w.log);
      assert dir[..n] + [dir[n]] == dir;
    }
  }

  lemma {:induction false} CurrentIsNewest(start: nat, log: seq<bytes>, synced: nat, written: nat, f: File)
    requires Appending(start, log, synced, written, f) && start <= MAX_U64
    ensures Newest(SegmentFile(start, f.current), log)
  {
    hide Encoded, FileRecords;
    PaddedShape(start, log, written, f.current);
    HeldRecords(SegmentFile(start, f.current), log, written + 1 - start);
  }

  lemma {:induction false} BareHeader(g: Segment, log: seq<bytes>)
    requires SegmentOk(g, log) && g.start <= MAX_U64
    ensures !PartialHeader(Bare(g))
    ensures !Whole(g) ==> NextStart(Bare(g)) < NextStart(Shown(g))
  {
    hide FileRecords, Sealed, TailOf;
    if Whole(g) {
      assert Survivor(g.file, 0) == g.file.durable;
      assert Left(g, 0) == Bare(g);
      SealedIsNewest(Left(g, 0), log);
    }
  }

  /** In a state that is not safe the barest loss of power loses something that was reported. */
  lemma {:induction false} RiskLoses<S>(w: World<S>, init: S, apply: Applier<S>)
    requires Inv(w, init, apply) && !w.phase.Down? && !Safe(w)
    ensures Loses(w, Barest(w), init, apply)
  {
    hide *;
    UpParts(w, init, apply);
    MarkBound(w, init, apply);
    BarestLeft(w);
    BarestListed(w);
    BarestShort(w);
    ShortLoses(w, Barest(w), init, apply);
  }

  lemma {:induction false} MarkBound<S>(w: World<S>, init: S, apply: Applier<S>)
    requires Steady(w, init, apply)
    ensures w.durable <= |w.log| <= MAX_U64
  {
  }

  lemma {:induction false} BarestShort<S>(w: World<S>)
    requires !w.phase.Down? && w.snaps != [] && UpOk(w) && !Safe(w)
    ensures var dir := NoneLeft(w.unlinked + w.sealed)
        + if w.phase.Running? then [SegmentFile(w.start, w.phase.active.durable)] else [];
      dir != [] && (ScanOf(dir).Ok? ==> NextStart(dir[|dir| - 1]) - 1 < w.durable)
  {
    hide UpOk, Safe, ScanOf, NextStart, AllWhole;
    if AllWhole(w.unlinked + w.sealed) {
      BehindMark(w);
    } else {
      BrokenChain(w);
    }
  }

  lemma {:induction false} BarestListed<S>(w: World<S>)
    requires !w.phase.Down? && w.snaps != [] && UpOk(w) && !Safe(w)
    ensures var dir := NoneLeft(w.unlinked + w.sealed)
        + if w.phase.Running? then [SegmentFile(w.start, w.phase.active.durable)] else [];
      dir != [] && Listed(dir) && !CutHeader(dir)
  {
    hide FileRecords, Newest, SegmentOk, Appending, EarlierOk, FlushOk, LossesReported, Whole, Chain;
    var ss := w.unlinked + w.sealed;
    ShownListed(w);
    if w.phase.Running? {
      DurableHeader(w.start, w.log, w.synced, w.written, w.phase.active);
      SameStarts(AllShown(ss) + [SegmentFile(w.start, w.phase.active.current)],
        NoneLeft(ss) + [SegmentFile(w.start, w.phase.active.durable)]);
    } else {
      var n := |ss| - 1;
      assert NoneLeft(ss) + [] == NoneLeft(ss);
      SameStarts(AllShown(ss), NoneLeft(ss));
      assert AllShown(ss)[n].start <= MAX_U64;
      BareHeader(ss[n], w.log);
    }
  }

  /** A segment that lost records does not reach the next one, or does not reach what was reported. */
  lemma {:induction false} BrokenChain<S>(w: World<S>)
    requires !w.phase.Down? && w.snaps != [] && UpOk(w) && !AllWhole(w.unlinked + w.sealed)
    ensures var dir := NoneLeft(w.unlinked + w.sealed)
        + if w.phase.Running? then [SegmentFile(w.start, w.phase.active.durable)] else [];
      dir != [] && (ScanOf(dir).Ok? ==> NextStart(dir[|dir| - 1]) - 1 < w.durable)
  {
    hide UpOk, NextStart, ScanOf, Whole, NoneLeft;
    var ss := w.unlinked + w.sealed;
    var i :| 0 <= i < |ss| && !Whole(ss[i]);
    var dir := NoneLeft(ss) + if w.phase.Running? then [SegmentFile(w.start, w.phase.active.durable)] else [];
    BrokenAt(w, i);
    DirAt(w, ss, i);
    ShortAt(dir, i, NextStart(Shown(ss[i])), w.durable);
  }

  lemma {:induction false} DirAt<S>(w: World<S>, ss: seq<Segment>, i: nat)
    requires i < |ss|
    ensures var dir := NoneLeft(ss) + if w.phase.Running? then [SegmentFile(w.start, w.phase.active.durable)] else [];
      && i < |dir| && dir[i] == Bare(ss[i])
      && (i + 1 < |dir| ==> dir[i + 1].start == if i + 1 < |ss| then ss[i + 1].start else w.start)
      && (i + 1 < |ss| ==> i + 1 < |dir|)
  {
  }

  lemma {:induction false} ShortAt(dir: seq<SegmentFile>, i: nat, next: nat, durable: nat)
    requires i < |dir| && NextStart(dir[i]) < next <= durable + 1 && (i + 1 < |dir| ==> dir[i + 1].start == next)
    ensures ScanOf(dir).Ok? ==> NextStart(dir[|dir| - 1]) - 1 < durable
  {
    hide ScanOf, NextStart;
    if ScanOf(dir).Ok? && i + 1 < |dir| {
      NeighboursMeet(dir, i);
    }
  }

  lemma {:induction false} BrokenAt<S>(w: World<S>, i: nat)
    requires !w.phase.Down? && w.snaps != [] && UpOk(w) && i < |w.unlinked + w.sealed| &&
      !Whole((w.unlinked + w.sealed)[i])
    ensures var ss := w.unlinked + w.sealed;
      && NextStart(Bare(ss[i])) < NextStart(Shown(ss[i])) == (if i + 1 < |ss| then ss[i + 1].start else w.start)
      && NextStart(Shown(ss[i])) - 1 <= w.durable
  {
    var ss := w.unlinked + w.sealed;
    SegmentBounds(ss[i], w.log);
    BareHeader(ss[i], w.log);
    hide FileRecords, Newest, SegmentOk, Appending, EarlierOk, FlushOk, Chain;
    ChainNext(AllShown(ss), w.log, w.start, i);
    assert AllShown(ss)[i] == Shown(ss[i]);
  }

  lemma {:induction false} BehindMark<S>(w: World<S>)
    requires !w.phase.Down? && w.snaps != [] && UpOk(w) && AllWhole(w.unlinked + w.sealed) && !Safe(w)
    ensures w.phase.Running? && NextStart(SegmentFile(w.start, w.phase.active.durable)) - 1 < w.durable
  {
    hide FileRecords, StoredChain, Appending, EarlierOk, FlushOk, LossesReported, AllWhole;
    if w.phase.Running? {
      DurableHeader(w.start, w.log, w.synced, w.written, w.phase.active);
    }
  }

  lemma {:induction false} LossIff<S>(w: World<S>, init: S, apply: Applier<S>)
    requires Inv(w, init, apply) && !w.phase.Down?
    ensures (forall c :: !Loses(w, c, init, apply)) <==> Safe(w)
  {
    hide Loses, Safe, Inv;
    if Safe(w) {
      forall c ensures !Loses(w, c, init, apply) {
        NothingLost(w, c, init, apply);
      }
    } else {
      RiskLoses(w, init, apply);
      assert Loses(w, Barest(w), init, apply);
    }
  }

  /**
   * Exactly when power may be lost. In every reachable state, whatever kills and restarts led to it: no loss
   * of power takes away a transaction reported durable if and only if the mark is synced in the
   * active segment and no segment left behind shows a record that is not durable.
   */
  lemma {:induction false} LossExact<S(!new)>(w: World<S>, init: S, apply: Applier<S>)
    requires Reachable(w, init, apply) && !w.phase.Down?
    ensures (forall c :: !Loses(w, c, init, apply)) <==> Safe(w)
  {
    hide Loses, Safe, Inv, Reachable;
    ReachableOk(w, init, apply);
    LossIff(w, init, apply);
  }

  // ---- how a state comes to be unsafe, and safe again --------------------

  /** The next sync makes up for any restart that reopened its segment in place. */
  lemma {:induction false} SyncHeals<S>(w: World<S>, init: S, apply: Applier<S>)
    requires Inv(w, init, apply) && CrashRuns.Step(w, Sync, init, apply).Some?
    ensures Safe(CrashRuns.Step(w, Sync, init, apply).value) <==> AllWhole(w.unlinked + w.sealed)
  {
    hide Fold, StoredChain, Appending, EarlierOk, FlushOk, LossesReported, AllWhole;
  }

  /** A segment left behind with records that are not durable stops being a risk only with its durable removal. */
  lemma {:induction false} RiskEnds<S>(w: World<S>, a: Action, init: S, apply: Applier<S>)
    requires Alive(w) && CrashRuns.Step(w, a, init, apply).Some? && !a.Die?
    requires !AllWhole(w.unlinked + w.sealed)
    ensures var w' := CrashRuns.Step(w, a, init, apply).value;
      AllWhole(w'.unlinked + w'.sealed) ==> a == SyncDirectory && AllWhole(w.sealed)
  {
    hide Fold, Recover, Found, Whole, SegmentBytes, RecordBytes;
    var w' := CrashRuns.Step(w, a, init, apply).value;
    var ss, now := w.unlinked + w.sealed, w'.unlinked + w'.sealed;
    var i :| 0 <= i < |ss| && !Whole(ss[i]);
    if a == Unlink {
      assert now == ss;
    } else if a == SyncDirectory {
      assert now == w.sealed;
    } else {
      assert now[i] == ss[i];
    }
  }

  // ---- the mark of a restart ----------------------------------------------

  lemma {:induction false} ResumedShape<S>(w: World<S>, f: File, r: Recovered<S>)
    requires w.phase == Running(f) && r.txID <= |w.log|
    requires r.plan.mode == AppendInPlace || w.start != r.txID + 1
    ensures var w', g := Resumed(w, r), File(f.durable, Survivor(f, Flushed(w, f)));
      if r.plan.mode == AppendInPlace then
        w'.unlinked == [] && w'.sealed == w.sealed && w'.start == w.start && w'.phase == Running(g) &&
        w'.synced == w.synced
      else
        && w'.unlinked == w.unlinked && w'.sealed == w.sealed + [Segment(w.start, g)] && w'.phase == Creating(None, [])
        && w'.start == r.txID + 1
  {
    hide Survivor;
    var g := Segment(w.start, File(f.durable, Survivor(f, Flushed(w, f))));
    assert Found(w) == w.sealed + [g];
    assert (w.sealed + [g])[..|w.sealed|] == w.sealed;
  }

  lemma {:induction false} UpBounds<S>(w: World<S>)
    requires !w.phase.Down? && w.snaps != [] && UpOk(w)
    ensures w.start <= w.synced + 1 && w.start <= MAX_U64
    ensures w.phase.Creating? ==> w.written == w.synced == w.start - 1
    ensures w.phase.Running? ==> Appending(w.start, w.log, w.synced, w.written, w.phase.active)
  {
    hide StoredChain, Appending, EarlierOk, FlushOk, LossesReported;
  }

  /** Restarted from a segment that was being appended to. */
  lemma {:induction false} RunningMark<S>(w: World<S>, f: File, r: Recovered<S>)
    requires w.phase == Running(f) && w.snaps != [] && UpOk(w) && AllWhole(w.unlinked + w.sealed)
    requires r.txID <= |w.log| && r.txID == Reach(w, AllShown(Found(w))) && w.synced <= r.txID
    ensures Safe(Resumed(w, r)) <==> r.txID <= w.synced
  {
    hide UpOk, Appending, Survivor, FileRecords, AllWhole;
    UpBounds(w);
    DurableHeader(w.start, w.log, w.synced, w.written, f);
    var g := Segment(w.start, File(f.durable, Survivor(f, Flushed(w, f))));
    assert Found(w) == w.sealed + [g];
    assert AllShown(Found(w))[|w.sealed|] == Shown(g);
    assert Whole(g) <==> r.txID == w.synced;
    hide Whole, Found;
    WholeParts(w.unlinked, w.sealed, g);
    if r.plan.mode == AppendInPlace || w.start != r.txID + 1 {
      ResumedShape(w, f, r);
    } else {
      ReplacedShape(w, g, r);
    }
  }

  lemma {:induction false} WholeParts(unlinked: seq<Segment>, sealed: seq<Segment>, g: Segment)
    requires AllWhole(unlinked + sealed)
    ensures AllWhole([] + sealed) && (AllWhole(unlinked + (sealed + [g])) <==> Whole(g))
  {
    hide Whole;
    forall i | 0 <= i < |sealed| ensures Whole(sealed[i]) {
      assert sealed[i] == (unlinked + sealed)[|unlinked| + i];
    }
    assert unlinked + (sealed + [g]) == unlinked + sealed + [g];
    assert (unlinked + sealed + [g])[|unlinked + sealed|] == g;
  }

  /** A newest file without a whole record is replaced. */
  lemma {:induction false} ReplacedShape<S>(w: World<S>, g: Segment, r: Recovered<S>)
    requires Found(w) == w.sealed + [g] && !w.phase.Down? && r.txID <= |w.log|
    requires r.plan.mode != AppendInPlace && g.start == r.txID + 1
    ensures var w' := Resumed(w, r);
      w'.unlinked == w.unlinked && w'.sealed == w.sealed && w'.synced == w'.durable == r.txID
  {
    hide Found;
    assert (w.sealed + [g])[..|w.sealed|] == w.sealed;
  }

  lemma {:induction false} FewerWhole(unlinked: seq<Segment>, sealed: seq<Segment>, k: nat)
    requires AllWhole(unlinked + sealed) && k <= |sealed|
    ensures AllWhole([] + sealed[..k]) && AllWhole(unlinked + sealed[..k])
  {
    hide Whole;
    forall i | 0 <= i < |sealed| ensures Whole(sealed[i]) {
      assert sealed[i] == (unlinked + sealed)[|unlinked| + i];
    }
    forall i | 0 <= i < |unlinked| ensures Whole(unlinked[i]) {
      assert unlinked[i] == (unlinked + sealed)[i];
    }
  }

  /** Restarted before the new segment had a file. */
  lemma {:induction false} UncreatedMark<S>(w: World<S>, r: Recovered<S>)
    requires w.phase.Creating? && w.phase.file.None? && AllWhole(w.unlinked + w.sealed)
    requires r.txID <= |w.log| && r.txID == w.synced
    ensures Safe(Resumed(w, r))
  {
    hide Whole, AllWhole;
    var ss := w.sealed;
    assert Found(w) == ss + [] == ss;
    FewerWhole(w.unlinked, ss, |ss|);
    assert ss[..|ss|] == ss;
    if ss != [] {
      FewerWhole(w.unlinked, ss, |ss| - 1);
    }
  }

  /** Restarted when the new segment had a file. */
  lemma {:induction false} CreatedMark<S>(w: World<S>, g: Segment, r: Recovered<S>)
    requires w.phase.Creating? && Found(w) == w.sealed + [g] && AllWhole(w.unlinked + w.sealed)
    requires r.txID <= |w.log| && r.txID == w.synced && g.start == r.txID + 1
    ensures Safe(Resumed(w, r))
  {
    hide Whole, AllWhole, Found;
    FewerWhole(w.unlinked, w.sealed, |w.sealed|);
    assert w.sealed[..|w.sealed|] == w.sealed;
    if r.plan.mode == AppendInPlace {
      assert (w.sealed + [g])[..|w.sealed|] == w.sealed;
    } else {
      ReplacedShape(w, g, r);
    }
  }

  lemma {:induction false} KilledSafe<S>(w: World<S>, r: Recovered<S>)
    requires !w.phase.Down? && w.snaps != [] && UpOk(w) && AllWhole(w.unlinked + w.sealed)
    requires r.txID <= |w.log| && r.txID == Reach(w, AllShown(Found(w))) && w.synced <= r.txID <= w.written
    ensures Safe(Resumed(w, r)) <==> r.txID <= w.synced
  {
    UpBounds(w);
    hide UpOk, Appending, Reach, AllWhole, Safe, Resumed;
    match w.phase {
      case Running(f) => RunningMark(w, f, r);
      case Creating(None, _) => UncreatedMark(w, r);
      case Creating(Some(f), _) => CreatedMark(w, Segment(w.start, File(f.durable, Survivor(f, Flushed(w, f)))), r);
    }
  }

  /**
   * After a kill the worker takes over with the transaction that recovery reads off the files as its
   * durable mark, between what was reported or synced and what was written. Every later loss of power leaves
   * everything up to that mark if and only if the state is then safe; with nothing at risk in the
   * segments left behind before, exactly if the mark is at most the last transaction that was synced.
   */
  lemma {:induction false} KilledMark<S(!new)>(w: World<S>, indexes: OffsetIndex.Sidecars, init: S, apply: Applier<S>)
    requires Reachable(w, init, apply) && !w.phase.Down? && AfterRestart(w, indexes, init, apply).Some?
    ensures w.snaps != []
    ensures var w', mark := AfterRestart(w, indexes, init, apply).value, Reach(w, AllShown(Found(w)));
      && w'.durable == mark
      && Reported(w) <= mark <= w.written
      && ((forall c :: !Loses(w', c, init, apply)) <==> Safe(w'))
      && (AllWhole(w.unlinked + w.sealed) ==> (Safe(w') <==> mark <= w.synced))
  {
    assert w.synced <= Reported(w);
    hide *;
    ReachableOk(w, init, apply);
    FoundOk(w, init, apply);
    UpParts(w, init, apply);
    RestartShape(w, indexes, init, apply);
    var r := Recover(AllShown(Found(w)), indexes, w.snaps, init, apply).value;
    RecoverReached(w, AllShown(Found(w)), indexes, init, apply);
    KilledDirectory(w, init, apply);
    RestartKeeps(w, indexes, init, apply);
    StandsUp(w, r);
    LossIff(Resumed(w, r), init, apply);
    if AllWhole(w.unlinked + w.sealed) {
      KilledSafe(w, r);
    }
  }

  lemma {:induction false} StandsUp<S>(w: World<S>, r: Recovered<S>)
    requires r.txID <= |w.log|
    ensures !Resumed(w, r).phase.Down?
  {
    hide Found;
  }

  // ---- what is left is true -------------------------------------------------

  lemma {:induction false} HonestRecords(f: SegmentFile, log: seq<bytes>)
    requires Honest(f, log)
    ensures forall i :: 0 <= i < |FileRecords(f)| ==>
      0 < FileRecords(f)[i].txID <= |log| && FileRecords(f)[i].payload == log[FileRecords(f)[i].txID - 1]
  {
    hide Holds, BodyScan;
    if |f.data| >= SEGMENT_HEADER {
      HeldRecords(f, log, |FileRecords(f)|);
      HeldBounds(f, log, |FileRecords(f)|);
    }
  }

  lemma {:induction false} HonestLog(dir: seq<SegmentFile>, log: seq<bytes>)
    requires forall i :: 0 <= i < |dir| ==> Honest(dir[i], log)
    ensures LogFrom(dir, log)
    decreases |dir|
  {
    hide Honest, FileRecords;
    if dir != [] {
      HonestRecords(dir[0], log);
      HonestLog(dir[1..], log);
      LogFromCons(dir, log);
    }
  }

  /** Whatever a crash leaves of a segment left behind: records of the log, and no more than it showed. */
  lemma {:induction false} LeftHonest(s: Segment, log: seq<bytes>, p: nat)
    requires SegmentOk(s, log) && p <= |s.file.current|
    ensures Honest(Left(s, p), log) && NextStart(Left(s, p)) <= NextStart(Shown(s))
  {
    hide Holds, FileRecords, TailOf, Left, Shown;
    if Whole(s) {
      assert Sealed(Left(s, p), log);
    }
  }

  lemma {:induction false} FrontHonest(ss: seq<Segment>, cuts: seq<nat>, log: seq<bytes>, end: nat, i: nat)
    requires StoredChain(ss, log, end) && Cuts(ss, cuts) && i < |ss|
    ensures Honest(Left(ss[i], cuts[i]), log) && Left(ss[i], cuts[i]).start == ss[i].start
    ensures NextStart(Left(ss[i], cuts[i])) <= end
  {
    hide SegmentOk, Honest, NextStart, Chain;
    LeftHonest(ss[i], log, cuts[i]);
    SameNames(ss[i], cuts[i]);
    ChainBelow(AllShown(ss), log, end);
    assert AllShown(ss)[i] == Shown(ss[i]);
  }

  lemma {:induction false} NewestHonest<S>(w: World<S>, left: seq<SegmentFile>, low: nat)
    requires LeftOk(w, left, low) && left != [] && w.start <= w.written + 1
    ensures Honest(left[0], w.log) && NextStart(left[0]) <= w.written + 1 && left[0].start == w.start
  {
    hide Honest, Newest, FileRecords;
    BlankHonest(left[0], w.log);
  }

  /** Starts in order, records of the log in every file, and none beyond what was written. */
  lemma {:induction false} SurvivorsHonest<S>(w: World<S>, c: Crash)
    requires !w.phase.Down? && w.snaps != [] && UpOk(w) && Possible(w, c)
    ensures var dir := Survivors(w, c);
      && Listed(dir) && LogFrom(dir, w.log)
      && (dir != [] ==> NextStart(dir[|dir| - 1]) <= w.written + 1)
  {
    hide Honest, NextStart, LogFrom, Listed, Possible, Left, NewestLeft, NewestPossible, AllLeft, StoredChain;
    PossibleParts(w, c);
    WrittenPast(w);
    var ss, left, dir := w.unlinked + w.sealed, NewestLeft(w, c.name, c.kept), Survivors(w, c);
    NewestLeftOk(w, c.name, c.kept);
    var n := |ss| - c.restored;
    forall i | 0 <= i < |dir| ensures Honest(dir[i], w.log) && NextStart(dir[i]) <= w.written + 1 {
      if i < n {
        FrontHonest(ss, c.cuts, w.log, w.start, c.restored + i);
        assert dir[i] == Left(ss[c.restored + i], c.cuts[c.restored + i]);
      } else {
        NewestHonest(w, left, w.synced);
        assert dir[i] == left[0];
      }
    }
    HonestLog(dir, w.log);
    SurvivorsListed(w, c);
  }

  lemma {:induction false} WrittenPast<S>(w: World<S>)
    requires !w.phase.Down? && w.snaps != [] && UpOk(w)
    ensures w.start <= w.written + 1 && StoredChain(w.unlinked + w.sealed, w.log, w.start)
    ensures 0 < w.start <= MAX_U64 && Storable(w.log, w.start - 1)
  {
    hide StoredChain, Appending, EarlierOk, FlushOk, LossesReported;
  }

  lemma {:induction false} SurvivorsListed<S>(w: World<S>, c: Crash)
    requires !w.phase.Down? && w.snaps != [] && UpOk(w) && Possible(w, c)
    ensures Listed(Survivors(w, c))
  {
    hide Survivor, StoredChain, UpOk, Newest, Chain, NextStart, Listed, ScanOf, LogFrom, Storable;
    WrittenPast(w);
    var ss, dir := w.unlinked + w.sealed, Survivors(w, c);
    var all := AllShown(ss) + [SegmentFile(w.start, [])];
    StoredIsChain(ss, w.log, w.start);
    EmptyIsNewest(w.start, w.log);
    ChainScan(AllShown(ss), SegmentFile(w.start, []), w.log);
    assert forall i :: 0 <= i < |dir| ==> dir[i].start == all[c.restored + i].start;
    ListedPart(all, dir, c.restored);
  }

  lemma {:induction false} StoredIsChain(ss: seq<Segment>, log: seq<bytes>, end: nat)
    requires StoredChain(ss, log, end)
    ensures Chain(AllShown(ss), log, end)
  {
    hide Chain, SegmentOk;
  }

  lemma {:induction false} ListedPart(all: seq<SegmentFile>, dir: seq<SegmentFile>, k: nat)
    requires Listed(all) && k + |dir| <= |all|
    requires forall i :: 0 <= i < |dir| ==> dir[i].start == all[k + i].start
    ensures Listed(dir)
  {
  }

  /**
   * Even where something reported is at risk, recovery never makes anything up. In every reachable state, after every
   * loss of power: if recovery answers, it answers with a prefix of the committed transactions, none
   * of them never written, in the state they fold to.
   */
  lemma {:induction false} LossNeverInvents<S(!new)>(w: World<S>, c: Crash, indexes: OffsetIndex.Sidecars, init: S,
      apply: Applier<S>)
    requires Reachable(w, init, apply) && Possible(w, c) && SoundIndexes(Survivors(w, c), indexes)
    ensures |Survivors(w, c)| == |indexes|
    ensures var r := Recover(Survivors(w, c), indexes, w.snaps, init, apply);
      r.Ok? ==>
        && r.value.txID <= w.written <= |w.log|
        && Fold(init, w.log[..r.value.txID], apply) == Some(r.value.state)
  {
    assert !w.phase.Down? && |Survivors(w, c)| == |indexes|;
    hide Reachable, Possible, Survivors, SoundIndexes, Recover, Fold, Inv, UpOk, Listed, LogFrom, NextStart, Storable,
      SnapshotsFrom;
    ReachableOk(w, init, apply);
    UpParts(w, init, apply);
    WrittenLog(w);
    SurvivorsHonest(w, c);
    var dir := Survivors(w, c);
    RecoveryIsFold(dir, indexes, w.snaps, w.log, init, apply);
    if Recover(dir, indexes, w.snaps, init, apply).Ok? {
      if dir != [] {
        RecoveredScan(dir, indexes, w.snaps, init, apply);
        HorizonIsLast(dir);
      } else {
        SnapshotsBelow(w, init, apply);
      }
    }
  }

  lemma {:induction false} WrittenLog<S>(w: World<S>)
    requires !w.phase.Down? && w.snaps != [] && UpOk(w)
    ensures w.durable <= w.written <= |w.log|
  {
    hide StoredChain, Appending, EarlierOk, FlushOk, LossesReported;
  }

  lemma {:induction false} SnapshotsBelow<S>(w: World<S>, init: S, apply: Applier<S>)
    requires SnapshotsOk(w, init, apply)
    ensures forall s :: s in w.snaps ==> s.txID <= w.durable
  {
    hide SnapshotsFrom;
    forall s | s in w.snaps ensures s.txID <= w.durable {
      var i :| 0 <= i < |w.snaps| && w.snaps[i] == s;
    }
  }

  lemma {:induction false} RecoveredScan<S>(dir: seq<SegmentFile>, indexes: OffsetIndex.Sidecars,
      snaps: seq<Snapshot<S>>, init: S, apply: Applier<S>)
    requires |dir| == |indexes| && Recover(dir, indexes, snaps, init, apply).Ok?
    ensures ScanOf(dir).Ok?
  {
    hide ScanOf;
  }

  // ---- newer transactions over records that can still be lost -----------

  /**
   * A torn tail makes the worker start a fresh segment and never sync the old one. If the old one shows
   * more than is durable, the worker can go on to sync and report newer transactions, and a loss of
   * power then leaves a log with a gap, which recovery rejects: the newer transactions are lost as well.
   */
  lemma {:induction false} NewerOverLost<S(!new)>(w: World<S>, p: bytes, init: S, apply: Applier<S>)
    requires Reachable(w, init, apply) && Alive(w) && w.phase.Creating? && w.phase.file.None?
    requires !AllWhole(w.sealed) && |w.log| == w.written < MAX_U64
    requires |p| <= MAX_PAYLOAD && Fold(init, w.log + [p], apply).Some?
    ensures var w2 := OnwardWorld(w, p);
      && Run(w, Onward(p, |w.log| + 1), init, apply) == Some(w2)
      && w2.durable == |w.log| + 1
      && Possible(w2, Barest(w2))
      && var dir := Survivors(w2, Barest(w2));
         forall ix: OffsetIndex.Sidecars :: |ix| == |dir| ==> Recover(dir, ix, w2.snaps, init, apply).Err?
  {
    ReachableOk(w, init, apply);
    UpParts(w, init, apply);
    UpBounds(w);
    assert Storable(w.log, w.written) && w.durable <= w.written by { hide StoredChain, EarlierOk; }
    hide *;
    OnwardRun(w, p, init, apply);
    var w2 := OnwardWorld(w, p);
    OnwardShape(w, p);
    BarestLeft(w2);
    GapStays(w, NoneLeft(w2.unlinked + w2.sealed) + [SegmentFile(w2.start, w2.phase.active.durable)]);
    var dir := Survivors(w2, Barest(w2));
    forall ix: OffsetIndex.Sidecars | |ix| == |dir| ensures Recover(dir, ix, w2.snaps, init, apply).Err? {
      ScanStops(dir, ix, w2.snaps, init, apply);
    }
  }

  lemma {:induction false} OnwardShape<S>(w: World<S>, p: bytes)
    requires |w.log| < MAX_U64 && |p| <= MAX_PAYLOAD
    ensures var w2 := OnwardWorld(w, p);
      w2.unlinked + w2.sealed == w.sealed && w2.start == w.start && w2.phase.Running? && w2.snaps == w.snaps
  {
    hide SegmentBytes;
  }

  lemma {:induction false} GapStays<S>(w: World<S>, dir: seq<SegmentFile>)
    requires !w.phase.Down? && w.snaps != [] && UpOk(w) && !AllWhole(w.sealed)
    requires |dir| == |w.sealed| + 1 && dir[..|w.sealed|] == NoneLeft(w.sealed) && dir[|w.sealed|].start == w.start
    ensures ScanOf(dir).Err?
  {
    hide UpOk, NextStart, ScanOf, Whole;
    var ss := w.sealed;
    var i :| 0 <= i < |ss| && !Whole(ss[i]);
    var j := |w.unlinked| + i;
    assert (w.unlinked + ss)[j] == ss[i] && (i + 1 < |ss| ==> (w.unlinked + ss)[j + 1] == ss[i + 1]);
    BrokenAt(w, j);
    assert dir[i] == NoneLeft(ss)[i] == Bare(ss[i]);
    assert dir[i + 1].start == if i + 1 < |ss| then ss[i + 1].start else w.start by {
      if i + 1 < |ss| {
        assert dir[i + 1] == NoneLeft(ss)[i + 1];
      }
    }
    if ScanOf(dir).Ok? {
      NeighboursMeet(dir, i);
    }
  }

  // ---- such a kill does happen ---------------------------------------------

  /** Two more transactions are appended but not synced, and the process is killed. */
  function UntilKilled(p2: bytes, p3: bytes, q: nat): (r: seq<Action>) {
    [Enqueue(p2), Enqueue(p3), Append, Append, Kill(q)]
  }

  /** The first transaction is synced, all three are written, and of their bytes q have reached the system. */
  function KilledWorld<S>(ps: seq<bytes>, q: nat, init: S): (r: World<S>)
    requires Fits(1, ps) && ps != []
  {
    var one := SegmentBytes(1, ps[..1]);
    World(ps, 1, Fresh(init).snaps, [], [], 1, 1, |ps|, |one|, Running(File(one, SegmentBytes(1, ps))), Some(q))
  }

  lemma {:induction false} KilledTail<S>(ps: seq<bytes>, q: nat, init: S, apply: Applier<S>)
    requires |ps| == 3 && Fits(1, ps) && Fold(init, ps, apply).Some?
    requires |SegmentBytes(1, ps[..1])| <= q <= |SegmentBytes(1, ps)|
    ensures Run(OnwardWorld(Fresh(init).(phase := Creating(None, [])), ps[0]), UntilKilled(ps[1], ps[2], q), init,
      apply)
         == Some(KilledWorld(ps, q, init))
  {
    var w0 := OnwardWorld(Fresh(init).(phase := Creating(None, [])), ps[0]);
    assert ps[..1] == [ps[0]] && [] + [ps[0]] == [ps[0]];
    var w1, w2 := w0.(log := ps[..2]), w0.(log := ps);
    assert UntilKilled(ps[1], ps[2], q) == [Enqueue(ps[1]), Enqueue(ps[2])] + [Append, Append, Kill(q)];
    FoldPrefix(init, ps, 2, apply);
    hide Run, CrashRuns.Step, SegmentBytes, Fold, UntilKilled, KilledWorld;
    CommitStep(w0, ps[1], ps[..2], init, apply);
    CommitStep(w1, ps[2], ps, init, apply);
    RunPath([w0, w1, w2], [Enqueue(ps[1]), Enqueue(ps[2])], init, apply);
    RunJoined(w0, [Enqueue(ps[1]), Enqueue(ps[2])], [Append, Append, Kill(q)], init, apply);
    WriteAndDie(w2, ps, q, init, apply);
  }

  lemma {:induction false} WriteAndDie<S>(w: World<S>, ps: seq<bytes>, q: nat, init: S, apply: Applier<S>)
    requires |ps| == 3 && Fits(1, ps) && |SegmentBytes(1, ps[..1])| <= q <= |SegmentBytes(1, ps)|
    requires w == KilledWorld(ps, q, init).(written := 1, killed := None,
      phase := Running(File(SegmentBytes(1, ps[..1]), SegmentBytes(1, ps[..1]))))
    ensures Run(w, [Append, Append, Kill(q)], init, apply) == Some(KilledWorld(ps, q, init))
  {
    var one := SegmentBytes(1, ps[..1]);
    var w3 := w.(written := 2, phase := Running(File(one, SegmentBytes(1, ps[..2]))));
    var w4 := w.(written := 3, phase := Running(File(one, SegmentBytes(1, ps))));
    hide Run, CrashRuns.Step, SegmentBytes;
    WriteNth(w, ps, 1, init, apply);
    WriteNth(w3, ps, 2, init, apply);
    assert ps[..3] == ps;
    KillStep(w4, q, init, apply);
    RunPath([w, w3, w4, KilledWorld(ps, q, init)], [Append, Append, Kill(q)], init, apply);
  }

  /** Writing transaction n + 1 of a log whose first is synced. */
  lemma {:induction false} WriteNth<S>(w: World<S>, ps: seq<bytes>, n: nat, init: S, apply: Applier<S>)
    requires Alive(w) && w.start == 1 && w.log == ps && w.written == n && 1 <= n < |ps| && Fits(1, ps)
    requires w.phase.Running? && w.phase.active.current == SegmentBytes(1, ps[..n])
    requires w.flushed == |SegmentBytes(1, ps[..1])|
    ensures CrashRuns.Step(w, Append, init, apply) == Some(w.(written := n + 1,
      phase := Running(File(w.phase.active.durable, SegmentBytes(1, ps[..n + 1])))))
  {
    StretchGrows(1, ps, 1, n);
    assert Stretch(ps, 0, 1) == ps[..1] && Stretch(ps, 0, n) == ps[..n];
    assert ps[..n] + [ps[n]] == ps[..n + 1] == ps[0..n + 1];
    hide CrashRuns.Step, SegmentBytes;
    WriteStep(w, ps[..n], ps[n], init, apply);
  }

  lemma {:induction false} KilledRun<S>(ps: seq<bytes>, q: nat, init: S, apply: Applier<S>)
    requires |ps| == 3 && Fits(1, ps) && Fold(init, ps, apply).Some?
    requires |SegmentBytes(1, ps[..1])| <= q <= |SegmentBytes(1, ps)|
    ensures Run(Fresh(init), [Restart([])] + Onward(ps[0], 1) + UntilKilled(ps[1], ps[2], q), init, apply)
         == Some(KilledWorld(ps, q, init))
  {
    FirstApplied(ps, init, apply);
    hide *;
    FirstCommit(ps[0], init, apply);
    KilledTail(ps, q, init, apply);
    RunJoined(Fresh(init), [Restart([])] + Onward(ps[0], 1), UntilKilled(ps[1], ps[2], q), init, apply);
  }

  lemma {:induction false} FirstApplied<S>(ps: seq<bytes>, init: S, apply: Applier<S>)
    requires ps != [] && Fold(init, ps, apply).Some?
    ensures apply(init, ps[0]).Some? && |Fresh(init).log| < MAX_U64
    ensures Fits(1, ps) ==> |ps[0]| <= MAX_PAYLOAD
  {
  }

  /**
   * The first transaction is synced, the second is whole in what the operating system holds, the third is
   * cut off. Restarting reports the second as durable although it is not, and starts a fresh segment.
   */
  lemma {:induction false} TornKillHappens<S(!new)>(ps: seq<bytes>, q: nat, init: S, apply: Applier<S>)
    requires |ps| == 3 && Fits(1, ps) && Fold(init, ps, apply).Some?
    requires |SegmentBytes(1, ps[..2])| < q < |SegmentBytes(1, ps)|
    ensures var w := KilledWorld(ps, q, init);
      && Reachable(w, init, apply)
      && var w' := AfterRestart(w, [None], init, apply);
         && w'.Some? && w'.value.phase.Creating? && w'.value.phase.file.None? && Alive(w'.value)
         && w'.value.durable == 2 > w.synced && !AllWhole(w'.value.sealed)
  {
    var actions := [Restart([])] + Onward(ps[0], 1) + UntilKilled(ps[1], ps[2], q);
    NoLossSafe(Fresh(init), actions, init, apply);
    CutThird(ps, q);
    hide *;
    var w := KilledWorld(ps, q, init);
    KilledRun(ps, q, init, apply);
    ReachedBy(w, actions, init, apply);
    ReachableOk(w, init, apply);
    TornShown(ps, q);
    KilledFound(ps, q, init);
    FoundOk(w, init, apply);
    RestartsTorn(w, SegmentBytes(1, ps)[..q], init, apply);
  }

  lemma {:induction false} TornShown(ps: seq<bytes>, q: nat)
    requires |ps| == 3 && Fits(1, ps) && |SegmentBytes(1, ps[..2])| < q < |SegmentBytes(1, ps)|
    ensures var f := SegmentFile(1, SegmentBytes(1, ps)[..q]);
      && NextStart(f) == 3 && |f.data| >= SEGMENT_HEADER
      && Newest(f, ps) && !EndsWhole(f, ps)
  {
    var f := SegmentFile(1, SegmentBytes(1, ps)[..q]);
    var tail := f.data[|SegmentBytes(1, ps[..2])|..];
    CutThird(ps, q);
    assert Stretch(ps, 0, 2) == ps[..2];
    hide Encoded, RecordBytes, FileRecords;
    assert CutShort(tail, Entry(3, ps[2]));
    HoldsFrom(1, ps, 2, f.data);
    HeldRecords(f, ps, 2);
  }

  lemma {:induction false} CutThird(ps: seq<bytes>, q: nat)
    requires |ps| == 3 && Fits(1, ps) && |SegmentBytes(1, ps[..2])| < q < |SegmentBytes(1, ps)|
    ensures SegmentBytes(1, ps[..2]) <= SegmentBytes(1, ps)[..q]
    ensures |SegmentBytes(1, ps[..1])| <= q
    ensures var tail := SegmentBytes(1, ps)[..q][|SegmentBytes(1, ps[..2])|..];
      tail < RecordBytes(Entry(3, ps[2])) && !AllZero(tail)
  {
    hide RecordBytes;
    EncodedSplit(1, ps, 2);
    EncodedSplit(1, ps[..2], 1);
    assert ps[..2][..1] == ps[..1];
    var last := ps[2..];
    assert last == [ps[2]] && last[1..] == [];
    EncodedCons(3, last);
    EncodedNone(4);
    var tail := SegmentBytes(1, ps)[..q][|SegmentBytes(1, ps[..2])|..];
    assert SegmentBytes(1, ps) == SegmentBytes(1, ps[..2]) + RecordBytes(Entry(3, ps[2]));
    assert tail == RecordBytes(Entry(3, ps[2]))[..|tail|];
    FirstByte(ps[2]);
    assert tail[0] == 3;
  }

  lemma {:induction false} FirstByte(p: bytes)
    requires |p| <= MAX_PAYLOAD
    ensures RecordBytes(Entry(3, p))[0] == 3
  {
    assert ToLE(3, 8)[0] == 3;
  }

  lemma {:induction false} KilledFound<S>(ps: seq<bytes>, q: nat, init: S)
    requires |ps| == 3 && Fits(1, ps) && |SegmentBytes(1, ps[..2])| < q < |SegmentBytes(1, ps)|
    ensures var w := KilledWorld(ps, q, init);
      && Found(w) == [Segment(1, File(SegmentBytes(1, ps[..1]), SegmentBytes(1, ps)[..q]))]
      && !Alive(w) && !w.phase.Down? && w.start == w.synced == 1 && w.log == ps && w.sealed == []
      && NextStart(SegmentFile(1, SegmentBytes(1, ps[..1]))) == 2
  {
    var w := KilledWorld(ps, q, init);
    EncodedSplit(1, ps[..2], 1);
    assert ps[..2][..1] == ps[..1];
    hide Encoded;
    var one := SegmentBytes(1, ps[..1]);
    assert Survivor(File(one, SegmentBytes(1, ps)), q) == SegmentBytes(1, ps)[..q];
    assert Stretch(ps, 0, 1) == ps[..1] && one[|one|..] == [];
    hide FileRecords;
    HoldsFrom(1, ps, 1, one);
    HeldRecords(SegmentFile(1, one), ps, 1);
  }

  lemma {:induction false} RestartsTorn<S>(w: World<S>, shown: bytes, init: S, apply: Applier<S>)
    requires Steady(w, init, apply) && w.snaps != [] && DownOk(w, AllShown(Found(w))) && !Alive(w) && !w.phase.Down?
    requires |Found(w)| == 1 && Found(w)[0].start == 1 && Found(w)[0].file.current == shown && |w.log| == 3
    requires NextStart(Bare(Found(w)[0])) == 2
    requires var f := SegmentFile(1, shown);
      NextStart(f) == 3 && |f.data| >= SEGMENT_HEADER && Newest(f, w.log) && !EndsWhole(f, w.log)
    ensures var w' := AfterRestart(w, [None], init, apply);
      && w'.Some? && w'.value.phase.Creating? && w'.value.phase.file.None? && Alive(w'.value)
      && w'.value.durable == 2 && !AllWhole(w'.value.sealed)
  {
    var dir := AllShown(Found(w));
    assert dir[0] == SegmentFile(1, shown);
    assert SoundIndexes(dir, [None]) && NewestFirst(w.snaps);
    hide Fold, Found, FileRecords, Newest, EndsWhole, Recover, SoundIndexes, SnapshotsFrom, Chain;
    assert !CutHeader(dir) && Reach(w, dir) == 2;
    RecoverOutcome(w, dir, [None], init, apply);
    assert !Whole(Found(w)[0]);
  }
}
