/**
 * Runs with the offset index files in them: entries are written behind the records they name, removed on a
 * resume without a sync, and synced after the segment; a loss of power may bring back what was overwritten.
 */
module IndexedRuns {
  import opened Bytes
  import opened Records
  import opened SegmentScan
  import opened Segments
  import OffsetIndex
  import IndexCadence
  import opened Replay
  import opened Recovery
  import IndexScan
  import opened TornWrites
  import opened Listings
  import opened CrashRuns
  import opened IndexEntries

  // ---- index files --------------------------------------------------------

  /** A slot as last written, and the values it had since the file was last synced. */
  datatype Cell = Cell(slot: OffsetIndex.Slot, older: set<OffsetIndex.Slot>)

  type IndexFile = seq<Cell>

  function Slots(x: IndexFile): (r: seq<OffsetIndex.Slot>)
    ensures |r| == |x| && forall i :: 0 <= i < |x| ==> r[i] == x[i].slot
  {
    seq(|x|, i requires 0 <= i < |x| => x[i].slot)
  }

  function Overwritten(c: Cell, slot: OffsetIndex.Slot): (r: Cell) {
    if c.slot == slot then c else Cell(slot, c.older + {c.slot})
  }

  function Rewritten(x: IndexFile, slots: seq<OffsetIndex.Slot>): (r: IndexFile)
    requires |slots| == |x|
    ensures |r| == |x| && forall i :: 0 <= i < |x| ==> r[i] == Overwritten(x[i], slots[i])
  {
    seq(|x|, i requires 0 <= i < |x| => Overwritten(x[i], slots[i]))
  }

  /** A file that is durable as it is. */
  function Settled(slots: seq<OffsetIndex.Slot>): (r: IndexFile)
    ensures |r| == |slots| && forall i :: 0 <= i < |slots| ==> r[i] == Cell(slots[i], {})
  {
    seq(|slots|, i requires 0 <= i < |slots| => Cell(slots[i], {}))
  }

  /** A loss of power leaves in each slot its last value or one it had since the last sync. */
  predicate Leaves(x: IndexFile, slots: seq<OffsetIndex.Slot>) {
    |slots| == |x| && forall i :: 0 <= i < |x| ==> slots[i] == x[i].slot || slots[i] in x[i].older
  }

  /** The entry is in the file, or a loss of power can bring it back. */
  predicate Among(x: IndexFile, e: OffsetIndex.Slot) {
    exists i :: 0 <= i < |x| && (e == x[i].slot || e in x[i].older)
  }

  /** The raw slots of the index files of a listing. */
  function TablesOf(dir: seq<SegmentFile>, files: map<nat, IndexFile>): (r: IndexScan.Tables)
    ensures |r| == |dir|
    ensures forall i :: 0 <= i < |dir| ==>
      r[i] == if dir[i].start in files then Some(Slots(files[dir[i].start])) else None
  {
    seq(|dir|, i requires 0 <= i < |dir| =>
      if dir[i].start in files then Some(Slots(files[dir[i].start])) else None)
  }

  // ---- the machine --------------------------------------------------------

  /** `open`: the worker has the index of the active segment open; otherwise it runs without one. */
  datatype Indexed<S> = Indexed(w: World<S>, files: map<nat, IndexFile>, open: bool)

  /**
   * Steps of the log itself, and the points where an index comes in. With a capacity, Activate and Resume
   * open or create the index of the segment that is now appended to.
   */
  datatype Move =
    | Log(action: Action)
    | Activate(cap: Option<nat>)
    | MakeEntry(txID: nat)
    | SyncIndex
    | CloseIndex
    | LosePower(crash: Crash, tables: map<nat, seq<OffsetIndex.Slot>>)
    | Resume(cap: Option<nat>)

  /** initOffsetIndexForSegment: entries for transactions the segment does not have are removed, without a sync. */
  function OpenedIndex(files: map<nat, IndexFile>, start: nat, lastTx: u64, cap: nat): (r: Option<map<nat, IndexFile>>)
  {
    if start !in files then Some(files[start := Settled(OffsetIndex.Blanks(cap))])
    else if |files[start]| != cap then None
    else
      var ix := OffsetIndex.Reopened(Slots(files[start]), cap);
      var kept := OffsetIndex.Truncated(ix, IndexCadence.ResumeTarget(lastTx));
      Some(files[start := Rewritten(files[start], kept.slots)])
  }

  /** The worker starts on its active segment, with its index or without one. */
  function Started<S>(x: Indexed<S>, cap: Option<nat>): (r: Option<Indexed<S>>) {
    if cap.None? then Some(x.(open := false))
    else if !x.w.phase.Running? || x.w.written > MAX_U64 then None
    else
      match OpenedIndex(x.files, x.w.start, if x.w.written >= x.w.start then x.w.written else 0, cap.value)
      case None => None
      case Some(files) => Some(x.(files := files, open := true))
  }

  /** The writer holds an index entry back until another record follows or the segment is synced. */
  predicate Due<S>(w: World<S>, txID: nat) {
    txID < w.written || w.synced == w.written
  }

  /** Where the record of a written transaction starts. */
  ghost function EntryOffset<S>(w: World<S>, txID: nat): (r: nat)
    requires 0 < w.start <= txID <= w.written && Storable(w.log, w.written)
  {
    OffsetOf(w.start, Stretch(w.log, w.start - 1, w.written), txID - w.start)
  }

  ghost function AfterEntry<S>(x: Indexed<S>, txID: nat): (r: Option<Indexed<S>>) {
    var w := x.w;
    if !Alive(w) || !w.phase.Running? || !x.open || w.start !in x.files || !Due(w, txID) then None
    else if !(0 < w.start <= txID <= w.written) || !Storable(w.log, w.written) then None
    else
      var offset := EntryOffset(w, txID);
      var file := x.files[w.start];
      if offset > MAX_U64 then None
      else
        match OffsetIndex.Appended(OffsetIndex.Reopened(Slots(file), |file|), txID, offset)
        case Err(_) => None
        case Ok(ix) => Some(x.(files := x.files[w.start := Rewritten(file, ix.slots)]))
  }

  predicate IndexSynced<S>(x: Indexed<S>) {
    x.w.start in x.files ==> x.files[x.w.start] == Settled(Slots(x.files[x.w.start]))
  }

  /** The steps of the log that have nothing to do with an index, or wait for its sync. */
  predicate Direct<S>(x: Indexed<S>, a: Action) {
    match a
    case Die(_) => false
    case Restart(_) => false
    case SyncDirectory => !x.w.phase.Creating?
    case Report(_) => x.open ==> IndexSynced(x)
    case _ => true
  }

  ghost function AfterResume<S>(x: Indexed<S>, cap: Option<nat>, init: S, apply: Applier<S>): (r: Option<Indexed<S>>) {
    var w := x.w;
    var dir := AllShown(Found(w));
    if Alive(w) || !NewestFirst(w.snaps) then None
    else
      match IndexScan.RecoverFast(dir, TablesOf(dir, x.files), w.snaps, init, apply)
      case Err(_) => None
      case Ok(r) => if r.txID > |w.log| then None else Started(x.(w := Resumed(w, r)), cap)
  }

  /** One step of a run; None where the step is not enabled. */
  ghost function Next<S>(x: Indexed<S>, m: Move, init: S, apply: Applier<S>): (r: Option<Indexed<S>>) {
    match m
    case Log(a) =>
      if !Direct(x, a) then None
      else
        (match CrashRuns.Step(x.w, a, init, apply)
         case None => None
         case Some(w) => Some(x.(w := w, open := x.open && !a.Rotate? && !a.Kill?)))
    case Activate(cap) =>
      if !x.w.phase.Creating? then None
      else
        (match CrashRuns.Step(x.w, SyncDirectory, init, apply)
         case None => None
         case Some(w) => Started(x.(w := w), cap))
    case MakeEntry(t) => AfterEntry(x, t)
    case SyncIndex =>
      if !Alive(x.w) || !x.w.phase.Running? || !x.open || x.w.start !in x.files || x.w.synced != x.w.written then None
      else Some(x.(files := x.files[x.w.start := Settled(Slots(x.files[x.w.start]))]))
    case CloseIndex => if Alive(x.w) then Some(x.(open := false)) else None
    case LosePower(c, tables) =>
      if !Possible(x.w, c) || !Returned(x.files, tables) then None
      else
        Some(Indexed(x.w.(phase := Down(Survivors(x.w, c)), killed := None),
                     Back(tables), false))
    case Resume(cap) => AfterResume(x, cap, init, apply)
  }

  /** Index files as a loss of power left them. */
  function Back(tables: map<nat, seq<OffsetIndex.Slot>>): (r: map<nat, IndexFile>)
    ensures r.Keys == tables.Keys && forall k :: k in tables ==> r[k] == Settled(tables[k])
  {
    map k | k in tables :: Settled(tables[k])
  }

  /** What a loss of power can leave of the index files; a file whose name was not durable may be gone. */
  predicate Returned(files: map<nat, IndexFile>, tables: map<nat, seq<OffsetIndex.Slot>>) {
    tables.Keys <= files.Keys && forall k :: k in tables ==> Leaves(files[k], tables[k])
  }

  ghost function Moves<S>(x: Indexed<S>, moves: seq<Move>, init: S, apply: Applier<S>): (r: Option<Indexed<S>>)
    decreases |moves|
  {
    if moves == [] then Some(x)
    else
      match Next(x, moves[0], init, apply)
      case None => None
      case Some(x') => Moves(x', moves[1..], init, apply)
  }

  /** The data directory as first built, without index files. */
  function Unindexed<S>(init: S): (r: Indexed<S>) {
    Indexed(Fresh(init), map[], false)
  }

  // ---- entries and the files they point into ------------------------------

  function AllNamed(start: nat, fs: seq<File>): (r: seq<Segment>)
    ensures |r| == |fs| && forall i :: 0 <= i < |fs| ==> r[i] == Segment(start, fs[i])
  {
    seq(|fs|, i requires 0 <= i < |fs| => Segment(start, fs[i]))
  }

  function NewestHeld<S>(w: World<S>): (r: seq<Segment>) {
    match w.phase
    case Running(f) => [Segment(w.start, f)]
    case Creating(None, earlier) => AllNamed(w.start, earlier)
    case Creating(Some(f), earlier) => [Segment(w.start, f)] + AllNamed(w.start, earlier)
    case Down(_) => []
  }

  /** Every file that a restart, or a loss of power before it, can bring to light. */
  function Held<S>(w: World<S>): (r: seq<Segment>) {
    if w.phase.Down? then Solid(w.phase.dir) else w.unlinked + w.sealed + NewestHeld(w)
  }

  /** In the file, and in whatever a loss of power leaves of it, the entry names its record or fails its validation. */
  ghost predicate Quiet(s: Segment, e: OffsetIndex.Slot) {
    && (|s.file.current| >= SEGMENT_HEADER ==> SoundEntry(Shown(s), e))
    && forall p :: 0 <= p <= |s.file.current| && |Left(s, p).data| >= SEGMENT_HEADER ==> SoundEntry(Left(s, p), e)
  }

  ghost predicate AllQuiet(files: map<nat, IndexFile>, ss: seq<Segment>) {
    forall s, e :: s in ss && s.start in files && Among(files[s.start], e) ==> Quiet(s, e)
  }

  /**
   * The record about to be appended completes nothing that reads as the record of an entry: not of one in the
   * index, nor of one that a loss of power can bring back.
   */
  ghost predicate Undisguised<S>(x: Indexed<S>) {
    AfterAppend(x.w).Some? && AfterAppend(x.w).value.phase.Running? && x.w.start in x.files ==>
      forall e :: Among(x.files[x.w.start], e) ==>
        Quiet(Segment(x.w.start, AfterAppend(x.w).value.phase.active), e)
  }

  // ---- from step to step ----------------------------------------------------

  /** An entry that is quiet in one file is quiet in the other. */
  ghost predicate Sheltered(s: Segment, s': Segment) {
    s'.start == s.start && forall e :: Quiet(s, e) ==> Quiet(s', e)
  }

  ghost predicate Covered(ss: seq<Segment>, s': Segment) {
    Extent(s'.file) <= SEGMENT_HEADER || exists s :: s in ss && Sheltered(s, s')
  }

  ghost predicate Covers(ss: seq<Segment>, ss': seq<Segment>) {
    forall s' :: s' in ss' ==> Covered(ss, s')
  }

  /** No entry is new. */
  ghost predicate Known(files: map<nat, IndexFile>, files': map<nat, IndexFile>) {
    forall k, e :: k in files' && Among(files'[k], e) ==> e == OffsetIndex.EMPTY || (k in files && Among(files[k], e))
  }

  lemma {:induction false} Carry(files: map<nat, IndexFile>, ss: seq<Segment>, files': map<nat, IndexFile>,
      ss': seq<Segment>)
    requires AllQuiet(files, ss) && Covers(ss, ss') && Known(files, files')
    ensures AllQuiet(files', ss')
  {
    hide Quiet, Extent, Among;
    forall s', e | s' in ss' && s'.start in files' && Among(files'[s'.start], e) ensures Quiet(s', e) {
      assert Covered(ss, s');
      if e == OffsetIndex.EMPTY {
        EmptyQuiet(s');
      } else if Extent(s'.file) <= SEGMENT_HEADER {
        SmallQuiet(s', e);
      } else {
        var s :| s in ss && Sheltered(s, s');
        assert Among(files[s.start], e);
      }
    }
  }

  lemma {:induction false} EmptyQuiet(s: Segment)
    ensures Quiet(s, OffsetIndex.EMPTY)
  {
  }

  /** In a file no longer than its header no entry passes. */
  lemma {:induction false} SmallQuiet(s: Segment, e: OffsetIndex.Slot)
    requires Extent(s.file) <= SEGMENT_HEADER
    ensures Quiet(s, e)
  {
    hide Records.ScanNext, Boundary, BodyScan;
    forall p | 0 <= p <= |s.file.current| && |Left(s, p).data| >= SEGMENT_HEADER ensures SoundEntry(Left(s, p), e) {
      SurvivorExtent(s.file, p);
    }
  }

  lemma {:induction false} Itself(s: Segment)
    ensures Sheltered(s, s)
  {
  }

  /** A listing of which every file was there before. */
  lemma {:induction false} Sublisting(ss: seq<Segment>, ss': seq<Segment>)
    requires forall s :: s in ss' ==> s in ss
    ensures Covers(ss, ss')
  {
    hide Sheltered;
    forall s' | s' in ss' ensures Covered(ss, s') {
      Itself(s');
    }
  }

  lemma {:induction false} CoversBoth(ss: seq<Segment>, a: seq<Segment>, b: seq<Segment>)
    requires Covers(ss, a) && Covers(ss, b)
    ensures Covers(ss, a + b)
  {
    hide Covered;
  }

  lemma {:induction false} SameFiles(files: map<nat, IndexFile>)
    ensures Known(files, files)
  {
    hide Among;
  }

  // ---- files cut short ----------------------------------------------------

  lemma {:induction false} SurvivorExtent(f: File, p: nat)
    requires p <= |f.current|
    ensures |Survivor(f, p)| <= Extent(f) && |f.durable| <= |Survivor(f, p)|
  {
  }

  /** What a loss of power left is durable. */
  lemma {:induction false} LeftSheltered(s: Segment, p: nat)
    requires p <= |s.file.current|
    ensures Sheltered(s, Segment(s.start, File(Left(s, p).data, Left(s, p).data)))
  {
    hide SoundEntry;
    var s' := Segment(s.start, File(Left(s, p).data, Left(s, p).data));
    assert Shown(s') == Left(s, p);
    forall q | 0 <= q <= |s'.file.current| ensures Left(s', q) == Left(s, p) {
      assert Survivor(s'.file, q) == s'.file.current;
    }
  }

  /** What a kill shows may still be cut shorter. */
  lemma {:induction false} ShownSheltered(s: Segment, p: nat)
    requires p <= |s.file.current|
    ensures Sheltered(s, Segment(s.start, File(s.file.durable, Left(s, p).data)))
  {
    hide SoundEntry, Survivor;
    var s' := Segment(s.start, File(s.file.durable, Left(s, p).data));
    assert Shown(s') == Left(s, p);
    forall q | 0 <= q <= |s'.file.current| ensures Left(s', q) == Left(s, if q <= p then q else p) {
      SurvivorTwice(s.file, p, q);
    }
  }

  // ---- every step -----------------------------------------------------------

  lemma {:induction false} SyncSheltered(start: nat, f: File)
    ensures Sheltered(Segment(start, f), Segment(start, File(f.current, f.current)))
  {
    hide SoundEntry;
    var s' := Segment(start, File(f.current, f.current));
    forall q | 0 <= q <= |f.current| ensures Left(s', q) == Shown(Segment(start, f)) {
      assert Survivor(s'.file, q) == f.current;
    }
  }

  /** Files that are only listed elsewhere, synced, or no longer than a segment header. */
  lemma {:induction false} LogCovers<S>(w: World<S>, a: Action, init: S, apply: Applier<S>)
    requires !a.Append? && !a.Die? && !a.Restart? && CrashRuns.Step(w, a, init, apply).Some?
    requires w.phase.Creating? && w.phase.file.Some? ==> HeaderFile(w.phase.file.value)
    ensures Covers(Held(w), Held(CrashRuns.Step(w, a, init, apply).value))
  {
    hide Covers, Covered, Sheltered, Fold, AfterAppend, AfterRestart, NextStart;
    var w' := CrashRuns.Step(w, a, init, apply).value;
    match a {
      case Sync => SyncCovers(w);
      case Rotate => RotateCovers(w);
      case Unlink =>
        assert w'.unlinked + w'.sealed == w.unlinked + w.sealed;
        Sublisting(Held(w), Held(w'));
      case MakeFile => CreationCovers(w, w');
      case WriteHeader => CreationCovers(w, w');
      case SyncHeader => CreationCovers(w, w');
      case SyncDirectory =>
        if w.phase.Running? {
          Sublisting(Held(w), Held(w'));
        } else {
          CreationCovers(w, w');
        }
      case Append =>
      case Die(_) =>
      case Restart(_) =>
      case _ => Sublisting(Held(w), Held(w'));
    }
  }

  lemma {:induction false} SyncCovers<S>(w: World<S>)
    requires w.phase.Running?
    ensures Covers(Held(w), Held(w.(synced := w.written, flushed := |w.phase.active.current|,
      phase := Running(File(w.phase.active.current, w.phase.active.current)))))
  {
    hide Sheltered;
    var f := w.phase.active;
    var s, s' := Segment(w.start, f), Segment(w.start, File(f.current, f.current));
    assert s in Held(w);
    SyncSheltered(w.start, f);
    forall t | t in w.unlinked + w.sealed ensures Covered(Held(w), t) {
      assert t in Held(w);
      Itself(t);
    }
  }

  lemma {:induction false} RotateCovers<S>(w: World<S>)
    requires w.phase.Running?
    ensures var f := w.phase.active.current;
      Covers(Held(w), Held(w.(sealed := w.sealed + [Segment(w.start, File(f, f))], start := w.written + 1, flushed := 0,
                              phase := Creating(None, []))))
  {
    hide Sheltered;
    var f := w.phase.active;
    assert Segment(w.start, f) in Held(w);
    SyncSheltered(w.start, f);
    forall t | t in w.unlinked + w.sealed ensures Covered(Held(w), t) {
      assert t in Held(w);
      Itself(t);
    }
  }

  /** The steps of CreateSegment touch a file no longer than its header. */
  lemma {:induction false} CreationCovers<S>(w: World<S>, w': World<S>)
    requires w.phase.Creating? && w'.start == w.start && w'.sealed == w.sealed
    requires forall s :: s in w'.unlinked ==> s in w.unlinked
    requires match w'.phase
      case Running(f) => Extent(f) <= SEGMENT_HEADER
      case Creating(file, earlier) => file.Some? && Extent(file.value) <= SEGMENT_HEADER && earlier == w.phase.earlier
      case Down(_) => false
    ensures Covers(Held(w), Held(w'))
  {
    hide Sheltered, Extent;
    forall t | t in Held(w') ensures Covered(Held(w), t) {
      Itself(t);
      if Extent(t.file) > SEGMENT_HEADER {
        assert t in Held(w);
      }
    }
  }

  lemma {:induction false} HeaderOf<S>(w: World<S>, init: S, apply: Applier<S>)
    requires Inv(w, init, apply)
    ensures w.phase.Creating? && w.phase.file.Some? ==> HeaderFile(w.phase.file.value)
  {
    hide Fold, StoredChain, SnapshotsOk, EarlierOk, LossesReported;
  }

  // ---- a loss of power ------------------------------------------------------

  lemma {:induction false} DieCovers<S>(w: World<S>, c: Crash)
    requires Possible(w, c)
    ensures Covers(Held(w), Solid(Survivors(w, c)))
  {
    hide AllLeft, NewestLeft, NewestPossible, Possible, Survivors, Covers, Held;
    PossibleParts(w, c);
    var front, left := AllLeft(w.unlinked + w.sealed, c.cuts)[c.restored..], NewestLeft(w, c.name, c.kept);
    FrontCovers(w, c.cuts, c.restored);
    LeftCovers(w, c.name, c.kept);
    CoversBoth(Held(w), Solid(front), Solid(left));
    assert Solid(front + left) == Solid(front) + Solid(left);
  }

  lemma {:induction false} FrontCovers<S>(w: World<S>, cuts: seq<nat>, k: nat)
    requires !w.phase.Down? && Cuts(w.unlinked + w.sealed, cuts) && k <= |w.unlinked + w.sealed|
    ensures Covers(Held(w), Solid(AllLeft(w.unlinked + w.sealed, cuts)[k..]))
  {
    hide Sheltered, Left, NewestHeld;
    var ss, left := w.unlinked + w.sealed, AllLeft(w.unlinked + w.sealed, cuts)[k..];
    forall s' | s' in Solid(left) ensures Covered(Held(w), s') {
      var i :| 0 <= i < |left| && s' == Solid(left)[i];
      assert left[i] == Left(ss[k + i], cuts[k + i]);
      LeftSheltered(ss[k + i], cuts[k + i]);
      SameNames(ss[k + i], cuts[k + i]);
      assert ss[k + i] in Held(w);
    }
  }

  lemma {:induction false} LeftCovers<S>(w: World<S>, name: Name, kept: nat)
    requires NewestPossible(w, name, kept)
    ensures Covers(Held(w), Solid(NewestLeft(w, name, kept)))
  {
    hide Survivor, Sheltered, Extent;
    match w.phase
    case Running(f) =>
      LeftSheltered(Segment(w.start, f), kept);
      assert Segment(w.start, f) in Held(w);
    case Creating(file, earlier) =>
      match name {
        case Gone =>
        case Earlier(i) =>
          LeftSheltered(Segment(w.start, earlier[i]), kept);
          assert Segment(w.start, earlier[i]) == AllNamed(w.start, earlier)[i];
          assert Segment(w.start, earlier[i]) in NewestHeld(w);
        case Latest =>
          LeftSheltered(Segment(w.start, file.value), kept);
          assert Segment(w.start, file.value) in NewestHeld(w);
      }
  }

  // ---- a restart ----------------------------------------------------------

  lemma {:induction false} FoundCovers<S>(w: World<S>)
    ensures Covers(Held(w), Found(w))
  {
    if w.phase.Down? {
      Sublisting(Held(w), Found(w));
    } else {
      hide Covers, NewestShown, NewestHeld;
      Sublisting(Held(w), w.sealed);
      ShownCovers(w);
      CoversBoth(Held(w), w.sealed, NewestShown(w));
    }
  }

  lemma {:induction false} ShownCovers<S>(w: World<S>)
    requires !w.phase.Down?
    ensures Covers(Held(w), NewestShown(w))
  {
    hide Survivor, Sheltered, Extent;
    match w.phase
    case Running(f) =>
      ShownSheltered(Segment(w.start, f), Flushed(w, f));
      assert Segment(w.start, f) in Held(w);
    case Creating(Some(f), _) =>
      ShownSheltered(Segment(w.start, f), Flushed(w, f));
      assert Segment(w.start, f) in NewestHeld(w);
    case Creating(None, _) =>
  }

  /** The files a resumed worker has before it are among those found, or were already superseded. */
  lemma {:induction false} ResumeCovers<S>(w: World<S>, r: Recovered<S>)
    requires r.txID <= |w.log| && (Names(w) != [] ==> w.start == r.txID + 1)
    ensures Covers(Held(w), Held(Resumed(w, r)))
  {
    hide Covers, Held, Found;
    FoundCovers(w);
    PendingCovers(w);
    var ss, back := Found(w), AllNamed(r.txID + 1, Names(w));
    hide Names, Pending;
    var n := |ss| - 1;
    var w' := Resumed(w, r);
    if n < 0 {
      CoversBoth(Held(w), Pending(w), back);
      HeldCreating(w', Pending(w), [], r.txID + 1, Names(w));
    } else if r.plan.mode == AppendInPlace {
      HeldRunning(w', ss, n);
    } else if ss[n].start == r.txID + 1 {
      FrontOf(Held(w), ss, n);
      CoversBoth(Held(w), Pending(w), ss[..n]);
      CoversBoth(Held(w), Pending(w) + ss[..n], back);
      CoversBoth(Held(w), Pending(w) + ss[..n] + back, [ss[n]]);
      HeldCreating(w', Pending(w), ss[..n], r.txID + 1, Names(w) + [ss[n].file]);
      assert AllNamed(r.txID + 1, Names(w) + [ss[n].file]) == back + [ss[n]];
      assert Pending(w) + ss[..n] + (back + [ss[n]]) == Pending(w) + ss[..n] + back + [ss[n]];
    } else {
      CoversBoth(Held(w), Pending(w), ss);
      CoversBoth(Held(w), Pending(w) + ss, back);
      HeldCreating(w', Pending(w), ss, r.txID + 1, Names(w));
    }
  }

  lemma {:induction false} FrontOf(all: seq<Segment>, ss: seq<Segment>, n: nat)
    requires Covers(all, ss) && n < |ss|
    ensures Covers(all, ss[..n]) && Covers(all, [ss[n]])
  {
    hide Covered;
  }

  lemma {:induction false} HeldRunning<S>(w: World<S>, ss: seq<Segment>, n: nat)
    requires n == |ss| - 1 && w.unlinked == [] && w.sealed == ss[..n] && w.start == ss[n].start
    requires w.phase == Running(ss[n].file)
    ensures Held(w) == ss
  {
    assert ss == ss[..n] + [ss[n]];
    assert w.unlinked + w.sealed == w.sealed;
  }

  lemma {:induction false} HeldCreating<S>(w: World<S>, unlinked: seq<Segment>, sealed: seq<Segment>, start: nat,
      earlier: seq<File>)
    requires w.unlinked == unlinked && w.sealed == sealed && w.start == start && w.phase == Creating(None, earlier)
    ensures Held(w) == unlinked + sealed + AllNamed(start, earlier)
    ensures sealed == [] ==> Held(w) == unlinked + AllNamed(start, earlier)
  {
    assert unlinked + [] == unlinked;
  }

  lemma {:induction false} PendingCovers<S>(w: World<S>)
    ensures Covers(Held(w), Pending(w))
    ensures Covers(Held(w), AllNamed(w.start, Names(w)))
  {
    hide Covers;
    Sublisting(Held(w), Pending(w));
    Sublisting(Held(w), AllNamed(w.start, Names(w)));
  }

  // ---- what is written to the index files ---------------------------------

  lemma {:induction false} RewrittenValues(x: IndexFile, slots: seq<OffsetIndex.Slot>, e: OffsetIndex.Slot)
    requires |slots| == |x| && Among(Rewritten(x, slots), e)
    ensures Among(x, e) || e in slots
  {
    var i :| 0 <= i < |x| && (e == Rewritten(x, slots)[i].slot || e in Rewritten(x, slots)[i].older);
    assert e == slots[i] || e == x[i].slot || e in x[i].older;
  }

  lemma {:induction false} SlotAmong(x: IndexFile, e: OffsetIndex.Slot)
    requires e in Slots(x)
    ensures Among(x, e)
  {
    var i :| 0 <= i < |x| && Slots(x)[i] == e;
  }

  /** Opening an index clears slots and changes no other. */
  lemma {:induction false} OpenedSlots(slots: seq<OffsetIndex.Slot>, target: u64, e: OffsetIndex.Slot)
    requires e in OffsetIndex.Truncated(OffsetIndex.Reopened(slots, |slots|), target).slots
    ensures e == OffsetIndex.EMPTY || e in slots
  {
    hide OffsetIndex.Prefix, OffsetIndex.Below;
    var ix := OffsetIndex.Reopened(slots, |slots|);
    var t := OffsetIndex.Truncated(ix, target).slots;
    var i :| 0 <= i < |t| && t[i] == e;
    assert t[i] == OffsetIndex.EMPTY || t[i] == ix.slots[i];
    assert ix.slots[i] == OffsetIndex.EMPTY || ix.slots[i] == slots[i];
  }

  lemma {:induction false} SettledValues(slots: seq<OffsetIndex.Slot>, e: OffsetIndex.Slot)
    requires Among(Settled(slots), e)
    ensures e in slots
  {
  }

  lemma {:induction false} OpenedKnown(files: map<nat, IndexFile>, start: nat, lastTx: u64, cap: nat)
    requires OpenedIndex(files, start, lastTx, cap).Some?
    ensures Known(files, OpenedIndex(files, start, lastTx, cap).value)
  {
    hide Among, Rewritten, Settled, Slots, OffsetIndex.Truncated, OffsetIndex.Reopened;
    var files' := OpenedIndex(files, start, lastTx, cap).value;
    forall k, e | k in files' && Among(files'[k], e)
      ensures e == OffsetIndex.EMPTY || (k in files && Among(files[k], e))
    {
      if k == start && start !in files {
        SettledValues(OffsetIndex.Blanks(cap), e);
      } else if k == start {
        var ix := OffsetIndex.Reopened(Slots(files[start]), cap);
        var slots := OffsetIndex.Truncated(ix, IndexCadence.ResumeTarget(lastTx)).slots;
        RewrittenValues(files[start], slots, e);
        if e in slots {
          OpenedSlots(Slots(files[start]), IndexCadence.ResumeTarget(lastTx), e);
          if e != OffsetIndex.EMPTY {
            SlotAmong(files[start], e);
          }
        }
      }
    }
  }

  lemma {:induction false} StartedKnown<S>(x: Indexed<S>, cap: Option<nat>)
    requires Started(x, cap).Some?
    ensures Started(x, cap).value.w == x.w && Known(x.files, Started(x, cap).value.files)
  {
    hide Known, OpenedIndex;
    SameFiles(x.files);
    if cap.Some? {
      OpenedKnown(x.files, x.w.start, if x.w.written >= x.w.start then x.w.written else 0, cap.value);
    }
  }

  lemma {:induction false} ReturnedKnown(files: map<nat, IndexFile>, tables: map<nat, seq<OffsetIndex.Slot>>)
    requires Returned(files, tables)
    ensures Known(files, Back(tables))
  {
    hide Settled;
    var files' := Back(tables);
    forall k, e | k in files' && Among(files'[k], e) ensures k in files && Among(files[k], e) {
      SettledValues(tables[k], e);
      var i :| 0 <= i < |tables[k]| && tables[k][i] == e;
      assert Leaves(files[k], tables[k]);
    }
  }

  lemma {:induction false} SyncedKnown(files: map<nat, IndexFile>, start: nat)
    requires start in files
    ensures Known(files, files[start := Settled(Slots(files[start]))])
  {
    hide Settled, Among;
    var files' := files[start := Settled(Slots(files[start]))];
    forall k, e | k in files' && Among(files'[k], e) ensures k in files && Among(files[k], e) {
      if k == start {
        SettledValues(Slots(files[start]), e);
        SlotAmong(files[start], e);
      }
    }
  }

  // ---- entries made by the writer ------------------------------------------

  lemma {:induction false} OnlyActive<S>(w: World<S>, init: S, apply: Applier<S>, s: Segment)
    requires Inv(w, init, apply) && w.phase.Running? && s in Held(w) && s.start == w.start
    ensures s == Segment(w.start, w.phase.active)
  {
    UpParts(w, init, apply);
    hide Inv, UpOk, SegmentOk, Chain, NextStart;
    var ss := w.unlinked + w.sealed;
    ChainBelow(AllShown(ss), w.log, w.start);
    forall t | t in ss ensures t.start < w.start {
      var i :| 0 <= i < |ss| && ss[i] == t;
      assert AllShown(ss)[i].start == t.start;
    }
  }

  lemma {:induction false} CurrentHolds(start: nat, log: seq<bytes>, synced: nat, written: nat, f: File)
    requires Appending(start, log, synced, written, f)
    ensures 0 < start <= written + 1 && Storable(log, written)
    ensures Holds(SegmentFile(start, f.current), log, written + 1 - start)
  {
    hide Encoded;
  }

  lemma {:induction false} TailBound(start: nat, log: seq<bytes>, written: nat, f: SegmentFile, m: nat)
    requires 0 < start && f.start == start && start - 1 + m < written && Storable(log, written) && Holds(f, log, m)
    requires |TailOf(f, log, m)| < |RecordBytes(Entry(start + m, log[start - 1 + m]))|
    ensures |f.data| < OffsetOf(start, Stretch(log, start - 1, written), m + 1)
  {
    HeldShape(f, log, m);
    hide RecordBytes, Encoded, Holds, TailOf;
    var ps := Stretch(log, start - 1, written);
    var qs := Stretch(log, start - 1, start - 1 + m);
    assert ps[..m + 1] == qs + [log[start - 1 + m]];
    EncodedSnoc(start, qs, log[start - 1 + m]);
  }

  /** An entry that points at no byte inside a record is quiet, whatever a loss of power leaves. */
  lemma {:induction false} HarmlessQuiet(start: nat, log: seq<bytes>, synced: nat, written: nat, f: File,
      e: OffsetIndex.Slot)
    requires Appending(start, log, synced, written, f) && Harmless(Segment(start, f), e)
    ensures Quiet(Segment(start, f), e)
  {
    hide Appending, Holds, Harmless, SoundEntry, TailOf, TornTail, Encoded, Stretch, Storable, BodyScan, Survivor;
    var s := Segment(start, f);
    CurrentHolds(start, log, synced, written, f);
    HeldBody(Shown(s), log, written + 1 - start);
    HarmlessSound(s, e);
    forall p | 0 <= p <= |f.current| && |Left(s, p).data| >= SEGMENT_HEADER ensures SoundEntry(Left(s, p), e) {
      CutQuiet(start, log, synced, written, f, p, e);
    }
  }

  lemma {:induction false} CutQuiet(start: nat, log: seq<bytes>, synced: nat, written: nat, f: File, p: nat,
      e: OffsetIndex.Slot)
    requires Appending(start, log, synced, written, f) && Harmless(Segment(start, f), e)
    requires p <= |f.current| && |Survivor(f, p)| >= SEGMENT_HEADER
    ensures SoundEntry(SegmentFile(start, Survivor(f, p)), e)
  {
    hide Appending, Holds, Harmless, SoundEntry, TailOf, TornTail, Encoded, Stretch, Storable, BodyScan, Kept, OffsetOf,
      RecordBytes;
    var s, s' := Segment(start, f), Segment(start, File(Survivor(f, p), Survivor(f, p)));
    assert !HeaderLost(f, p);
    SurvivorExtent(f, p);
    hide Survivor;
    CurrentHolds(start, log, synced, written, f);
    var m := SurvivorHolds(start, log, synced, written, f, p);
    if start - 1 + m < written {
      TailBound(start, log, written, Shown(s'), m);
    }
    HarmlessCut(s, log, written + 1 - start, s', m, e);
    HeldBody(Shown(s'), log, m);
    HarmlessSound(s', e);
  }

  lemma {:induction false} MadeQuiet<S>(w: World<S>, txID: nat, e: OffsetIndex.Slot)
    requires w.phase.Running? && Appending(w.start, w.log, w.synced, w.written, w.phase.active)
    requires 0 < w.start <= txID <= w.written && Storable(w.log, w.written) && e.offset == EntryOffset(w, txID)
    ensures Quiet(Segment(w.start, w.phase.active), e)
  {
    hide Appending, Holds, OnBoundary, OffsetOf, Quiet;
    CurrentHolds(w.start, w.log, w.synced, w.written, w.phase.active);
    HeldBoundary(SegmentFile(w.start, w.phase.active.current), w.log, w.written + 1 - w.start, e.offset);
    assert OffsetAt(w.start, Stretch(w.log, w.start - 1, w.written), txID - w.start, e.offset);
    HarmlessQuiet(w.start, w.log, w.synced, w.written, w.phase.active, e);
  }

  lemma {:induction false} AppendedSlots(slots: seq<OffsetIndex.Slot>, key: u64, offset: u64, e: OffsetIndex.Slot)
    requires OffsetIndex.Appended(OffsetIndex.Reopened(slots, |slots|), key, offset).Ok?
    requires e in OffsetIndex.Appended(OffsetIndex.Reopened(slots, |slots|), key, offset).value.slots
    ensures e == OffsetIndex.EMPTY || e in slots || e == OffsetIndex.Slot(key, offset)
  {
    hide OffsetIndex.Prefix;
    var ix := OffsetIndex.Reopened(slots, |slots|);
    var t := OffsetIndex.Appended(ix, key, offset).value.slots;
    var i :| 0 <= i < |t| && t[i] == e;
    assert t[i] == OffsetIndex.Slot(key, offset) || t[i] == ix.slots[i];
    assert ix.slots[i] == OffsetIndex.EMPTY || ix.slots[i] == slots[i];
  }

  lemma {:induction false} EntryShape<S>(x: Indexed<S>, txID: nat)
    requires AfterEntry(x, txID).Some?
    ensures var w := x.w;
      && w.phase.Running? && w.start in x.files
      && 0 < w.start <= txID <= w.written && Storable(w.log, w.written)
      && var offset := EntryOffset(w, txID);
         var file := x.files[w.start];
         && txID <= MAX_U64 && offset <= MAX_U64
         && var ix := OffsetIndex.Appended(OffsetIndex.Reopened(Slots(file), |file|), txID, offset);
            && ix.Ok? && |ix.value.slots| == |file|
            && AfterEntry(x, txID).value == x.(files := x.files[w.start := Rewritten(file, ix.value.slots)])
  {
    hide EntryOffset, Slots, Rewritten, OffsetIndex.Prefix;
  }

  lemma {:induction false} EntryKeeps<S>(x: Indexed<S>, txID: nat, init: S, apply: Applier<S>)
    requires Inv(x.w, init, apply) && AllQuiet(x.files, Held(x.w)) && AfterEntry(x, txID).Some?
    ensures AfterEntry(x, txID).value.w == x.w && AllQuiet(AfterEntry(x, txID).value.files, Held(x.w))
  {
    hide Inv, Among, Held, Quiet, EntryOffset, Storable, Appending, OffsetIndex.Appended, OffsetIndex.Reopened,
      Rewritten, Slots, AfterEntry;
    EntryShape(x, txID);
    var w, x' := x.w, AfterEntry(x, txID).value;
    ActiveParts(w, init, apply);
    forall s, e | s in Held(w) && s.start in x'.files && Among(x'.files[s.start], e) ensures Quiet(s, e) {
      if s.start == w.start {
        OnlyActive(w, init, apply, s);
        NewValue(x, txID, e);
        if e == OffsetIndex.EMPTY {
          EmptyQuiet(s);
        } else if !Among(x.files[w.start], e) {
          MadeQuiet(w, txID, e);
        }
      }
    }
  }

  /** The only new value in the index is the new entry. */
  lemma {:induction false} NewValue<S>(x: Indexed<S>, txID: nat, e: OffsetIndex.Slot)
    requires AfterEntry(x, txID).Some? && x.w.start in AfterEntry(x, txID).value.files
    requires Among(AfterEntry(x, txID).value.files[x.w.start], e)
    ensures x.w.start in x.files && 0 < x.w.start <= txID <= x.w.written && Storable(x.w.log, x.w.written)
    ensures e == OffsetIndex.EMPTY || Among(x.files[x.w.start], e) || e.offset == EntryOffset(x.w, txID)
  {
    hide Among, EntryOffset, Storable, OffsetIndex.Appended, OffsetIndex.Reopened, Rewritten, Slots, AfterEntry;
    EntryShape(x, txID);
    var w, file := x.w, x.files[x.w.start];
    var offset := EntryOffset(w, txID);
    var slots := OffsetIndex.Appended(OffsetIndex.Reopened(Slots(file), |file|), txID, offset).value.slots;
    RewrittenValues(file, slots, e);
    if !Among(file, e) {
      AppendedSlots(Slots(file), txID, offset, e);
      if e in Slots(file) {
        SlotAmong(file, e);
      }
    }
  }

  lemma {:induction false} ActiveParts<S>(w: World<S>, init: S, apply: Applier<S>)
    requires Inv(w, init, apply) && w.phase.Running?
    ensures Appending(w.start, w.log, w.synced, w.written, w.phase.active)
    ensures 0 < w.start <= w.written + 1 && Storable(w.log, w.written)
  {
    hide Fold, StoredChain, SnapshotsOk, Appending, LossesReported, FlushOk;
  }

  /** A record is appended that completes nothing that reads as the record of an entry. */
  lemma {:induction false} AppendQuiet<S>(x: Indexed<S>, init: S, apply: Applier<S>)
    requires Inv(x.w, init, apply) && AllQuiet(x.files, Held(x.w)) && Undisguised(x) && AfterAppend(x.w).Some?
    ensures AllQuiet(x.files, Held(AfterAppend(x.w).value))
  {
    hide Inv, Among, Quiet, AfterAppend;
    var w, w' := x.w, AfterAppend(x.w).value;
    AppendShape(w);
    var s' := Segment(w.start, w'.phase.active);
    forall t, e | t in Held(w') && t.start in x.files && Among(x.files[t.start], e) ensures Quiet(t, e) {
      if t != s' {
        assert t in Held(w);
      }
    }
  }

  /**
   * It does so whenever every entry of the active segment, in its index or brought back, points at a record, at the
   * write position or in front of the records: nothing points into the record about to be written.
   */
  lemma {:induction false} ClearAppend<S>(x: Indexed<S>, init: S, apply: Applier<S>)
    requires Inv(x.w, init, apply) && AfterAppend(x.w).Some? && x.w.start in x.files
    requires x.w.phase.Running? && 0 < x.w.start <= x.w.written + 1 && Storable(x.w.log, x.w.written)
    requires forall e :: Among(x.files[x.w.start], e) ==>
      && Harmless(Segment(x.w.start, x.w.phase.active), e)
      && e.offset <= |SegmentBytes(x.w.start, Stretch(x.w.log, x.w.start - 1, x.w.written))|
    ensures Undisguised(x)
  {
    hide Inv, Among, Quiet, Harmless, AfterAppend, Holds, Appending, OffsetOf, Stretch, Storable, SegmentBytes;
    var w, w' := x.w, AfterAppend(x.w).value;
    AppendShape(w);
    AppendedFile(w, init, apply);
    WrittenEnd(w);
    var s, s', n := Segment(w.start, w.phase.active), Segment(w.start, w'.phase.active), w.written + 1 - w.start;
    forall e | Among(x.files[w.start], e) ensures Quiet(s', e) {
      HarmlessNext(s, w.log, n, s', e);
      HarmlessQuiet(w.start, w'.log, w'.synced, w'.written, w'.phase.active, e);
    }
  }

  lemma {:induction false} AppendedFile<S>(w: World<S>, init: S, apply: Applier<S>)
    requires Inv(w, init, apply) && AfterAppend(w).Some?
    ensures var w' := AfterAppend(w).value;
      && w.phase.Running? && w'.phase.Running?
      && w'.start == w.start && w'.unlinked == w.unlinked && w'.sealed == w.sealed
      && 0 < w.start <= w.written + 1 && Storable(w.log, w.written)
      && Holds(SegmentFile(w.start, w.phase.active.current), w.log, w.written + 1 - w.start)
      && Holds(SegmentFile(w.start, w'.phase.active.current), w.log, w.written + 2 - w.start)
      && Appending(w.start, w'.log, w'.synced, w'.written, w'.phase.active)
  {
    hide Inv, Holds, Appending, Storable, Stretch, AfterAppend;
    var w' := AfterAppend(w).value;
    AppendShape(w);
    AppendKeeps(w, init, apply);
    ActiveParts(w, init, apply);
    ActiveParts(w', init, apply);
    CurrentHolds(w.start, w.log, w.synced, w.written, w.phase.active);
    CurrentHolds(w'.start, w'.log, w'.synced, w'.written, w'.phase.active);
  }

  lemma {:induction false} AppendShape<S>(w: World<S>)
    requires AfterAppend(w).Some?
    ensures var w' := AfterAppend(w).value;
      && w.phase.Running? && w'.phase.Running?
      && w'.start == w.start && w'.unlinked == w.unlinked && w'.sealed == w.sealed
      && w'.written == w.written + 1 && w'.log == w.log
  {
    hide Storable, Encoded, RecordBytes;
  }

  lemma {:induction false} WrittenEnd<S>(w: World<S>)
    requires 0 < w.start <= w.written + 1 && Storable(w.log, w.written)
    ensures var ps := Stretch(w.log, w.start - 1, w.written);
      OffsetOf(w.start, ps, w.written + 1 - w.start) == |SegmentBytes(w.start, ps)|
  {
    hide Encoded;
    var ps := Stretch(w.log, w.start - 1, w.written);
    assert ps[..|ps|] == ps;
  }

  // ---- recovery with the index files as they are ---------------------------

  /** Quiet entries make sound indexes. */
  lemma {:induction false} LenientSound(f: SegmentFile, s: Segment, x: IndexFile)
    requires Shown(s) == f && |f.data| >= SEGMENT_HEADER
    requires forall e :: Among(x, e) ==> Quiet(s, e)
    ensures SoundIndex(f, Some(Slots(x)[..OffsetIndex.Prefix(Slots(x), 0)]))
  {
    hide SoundEntry, Among, OffsetIndex.Prefix;
    var slots := Slots(x);
    var index := slots[..OffsetIndex.Prefix(slots, 0)];
    OffsetIndex.PrefixIsLongest(slots, 0);
    forall e | e in index ensures SoundEntry(f, e) {
      SlotAmong(x, e);
      assert Quiet(s, e);
    }
  }

  lemma {:induction false} FoundSound<S>(x: Indexed<S>)
    requires AllQuiet(x.files, Held(x.w))
    ensures var dir := AllShown(Found(x.w));
      SoundIndexes(dir, IndexScan.Lenient(TablesOf(dir, x.files)))
  {
    hide Held, Found, Among, Quiet, SoundIndex, OffsetIndex.Prefix, Slots, Covers;
    FoundCovers(x.w);
    SameFiles(x.files);
    Carry(x.files, Held(x.w), x.files, Found(x.w));
    var ss, dir := Found(x.w), AllShown(Found(x.w));
    var tables := TablesOf(dir, x.files);
    forall i | 0 <= i < |dir| && |dir[i].data| >= SEGMENT_HEADER
      ensures SoundIndex(dir[i], IndexScan.Lenient(tables)[i])
    {
      assert dir[i] == Shown(ss[i]) && ss[i] in ss;
      if dir[i].start in x.files {
        LenientSound(dir[i], ss[i], x.files[dir[i].start]);
      } else {
        IndexScan.NoIndexIsSound(dir[i]);
      }
    }
  }

  /** A directory that the scan accepts is in order. */
  lemma {:induction false} ScannedListed<S>(w: World<S>, dir: seq<SegmentFile>)
    requires w.snaps != [] && DownOk(w, dir) && ScanOf(dir).Ok?
    ensures Listed(dir)
  {
    hide Chain, ScanOf, Newest, LogFrom, Horizon, NextStart;
    if dir != [] {
      var n := |dir| - 1;
      assert dir == dir[..n] + [dir[n]];
      if CutHeader(dir) {
        CutHeaderRefused(dir, w.log);
      } else {
        ChainScan(dir[..n], dir[n], w.log);
      }
    }
  }

  /** As long as every entry is quiet, recovery with the fast scan answers as without any index. */
  lemma {:induction false} FastIsPlain<S>(x: Indexed<S>, init: S, apply: Applier<S>)
    requires Inv(x.w, init, apply) && AllQuiet(x.files, Held(x.w))
    ensures var dir := AllShown(Found(x.w));
      IndexScan.RecoverFast(dir, TablesOf(dir, x.files), x.w.snaps, init, apply)
      == Recover(dir, NoIndexes(|dir|), x.w.snaps, init, apply)
  {
    hide *;
    var dir := AllShown(Found(x.w));
    var tables := TablesOf(dir, x.files);
    FoundOk(x.w, init, apply);
    FoundSound(x);
    NoIndexesSound(dir);
    IndexScan.StrictSound(dir, tables);
    IndexScan.SoundTried(dir, IndexScan.Strict(tables), x.w.snaps);
    IndexScan.FastRecoveryIsRecovery(dir, tables, x.w.snaps, init, apply);
    if ScanOf(dir).Ok? {
      ScannedListed(x.w, dir);
    }
    IndexScan.SoundIsPlain(dir, IndexScan.Lenient(tables), NoIndexes(|dir|), x.w.snaps, init, apply);
  }

  // ---- runs ---------------------------------------------------------------

  ghost predicate Good<S>(x: Indexed<S>, init: S, apply: Applier<S>) {
    Inv(x.w, init, apply) && AllQuiet(x.files, Held(x.w))
  }

  /** Power is lost only in a safe state, and no record is appended that an entry can be mistaken about. */
  ghost predicate Careful<S>(x: Indexed<S>, m: Move) {
    match m
    case LosePower(_, _) => Safe(x.w)
    case Log(Append) => Undisguised(x)
    case _ => true
  }

  /** What a step of the indexed machine is in the machine without indexes. */
  function Shadow<S>(x: Indexed<S>, m: Move): (r: seq<Action>) {
    match m
    case Log(a) => [a]
    case Activate(_) => [SyncDirectory]
    case LosePower(c, _) => [Die(c)]
    case Resume(_) => [Restart(NoIndexes(|AllShown(Found(x.w))|))]
    case _ => []
  }

  lemma {:induction false} LoneStep<S>(w: World<S>, a: Action, init: S, apply: Applier<S>)
    ensures Run(w, [a], init, apply) == CrashRuns.Step(w, a, init, apply)
    ensures SafeRun(w, [a], init, apply) <==> (a.Die? ==> Safe(w))
  {
    hide CrashRuns.Step, Safe;
    assert [a][1..] == [];
  }

  lemma {:induction false} LogKeeps<S>(x: Indexed<S>, a: Action, init: S, apply: Applier<S>)
    requires Good(x, init, apply) && Careful(x, Log(a)) && Direct(x, a)
    requires CrashRuns.Step(x.w, a, init, apply).Some?
    ensures Good(x.(w := CrashRuns.Step(x.w, a, init, apply).value), init, apply)
  {
    hide Inv, Held, AllQuiet, Covers, AfterAppend, Fold, Undisguised, NextStart;
    var w' := CrashRuns.Step(x.w, a, init, apply).value;
    StepKeeps(x.w, a, init, apply);
    if a.Append? {
      AppendQuiet(x, init, apply);
    } else {
      HeaderOf(x.w, init, apply);
      LogCovers(x.w, a, init, apply);
      SameFiles(x.files);
      Carry(x.files, Held(x.w), x.files, Held(w'));
    }
  }

  /** A worker that starts on a segment clears entries of its index and adds none. */
  lemma {:induction false} StartedKeeps<S>(x: Indexed<S>, w': World<S>, cap: Option<nat>, init: S, apply: Applier<S>)
    requires Good(x, init, apply) && Inv(w', init, apply) && Covers(Held(x.w), Held(w'))
    requires Started(x.(w := w'), cap).Some?
    ensures Started(x.(w := w'), cap).value.w == w'
    ensures Good(Started(x.(w := w'), cap).value, init, apply)
  {
    hide Inv, Held, AllQuiet, Covers, Known, Started;
    StartedKnown(x.(w := w'), cap);
    Carry(x.files, Held(x.w), Started(x.(w := w'), cap).value.files, Held(w'));
  }

  lemma {:induction false} ActivateKeeps<S>(x: Indexed<S>, cap: Option<nat>, init: S, apply: Applier<S>)
    requires Good(x, init, apply) && Next(x, Activate(cap), init, apply).Some?
    ensures Good(Next(x, Activate(cap), init, apply).value, init, apply)
    ensures CrashRuns.Step(x.w, SyncDirectory, init, apply) == Some(Next(x, Activate(cap), init, apply).value.w)
  {
    hide Inv, Held, AllQuiet, Covers, Started, CrashRuns.Step, AfterEntry, AfterResume;
    StepKeeps(x.w, SyncDirectory, init, apply);
    HeaderOf(x.w, init, apply);
    LogCovers(x.w, SyncDirectory, init, apply);
    StartedKeeps(x, CrashRuns.Step(x.w, SyncDirectory, init, apply).value, cap, init, apply);
  }

  lemma {:induction false} LossKeeps<S>(x: Indexed<S>, c: Crash, tables: map<nat, seq<OffsetIndex.Slot>>, init: S,
      apply: Applier<S>)
    requires Good(x, init, apply) && Safe(x.w) && Possible(x.w, c) && Returned(x.files, tables)
    ensures var x' := Indexed(x.w.(phase := Down(Survivors(x.w, c)), killed := None),
                              Back(tables), false);
      Good(x', init, apply) && AllShown(Found(x'.w)) == Survivors(x.w, c)
  {
    hide Inv, AllQuiet, Covers, Known, Survivors, Possible, Returned, Settled, Safe;
    var w' := x.w.(phase := Down(Survivors(x.w, c)), killed := None);
    DieKeeps(x.w, c, init, apply);
    DieCovers(x.w, c);
    ReturnedKnown(x.files, tables);
    Carry(x.files, Held(x.w), Back(tables), Held(w'));
    assert AllShown(Solid(Survivors(x.w, c))) == Survivors(x.w, c);
  }

  /** Where recovery ended, when a segment was being created. */
  lemma {:induction false} ResumePlace<S>(w: World<S>, r: Recovered<S>, init: S, apply: Applier<S>)
    requires Inv(w, init, apply)
    requires var dir := AllShown(Found(w)); Recover(dir, NoIndexes(|dir|), w.snaps, init, apply) == Ok(r)
    ensures w.durable <= r.txID <= |w.log|
    ensures Names(w) != [] ==> w.start == r.txID + 1
  {
    hide Inv, Recover, Found, DownOk, Steady, Fold, CutHeader, EndsWhole, SoundIndexes, Reach;
    var dir := AllShown(Found(w));
    FoundOk(w, init, apply);
    NoIndexesSound(dir);
    RecoverOutcome(w, dir, NoIndexes(|dir|), init, apply);
    if w.phase.Creating? {
      KilledDirectory(w, init, apply);
      CreatingPlace(w, init, apply);
    }
  }

  lemma {:induction false} CreatingPlace<S>(w: World<S>, init: S, apply: Applier<S>)
    requires Inv(w, init, apply) && w.phase.Creating?
    ensures w.start == w.written + 1 && w.synced == w.written
  {
    hide Fold, StoredChain, SnapshotsOk, EarlierOk, LossesReported;
  }

  lemma {:induction false} ResumeShape<S>(x: Indexed<S>, cap: Option<nat>, init: S, apply: Applier<S>)
    requires AfterResume(x, cap, init, apply).Some?
    ensures !Alive(x.w) && NewestFirst(x.w.snaps)
    ensures var dir := AllShown(Found(x.w));
      var r := IndexScan.RecoverFast(dir, TablesOf(dir, x.files), x.w.snaps, init, apply);
      r.Ok? && r.value.txID <= |x.w.log| &&
      AfterResume(x, cap, init, apply) == Started(x.(w := Resumed(x.w, r.value)), cap)
  {
    hide Found, IndexScan.RecoverFast, Resumed, Started;
  }

  /** A resume on the raw index files is a restart without any. */
  lemma {:induction false} ResumeGood<S>(x: Indexed<S>, cap: Option<nat>, init: S, apply: Applier<S>)
    requires Good(x, init, apply) && AfterResume(x, cap, init, apply).Some?
    ensures Good(AfterResume(x, cap, init, apply).value, init, apply)
    ensures AfterRestart(x.w, NoIndexes(|AllShown(Found(x.w))|), init, apply)
         == Some(AfterResume(x, cap, init, apply).value.w)
  {
    hide Inv, Found, IndexScan.RecoverFast, Resumed, Started, AfterResume, AllQuiet, Held, Covers, Recover,
      SoundIndexes, TablesOf;
    ResumeShape(x, cap, init, apply);
    FastIsPlain(x, init, apply);
    var dir := AllShown(Found(x.w));
    var r := Recover(dir, NoIndexes(|dir|), x.w.snaps, init, apply).value;
    NoIndexesSound(dir);
    ResumePlace(x.w, r, init, apply);
    ResumeKeeps(x.w, NoIndexes(|dir|), init, apply);
    ResumeCovers(x.w, r);
    StartedKeeps(x, Resumed(x.w, r), cap, init, apply);
  }

  /**
   * Every careful step keeps all entries quiet, and is a step of the machine without indexes: an index never
   * changes what the worker and its restarts do.
   */
  lemma {:induction false} MoveKeeps<S>(x: Indexed<S>, m: Move, init: S, apply: Applier<S>)
    requires Good(x, init, apply) && Careful(x, m) && Next(x, m, init, apply).Some?
    ensures Good(Next(x, m, init, apply).value, init, apply)
    ensures Run(x.w, Shadow(x, m), init, apply) == Some(Next(x, m, init, apply).value.w)
    ensures SafeRun(x.w, Shadow(x, m), init, apply)
  {
    hide Inv, AllQuiet, CrashRuns.Step, AfterEntry, AfterResume, Started, Undisguised, Safe, Held, Settled, Slots,
      Found;
    if Shadow(x, m) != [] {
      LoneStep(x.w, Shadow(x, m)[0], init, apply);
    }
    match m {
      case Log(a) => LogKeeps(x, a, init, apply);
      case Activate(cap) => ActivateKeeps(x, cap, init, apply);
      case MakeEntry(t) => EntryKeeps(x, t, init, apply);
      case SyncIndex =>
        SyncedKnown(x.files, x.w.start);
        Sublisting(Held(x.w), Held(x.w));
        Carry(x.files, Held(x.w), Next(x, m, init, apply).value.files, Held(x.w));
      case CloseIndex =>
      case LosePower(c, tables) =>
        LossKeeps(x, c, tables, init, apply);
        DieStep(x.w, c, init, apply);
      case Resume(cap) =>
        ResumeGood(x, cap, init, apply);
        RestartStep(x.w, NoIndexes(|AllShown(Found(x.w))|), init, apply);
    }
  }

  lemma {:induction false} DieStep<S>(w: World<S>, c: Crash, init: S, apply: Applier<S>)
    requires Possible(w, c)
    ensures CrashRuns.Step(w, Die(c), init, apply) == Some(w.(phase := Down(Survivors(w, c)), killed := None))
  {
    hide Survivors, Possible;
  }

  lemma {:induction false} RestartStep<S>(w: World<S>, indexes: OffsetIndex.Sidecars, init: S, apply: Applier<S>)
    ensures CrashRuns.Step(w, Restart(indexes), init, apply) == AfterRestart(w, indexes, init, apply)
  {
    hide AfterRestart;
  }

  ghost predicate CarefulRun<S>(x: Indexed<S>, moves: seq<Move>, init: S, apply: Applier<S>)
    decreases |moves|
  {
    moves == [] ||
    (&& Careful(x, moves[0])
     && (Next(x, moves[0], init, apply).Some? ==>
           CarefulRun(Next(x, moves[0], init, apply).value, moves[1..], init, apply)))
  }

  /** Over whole runs: the log, its durable mark and its snapshots are those of some run without indexes. */
  lemma {:induction false} MovesKeep<S>(x: Indexed<S>, moves: seq<Move>, init: S, apply: Applier<S>)
    returns (actions: seq<Action>)
    requires Good(x, init, apply) && Moves(x, moves, init, apply).Some? && CarefulRun(x, moves, init, apply)
    ensures Good(Moves(x, moves, init, apply).value, init, apply)
    ensures Run(x.w, actions, init, apply) == Some(Moves(x, moves, init, apply).value.w)
    ensures SafeRun(x.w, actions, init, apply)
    decreases |moves|
  {
    hide Good, Careful, Next, CrashRuns.Step, Safe;
    if moves == [] {
      actions := [];
    } else {
      var x' := Next(x, moves[0], init, apply).value;
      MoveKeeps(x, moves[0], init, apply);
      var rest := MovesKeep(x', moves[1..], init, apply);
      var first := Shadow(x, moves[0]);
      actions := first + rest;
      if first == [] {
        assert actions == rest;
      } else {
        assert actions == [first[0]] + rest && actions[1..] == rest;
        LoneStep(x.w, first[0], init, apply);
      }
    }
  }

  lemma {:induction false} UnindexedGood<S>(init: S, apply: Applier<S>)
    ensures Good(Unindexed(init), init, apply)
  {
    FreshOk(init, apply);
  }

  /**
   * Whatever a careful run has reached, after whatever loss of power in a safe state, with whatever it leaves or brings
   * back in the raw index files: recovery with the fast scan answers exactly as without index files, so with
   * everything reported durable and nothing that was never written.
   */
  lemma {:induction false} FastRecovers<S(!new)>(moves: seq<Move>, x: Indexed<S>, c: Crash,
      tables: map<nat, seq<OffsetIndex.Slot>>, init: S, apply: Applier<S>)
    requires Moves(Unindexed(init), moves, init, apply) == Some(x) && CarefulRun(Unindexed(init), moves, init, apply)
    requires Safe(x.w) && Possible(x.w, c) && Returned(x.files, tables)
    ensures Reachable(x.w, init, apply) && x.w.snaps != []
    ensures var dir := Survivors(x.w, c);
      var raw := TablesOf(dir, Back(tables));
      var r := IndexScan.RecoverFast(dir, raw, x.w.snaps, init, apply);
      && r == Recover(dir, NoIndexes(|dir|), x.w.snaps, init, apply)
      && (r.Ok? <==> !CutHeader(dir) && Reach(x.w, dir) < MAX_U64)
      && (r.Ok? ==>
            && x.w.durable <= r.value.txID <= x.w.written <= |x.w.log|
            && Fold(init, x.w.log[..r.value.txID], apply) == Some(r.value.state))
  {
    hide Good, Moves, CarefulRun, Run, SafeRun, Safe, Possible, Returned, Survivors, Fold, Recover,
      IndexScan.RecoverFast, CutHeader, Reach, Settled, SoundIndexes, Found, Inv;
    UnindexedGood(init, apply);
    var actions := MovesKeep(Unindexed(init), moves, init, apply);
    assert Reachable(x.w, init, apply);
    hide Reachable;
    var dir := Survivors(x.w, c);
    GoodLoss(x, c, tables, init, apply);
    NoIndexesSound(dir);
    EveryCrashRecovers(x.w, c, NoIndexes(|dir|), init, apply);
  }

  lemma {:induction false} GoodLoss<S>(x: Indexed<S>, c: Crash, tables: map<nat, seq<OffsetIndex.Slot>>, init: S,
      apply: Applier<S>)
    requires Good(x, init, apply) && Safe(x.w) && Possible(x.w, c) && Returned(x.files, tables)
    ensures var dir := Survivors(x.w, c);
      IndexScan.RecoverFast(dir, TablesOf(dir, Back(tables)), x.w.snaps, init, apply)
      == Recover(dir, NoIndexes(|dir|), x.w.snaps, init, apply)
  {
    hide AllQuiet, Inv, Safe, Possible, Returned, Survivors, Recover, IndexScan.RecoverFast, Settled, Found, Held,
      TablesOf;
    LossKeeps(x, c, tables, init, apply);
    FastIsPlain(Indexed(x.w.(phase := Down(Survivors(x.w, c)), killed := None),
                        Back(tables), false), init, apply);
  }
}
