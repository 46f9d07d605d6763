/** The lock-file protocol that publishes, repairs and discards one snapshot directory. */
module SnapshotPublish {
  import opened Bytes

  // ---- one snapshot directory --------------------------------------------

  /** A snapshot file's data: whether all of it was written, and whether it was fsynced. */
  datatype Content = Content(complete: bool, synced: bool)

  /** A directory entry: what it names now, and every value a crash may still bring back. */
  datatype Entry<T> = Entry(current: T, possible: set<T>)

  /** The entries .lock, snapshot.tmp and snapshot, and the files by inode. */
  datatype Dir = Dir(lock: Entry<bool>, tmp: Entry<Option<nat>>, final: Entry<Option<nat>>, files: seq<Content>)

  /** A snapshot directory as just made. */
  function EmptyDir(): (r: Dir) {
    Dir(Entry(false, {false}), Entry(None, {None}), Entry(None, {None}), [])
  }

  function Set<T>(e: Entry<T>, v: T): (r: Entry<T>) {
    Entry(v, e.possible + {v})
  }

  function Fixed<T>(e: Entry<T>): (r: Entry<T>) {
    Entry(e.current, {e.current})
  }

  // ---- the calls of the protocol -----------------------------------------

  function Synced(d: Dir): (r: Dir) {
    Dir(Fixed(d.lock), Fixed(d.tmp), Fixed(d.final), d.files)
  }

  function WithLock(d: Dir, on: bool): (r: Dir) {
    d.(lock := Set(d.lock, on))
  }

  /** Opening snapshot.tmp exclusively: a new, empty, unsynced file. */
  function Opened(d: Dir): (r: Dir) {
    d.(tmp := Set(d.tmp, Some(|d.files|)), files := d.files + [Content(false, false)])
  }

  function Written(d: Dir, i: nat): (r: Dir)
    requires i < |d.files|
  {
    d.(files := d.files[i := Content(true, false)])
  }

  function Flushed(d: Dir, i: nat): (r: Dir)
    requires i < |d.files|
  {
    d.(files := d.files[i := d.files[i].(synced := true)])
  }

  function Renamed(d: Dir): (r: Dir) {
    d.(final := Set(d.final, d.tmp.current), tmp := Set(d.tmp, None))
  }

  function WithoutTmp(d: Dir): (r: Dir) {
    d.(tmp := Set(d.tmp, None))
  }

  function WithoutFinal(d: Dir): (r: Dir) {
    d.(final := Set(d.final, None))
  }

  // ---- crashes and listings ----------------------------------------------

  /** What a crash leaves: any value of each entry, and any contents in files that were not synced. */
  ghost predicate CrashOutcome(d: Dir, d': Dir) {
    && d'.lock.current in d.lock.possible && d'.lock == Fixed(d'.lock)
    && d'.tmp.current in d.tmp.possible && d'.tmp == Fixed(d'.tmp)
    && d'.final.current in d.final.possible && d'.final == Fixed(d'.final)
    && |d'.files| == |d.files|
    && forall i :: 0 <= i < |d.files| ==>
         d'.files[i].synced && (d.files[i].synced ==> d'.files[i] == d.files[i])
  }

  /** ListSnapshots lists the directory. */
  predicate Listed(d: Dir) {
    !d.lock.current && d.tmp.current.None?
  }

  /** An entry for `snapshot` that is absent or names a complete, synced file. */
  predicate GoodFile(v: Option<nat>, files: seq<Content>) {
    v.Some? ==> v.value < |files| && files[v.value] == Content(true, true)
  }

  /**
   * No entry for `snapshot`, present or recoverable, names anything but a complete
   * synced file; and without the lock the entry is durable.
   */
  ghost predicate Safe(d: Dir) {
    && d.lock.current in d.lock.possible && d.tmp.current in d.tmp.possible && d.final.current in d.final.possible
    && (forall v :: v in d.final.possible ==> GoodFile(v, d.files))
    && (forall v :: v in d.tmp.possible && v.Some? ==> v.value < |d.files|)
    && (!d.lock.current ==> d.final == Fixed(d.final))
  }

  /** Whatever is listed, before or after any crash, holds a complete synced snapshot or none. */
  lemma {:induction false} ListedIsComplete(d: Dir, d': Dir)
    requires Safe(d) && CrashOutcome(d, d')
    ensures Safe(d')
    ensures GoodFile(d.final.current, d.files) && GoodFile(d'.final.current, d'.files)
    ensures Listed(d) ==> d'.final.current == d.final.current
  {
  }

  /**
   * A listed snapshot stays listed through every crash if and only if the removal of the lock and the
   * temporary file is durable.
   */
  lemma {:induction false} StaysListed(d: Dir)
    requires Safe(d) && Listed(d)
    ensures (forall d' :: CrashOutcome(d, d') ==> Listed(d')) <==> d.lock == Fixed(d.lock) && d.tmp == Fixed(d.tmp)
  {
    if !(d.lock == Fixed(d.lock) && d.tmp == Fixed(d.tmp)) {
      var lock := if true in d.lock.possible then true else false;
      var tmp :=
        if exists v :: v in d.tmp.possible && v.Some? then (var v :| v in d.tmp.possible && v.Some?; v) else None;
      var files := seq(|d.files|, i requires 0 <= i < |d.files| => d.files[i].(synced := true));
      var d' := Dir(Entry(lock, {lock}), Entry(tmp, {tmp}), Fixed(d.final), files);
      assert CrashOutcome(d, d');
      BoolSets(d.lock);
      OptionSets(d.tmp);
      assert !Listed(d');
    }
  }

  lemma {:induction false} BoolSets(e: Entry<bool>)
    requires e.current in e.possible && !e.current
    ensures true !in e.possible ==> e == Fixed(e)
  {
    if true !in e.possible {
      assert forall v :: v in e.possible ==> v == false;
      assert e.possible == {false};
    }
  }

  lemma {:induction false} OptionSets(e: Entry<Option<nat>>)
    requires e.current in e.possible && e.current.None?
    ensures (forall v :: v in e.possible ==> v.None?) ==> e == Fixed(e)
  {
    if forall v :: v in e.possible ==> v.None? {
      assert e.possible == {None};
    }
  }

  // ---- every interleaving of the protocol with failures and crashes ------

  /** Where the one running operation stands. Waiting covers everything between operations. */
  datatype Phase =
    | Waiting
    | Holding              // lock created
    | Filling(i: nat)      // temporary file i opened
    | Filled(i: nat)       // fully written
    | Flush(i: nat)        // fsynced and closed
    | DropTmp              // a failed rename: the temporary file goes, the lock stays
    | Cleaning             // a failure before the rename: the temporary file goes
    | CleaningLock         // then the lock
    | Publishing           // `snapshot` named; shared by creation and repair
    | Published            // and its entry durable
    | DiscardTmp           // discard: temporary file to be removed
    | DiscardFinal
    | DiscardSync
    | Discarded            // both removals durable
    | Unlocked             // lock removed, removal not yet durable

  datatype Action =
    | CreateLock | OpenTmp | Fill | SyncTmp | Rename | SyncFinal | Unlock | SyncUnlock
    | RepairVerify | DiscardBegin | RemoveTmp | RemoveFinal | SyncRemovals
    | Fail(applied: bool)
    | RemoveFails

  datatype State = State(d: Dir, at: Phase)

  /** A step that succeeds. */
  function Proceed(s: State, a: Action): (r: Option<State>) {
    var d := s.d;
    match (a, s.at)
    case (CreateLock, Waiting) => if d.lock.current then None else Some(State(WithLock(d, true), Holding))
    case (OpenTmp, Holding) => if d.tmp.current.Some? then None else Some(State(Opened(d), Filling(|d.files|)))
    case (Fill, Filling(i)) => if i < |d.files| then Some(State(Written(d, i), Filled(i))) else None
    case (SyncTmp, Filled(i)) => if i < |d.files| then Some(State(Flushed(d, i), Flush(i))) else None
    case (Rename, Flush(_)) => Some(State(Renamed(d), Publishing))
    case (SyncFinal, Publishing) => Some(State(Synced(d), Published))
    case (Unlock, Published) => Some(State(WithLock(d, false), Unlocked))
    case (SyncUnlock, Unlocked) => Some(State(Synced(d), Waiting))
    // repair reads the published file and checks it before going on like creation
    case (RepairVerify, Waiting) =>
      if d.lock.current && d.final.current.Some? && d.final.current.value < |d.files| &&
        d.files[d.final.current.value].complete
      then Some(State(d, Publishing)) else None
    case (DiscardBegin, Waiting) => if d.lock.current then Some(State(d, DiscardTmp)) else None
    case (RemoveTmp, DiscardTmp) => Some(State(WithoutTmp(d), DiscardFinal))
    case (RemoveFinal, DiscardFinal) => Some(State(WithoutFinal(d), DiscardSync))
    case (SyncRemovals, DiscardSync) => Some(State(Synced(d), Discarded))
    case (Unlock, Discarded) => Some(State(WithLock(d, false), Unlocked))
    // deferred cleanup: errors are ignored
    case (RemoveTmp, Cleaning) => Some(State(WithoutTmp(d), CleaningLock))
    case (RemoveTmp, DropTmp) => Some(State(WithoutTmp(d), Waiting))
    case (Unlock, CleaningLock) => Some(State(WithLock(d, false), Waiting))
    case _ => None
  }

  /** A call that reports an error; `applied` says whether it took effect all the same. */
  function Failed(s: State, applied: bool): (r: Option<State>) {
    var d := s.d;
    match s.at
    // the lock file was made, but closing it failed: nobody removes it
    case Waiting => Some(State(if applied && !d.lock.current then WithLock(d, true) else d, Waiting))
    case Holding => Some(State(if applied && d.tmp.current.None? then Opened(d) else d, Cleaning))
    case Filling(i) => Some(State(if applied && i < |d.files| then Written(d, i) else d, Cleaning))
    case Filled(i) => Some(State(if applied && i < |d.files| then Flushed(d, i) else d, Cleaning))
    case Flush(_) => Some(State(if applied then Renamed(d) else d, DropTmp))
    case Publishing => Some(State(if applied then Synced(d) else d, Waiting))
    case Published => Some(State(if applied then WithLock(d, false) else d, Waiting))
    case Unlocked => Some(State(if applied then Synced(d) else d, Waiting))
    case DiscardTmp => Some(State(if applied then WithoutTmp(d) else d, Waiting))
    case DiscardFinal => Some(State(if applied then WithoutFinal(d) else d, Waiting))
    case DiscardSync => Some(State(if applied then Synced(d) else d, Waiting))
    case Discarded => Some(State(if applied then WithLock(d, false) else d, Waiting))
    case _ => None
  }

  function Step(s: State, a: Action): (r: Option<State>) {
    match a
    case Fail(applied) => Failed(s, applied)
    case RemoveFails =>
      (match s.at
       case Cleaning => Some(s.(at := CleaningLock))
       case CleaningLock => Some(s.(at := Waiting))
       case DropTmp => Some(s.(at := Waiting))
       case _ => None)
    case _ => Proceed(s, a)
  }

  /** Either a step of the protocol, or a crash that ends whatever was running. */
  ghost predicate Next(s: State, s': State) {
    (exists a :: Step(s, a) == Some(s')) || (CrashOutcome(s.d, s'.d) && s'.at == Waiting)
  }

  /** snapshot.tmp names file i, which has this content. */
  predicate TmpIs(d: Dir, i: nat, c: Content) {
    i < |d.files| && d.tmp.current == Some(i) && d.files[i] == c
  }

  ghost predicate PhaseOk(s: State) {
    var d := s.d;
    match s.at
    case Waiting => true
    case Holding => d.lock.current && d.final == Fixed(d.final)
    case Filling(i) => d.lock.current && d.final == Fixed(d.final) && TmpIs(d, i, Content(false, false))
    case Filled(i) => d.lock.current && d.final == Fixed(d.final) && TmpIs(d, i, Content(true, false))
    case Flush(i) => d.lock.current && TmpIs(d, i, Content(true, true))
    case Cleaning => d.lock.current && d.final == Fixed(d.final)
    case CleaningLock => d.lock.current && d.final == Fixed(d.final)
    case Published => d.lock.current && d.final == Fixed(d.final)
    case Discarded => d.lock.current && d.tmp == Entry(None, {None}) && d.final == Entry(None, {None})
    case DiscardFinal => d.lock.current && d.tmp.current.None?
    case DiscardSync => d.lock.current && d.tmp.current.None? && d.final.current.None?
    case Unlocked => !d.lock.current && d.final == Fixed(d.final)
    case _ => d.lock.current
  }

  ghost predicate Inv(s: State) {
    Safe(s.d) && PhaseOk(s)
  }

  lemma {:induction false} LockSafe(d: Dir, on: bool)
    requires Safe(d) && (on || d.final == Fixed(d.final))
    ensures Safe(WithLock(d, on))
  {
  }

  lemma {:induction false} OpenedSafe(d: Dir)
    requires Safe(d)
    ensures Safe(Opened(d)) && TmpIs(Opened(d), |d.files|, Content(false, false))
  {
  }

  lemma {:induction false} FillSafe(d: Dir, i: nat)
    requires Safe(d) && i < |d.files| && !d.files[i].synced
    ensures Safe(Written(d, i)) && Safe(Flushed(d, i))
  {
  }

  lemma {:induction false} RenamedSafe(d: Dir, i: nat)
    requires Safe(d) && d.lock.current && TmpIs(d, i, Content(true, true))
    ensures Safe(Renamed(d))
  {
  }

  lemma {:induction false} RemovedSafe(d: Dir)
    requires Safe(d)
    ensures Safe(WithoutTmp(d)) && Safe(Synced(d))
    ensures d.lock.current ==> Safe(WithoutFinal(d))
  {
  }

  lemma {:induction false} ProceedKeeps(s: State, a: Action)
    requires Inv(s) && Proceed(s, a).Some?
    ensures Inv(Proceed(s, a).value)
  {
    hide Safe;
    var d := s.d;
    RemovedSafe(d);
    OpenedSafe(d);
    LockSafe(d, true);
    match s.at {
      case Published => LockSafe(d, false);
      case Discarded => LockSafe(d, false);
      case CleaningLock => LockSafe(d, false);
      case Filling(i) => FillSafe(d, i);
      case Filled(i) => FillSafe(d, i);
      case Flush(i) => RenamedSafe(d, i);
      case Waiting => SafeUnlocked(d);
      case _ =>
    }
  }

  lemma {:induction false} SafeUnlocked(d: Dir)
    requires Safe(d)
    ensures !d.lock.current ==> d.final == Fixed(d.final)
  {
  }

  lemma {:induction false} FailedKeeps(s: State, applied: bool)
    requires Inv(s) && Failed(s, applied).Some?
    ensures Inv(Failed(s, applied).value)
  {
    hide Safe;
    var d := s.d;
    RemovedSafe(d);
    match s.at {
      case Waiting => LockSafe(d, true);
      case Holding => OpenedSafe(d);
      case Filling(i) => FillSafe(d, i);
      case Filled(i) => FillSafe(d, i);
      case Published => LockSafe(d, false);
      case Discarded => LockSafe(d, false);
      case Flush(i) => RenamedSafe(d, i);
      case _ =>
    }
  }

  lemma {:induction false} StepKeeps(s: State, a: Action)
    requires Inv(s) && Step(s, a).Some?
    ensures Inv(Step(s, a).value)
  {
    hide Safe, Proceed, Failed;
    if a.Fail? {
      FailedKeeps(s, a.applied);
    } else if a != RemoveFails {
      ProceedKeeps(s, a);
    }
  }

  /** Every step and every crash keeps the directory safe. */
  lemma {:induction false} NextKeeps(s: State, s': State)
    requires Inv(s) && Next(s, s')
    ensures Inv(s')
  {
    hide Step;
    if CrashOutcome(s.d, s'.d) && s'.at == Waiting {
      ListedIsComplete(s.d, s'.d);
    } else {
      var a :| Step(s, a) == Some(s');
      StepKeeps(s, a);
    }
  }

  ghost predicate RunOf(run: seq<State>) {
    run != [] && forall k :: 0 <= k < |run| - 1 ==> Next(run[k], run[k + 1])
  }

  /**
   * Along every run of creations, repairs and discards, with any failures and crashes,
   * from an empty directory: `snapshot` only ever names a complete synced file, an unlocked
   * directory's entry is durable, and whenever discard is about to remove the lock both data
   * files are gone for good.
   */
  lemma {:induction false} RunsAreSafe(run: seq<State>)
    requires RunOf(run) && run[0] == State(EmptyDir(), Waiting)
    ensures var s := run[|run| - 1];
      && Safe(s.d)
      && (s.at == Discarded ==> s.d.tmp == Entry(None, {None}) && s.d.final == Entry(None, {None}))
  {
    hide Next;
    LastOk(run);
  }

  lemma {:induction false} LastOk(run: seq<State>)
    requires RunOf(run) && Inv(run[0])
    ensures Inv(run[|run| - 1])
    decreases |run|
  {
    hide Next, Inv;
    if |run| > 1 {
      NextKeeps(run[0], run[1]);
      LastOk(run[1..]);
    }
  }

  /** The steps that publish a first snapshot, up to the removal of the lock. */
  const PUBLISH := [CreateLock, OpenTmp, Fill, SyncTmp, Rename, SyncFinal, Unlock]

  /** The state after i of these steps. */
  function PublishState(i: nat): (r: State) {
    var locked, none, tmp := Entry(true, {false, true}), Entry(None, {None}), Entry(Some(0), {None, Some(0)});
    match i
    case 0 => State(EmptyDir(), Waiting)
    case 1 => State(Dir(locked, none, none, []), Holding)
    case 2 => State(Dir(locked, tmp, none, [Content(false, false)]), Filling(0))
    case 3 => State(Dir(locked, tmp, none, [Content(true, false)]), Filled(0))
    case 4 => State(Dir(locked, tmp, none, [Content(true, true)]), Flush(0))
    case 5 => State(Dir(locked, Entry(None, {None, Some(0)}), tmp, [Content(true, true)]), Publishing)
    case 6 => State(Dir(Entry(true, {true}), none, Entry(Some(0), {Some(0)}), [Content(true, true)]), Published)
    case _ => State(Dir(Entry(false, {true, false}), none, Entry(Some(0), {Some(0)}), [Content(true, true)]), Unlocked)
  }

  lemma {:induction false} PublishStep(i: nat)
    requires i < |PUBLISH|
    ensures Step(PublishState(i), PUBLISH[i]) == Some(PublishState(i + 1))
  {
    var s, s' := PublishState(i), PublishState(i + 1);
    var next := Step(s, PUBLISH[i]).value;
    assert next.d.lock.possible == s'.d.lock.possible;
    assert next.d.tmp.possible == s'.d.tmp.possible;
    assert next.d.final.possible == s'.d.final.possible;
    assert next.d.files == s'.d.files;
  }

  /**
   * The first snapshot of a directory is listed as soon as its lock is removed, and a crash before that removal is
   * durable takes it off the list again.
   */
  lemma {:induction false} UnlistedByCrash() returns (run: seq<State>)
    ensures RunOf(run) && run[0] == State(EmptyDir(), Waiting)
    ensures var s := run[|run| - 1];
      && s.at == Unlocked && Listed(s.d) && s.d.final.current.Some?
      && exists d' :: CrashOutcome(s.d, d') && !Listed(d')
  {
    run := seq(8, i requires 0 <= i => PublishState(i));
    forall k | 0 <= k < 7 ensures Next(run[k], run[k + 1]) {
      PublishStep(k);
    }
    var d' := PublishState(7).d.(lock := Entry(true, {true}));
    assert CrashOutcome(PublishState(7).d, d');
  }

  // ---- the three operations, in place ------------------------------------

  class SnapshotDirectory {
    var d: Dir

    constructor ()
      ensures d == EmptyDir() && Safe(d)
    {
      d := EmptyDir();
    }

    /** createSnapshotFromBody, with each call free to fail, before or after it took effect. */
    method CreateSnapshot() returns (ok: bool)
      requires Safe(d)
      modifies this
      ensures Safe(d)
      ensures ok ==> Listed(d) && d == Synced(d) && d.final.current.Some?
      ensures old(d.lock.current) ==> !ok && d == old(d)
    {
      hide Safe;
      if d.lock.current {
        return false;
      }
      SafeUnlocked(d);
      LockSafe(d, true);
      var locked: bool, applied: bool := *, *;
      if locked || applied {
        d := WithLock(d, true);
      }
      if !locked {
        return false;
      }
      var written := WriteTemp();
      if !written {
        CleanUp();
        return false;
      }
      RenamedSafe(d, d.tmp.current.value);
      var renamed: bool;
      renamed, applied := *, *;
      if renamed || applied {
        d := Renamed(d);
      }
      if !renamed {
        // the lock stays: publication may have happened
        var removed: bool := *;
        if removed {
          RemovedSafe(d);
          d := WithoutTmp(d);
        }
        return false;
      }
      ok := Finish();
    }

    /** Opens, fills and syncs the temporary file. */
    method WriteTemp() returns (ok: bool)
      requires Safe(d) && d.lock.current && d.final == Fixed(d.final)
      modifies this
      ensures Safe(d) && d.lock == old(d.lock) && d.final == old(d.final)
      ensures ok ==> d.tmp.current.Some? && TmpIs(d, d.tmp.current.value, Content(true, true))
    {
      hide Safe;
      if d.tmp.current.Some? {
        return false;
      }
      var i := |d.files|;
      var applied: bool;
      OpenedSafe(d);
      ok, applied := *, *;
      if ok || applied {
        d := Opened(d);
      }
      if !ok {
        return;
      }
      FillSafe(d, i);
      ok, applied := *, *;
      if ok || applied {
        d := Written(d, i);
      }
      if !ok {
        return;
      }
      FillSafe(d, i);
      ok, applied := *, *;
      if ok || applied {
        d := Flushed(d, i);
      }
    }

    /** The deferred cleanup before publication: the temporary file, then the lock, each at best. */
    method CleanUp()
      requires Safe(d) && d.lock.current && d.final == Fixed(d.final)
      modifies this
      ensures Safe(d) && d.final == old(d.final)
    {
      hide Safe;
      var removed: bool := *;
      if removed {
        RemovedSafe(d);
        d := WithoutTmp(d);
      }
      var unlocked: bool := *;
      if unlocked {
        LockSafe(d, false);
        d := WithLock(d, false);
      }
    }

    /** Syncs the directory, removes the lock and syncs again. */
    method Finish() returns (ok: bool)
      requires Safe(d) && d.lock.current
      modifies this
      ensures Safe(d)
      ensures d.final.current == old(d.final.current) && d.tmp.current == old(d.tmp.current)
      ensures ok ==> d == Synced(d) && !d.lock.current
      ensures !d.lock.current ==> d.final == Fixed(d.final) && d.tmp == Fixed(d.tmp)
    {
      hide Safe;
      RemovedSafe(d);
      var applied: bool;
      ok, applied := *, *;
      if ok || applied {
        d := Synced(d);
      }
      if !ok {
        return;
      }
      LockSafe(d, false);
      ok, applied := *, *;
      if ok || applied {
        d := WithLock(d, false);
      }
      if !ok {
        return;
      }
      RemovedSafe(d);
      ok, applied := *, *;
      if ok || applied {
        d := Synced(d);
      }
    }

    /** RepairSnapshot: only a locked directory whose published file reads back whole. */
    method RepairSnapshot() returns (ok: bool)
      requires Safe(d)
      modifies this
      ensures Safe(d)
      ensures !old(d.lock.current) || old(d.final.current).None? ==> !ok && d == old(d)
      ensures d.final.current == old(d.final.current)
      ensures ok ==> d == Synced(d) && !d.lock.current
    {
      hide Safe;
      if !d.lock.current || d.final.current.None? {
        return false;
      }
      ok := *;   // reading and comparing the schema
      if ok {
        ok := Finish();
      }
    }

    /** DiscardIncompleteSnapshot: data first, durably; the lock last. */
    method DiscardIncompleteSnapshot() returns (ok: bool)
      requires Safe(d)
      modifies this
      ensures Safe(d)
      ensures !old(d.lock.current) ==> !ok && d == old(d)
      ensures ok ==> Listed(d) && d == Synced(d) && d.final.current.None?
      ensures !d.lock.current && old(d.lock.current) ==> d.tmp == Entry(None, {None}) && d.final == Entry(None, {None})
    {
      hide Safe;
      if !d.lock.current {
        return false;
      }
      var applied: bool;
      RemovedSafe(d);
      ok, applied := *, *;
      if ok || applied {
        d := WithoutTmp(d);
      }
      if !ok {
        return;
      }
      RemovedSafe(d);
      ok, applied := *, *;
      if ok || applied {
        d := WithoutFinal(d);
      }
      if !ok {
        return;
      }
      ok := Finish();
    }
  }
}
