/** Every interleaving of enqueuers, waiters, the worker goroutine and Close. */
module DurabilityRuns {
  import opened Bytes
  import opened Waiters

  // ---- the machine --------------------------------------------------------

  /**
   * Where the worker goroutine stands. `done` counts the items of the batch already written.
   * Stored lies between the store of the durable mark and the release of its waiters.
   */
  datatype Phase =
    | Idle
    | Collecting(batch: seq<nat>)
    | Writing(batch: seq<nat>, done: nat)
    | Syncing(batch: seq<nat>, done: nat)
    | Synced(batch: seq<nat>, done: nat)
    | Stored(batch: seq<nat>, done: nat)
    | Ending
    | Failing
    | Latched
    | Stopped

  /** How far the first call of Close has come. */
  datatype Closer = NotCalled | Announced | Signalled | QueueClosed | Finished(txID: nat)

  /**
   * `sending` are transactions reserved under the lock whose send is still under way,
   * `queue` is the channel, of any capacity. `appended` and `synced` are the last
   * transactions in the segment and behind its last fsync.
   */
  datatype State = State(perTx: bool, sh: Shared, sending: set<nat>, queue: seq<nat>, stopSignal: bool,
                         appended: nat, synced: nat, worker: Phase, closer: Closer)

  datatype Action =
    | Reserve(txID: nat)
    | Send(txID: nat)
    | Abandon(txID: nat)
    | WaitFor(txID: nat)
    | Receive
    | Drain
    | Begin
    | Write
    | StartSync
    | SyncOk
    | Store
    | Release
    | EndBatch
    | Fail
    | Latch
    | SignalStop
    | Exit
    | Announce
    | Signal
    | CloseQueue
    | Finish

  predicate QueueIsClosed(s: State) {
    s.closer.QueueClosed? || s.closer.Finished?
  }

  /** What Go answers with a panic: a send on, or a second close of, the closed channel. */
  predicate Panics(s: State, a: Action) {
    match a
    case Send(t) => t in s.sending && QueueIsClosed(s)
    case CloseQueue => s.closer.Signalled? && QueueIsClosed(s)
    case _ => false
  }

  function CallerStep(s: State, a: Action): (r: Option<State>) {
    match a
    case Reserve(t) =>
      if !s.sh.fatal && !s.sh.closing && NextEnqueued(s.sh.lastEnq, s.sh.startTx) == Some(t) then
        Some(s.(sh := s.sh.(lastEnq := t), sending := s.sending + {t}))
      else None
    case Send(t) => if t in s.sending then Some(s.(queue := s.queue + [t], sending := s.sending - {t})) else None
    case Abandon(t) => if t in s.sending && s.stopSignal then Some(s.(sending := s.sending - {t})) else None
    case WaitFor(t) => Some(s.(sh := Waited(s.sh, t).0))
    case _ => None
  }

  function WorkerStep(s: State, a: Action): (r: Option<State>) {
    match (a, s.worker)
    case (Receive, Idle) =>
      if s.queue != [] then Some(s.(queue := s.queue[1..], worker := Collecting([s.queue[0]]))) else None
    case (Drain, Collecting(b)) =>
      if s.queue != [] then Some(s.(queue := s.queue[1..], worker := Collecting(b + [s.queue[0]]))) else None
    case (Begin, Collecting(b)) => Some(s.(worker := Writing(b, 0)))
    case (Write, Writing(b, i)) =>
      // the segment takes only the next contiguous transaction
      if i < |b| && b[i] == s.appended + 1 then
        Some(s.(appended := b[i], worker := if s.perTx then Syncing(b, i + 1) else Writing(b, i + 1)))
      else None
    case (StartSync, Writing(b, i)) => if i == |b| && !s.perTx then Some(s.(worker := Syncing(b, i))) else None
    case (SyncOk, Syncing(b, i)) => Some(s.(synced := s.appended, worker := Synced(b, i)))
    case (Store, Synced(b, i)) =>
      if 0 < i <= |b| then Some(s.(sh := s.sh.(durable := b[i - 1]), worker := Stored(b, i))) else None
    case (Release, Stored(b, i)) =>
      if 0 < i <= |b| then
        Some(s.(sh := Released(s.sh, b[i - 1]), worker := if i < |b| then Writing(b, i) else Ending))
      else None
    case (EndBatch, Ending) => Some(s.(worker := Idle))
    case (Fail, Writing(_, _)) => Some(s.(worker := Failing))
    case (Fail, Syncing(_, _)) => Some(s.(worker := Failing))
    case (Fail, Ending) => Some(s.(worker := Failing))
    case (Latch, Failing) => Some(s.(sh := Dropped(s.sh.(fatal := true)), worker := Latched))
    case (SignalStop, Latched) => Some(s.(stopSignal := true, worker := Stopped))
    case (Exit, Idle) => if s.queue == [] && QueueIsClosed(s) then Some(s.(worker := Stopped)) else None
    case _ => None
  }

  function CloserStep(s: State, a: Action): (r: Option<State>) {
    match (a, s.closer)
    case (Announce, NotCalled) => Some(s.(sh := s.sh.(closing := true), closer := Announced))
    case (Signal, Announced) => Some(s.(stopSignal := true, closer := Signalled))
    case (CloseQueue, Signalled) => if s.sending == {} then Some(s.(closer := QueueClosed)) else None
    case (Finish, QueueClosed) =>
      if s.worker.Stopped? then Some(s.(sh := Dropped(s.sh), closer := Finished(s.sh.durable))) else None
    case _ => None
  }

  function Step(s: State, a: Action): (r: Option<State>) {
    match a
    case Reserve(_) => CallerStep(s, a)
    case Send(_) => CallerStep(s, a)
    case Abandon(_) => CallerStep(s, a)
    case WaitFor(_) => CallerStep(s, a)
    case Announce => CloserStep(s, a)
    case Signal => CloserStep(s, a)
    case CloseQueue => CloserStep(s, a)
    case Finish => CloserStep(s, a)
    case _ => WorkerStep(s, a)
  }

  function Run(s: State, actions: seq<Action>): (r: Option<State>)
    decreases |actions|
  {
    if actions == [] then Some(s)
    else
      match Step(s, actions[0])
      case None => None
      case Some(s') => Run(s', actions[1..])
  }

  /** A worker started on a segment whose last transaction is `last`, with its durable mark at `mark`. */
  function Started(perTx: bool, startTx: nat, last: nat, mark: nat): (r: State) {
    State(perTx, Shared(mark, mark, startTx, map[], [], false, false), {}, [], false, last, last, Idle, NotCalled)
  }

  // ---- the invariant ------------------------------------------------------

  /** The last transaction the worker has accepted. */
  function Accepted(sh: Shared): (r: int) {
    if sh.lastEnq != 0 then sh.lastEnq else sh.startTx - 1
  }

  ghost predicate NonePending(sh: Shared) {
    forall c :: 0 <= c < |sh.channels| ==> sh.channels[c].outcome != Pending
  }

  /** A value is delivered only for a durable transaction; outside Stored, pending means not durable yet. */
  ghost predicate ChannelsOk(sh: Shared, storing: bool) {
    && WaitersOk(sh)
    && (forall c :: 0 <= c < |sh.channels| && sh.channels[c].outcome == Ready ==> sh.channels[c].txID <= sh.durable)
    && (forall c :: 0 <= c < |sh.channels| && sh.channels[c].outcome == Pending ==>
          storing || sh.channels[c].txID > sh.durable)
  }

  /** Everything on its way to the segment was accepted. */
  ghost predicate FlowOk(s: State) {
    && s.sh.startTx > 0 && s.appended <= Accepted(s.sh)
    && (forall t :: t in s.sending ==> t <= Accepted(s.sh))
    && (forall t :: t in s.queue ==> t <= Accepted(s.sh))
    && (forall t :: t in Batch(s.worker) ==> t <= Accepted(s.sh))
  }

  function Batch(p: Phase): (r: seq<nat>) {
    match p
    case Collecting(b) => b
    case Writing(b, _) => b
    case Syncing(b, _) => b
    case Synced(b, _) => b
    case Stored(b, _) => b
    case _ => []
  }

  ghost predicate WorkerOk(s: State) {
    match s.worker
    case Collecting(b) => b != []
    case Writing(b, i) => b != [] && i <= |b| && (i > 0 ==> b[i - 1] == s.appended)
    case Syncing(b, i) => 0 < i <= |b| && b[i - 1] == s.appended
    case Synced(b, i) => 0 < i <= |b| && b[i - 1] == s.appended == s.synced
    case Stored(b, i) => 0 < i <= |b| && b[i - 1] == s.appended == s.synced == s.sh.durable
    case _ => true
  }

  ghost predicate StopOk(s: State) {
    && (s.sh.closing <==> !s.closer.NotCalled?)
    && (s.sh.fatal ==> (s.worker.Latched? || s.worker.Stopped?) && NonePending(s.sh))
    && (s.worker.Latched? ==> s.sh.fatal)
    && (s.stopSignal ==> s.sh.fatal || s.sh.closing)
    && (QueueIsClosed(s) ==> s.sending == {})
    && (s.worker.Stopped? ==> s.sh.fatal || (QueueIsClosed(s) && s.queue == []))
    && (s.closer.Finished? ==> s.worker.Stopped? && NonePending(s.sh) && s.closer.txID == s.sh.durable)
  }

  ghost predicate Inv(s: State) {
    && ChannelsOk(s.sh, s.worker.Stored?)
    && s.sh.durable <= s.synced <= s.appended
    && WorkerOk(s)
    && StopOk(s)
    && FlowOk(s)
  }

  lemma {:induction false} StartedOk(perTx: bool, startTx: nat, last: nat, mark: nat)
    requires StartsAt(startTx, last, mark)
    ensures Inv(Started(perTx, startTx, last, mark))
  {
  }

  // ---- every step keeps it -----------------------------------------------

  /** The mark never falls, and a settled channel stays as it is. */
  ghost predicate Onward(sh: Shared, sh': Shared) {
    && sh.durable <= sh'.durable
    && |sh.channels| <= |sh'.channels|
    && forall c :: 0 <= c < |sh.channels| ==>
         && sh'.channels[c].txID == sh.channels[c].txID
         && (sh.channels[c].outcome != Pending ==> sh'.channels[c] == sh.channels[c])
  }

  lemma {:induction false} DroppedOk(sh: Shared, storing: bool)
    requires ChannelsOk(sh, storing)
    ensures ChannelsOk(Dropped(sh), false) && NonePending(Dropped(sh)) && Onward(sh, Dropped(sh))
  {
  }

  /** After the release step nothing at or below the mark is pending. */
  lemma {:induction false} ReleaseOk(sh: Shared)
    requires ChannelsOk(sh, true)
    ensures ChannelsOk(Released(sh, sh.durable), false) && Onward(sh, Released(sh, sh.durable))
  {
    hide WaitersOk;
    ReleasedOk(sh, sh.durable);
  }

  lemma {:induction false} WaitOk(sh: Shared, t: nat, storing: bool)
    requires ChannelsOk(sh, storing)
    ensures ChannelsOk(Waited(sh, t).0, storing) && Onward(sh, Waited(sh, t).0)
    ensures NonePending(sh) && (sh.fatal || sh.closing) ==> NonePending(Waited(sh, t).0)
  {
    hide WaitersOk;
    WaitedOk(sh, t);
  }

  lemma {:induction false} StoreOk(sh: Shared, d: nat)
    requires ChannelsOk(sh, false) && sh.durable <= d
    ensures ChannelsOk(sh.(durable := d), true)
  {
    MarkMoves(sh, d);
  }

  lemma {:induction false} FlagsOk(sh: Shared, sh': Shared, storing: bool)
    requires ChannelsOk(sh, storing) && sh'.channels == sh.channels && sh'.waiters == sh.waiters &&
      sh'.durable == sh.durable
    ensures ChannelsOk(sh', storing) && Onward(sh, sh')
  {
    forall id | 0 <= id < |sh.channels| && sh.channels[id].outcome == Pending
      ensures Registered(sh', sh.channels[id].txID, id)
    {
      assert Registered(sh, sh.channels[id].txID, id);
    }
  }

  lemma {:induction false} WaitForKeeps(s: State, t: nat)
    requires Inv(s)
    ensures var s' := s.(sh := Waited(s.sh, t).0);
      Inv(s') && Onward(s.sh, s'.sh)
  {
    hide ChannelsOk, Waited, Onward;
    WaitOk(s.sh, t, s.worker.Stored?);
    WaitedFrame(s.sh, t);
  }

  /** Accepting a transaction, handing it over, or giving it up. */
  lemma {:induction false} EnqueueKeeps(s: State, a: Action)
    requires Inv(s) && CallerStep(s, a).Some? && !Panics(s, a) && !a.WaitFor?
    ensures Inv(CallerStep(s, a).value) && Onward(s.sh, CallerStep(s, a).value.sh)
  {
    hide ChannelsOk, Waited, Onward, WorkerOk;
    var s' := CallerStep(s, a).value;
    FlagsOk(s.sh, s'.sh, s.worker.Stored?);
    SameWork(s, s');
  }

  lemma {:induction false} SameWork(s: State, s': State)
    requires WorkerOk(s) && s'.worker == s.worker && s'.appended == s.appended && s'.synced == s.synced &&
      s'.sh.durable == s.sh.durable
    ensures WorkerOk(s')
  {
  }

  lemma {:induction false} CallerKeeps(s: State, a: Action)
    requires Inv(s) && CallerStep(s, a).Some? && !Panics(s, a)
    ensures Inv(CallerStep(s, a).value) && Onward(s.sh, CallerStep(s, a).value.sh)
  {
    hide Inv, Waited, Onward;
    if a.WaitFor? {
      WaitForKeeps(s, a.txID);
    } else {
      EnqueueKeeps(s, a);
    }
  }

  lemma {:induction false} WaitedFrame(sh: Shared, t: nat)
    ensures var w := Waited(sh, t).0;
      && w.durable == sh.durable && w.lastEnq == sh.lastEnq && w.startTx == sh.startTx
      && w.fatal == sh.fatal && w.closing == sh.closing
  {
  }

  /** What flows on was in flight before. */
  lemma {:induction false} FlowFrom(s: State, s': State)
    requires FlowOk(s) && s'.sh.lastEnq == s.sh.lastEnq && s'.sh.startTx == s.sh.startTx
    requires s'.sending <= s.sending && (forall t :: t in s'.queue ==> t in s.queue)
    requires forall t :: t in Batch(s'.worker) ==> t in Batch(s.worker) || t in s.queue
    requires s'.appended == s.appended || s'.appended in Batch(s.worker)
    ensures FlowOk(s')
  {
  }

  lemma {:induction false} ReceiveKeeps(s: State, a: Action)
    requires Inv(s) && WorkerStep(s, a).Some? && (a == Receive || a == Drain)
    ensures Inv(WorkerStep(s, a).value)
  {
    hide ChannelsOk, FlowOk;
    var s' := WorkerStep(s, a).value;
    assert Batch(s'.worker) == Batch(s.worker) + [s.queue[0]];
    FlowFrom(s, s');
  }

  lemma {:induction false} WriteKeeps(s: State)
    requires Inv(s) && WorkerStep(s, Write).Some?
    ensures Inv(WorkerStep(s, Write).value)
  {
    hide ChannelsOk, FlowOk;
    var s' := WorkerStep(s, Write).value;
    assert s'.appended in Batch(s.worker);
    FlowFrom(s, s');
  }

  lemma {:induction false} StoreKeeps(s: State)
    requires Inv(s) && WorkerStep(s, Store).Some?
    ensures Inv(WorkerStep(s, Store).value) && Onward(s.sh, WorkerStep(s, Store).value.sh)
  {
    hide ChannelsOk, FlowOk;
    var s' := WorkerStep(s, Store).value;
    StoreOk(s.sh, s'.sh.durable);
    FlowFrom(s, s');
  }

  lemma {:induction false} ReleaseKeeps(s: State)
    requires Inv(s) && WorkerStep(s, Release).Some?
    ensures Inv(WorkerStep(s, Release).value) && Onward(s.sh, WorkerStep(s, Release).value.sh)
  {
    hide ChannelsOk, FlowOk, Released, Onward;
    ReleaseOk(s.sh);
    ReleasedFrame(s.sh, s.sh.durable);
    FlowFrom(s, WorkerStep(s, Release).value);
  }

  lemma {:induction false} LatchKeeps(s: State)
    requires Inv(s) && WorkerStep(s, Latch).Some?
    ensures Inv(WorkerStep(s, Latch).value) && Onward(s.sh, WorkerStep(s, Latch).value.sh)
  {
    hide ChannelsOk, FlowOk, Dropped, Onward;
    var s' := WorkerStep(s, Latch).value;
    FlagsOk(s.sh, s.sh.(fatal := true), false);
    DroppedOk(s.sh.(fatal := true), false);
    OnwardTwice(s.sh, s.sh.(fatal := true), s'.sh);
    ReleasedFrame(s.sh.(fatal := true), 0);
    FlowFrom(s, s');
  }

  /** The worker's remaining steps change nothing but its own position and the stop signal. */
  lemma {:induction false} MoveKeeps(s: State, a: Action)
    requires Inv(s) && WorkerStep(s, a).Some? && a !in {Receive, Drain, Write, Store, Release, Latch}
    ensures Inv(WorkerStep(s, a).value) && WorkerStep(s, a).value.sh == s.sh
  {
    hide ChannelsOk, FlowOk;
    FlowFrom(s, WorkerStep(s, a).value);
  }

  lemma {:induction false} WorkerKeeps(s: State, a: Action)
    requires Inv(s) && WorkerStep(s, a).Some?
    ensures Inv(WorkerStep(s, a).value) && Onward(s.sh, WorkerStep(s, a).value.sh)
  {
    match a {
      case Store => StoreKeeps(s);
      case Release => ReleaseKeeps(s);
      case Latch => LatchKeeps(s);
      case Receive => ReceiveKeeps(s, a);
      case Drain => ReceiveKeeps(s, a);
      case Write => WriteKeeps(s);
      case _ => MoveKeeps(s, a);
    }
  }

  lemma {:induction false} ReleasedFrame(sh: Shared, d: nat)
    ensures var w := Released(sh, d);
      && w.durable == sh.durable && w.lastEnq == sh.lastEnq && w.startTx == sh.startTx
      && w.fatal == sh.fatal && w.closing == sh.closing
    ensures var w := Dropped(sh);
      && w.durable == sh.durable && w.lastEnq == sh.lastEnq && w.startTx == sh.startTx
      && w.fatal == sh.fatal && w.closing == sh.closing
    ensures NonePending(sh) ==> NonePending(Released(sh, d))
  {
  }

  lemma {:induction false} OnwardTwice(a: Shared, b: Shared, c: Shared)
    requires Onward(a, b) && Onward(b, c)
    ensures Onward(a, c)
  {
  }

  lemma {:induction false} CloserKeeps(s: State, a: Action)
    requires Inv(s) && CloserStep(s, a).Some?
    ensures Inv(CloserStep(s, a).value) && Onward(s.sh, CloserStep(s, a).value.sh)
  {
    hide ChannelsOk, Dropped, Onward;
    var s' := CloserStep(s, a).value;
    if a == Finish {
      DroppedOk(s.sh, false);
      ReleasedFrame(s.sh, 0);
    } else {
      FlagsOk(s.sh, s'.sh, s.worker.Stored?);
    }
  }

  // ---- runs ---------------------------------------------------------------

  lemma {:induction false} StepKeeps(s: State, a: Action)
    requires Inv(s)
    ensures !Panics(s, a)
    ensures Step(s, a).Some? ==> Inv(Step(s, a).value) && Onward(s.sh, Step(s, a).value.sh)
  {
    assert !Panics(s, a);
    hide Inv, Onward, CallerStep, WorkerStep, CloserStep;
    if Step(s, a).Some? {
      match a
      case Reserve(_) => CallerKeeps(s, a);
      case Send(_) => CallerKeeps(s, a);
      case Abandon(_) => CallerKeeps(s, a);
      case WaitFor(_) => CallerKeeps(s, a);
      case Announce => CloserKeeps(s, a);
      case Signal => CloserKeeps(s, a);
      case CloseQueue => CloserKeeps(s, a);
      case Finish => CloserKeeps(s, a);
      case _ => WorkerKeeps(s, a);
    }
  }

  lemma {:induction false} RunKeeps(s: State, actions: seq<Action>)
    requires Inv(s) && Run(s, actions).Some?
    ensures Inv(Run(s, actions).value) && Onward(s.sh, Run(s, actions).value.sh)
    decreases |actions|
  {
    hide Inv, Step;
    if actions != [] {
      StepKeeps(s, actions[0]);
      RunKeeps(Step(s, actions[0]).value, actions[1..]);
    }
  }

  /** The states any interleaving can reach from the start of the worker. */
  ghost predicate Reachable(s: State) {
    exists perTx, startTx, last, mark, actions ::
      StartsAt(startTx, last, mark) && Run(Started(perTx, startTx, last, mark), actions) == Some(s)
  }

  /**
   * Whatever the interleaving: a channel that delivered a value did so for a synced
   * transaction; a pending channel at or below the mark exists only until the release step
   * that is already due; nothing is pending once the worker has failed or Close has returned;
   * Go never panics on the queue; and what is synced was accepted.
   */
  lemma {:induction false} WaitersSettle(s: State, a: Action)
    requires Reachable(s)
    ensures forall c :: 0 <= c < |s.sh.channels| && s.sh.channels[c].outcome == Ready ==>
      s.sh.channels[c].txID <= s.synced
    ensures forall c ::
      0 <= c < |s.sh.channels| && s.sh.channels[c].outcome == Pending && s.sh.channels[c].txID <= s.sh.durable ==>
      s.worker.Stored? && Step(s, Release).Some? && Step(s, Release).value.sh.channels[c].outcome == Ready
    ensures s.sh.fatal || s.closer.Finished? ==> NonePending(s.sh)
    ensures !Panics(s, a)
    ensures s.sh.durable <= s.synced <= s.appended <= Accepted(s.sh)
  {
    ReachableOk(s);
    StepKeeps(s, a);
  }

  lemma {:induction false} ReachableOk(s: State)
    requires Reachable(s)
    ensures Inv(s)
  {
    hide Inv, Run;
    var perTx, startTx, last, mark, actions :|
      StartsAt(startTx, last, mark) && Run(Started(perTx, startTx, last, mark), actions) == Some(s);
    StartedOk(perTx, startTx, last, mark);
    RunKeeps(Started(perTx, startTx, last, mark), actions);
  }

  /** Along any run the mark only grows and a settled channel is never touched again. */
  lemma {:induction false} SettledOnce(s: State, actions: seq<Action>)
    requires Reachable(s) && Run(s, actions).Some?
    ensures Onward(s.sh, Run(s, actions).value.sh)
  {
    hide Inv, Run;
    ReachableOk(s);
    RunKeeps(s, actions);
  }
}
