/** Runtime start and close, step by step, over every interleaving of their callers. */
module Lifecycle {
  import opened Bytes

  datatype Name = Built | Starting | Ready | Closing | Closed | Failed

  /** A Start call, named by a number that also names its startupDone channel and its durability worker. */
  datatype Starter =
    | Opening            // registered, worker not opened yet
    | Opened             // worker opened, runtime not published
    | CleanUp            // failing with an open worker
    | Leaving(ok: bool)  // deferred: about to unregister
    | Recording          // failed and unregistered: about to record the failure
    | Signal             // about to close startupDone

  /** The one Close call holding closeMu. */
  datatype Closer =
    | NoClose
    | Await(wait: Option<nat>, durability: Option<nat>, lease: bool)
    | StopWorkers(durability: Option<nat>, lease: bool)
    | ReleaseLease(lease: bool)
    | Finish
    | QuickRelease(lease: bool)

  /**
   * `open` are the durability workers not yet closed, `done` the closed startupDone channels,
   * `released` counts how often the lease was released.
   */
  datatype Runtime = Runtime(
    name: Name, ready: bool, blocked: bool, startup: Option<nat>, durability: Option<nat>, lease: bool,
    starters: map<nat, Starter>, open: set<nat>, done: set<nat>, released: nat, closer: Closer)

  datatype Action =
    | StartCall(t: nat)
    | OpenWorker(t: nat)
    | OpenFails(t: nat)
    | Abort(t: nat, block: bool)
    | Publish(t: nat, graphOk: bool)
    | CloseWorker(t: nat)
    | Unregister(t: nat)
    | Record(t: nat)
    | SignalDone(t: nat)
    | CloseCall
    | CloseWaited
    | CloseStops
    | CloseReleases
    | CloseFinishes

  function At(r: Runtime, t: nat): (s: Option<Starter>) {
    if t in r.starters then Some(r.starters[t]) else None
  }

  function StarterStep(r: Runtime, a: Action): (r': Option<Runtime>) {
    match a
    case StartCall(t) =>
      if t in r.starters || t in r.done then None
      else if r.name == Ready || r.name == Starting || r.name == Closing || r.name == Closed ||
        (r.name == Failed && r.blocked) then Some(r)
      else Some(r.(name := Starting, ready := false, startup := Some(t), starters := r.starters[t := Opening]))
    case OpenWorker(t) =>
      if At(r, t) == Some(Opening) then Some(r.(open := r.open + {t}, starters := r.starters[t := Opened])) else None
    case OpenFails(t) =>
      if At(r, t) == Some(Opening) then Some(r.(starters := r.starters[t := Leaving(false)])) else None
    case Abort(t, block) =>
      // the retry is blocked only while the start is still under way or has failed
      if At(r, t) == Some(Opened) then
        var blocks := block && (r.name == Failed || r.name == Starting);
        Some(r.(blocked := r.blocked || blocks, starters := r.starters[t := CleanUp]))
      else None
    case Publish(t, graphOk) =>
      if At(r, t) != Some(Opened) then None
      else if r.name == Closed || r.name == Closing || !graphOk then Some(r.(starters := r.starters[t := CleanUp]))
      else Some(r.(name := Ready, ready := true, durability := Some(t), starters := r.starters[t := Leaving(true)]))
    case CloseWorker(t) =>
      if At(r, t) == Some(CleanUp) then
        Some(r.(open := r.open - {t}, starters := r.starters[t := Leaving(false)]))
      else None
    case Unregister(t) =>
      if t in r.starters && r.starters[t].Leaving? then
        var startup := if r.startup == Some(t) then None else r.startup;
        Some(r.(startup := startup, starters := r.starters[t := if r.starters[t].ok then Signal else Recording]))
      else None
    case Record(t) =>
      if At(r, t) == Some(Recording) then
        var name := if r.name == Closed || r.name == Closing then r.name else Failed;
        Some(r.(name := name, ready := false, starters := r.starters[t := Signal]))
      else None
    case SignalDone(t) =>
      if At(r, t) == Some(Signal) then Some(r.(done := r.done + {t}, starters := r.starters - {t})) else None
    case _ => None
  }

  function CloserStep(r: Runtime, a: Action): (r': Option<Runtime>) {
    match (a, r.closer)
    case (CloseCall, NoClose) =>
      if r.name == Closed then Some(r)
      else if (r.name == Built || r.name == Failed) && r.startup == None then
        Some(r.(name := Closed, ready := false, lease := false, closer := QuickRelease(r.lease)))
      else Some(r.(name := Closing, ready := false, lease := false, closer := Await(r.startup, r.durability, r.lease)))
    case (CloseWaited, Await(wait, dur, lease)) =>
      if wait == None || wait.value in r.done then Some(r.(closer := StopWorkers(dur, lease))) else None
    case (CloseStops, StopWorkers(dur, lease)) =>
      Some(r.(open := if dur.Some? then r.open - {dur.value} else r.open, closer := ReleaseLease(lease)))
    case (CloseReleases, ReleaseLease(lease)) =>
      Some(r.(released := if lease then r.released + 1 else r.released, closer := Finish))
    case (CloseReleases, QuickRelease(lease)) =>
      Some(r.(released := if lease then r.released + 1 else r.released, closer := NoClose))
    case (CloseFinishes, Finish) => Some(r.(durability := None, name := Closed, ready := false, closer := NoClose))
    case _ => None
  }

  function Step(r: Runtime, a: Action): (r': Option<Runtime>) {
    match a
    case CloseCall => CloserStep(r, a)
    case CloseWaited => CloserStep(r, a)
    case CloseStops => CloserStep(r, a)
    case CloseReleases => CloserStep(r, a)
    case CloseFinishes => CloserStep(r, a)
    case _ => StarterStep(r, a)
  }

  function Run(r: Runtime, actions: seq<Action>): (r': Option<Runtime>)
    decreases |actions|
  {
    if actions == [] then Some(r)
    else
      match Step(r, actions[0])
      case None => None
      case Some(next) => Run(next, actions[1..])
  }

  /** A runtime as Build leaves it, holding the data directory lease. */
  function AsBuilt(): (r: Runtime) {
    Runtime(Built, false, false, None, None, true, map[], {}, {}, 0, NoClose)
  }

  // ---- the invariant ------------------------------------------------------

  /** Between registering and unregistering. */
  predicate Registered(s: Starter) {
    s.Opening? || s.Opened? || s.CleanUp? || s.Leaving?
  }

  predicate Busy(s: Starter) {
    Registered(s) || s.Recording?
  }

  ghost predicate Idle(r: Runtime) {
    forall t :: t in r.starters ==> !Busy(r.starters[t])
  }

  /** No Start call still holds, or will open, a worker. */
  ghost predicate NoneRegistered(r: Runtime) {
    forall t :: t in r.starters ==> !Registered(r.starters[t])
  }

  ghost predicate OneBusy(r: Runtime) {
    forall t, u :: t in r.starters && u in r.starters && Busy(r.starters[t]) && Busy(r.starters[u]) ==> t == u
  }

  ghost predicate StartersOk(r: Runtime) {
    && (forall t :: t in r.starters && Registered(r.starters[t]) ==> r.startup == Some(t))
    && (r.startup.Some? ==> r.startup.value in r.starters && Registered(r.starters[r.startup.value]))
    && (forall t :: t in r.starters ==> t !in r.done)
    && (forall t :: t in r.starters && Registered(r.starters[t]) ==>
          r.name == Closing || (if r.starters[t] == Leaving(true) then r.name == Ready else r.name == Starting))
    && (forall t :: t in r.starters && r.starters[t].Recording? ==>
          r.name == Starting || r.name == Closing || r.name == Closed)
  }

  /** Every open worker belongs to an unpublished Start call or to the published runtime. */
  ghost predicate WorkersOk(r: Runtime) {
    && (forall t :: t in r.open ==>
          (t in r.starters && (r.starters[t].Opened? || r.starters[t].CleanUp?)) || r.durability == Some(t))
    && (r.name == Built || r.name == Failed ==> Idle(r) && r.durability == None)
    && (r.name == Starting ==> r.durability == None)
    && (r.name == Ready ==> r.durability.Some?)
    && (r.name == Closed ==> NoneRegistered(r) && r.durability == None)
  }

  ghost predicate CloserOk(r: Runtime) {
    && (r.ready <==> r.name == Ready)
    && match r.closer
       case NoClose => r.name != Closing && r.released + (if r.lease then 1 else 0) == 1 &&
         (r.lease <==> r.name != Closed)
       case Await(wait, dur, lease) =>
         && r.name == Closing && !r.lease && lease && r.released == 0 && dur == r.durability
         && (r.startup.Some? ==> r.startup == wait)
       case StopWorkers(dur, lease) =>
         r.name == Closing && !r.lease && lease && r.released == 0 && dur == r.durability && NoneRegistered(r)
       case ReleaseLease(lease) =>
         r.name == Closing && !r.lease && lease && r.released == 0 && NoneRegistered(r) && r.open == {}
       case Finish => r.name == Closing && !r.lease && r.released == 1 && NoneRegistered(r) && r.open == {}
       case QuickRelease(lease) => r.name == Closed && !r.lease && lease && r.released == 0 && r.open == {}
  }

  ghost predicate Inv(r: Runtime) {
    OneBusy(r) && StartersOk(r) && WorkersOk(r) && CloserOk(r)
  }

  /** Only one call at a time registers: a second one is turned away until the first has recorded its end. */
  lemma {:induction false} StarterKeepsOne(r: Runtime, a: Action)
    requires OneBusy(r) && WorkersOk(r) && StarterStep(r, a).Some?
    ensures OneBusy(StarterStep(r, a).value)
  {
    var r' := StarterStep(r, a).value;
    if a.StartCall? {
      assert r'.starters == r.starters || Idle(r);
    } else {
      assert forall t :: t in r'.starters && Busy(r'.starters[t]) ==> t in r.starters && Busy(r.starters[t]);
    }
  }

  lemma {:induction false} StarterKeepsStarters(r: Runtime, a: Action)
    requires Inv(r) && StarterStep(r, a).Some?
    ensures StartersOk(StarterStep(r, a).value)
  {
    RecordsAlone(r, a);
    hide CloserOk, OneBusy;
  }

  lemma {:induction false} RecordsAlone(r: Runtime, a: Action)
    requires OneBusy(r)
    ensures a.Record? && a.t in r.starters && r.starters[a.t].Recording? ==>
      forall u :: u in r.starters && u != a.t ==> !Busy(r.starters[u])
  {
  }

  lemma {:induction false} StarterKeepsWorkers(r: Runtime, a: Action)
    requires Inv(r) && StarterStep(r, a).Some?
    ensures WorkersOk(StarterStep(r, a).value)
  {
    RecordsAlone(r, a);
    hide CloserOk, OneBusy;
  }

  lemma {:induction false} StarterKeepsCloser(r: Runtime, a: Action)
    requires Inv(r) && StarterStep(r, a).Some?
    ensures CloserOk(StarterStep(r, a).value)
  {
    RecordsAlone(r, a);
    hide OneBusy;
  }

  lemma {:induction false} StarterKeeps(r: Runtime, a: Action)
    requires Inv(r) && StarterStep(r, a).Some?
    ensures Inv(StarterStep(r, a).value)
  {
    hide CloserOk, StartersOk, WorkersOk, OneBusy;
    StarterKeepsOne(r, a);
    StarterKeepsStarters(r, a);
    StarterKeepsWorkers(r, a);
    StarterKeepsCloser(r, a);
  }

  lemma {:induction false} CloserKeeps(r: Runtime, a: Action)
    requires Inv(r) && CloserStep(r, a).Some?
    ensures Inv(CloserStep(r, a).value)
  {
  }

  lemma {:induction false} IdleWhenFailed(r: Runtime)
    requires Inv(r)
    ensures r.name == Failed ==> r.startup == None && forall t :: t in r.starters ==> !Busy(r.starters[t])
  {
  }

  /**
   * Every step keeps the invariant, never leaves Closed, and never restarts a failed runtime whose retry is
   * blocked.
   */
  lemma {:induction false} StepKeeps(r: Runtime, a: Action)
    requires Inv(r) && Step(r, a).Some?
    ensures var r' := Step(r, a).value;
      && Inv(r')
      && (r.name == Closed ==> r'.name == Closed)
      && r.released <= r'.released <= 1
      && (r.blocked ==> r'.blocked)
      && (r.name == Failed && r.blocked ==> r'.name == Failed || r'.name == Closed)
  {
    IdleWhenFailed(r);
    hide StartersOk, WorkersOk, OneBusy;
    match a
    case CloseCall => CloserKeeps(r, a);
    case CloseWaited => CloserKeeps(r, a);
    case CloseStops => CloserKeeps(r, a);
    case CloseReleases => CloserKeeps(r, a);
    case CloseFinishes => CloserKeeps(r, a);
    case _ => StarterKeeps(r, a);
  }

  lemma {:induction false} RunKeeps(r: Runtime, actions: seq<Action>)
    requires Inv(r) && Run(r, actions).Some?
    ensures Inv(Run(r, actions).value)
    ensures r.name == Closed ==> Run(r, actions).value.name == Closed
    ensures r.released <= Run(r, actions).value.released
    decreases |actions|
  {
    hide Inv, Step;
    if actions != [] {
      StepKeeps(r, actions[0]);
      RunKeeps(Step(r, actions[0]).value, actions[1..]);
    }
  }

  /**
   * After any interleaving of Start and Close calls: the ready flag is up exactly in the
   * Ready state; the lease is released at most once, and only with every durability worker
   * that Start opened closed again; and the runtime that is closed has released it or is
   * about to.
   */
  lemma {:induction false} LifecycleSafe(actions: seq<Action>)
    requires Run(AsBuilt(), actions).Some?
    ensures var r := Run(AsBuilt(), actions).value;
      && (r.ready <==> r.name == Ready)
      && r.released <= 1
      && (r.released == 1 ==> r.open == {} && !r.lease && (r.name == Closed || r.closer == Finish))
      && (r.name == Closed ==> r.released == 1 || r.closer == QuickRelease(true))
      && (r.name == Ready ==> r.durability.Some? && r.lease)
  {
    hide Run;
    RunKeeps(AsBuilt(), actions);
    var r := Run(AsBuilt(), actions).value;
    ClosedHasNoWorkers(r);
  }

  lemma {:induction false} ClosedHasNoWorkers(r: Runtime)
    requires Inv(r)
    ensures r.name == Closed ==> r.open == {}
  {
    if r.name == Closed {
      assert forall t :: t !in r.open;
    }
  }

  /** Once closed, closed for good. */
  lemma {:induction false} ClosedForGood(before: seq<Action>, after: seq<Action>)
    requires Run(AsBuilt(), before).Some? && Run(AsBuilt(), before).value.name == Closed
    requires Run(Run(AsBuilt(), before).value, after).Some?
    ensures Run(Run(AsBuilt(), before).value, after).value.name == Closed
  {
    hide Run;
    RunKeeps(AsBuilt(), before);
    RunKeeps(Run(AsBuilt(), before).value, after);
  }
}
