/** Ownership of a declared view's unsubscribe call among any number of concurrent callers. */
module ViewCleanup {
  import opened Bytes

  /** One attempt: the call is running, has returned, or its result has been taken into the shared state. */
  datatype Flight = Calling | Returned(released: bool) | Finished(released: bool)

  /** The state under the mutex, all attempts so far, and how often each attempt's wait channel was closed. */
  datatype Cleanup = Cleanup(done: bool, inFlight: Option<nat>, flights: seq<Flight>, closes: seq<nat>)

  datatype Action =
    | Begin                              // a caller finds nothing in flight and starts the call
    | Return(id: nat, released: bool)    // the call comes back
    | Finish(id: nat)                    // finishUnsubscribe, by the caller or in the background

  function Step(s: Cleanup, a: Action): (r: Option<Cleanup>) {
    match a
    case Begin =>
      if s.done || s.inFlight.Some? then None
      else Some(s.(inFlight := Some(|s.flights|), flights := s.flights + [Calling], closes := s.closes + [0]))
    case Return(id, released) =>
      if id < |s.flights| && s.flights[id].Calling? then
        Some(s.(flights := s.flights[id := Returned(released)]))
      else None
    case Finish(id) =>
      if id < |s.flights| && id < |s.closes| && s.flights[id].Returned? then
        var released := s.flights[id].released;
        var mine := s.inFlight == Some(id);
        Some(Cleanup(s.done || released, if mine then None else s.inFlight, s.flights[id := Finished(released)],
                     if mine then s.closes[id := s.closes[id] + 1] else s.closes))
      else None
  }

  function Run(s: Cleanup, actions: seq<Action>): (r: Option<Cleanup>)
    decreases |actions|
  {
    if actions == [] then Some(s)
    else
      match Step(s, actions[0])
      case None => None
      case Some(s') => Run(s', actions[1..])
  }

  function Fresh(): (r: Cleanup) {
    Cleanup(false, None, [], [])
  }

  ghost predicate Inv(s: Cleanup) {
    && |s.closes| == |s.flights|
    && (s.inFlight.Some? ==> !s.done && s.inFlight.value == |s.flights| - 1)
    && (forall i :: 0 <= i < |s.flights| ==> (s.flights[i].Finished? <==> s.inFlight != Some(i)))
    && (forall i :: 0 <= i < |s.flights| ==> s.closes[i] == if s.flights[i].Finished? then 1 else 0)
    && (forall i :: 0 <= i < |s.flights| && s.flights[i].Finished? && s.flights[i].released ==>
          s.done && i == |s.flights| - 1)
    && (s.done ==> s.flights != [] && s.flights[|s.flights| - 1] == Finished(true))
  }

  lemma {:induction false} RunKeeps(s: Cleanup, actions: seq<Action>)
    requires Inv(s) && Run(s, actions).Some?
    ensures Inv(Run(s, actions).value)
    ensures s.done ==> |Run(s, actions).value.flights| == |s.flights| && Run(s, actions).value.done
    decreases |actions|
  {
    if actions != [] {
      assert Inv(Step(s, actions[0]).value);
      RunKeeps(Step(s, actions[0]).value, actions[1..]);
    }
  }

  /**
   * At most one unsubscribe is under way; every wait channel is closed exactly once, when its
   * attempt is finished; and the attempt that releases is the last one ever made.
   */
  lemma {:induction false} OneOwner(actions: seq<Action>)
    requires Run(Fresh(), actions).Some?
    ensures var s := Run(Fresh(), actions).value;
      && |s.closes| == |s.flights|
      && (forall i, j :: 0 <= i < j < |s.flights| ==> s.flights[i].Finished? || s.flights[j].Finished?)
      && (forall i :: 0 <= i < |s.flights| ==> s.closes[i] == if s.flights[i].Finished? then 1 else 0)
      && (forall i :: 0 <= i < |s.flights| && s.flights[i].Finished? && s.flights[i].released ==>
            s.done && i == |s.flights| - 1)
      && (s.done ==> Step(s, Begin).None?)
  {
    hide Run;
    RunKeeps(Fresh(), actions);
  }

  /** After the release no run makes another call. */
  lemma {:induction false} ReleaseIsFinal(before: seq<Action>, after: seq<Action>)
    requires Run(Fresh(), before).Some? && Run(Fresh(), before).value.done &&
      Run(Run(Fresh(), before).value, after).Some?
    ensures |Run(Run(Fresh(), before).value, after).value.flights| == |Run(Fresh(), before).value.flights|
  {
    hide Run;
    RunKeeps(Fresh(), before);
    RunKeeps(Run(Fresh(), before).value, after);
  }
}
