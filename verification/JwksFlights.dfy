/** The single-flight refresh of one JWKS cache entry. */
module JwksFlights {
  import opened Bytes

  /** One refresh: its waiter count, whether its context was cancelled, and whether its done channel is closed. */
  datatype Flight = Flight(waiters: int, cancelled: bool, done: bool)

  /** `waiting` maps each blocked caller to the flight it waits for; `fetching` are refreshes still under way. */
  datatype Cache = Cache(inFlight: Option<nat>, flights: seq<Flight>, waiting: map<nat, nat>, fetching: set<nat>)

  datatype Action =
    | Join(caller: nat)       // finds a flight and adds itself
    | Launch(caller: nat)     // starts the refresh and waits for it
    | Wake(caller: nat)       // the done channel is closed
    | Quit(caller: nat)       // the caller's own context ends
    | Complete(flight: nat)   // the fetch returns

  function Step(s: Cache, a: Action): (r: Option<Cache>) {
    match a
    case Join(c) =>
      if c in s.waiting || s.inFlight.None? || s.inFlight.value >= |s.flights| then None
      else
        var f := s.inFlight.value;
        Some(s.(flights := s.flights[f := s.flights[f].(waiters := s.flights[f].waiters + 1)],
                waiting := s.waiting[c := f]))
    case Launch(c) =>
      if c in s.waiting || s.inFlight.Some? then None
      else
        var f := |s.flights|;
        Some(Cache(Some(f), s.flights + [Flight(1, false, false)], s.waiting[c := f], s.fetching + {f}))
    case Wake(c) =>
      if c in s.waiting && s.waiting[c] < |s.flights| && s.flights[s.waiting[c]].done then
        Some(s.(waiting := s.waiting - {c}))
      else None
    case Quit(c) =>
      if c !in s.waiting || s.waiting[c] >= |s.flights| then None
      else
        var f := s.waiting[c];
        if s.inFlight != Some(f) then Some(s.(waiting := s.waiting - {c}))
        else
          var n := s.flights[f].waiters - 1;
          var fl := s.flights[f].(waiters := n, cancelled := s.flights[f].cancelled || n == 0);
          Some(s.(flights := s.flights[f := fl], waiting := s.waiting - {c}))
    case Complete(f) =>
      if f !in s.fetching || f >= |s.flights| then None
      else if s.inFlight != Some(f) then Some(s.(fetching := s.fetching - {f}))
      else
        Some(s.(inFlight := None, fetching := s.fetching - {f}, flights := s.flights[f := s.flights[f].(done := true)]))
  }

  function Run(s: Cache, actions: seq<Action>): (r: Option<Cache>)
    decreases |actions|
  {
    if actions == [] then Some(s)
    else
      match Step(s, actions[0])
      case None => None
      case Some(s') => Run(s', actions[1..])
  }

  function Fresh(): (r: Cache) {
    Cache(None, [], map[], {})
  }

  /** The callers blocked on a flight. */
  function Waiting(s: Cache, f: nat): (r: set<nat>) {
    set c | c in s.waiting && s.waiting[c] == f
  }

  ghost predicate Inv(s: Cache) {
    && (s.inFlight.Some? ==> s.inFlight.value == |s.flights| - 1 && s.fetching == {s.inFlight.value})
    && (s.inFlight.None? ==> s.fetching == {})
    && (forall c :: c in s.waiting ==> s.waiting[c] < |s.flights|)
    && (forall f :: 0 <= f < |s.flights| ==> (s.flights[f].done <==> s.inFlight != Some(f)))
    && (s.inFlight.Some? ==> s.flights[s.inFlight.value].waiters == |Waiting(s, s.inFlight.value)|)
  }

  lemma {:induction false} JoinKeeps(s: Cache, c: nat)
    requires Inv(s) && Step(s, Join(c)).Some?
    ensures Inv(Step(s, Join(c)).value)
  {
    assert Waiting(Step(s, Join(c)).value, s.inFlight.value) == Waiting(s, s.inFlight.value) + {c};
  }

  lemma {:induction false} LaunchKeeps(s: Cache, c: nat)
    requires Inv(s) && Step(s, Launch(c)).Some?
    ensures Inv(Step(s, Launch(c)).value)
  {
    assert Waiting(Step(s, Launch(c)).value, |s.flights|) == {c};
  }

  lemma {:induction false} WakeKeeps(s: Cache, c: nat)
    requires Inv(s) && Step(s, Wake(c)).Some?
    ensures Inv(Step(s, Wake(c)).value)
  {
    if s.inFlight.Some? {
      assert Waiting(Step(s, Wake(c)).value, s.inFlight.value) == Waiting(s, s.inFlight.value);
    }
  }

  /** Only the last waiter to quit cancels the flight. */
  lemma {:induction false} QuitKeeps(s: Cache, c: nat)
    requires Inv(s) && Step(s, Quit(c)).Some?
    ensures var s' := Step(s, Quit(c)).value;
      && Inv(s')
      && forall f :: 0 <= f < |s.flights| && !s.flights[f].cancelled && s'.flights[f].cancelled ==> Waiting(s', f) == {}
  {
    var s' := Step(s, Quit(c)).value;
    if s.inFlight.Some? {
      var f := s.inFlight.value;
      assert Waiting(s', f) == Waiting(s, f) - {c};
      assert |Waiting(s', f)| == 0 ==> Waiting(s', f) == {};
    }
  }

  lemma {:induction false} StepKeeps(s: Cache, a: Action)
    requires Inv(s) && Step(s, a).Some?
    ensures Inv(Step(s, a).value)
  {
    hide Waiting;
    match a {
      case Join(c) => JoinKeeps(s, c);
      case Launch(c) => LaunchKeeps(s, c);
      case Wake(c) => WakeKeeps(s, c);
      case Quit(c) => QuitKeeps(s, c);
      case Complete(_) =>
    }
  }

  lemma {:induction false} RunKeeps(s: Cache, actions: seq<Action>)
    requires Inv(s) && Run(s, actions).Some?
    ensures Inv(Run(s, actions).value)
    decreases |actions|
  {
    hide Inv, Step;
    if actions != [] {
      StepKeeps(s, actions[0]);
      RunKeeps(Step(s, actions[0]).value, actions[1..]);
    }
  }

  /**
   * However callers join, quit and wake: at most one refresh is under way; while it is, its
   * waiter count is exactly the number of callers blocked on it; it always finds itself
   * still registered when it completes, so that everyone blocked on any other flight can wake.
   */
  lemma {:induction false} OneFlight(actions: seq<Action>)
    requires Run(Fresh(), actions).Some?
    ensures var s := Run(Fresh(), actions).value;
      && |s.fetching| <= 1
      && (forall f :: f in s.fetching ==>
            s.inFlight == Some(f) && f < |s.flights| && s.flights[f].waiters == |Waiting(s, f)|)
      && (forall c :: c in s.waiting ==> s.inFlight == Some(s.waiting[c]) || Step(s, Wake(c)).Some?)
  {
    hide Run;
    assert Inv(Fresh());
    RunKeeps(Fresh(), actions);
  }

  /**
   * Cancelling is not tied to having no waiter for good: a caller can join a flight that was
   * cancelled when its last waiter quit, and then waits for a fetch that is bound to fail.
   */
  lemma {:induction false} JoinsCancelled(a: nat, b: nat)
    requires a != b
    ensures var s := Run(Fresh(), [Launch(a), Quit(a), Join(b)]);
      s == Some(Cache(Some(0), [Flight(1, true, false)], map[b := 0], {0}))
  {
    var s1 := Cache(Some(0), [Flight(1, false, false)], map[a := 0], {0});
    var s2 := Cache(Some(0), [Flight(0, true, false)], map[], {0});
    var s3 := Cache(Some(0), [Flight(1, true, false)], map[b := 0], {0});
    assert [] + [Flight(1, false, false)] == s1.flights && map[][a := 0] == s1.waiting && {} + {0} == {0};
    assert Step(Fresh(), Launch(a)) == Some(s1);
    assert s1.flights[0 := Flight(0, true, false)] == s2.flights && s1.waiting - {a} == s2.waiting;
    assert Step(s1, Quit(a)) == Some(s2);
    assert s2.flights[0 := Flight(1, true, false)] == s3.flights && s2.waiting[b := 0] == s3.waiting;
    assert Step(s2, Join(b)) == Some(s3);
    assert [Launch(a), Quit(a), Join(b)][1..] == [Quit(a), Join(b)];
    assert [Quit(a), Join(b)][1..] == [Join(b)] && [Join(b)][1..] == [];
    assert Run(s3, []) == Some(s3);
    assert Run(s2, [Join(b)]) == Some(s3);
    assert Run(s1, [Quit(a), Join(b)]) == Some(s3);
  }

  // ---- when a joiner ends up on a cancelled flight -----------------------

  /** A caller is blocked on the registered flight although its fetch is cancelled. */
  predicate BlockedOnCancelled(s: Cache) {
    && s.inFlight.Some? && s.inFlight.value < |s.flights| && s.flights[s.inFlight.value].cancelled
    && exists c :: c in s.waiting && s.waiting[c] == s.inFlight.value
  }

  /** The registered flight has lost its last waiter. */
  predicate Deserted(s: Cache) {
    s.inFlight.Some? && s.inFlight.value < |s.flights| && s.flights[s.inFlight.value].waiters == 0
  }

  /** A deserted flight has been cancelled. */
  ghost predicate DesertedIsCancelled(s: Cache) {
    Inv(s) && (Deserted(s) ==> s.flights[s.inFlight.value].cancelled)
  }

  /** And no other flight has. */
  ghost predicate CancelledIsDeserted(s: Cache) {
    DesertedIsCancelled(s) && (s.inFlight.Some? && s.flights[s.inFlight.value].cancelled ==> Deserted(s))
  }

  lemma {:induction false} DesertedStep(s: Cache, a: Action)
    requires DesertedIsCancelled(s) && Step(s, a).Some?
    ensures DesertedIsCancelled(Step(s, a).value)
    ensures CancelledIsDeserted(s) && !(a.Join? && Deserted(s)) ==> CancelledIsDeserted(Step(s, a).value)
  {
    hide Waiting;
    StepKeeps(s, a);
    WaitersCount(s);
  }

  lemma {:induction false} WaitersCount(s: Cache)
    requires Inv(s)
    ensures s.inFlight.Some? ==> s.flights[s.inFlight.value].waiters >= 0
  {
  }

  /** A joiner of a deserted flight is blocked on a cancelled one at once. */
  lemma {:induction false} JoinsDeserted(s: Cache, c: nat)
    requires DesertedIsCancelled(s) && Deserted(s) && Step(s, Join(c)).Some?
    ensures BlockedOnCancelled(Step(s, Join(c)).value)
  {
    var s' := Step(s, Join(c)).value;
    assert c in s'.waiting && s'.waiting[c] == s'.inFlight.value;
  }

  lemma {:induction false} NobodyBlocked(s: Cache)
    requires CancelledIsDeserted(s)
    ensures !BlockedOnCancelled(s)
  {
    if Deserted(s) {
      assert Waiting(s, s.inFlight.value) == {};
      forall c | c in s.waiting ensures s.waiting[c] != s.inFlight.value {
        assert c !in Waiting(s, s.inFlight.value);
      }
    }
  }

  /** Some state of the run, the first and the last included, has such a caller. */
  ghost predicate EverBlocked(s: Cache, actions: seq<Action>)
    requires Run(s, actions).Some?
    decreases |actions|
  {
    BlockedOnCancelled(s) || (actions != [] && EverBlocked(Step(s, actions[0]).value, actions[1..]))
  }

  /** Some caller of the run took the join branch and found no waiter there. */
  ghost predicate EverJoinsDeserted(s: Cache, actions: seq<Action>)
    requires Run(s, actions).Some?
    decreases |actions|
  {
    actions != [] &&
    ((actions[0].Join? && Deserted(s)) || EverJoinsDeserted(Step(s, actions[0]).value, actions[1..]))
  }

  lemma {:induction false} BlockedIffJoined(s: Cache, actions: seq<Action>)
    requires CancelledIsDeserted(s) && Run(s, actions).Some?
    ensures EverBlocked(s, actions) <==> EverJoinsDeserted(s, actions)
    decreases |actions|
  {
    hide Inv, Step, BlockedOnCancelled, CancelledIsDeserted, DesertedIsCancelled, Deserted;
    NobodyBlocked(s);
    if actions != [] {
      DesertedOf(s);
      DesertedStep(s, actions[0]);
      if actions[0].Join? && Deserted(s) {
        JoinsDeserted(s, actions[0].caller);
      } else {
        BlockedIffJoined(Step(s, actions[0]).value, actions[1..]);
      }
    }
  }

  lemma {:induction false} DesertedOf(s: Cache)
    requires CancelledIsDeserted(s)
    ensures DesertedIsCancelled(s)
  {
  }

  /**
   * Along every run from an empty cache: a caller is at some time blocked on a refresh that is already
   * cancelled if and only if some caller joined a flight whose waiter count it found to be 0.
   */
  lemma {:induction false} BlockedOnlyByLateJoin(actions: seq<Action>)
    requires Run(Fresh(), actions).Some?
    ensures EverBlocked(Fresh(), actions) <==> EverJoinsDeserted(Fresh(), actions)
  {
    hide Run, EverBlocked, EverJoinsDeserted;
    BlockedIffJoined(Fresh(), actions);
  }
}
