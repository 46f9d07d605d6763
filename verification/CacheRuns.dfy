/**
 * The bounded cache set among its callers: pruning reads and deletes one entry at a time under the
 * lock of the set, while callers that already hold an entry start, join, leave and end its refreshes.
 */
module CacheRuns {
  import opened Bytes
  import opened RemoteCache
  import JwksFlights

  // ---- the machine --------------------------------------------------------

  /** One cache object. A lookup hands out a pointer to it, which outlives its place in the set. */
  datatype Object = Object(key: Key, lastUsed: int, cache: JwksFlights.Cache)

  /** How far a lookup that missed has got in pruning the set. */
  datatype Phase =
    | Sweeping(left: set<Key>, doomed: Option<Key>)            // the idle sweep; doomed was read as idle
    | LoopHead                                                 // about to compare the size with the bound
    | Scanning(left: set<Key>, oldest: Option<Key>, age: int)  // the search for the oldest evictable entry
    | RoomMade                                                 // or given up: all the rest is in flight

  /** The lock of the set; a lookup holds it from its miss until it returns a new object. */
  datatype Lock = Free | Held(caller: nat, key: Key, now: int, phase: Phase)

  /** `shared` is the map of the set, `holds` the object each caller outside the lock points to. */
  datatype State = State(max: nat, ttl: nat, objects: seq<Object>, shared: map<Key, nat>, holds: map<nat, nat>,
      lock: Lock)

  datatype Action =
    | Lookup(caller: nat, key: Key, now: int)
    | Check(key: Key)    // read one entry under its own lock
    | Drop               // delete the entry chosen
    | Proceed            // end of a loop, or its test
    | Insert             // make the object, share it if there is room, unlock
    | Touch(caller: nat, now: int)    // finds cached keys that are still good
    | Use(caller: nat, now: int, step: JwksFlights.Action)
    | Complete(target: nat, flight: nat)
    | Release(caller: nat)

  predicate InFlight(s: State, o: nat) {
    o < |s.objects| && s.objects[o].cache.inFlight.Some?
  }

  /** The entry that pruning has read and means to delete. */
  function Chosen(s: State): (r: Option<Key>) {
    match s.lock
    case Held(_, _, _, Sweeping(_, doomed)) => doomed
    case Held(_, _, _, Scanning(_, oldest, _)) => oldest
    case _ => None
  }

  function Checked(s: State, k: Key): (r: Option<State>) {
    if s.lock.Free? || k !in s.shared || s.shared[k] >= |s.objects| then None
    else
      var e := s.objects[s.shared[k]];
      match s.lock.phase
      case Sweeping(left, None) =>
        if k !in left then None
        else
          var idle := e.cache.inFlight.None? && e.lastUsed < s.lock.now - s.ttl;
          Some(s.(lock := s.lock.(phase := Sweeping(left - {k}, if idle then Some(k) else None))))
      case Scanning(left, oldest, age) =>
        if k !in left then None
        else if e.cache.inFlight.None? && (oldest.None? || e.lastUsed < age) then
          Some(s.(lock := s.lock.(phase := Scanning(left - {k}, Some(k), e.lastUsed))))
        else Some(s.(lock := s.lock.(phase := Scanning(left - {k}, oldest, age))))
      case _ => None
  }

  function Dropped(s: State): (r: Option<State>) {
    match s.lock
    case Held(c, key, now, Sweeping(left, Some(k))) =>
      Some(s.(shared := s.shared - {k}, lock := s.lock.(phase := Sweeping(left, None))))
    case Held(c, key, now, Scanning(left, Some(k), _)) =>
      if left == {} then Some(s.(shared := s.shared - {k}, lock := s.lock.(phase := LoopHead))) else None
    case _ => None
  }

  function Proceeded(s: State): (r: Option<State>) {
    if s.lock.Free? then None
    else
      match s.lock.phase
      case Sweeping(left, None) => if left == {} then Some(s.(lock := s.lock.(phase := LoopHead))) else None
      case LoopHead =>
        Some(s.(lock := s.lock.(phase := if |s.shared| >= s.max then Scanning(s.shared.Keys, None, 0) else RoomMade)))
      case Scanning(left, None, _) => if left == {} then Some(s.(lock := s.lock.(phase := RoomMade))) else None
      case _ => None
  }

  function LookedUp(s: State, c: nat, key: Key, now: int): (r: Option<State>) {
    if c in s.holds || !s.lock.Free? then None
    else if key !in s.shared then Some(s.(lock := Held(c, key, now, Sweeping(s.shared.Keys, None))))
    else if s.shared[key] >= |s.objects| then None
    else
      var o := s.shared[key];
      Some(s.(objects := s.objects[o := s.objects[o].(lastUsed := now)], holds := s.holds[c := o]))
  }

  function Inserted(s: State): (r: Option<State>) {
    if s.lock.Free? || !s.lock.phase.RoomMade? then None
    else
      var o := |s.objects|;
      var e := Object(s.lock.key, s.lock.now, JwksFlights.Fresh());
      Some(s.(objects := s.objects + [e], holds := s.holds[s.lock.caller := o], lock := Free,
              shared := if |s.shared| < s.max then s.shared[s.lock.key := o] else s.shared))
  }

  /** A caller that is not blocked looks at the object it holds, and marks it as used. */
  function Touched(s: State, c: nat, now: int): (r: Option<State>) {
    if c !in s.holds || s.holds[c] >= |s.objects| || c in s.objects[s.holds[c]].cache.waiting then None
    else Some(s.(objects := s.objects[s.holds[c] := s.objects[s.holds[c]].(lastUsed := now)]))
  }

  /** A caller acts on the object it holds; every look at it for keys marks it as used. */
  function Used(s: State, c: nat, now: int, a: JwksFlights.Action): (r: Option<State>) {
    if c !in s.holds || s.holds[c] >= |s.objects| || a.Complete? || a.caller != c then None
    else
      var o := s.holds[c];
      match JwksFlights.Step(s.objects[o].cache, a)
      case None => None
      case Some(cache) =>
        var used := if a.Join? || a.Launch? then now else s.objects[o].lastUsed;
        Some(s.(objects := s.objects[o := Object(s.objects[o].key, used, cache)]))
  }

  function Completed(s: State, o: nat, f: nat): (r: Option<State>) {
    if o >= |s.objects| then None
    else
      match JwksFlights.Step(s.objects[o].cache, JwksFlights.Complete(f))
      case None => None
      case Some(cache) => Some(s.(objects := s.objects[o := s.objects[o].(cache := cache)]))
  }

  function Step(s: State, a: Action): (r: Option<State>) {
    match a
    case Lookup(c, key, now) => LookedUp(s, c, key, now)
    case Check(k) => Checked(s, k)
    case Drop => Dropped(s)
    case Proceed => Proceeded(s)
    case Insert => Inserted(s)
    case Touch(c, now) => Touched(s, c, now)
    case Use(c, now, f) => Used(s, c, now, f)
    case Complete(o, f) => Completed(s, o, f)
    case Release(c) =>
      if c in s.holds && s.holds[c] < |s.objects| && c !in s.objects[s.holds[c]].cache.waiting then
        Some(s.(holds := s.holds - {c}))
      else None
  }

  function Run(s: State, actions: seq<Action>): (r: Option<State>)
    decreases |actions|
  {
    if actions == [] then Some(s)
    else
      match Step(s, actions[0])
      case None => None
      case Some(s') => Run(s', actions[1..])
  }

  function Fresh(max: nat, ttl: nat): (r: State) {
    State(max, ttl, [], map[], map[], Free)
  }

  // ---- the invariant ------------------------------------------------------

  ghost predicate ObjectOk(s: State, o: nat)
    requires o < |s.objects|
  {
    && JwksFlights.Inv(s.objects[o].cache)
    && forall c :: c in s.objects[o].cache.waiting ==> c in s.holds && s.holds[c] == o
  }

  ghost predicate LockOk(s: State) {
    s.lock.Free? ||
    (&& s.lock.caller !in s.holds && s.lock.key !in s.shared
     && (Chosen(s).Some? ==> Chosen(s).value in s.shared)
     && match s.lock.phase
        case Sweeping(left, doomed) => left <= s.shared.Keys && (doomed.Some? ==> doomed.value !in left)
        case Scanning(left, oldest, _) => left <= s.shared.Keys && (oldest.Some? ==> oldest.value !in left)
        case _ => true)
  }

  /** The set stays within its bound and shares each key's object; every object has one flight at most. */
  ghost predicate Inv(s: State) {
    && |s.shared| <= s.max
    && (forall k :: k in s.shared ==> s.shared[k] < |s.objects| && s.objects[s.shared[k]].key == k)
    && (forall c :: c in s.holds ==> s.holds[c] < |s.objects|)
    && (forall o :: 0 <= o < |s.objects| ==> ObjectOk(s, o))
    && LockOk(s)
  }

  lemma {:induction false} LookupKeeps(s: State, c: nat, key: Key, now: int)
    requires Inv(s) && LookedUp(s, c, key, now).Some?
    ensures Inv(LookedUp(s, c, key, now).value)
  {
    hide JwksFlights.Inv;
    var s' := LookedUp(s, c, key, now).value;
    forall o | 0 <= o < |s'.objects| ensures ObjectOk(s', o) {
      assert ObjectOk(s, o);
    }
  }

  lemma {:induction false} CheckKeeps(s: State, k: Key)
    requires Inv(s) && Checked(s, k).Some?
    ensures Inv(Checked(s, k).value)
  {
    hide JwksFlights.Inv, ObjectOk;
    assert forall o :: 0 <= o < |s.objects| && ObjectOk(s, o) ==> ObjectOk(Checked(s, k).value, o) by {
      SameObjects(s, Checked(s, k).value);
    }
  }

  lemma {:induction false} SameObjects(s: State, s': State)
    requires s'.objects == s.objects && s'.holds == s.holds
    ensures forall o :: 0 <= o < |s.objects| ==> (ObjectOk(s, o) <==> ObjectOk(s', o))
  {
    hide JwksFlights.Inv;
  }

  lemma {:induction false} DropShape(s: State)
    requires LockOk(s) && Dropped(s).Some?
    ensures Chosen(s).Some? && Chosen(s).value in s.shared && LockOk(Dropped(s).value)
    ensures Dropped(s).value == s.(shared := s.shared - {Chosen(s).value}, lock := Dropped(s).value.lock)
  {
  }

  lemma {:induction false} DropKeeps(s: State)
    requires Inv(s) && Dropped(s).Some?
    ensures Inv(Dropped(s).value)
  {
    hide JwksFlights.Inv, ObjectOk, Dropped, LockOk, Chosen;
    DropShape(s);
    SameObjects(s, Dropped(s).value);
    Smaller(s.shared, Chosen(s).value);
  }

  lemma {:induction false} ProceedKeeps(s: State)
    requires Inv(s) && Proceeded(s).Some?
    ensures Inv(Proceeded(s).value)
  {
    hide JwksFlights.Inv, ObjectOk;
    SameObjects(s, Proceeded(s).value);
  }

  lemma {:induction false} InsertKeeps(s: State)
    requires Inv(s) && Inserted(s).Some?
    ensures Inv(Inserted(s).value)
  {
    var s' := Inserted(s).value;
    OneMore(s.shared, s.lock.key, |s.objects|);
    assert JwksFlights.Inv(JwksFlights.Fresh());
    hide JwksFlights.Inv;
    forall o | 0 <= o < |s'.objects| ensures ObjectOk(s', o) {
      if o < |s.objects| {
        assert ObjectOk(s, o);
      }
    }
  }

  /** Only the caller that acts enters or leaves the callers blocked on an object. */
  lemma {:induction false} WaitingAfter(s: JwksFlights.Cache, a: JwksFlights.Action)
    requires JwksFlights.Inv(s) && JwksFlights.Step(s, a).Some?
    ensures var s' := JwksFlights.Step(s, a).value;
      && JwksFlights.Inv(s')
      && (a.Complete? ==> s'.waiting == s.waiting)
      && (!a.Complete? ==> forall c :: c in s'.waiting && c != a.caller ==> c in s.waiting)
      && (s'.inFlight.Some? <==> a.Launch? || (s.inFlight.Some? && !a.Complete?))
  {
    JwksFlights.StepKeeps(s, a);
  }

  lemma {:induction false} TouchKeeps(s: State, c: nat, now: int)
    requires Inv(s) && Touched(s, c, now).Some?
    ensures Inv(Touched(s, c, now).value)
  {
    hide JwksFlights.Inv;
    var s' := Touched(s, c, now).value;
    forall o | 0 <= o < |s'.objects| ensures ObjectOk(s', o) {
      assert ObjectOk(s, o);
    }
  }

  lemma {:induction false} UseKeeps(s: State, c: nat, now: int, a: JwksFlights.Action)
    requires Inv(s) && Used(s, c, now, a).Some?
    ensures Inv(Used(s, c, now, a).value)
  {
    hide JwksFlights.Inv, JwksFlights.Step;
    var s' := Used(s, c, now, a).value;
    assert ObjectOk(s, s.holds[c]);
    WaitingAfter(s.objects[s.holds[c]].cache, a);
    forall o | 0 <= o < |s'.objects| ensures ObjectOk(s', o) {
      assert ObjectOk(s, o);
    }
  }

  lemma {:induction false} CompleteKeeps(s: State, o: nat, f: nat)
    requires Inv(s) && Completed(s, o, f).Some?
    ensures Inv(Completed(s, o, f).value)
  {
    hide JwksFlights.Inv, JwksFlights.Step;
    var s' := Completed(s, o, f).value;
    assert ObjectOk(s, o);
    WaitingAfter(s.objects[o].cache, JwksFlights.Complete(f));
    forall i | 0 <= i < |s'.objects| ensures ObjectOk(s', i) {
      assert ObjectOk(s, i);
    }
  }

  lemma {:induction false} StepKeeps(s: State, a: Action)
    requires Inv(s) && Step(s, a).Some?
    ensures Inv(Step(s, a).value)
  {
    hide Inv, LookedUp, Checked, Dropped, Proceeded, Inserted, Touched, Used, Completed;
    match a {
      case Lookup(c, key, now) => LookupKeeps(s, c, key, now);
      case Check(k) => CheckKeeps(s, k);
      case Drop => DropKeeps(s);
      case Proceed => ProceedKeeps(s);
      case Insert => InsertKeeps(s);
      case Touch(c, now) => TouchKeeps(s, c, now);
      case Use(c, now, f) => UseKeeps(s, c, now, f);
      case Complete(o, f) => CompleteKeeps(s, o, f);
      case Release(c) => ReleaseKeeps(s, c);
    }
  }

  lemma {:induction false} ReleaseKeeps(s: State, c: nat)
    requires Inv(s) && Step(s, Release(c)).Some?
    ensures Inv(Step(s, Release(c)).value)
  {
    hide JwksFlights.Inv;
    var s' := Step(s, Release(c)).value;
    forall o | 0 <= o < |s'.objects| ensures ObjectOk(s', o) {
      assert ObjectOk(s, o);
    }
  }

  lemma {:induction false} RunKeeps(s: State, actions: seq<Action>)
    requires Inv(s) && Run(s, actions).Some?
    ensures Inv(Run(s, actions).value)
    decreases |actions|
  {
    hide Inv, Step;
    if actions != [] {
      StepKeeps(s, actions[0]);
      RunKeeps(Step(s, actions[0]).value, actions[1..]);
    }
  }

  // ---- what pruning deletes -----------------------------------------------

  /** The entry stays the chosen one, and so undeleted, through all these steps. */
  ghost predicate Pending(s: State, actions: seq<Action>, k: Key)
    decreases |actions|
  {
    && Chosen(s) == Some(k)
    && (actions == [] || (Step(s, actions[0]).Some? && Pending(Step(s, actions[0]).value, actions[1..], k)))
  }

  predicate Ends(a: Action, o: nat) {
    a.Complete? && a.target == o
  }

  predicate Holder(s: State, c: nat, o: nat) {
    c in s.holds && s.holds[c] == o
  }

  ghost predicate HeldByCaller(s: State, o: nat) {
    exists c :: Holder(s, c, o)
  }

  ghost predicate NoneEnds(actions: seq<Action>, o: nat) {
    forall j :: 0 <= j < |actions| ==> !Ends(actions[j], o)
  }

  /** A caller that held the object at the start launches a refresh of it that no later step ends. */
  ghost predicate LaunchedByHolder(s: State, actions: seq<Action>, o: nat) {
    exists i :: 0 <= i < |actions| && LaunchedAt(s, actions, o, i)
  }

  ghost predicate LaunchedAt(s: State, actions: seq<Action>, o: nat, i: nat)
    requires i < |actions|
  {
    && actions[i].Use? && Holder(s, actions[i].caller, o) && actions[i].step.Launch?
    && NoneEnds(actions[i + 1..], o)
  }

  /** The effect of another caller's step on the objects. */
  lemma {:induction false} UseEffect(s: State, c: nat, now: int, f: JwksFlights.Action, o: nat)
    requires Inv(s) && Used(s, c, now, f).Some?
    ensures var s' := Used(s, c, now, f).value;
      && s'.(objects := s.objects) == s && |s'.objects| == |s.objects|
      && (InFlight(s', o) <==> (f.Launch? && Holder(s, c, o)) || InFlight(s, o))
  {
    hide JwksFlights.Inv, JwksFlights.Step, LockOk;
    assert ObjectOk(s, s.holds[c]);
    WaitingAfter(s.objects[s.holds[c]].cache, f);
  }

  lemma {:induction false} CompleteEffect(s: State, t: nat, f: nat, o: nat)
    requires Inv(s) && Completed(s, t, f).Some?
    ensures var s' := Completed(s, t, f).value;
      && s'.(objects := s.objects) == s && |s'.objects| == |s.objects|
      && (InFlight(s', o) <==> InFlight(s, o) && t != o)
  {
    hide JwksFlights.Inv, JwksFlights.Step, LockOk;
    assert ObjectOk(s, t);
    WaitingAfter(s.objects[t].cache, JwksFlights.Complete(f));
  }

  /** While an entry is chosen the set is locked: nobody new can get at its object. */
  lemma {:induction false} PendingStep(s: State, a: Action, k: Key)
    requires Inv(s) && Chosen(s) == Some(k) && Step(s, a).Some? && Chosen(Step(s, a).value) == Some(k)
    ensures var s' := Step(s, a).value;
      && k in s.shared && s'.shared == s.shared && s.shared[k] < |s.objects| == |s'.objects|
      && (forall c :: c in s'.holds ==> Holder(s, c, s'.holds[c]))
      && (forall c :: c in s.holds ==> Holder(s', c, s.holds[c]) || a == Release(c))
      && (InFlight(s', s.shared[k]) <==>
            || (a.Use? && a.step.Launch? && Holder(s, a.caller, s.shared[k]))
            || (InFlight(s, s.shared[k]) && !Ends(a, s.shared[k])))
  {
    hide JwksFlights.Inv, JwksFlights.Step, Used, Completed, ObjectOk;
    var o := s.shared[k];
    if a.Use? {
      UseEffect(s, a.caller, a.now, a.step, o);
    } else if a.Complete? {
      CompleteEffect(s, a.target, a.flight, o);
    }
  }

  /** A caller that lets go of its object while an entry is chosen acts on none until the set is unlocked. */
  lemma {:induction false} StaysGone(s: State, actions: seq<Action>, k: Key, c: nat)
    requires Inv(s) && Pending(s, actions, k) && c !in s.holds
    ensures forall i :: 0 <= i < |actions| ==> !(actions[i].Use? && actions[i].caller == c)
    decreases |actions|
  {
    hide JwksFlights.Inv, ObjectOk;
    if actions != [] {
      var s1, rest := Step(s, actions[0]).value, actions[1..];
      assert !(actions[0].Use? && actions[0].caller == c);
      StepKeeps(s, actions[0]);
      PendingStep(s, actions[0], k);
      hide Inv, Step;
      StaysGone(s1, rest, k, c);
      assert forall i :: 0 < i < |actions| ==> actions[i] == rest[i - 1];
    }
  }

  lemma {:induction false} LaunchedCons(s: State, actions: seq<Action>, k: Key)
    requires Inv(s) && Pending(s, actions, k) && actions != []
    ensures k in s.shared && Step(s, actions[0]).Some?
    ensures var a, o := actions[0], s.shared[k];
      LaunchedByHolder(s, actions, o) <==>
        || (a.Use? && a.step.Launch? && Holder(s, a.caller, o) && NoneEnds(actions[1..], o))
        || LaunchedByHolder(Step(s, a).value, actions[1..], o)
  {
    hide JwksFlights.Inv, ObjectOk;
    var s1, rest, o := Step(s, actions[0]).value, actions[1..], s.shared[k];
    StepKeeps(s, actions[0]);
    PendingStep(s, actions[0], k);
    hide Inv, Step;
    forall i | 0 < i < |actions| ensures LaunchedAt(s, actions, o, i) <==> LaunchedAt(s1, rest, o, i - 1) {
      assert actions[i] == rest[i - 1] && actions[i + 1..] == rest[i..];
      if actions[i].Use? && actions[i].caller !in s1.holds {
        StaysGone(s1, rest, k, actions[i].caller);
      }
    }
    assert LaunchedAt(s, actions, o, 0) <==>
      actions[0].Use? && actions[0].step.Launch? && Holder(s, actions[0].caller, o) && NoneEnds(rest, o);
    if LaunchedByHolder(s1, rest, o) {
      var i :| 0 <= i < |rest| && LaunchedAt(s1, rest, o, i);
      assert LaunchedAt(s, actions, o, i + 1);
    }
  }

  /**
   * From the moment pruning has read an entry until it deletes it, whatever happens in between:
   * the object is in flight in the end if and only if it was in flight and nothing ended that, or a
   * caller that already held it launched a refresh that nothing has ended.
   */
  lemma {:induction false} PendingRun(s: State, actions: seq<Action>, k: Key)
    requires Inv(s) && Pending(s, actions, k)
    ensures k in s.shared && Run(s, actions).Some?
    ensures var s' := Run(s, actions).value;
      && Inv(s') && Chosen(s') == Some(k) && s'.shared == s.shared
      && (InFlight(s', s.shared[k]) <==>
            LaunchedByHolder(s, actions, s.shared[k]) || (InFlight(s, s.shared[k]) && NoneEnds(actions, s.shared[k])))
    decreases |actions|
  {
    hide Step, JwksFlights.Inv, ObjectOk, InFlight;
    if actions != [] {
      var s1, rest, o := Step(s, actions[0]).value, actions[1..], s.shared[k];
      StepKeeps(s, actions[0]);
      PendingStep(s, actions[0], k);
      LaunchedCons(s, actions, k);
      hide Inv, LaunchedByHolder;
      PendingRun(s1, rest, k);
      assert NoneEnds(actions, o) <==> !Ends(actions[0], o) && NoneEnds(rest, o) by {
        assert forall j :: 0 < j < |actions| ==> actions[j] == rest[j - 1];
      }
    }
  }

  ghost predicate Reachable(s: State) {
    exists max: nat, ttl: nat, actions: seq<Action> :: Run(Fresh(max, ttl), actions) == Some(s)
  }

  lemma {:induction false} ReachableOk(s: State)
    requires Reachable(s)
    ensures Inv(s)
  {
    hide Inv, Run;
    var max: nat, ttl: nat, actions: seq<Action> :| Run(Fresh(max, ttl), actions) == Some(s);
    FreshOk(max, ttl);
    RunKeeps(Fresh(max, ttl), actions);
  }

  lemma {:induction false} FreshOk(max: nat, ttl: nat)
    ensures Inv(Fresh(max, ttl))
  {
  }

  /** The read that chooses an entry finds it out of flight, and changes nothing else. */
  lemma {:induction false} ChosenByRead(s: State, k: Key)
    requires Inv(s) && Step(s, Check(k)).Some? && Chosen(Step(s, Check(k)).value) == Some(k)
    ensures k in s.shared && !InFlight(s, s.shared[k])
    ensures var s' := Step(s, Check(k)).value;
      s'.objects == s.objects && s'.holds == s.holds && s'.shared == s.shared
  {
  }

  /**
   * The promise that pruning never drops an entry in flight, exactly as far as it holds. In every
   * reachable state, if the idle sweep or the search for the oldest entry reads entry k and chooses it,
   * and deletes it after any further steps of the other callers: the deleted object is in flight
   * if and only if a caller that held it before the read launched a refresh before the deletion
   * which did not end before the deletion.
   */
  lemma {:induction false} EvictsInFlight(s: State, k: Key, actions: seq<Action>)
    requires Reachable(s) && Step(s, Check(k)).Some?
    requires Pending(Step(s, Check(k)).value, actions, k)
    requires Run(Step(s, Check(k)).value, actions + [Drop]).Some?
    ensures k in s.shared
    ensures var s1 := Run(Step(s, Check(k)).value, actions + [Drop]).value;
      && k !in s1.shared
      && (InFlight(s1, s.shared[k]) <==> LaunchedByHolder(s, actions, s.shared[k]))
  {
    ReachableOk(s);
    ChosenByRead(s, k);
    StepKeeps(s, Check(k));
    var r, o := Step(s, Check(k)).value, s.shared[k];
    hide Inv, Step, InFlight;
    PendingRun(r, actions, k);
    assert LaunchedByHolder(r, actions, o) <==> LaunchedByHolder(s, actions, o) by {
      SameHolders(r, s, actions, o);
    }
    RunThen(r, actions, Drop);
    DropEffect(Run(r, actions).value, k);
    SameFlight(s, r, o);
    SameFlight(Run(r, actions).value, Run(r, actions + [Drop]).value, o);
  }

  lemma {:induction false} SameFlight(s: State, s': State, o: nat)
    ensures s'.objects == s.objects ==> (InFlight(s', o) <==> InFlight(s, o))
  {
  }

  lemma {:induction false} SameHolders(s: State, s': State, actions: seq<Action>, o: nat)
    requires s'.holds == s.holds
    ensures LaunchedByHolder(s, actions, o) <==> LaunchedByHolder(s', actions, o)
  {
    assert forall i :: 0 <= i < |actions| ==> (LaunchedAt(s, actions, o, i) <==> LaunchedAt(s', actions, o, i));
  }

  lemma {:induction false} DropEffect(s: State, k: Key)
    requires Step(s, Drop).Some? && Chosen(s) == Some(k)
    ensures var s' := Step(s, Drop).value;
      s'.shared == s.shared - {k} && s'.objects == s.objects
  {
  }

  lemma {:induction false} RunThen(s: State, actions: seq<Action>, a: Action)
    ensures Run(s, actions + [a]) ==
      match Run(s, actions) { case None => None case Some(s') => Step(s', a) }
    decreases |actions|
  {
    hide Step;
    if actions == [] {
      assert ([a])[1..] == [];
      assert actions + [a] == [a];
    } else {
      assert (actions + [a])[1..] == actions[1..] + [a];
      if Step(s, actions[0]).Some? {
        RunThen(Step(s, actions[0]).value, actions[1..], a);
      }
    }
  }

  /** Some steps of others lead up to the deletion of k while its object is in flight. */
  ghost predicate MayEvictInFlight(s: State, k: Key, o: nat) {
    exists actions: seq<Action> :: Pending(s, actions, k) && EvictsAfter(s, actions, o)
  }

  ghost predicate EvictsAfter(s: State, actions: seq<Action>, o: nat) {
    Run(s, actions).Some? && Step(Run(s, actions).value, Drop).Some? && InFlight(Run(s, actions).value, o)
  }

  /**
   * The guard: once the deletion of an idle entry is next, it can still hit the entry in flight
   * if and only if some caller outside the lock of the set holds the object.
   */
  lemma {:induction false} EvictionGuard(s: State, k: Key)
    requires Reachable(s) && Chosen(s) == Some(k) && Step(s, Drop).Some?
    requires k in s.shared && !InFlight(s, s.shared[k])
    ensures MayEvictInFlight(s, k, s.shared[k]) <==> HeldByCaller(s, s.shared[k])
  {
    ReachableOk(s);
    var o := s.shared[k];
    if HeldByCaller(s, o) {
      var c :| Holder(s, c, o);
      HolderLaunches(s, k, c);
    }
    hide Inv, Step, InFlight, Holder;
    if MayEvictInFlight(s, k, o) {
      var actions: seq<Action> :| Pending(s, actions, k) && EvictsAfter(s, actions, o);
      PendingRun(s, actions, k);
      var i :| 0 <= i < |actions| && LaunchedAt(s, actions, o, i);
      assert Holder(s, actions[i].caller, o);
    }
  }

  /** A holder that is not blocked launches at once; one blocked on a finished refresh wakes first. */
  lemma {:induction false} HolderLaunches(s: State, k: Key, c: nat)
    requires Inv(s) && Chosen(s) == Some(k) && Step(s, Drop).Some?
    requires k in s.shared && !InFlight(s, s.shared[k]) && Holder(s, c, s.shared[k])
    ensures MayEvictInFlight(s, k, s.shared[k])
  {
    var o := s.shared[k];
    assert ObjectOk(s, o);
    var wake, launch := Use(c, 0, JwksFlights.Wake(c)), Use(c, 0, JwksFlights.Launch(c));
    if c in s.objects[o].cache.waiting {
      var s1 := Step(s, wake).value;
      LaunchNow(s1, k, c);
      assert [wake, launch][1..] == [launch];
      assert Pending(s, [wake, launch], k);
      assert EvictsAfter(s, [wake, launch], o);
    } else {
      LaunchNow(s, k, c);
      assert Pending(s, [launch], k);
    }
  }

  lemma {:induction false} LaunchNow(s: State, k: Key, c: nat)
    requires Chosen(s) == Some(k) && Step(s, Drop).Some?
    requires c in s.holds && s.holds[c] < |s.objects|
    requires c !in s.objects[s.holds[c]].cache.waiting && s.objects[s.holds[c]].cache.inFlight.None?
    ensures var launch := Use(c, 0, JwksFlights.Launch(c));
      Pending(s, [launch], k) && EvictsAfter(s, [launch], s.holds[c])
  {
    var launch := Use(c, 0, JwksFlights.Launch(c));
    assert [launch][1..] == [];
    var s1 := Step(s, launch).value;
    assert Pending(s1, [], k) && Run(s1, []) == Some(s1);
  }

  // ---- one flight per key -------------------------------------------------

  predicate Shared(s: State, o: nat) {
    o < |s.objects| && s.objects[o].key in s.shared && s.shared[s.objects[o].key] == o
  }

  /** An object leaves the set only by a deletion, and misses it only for want of room. */
  lemma {:induction false} LeavesByDrop(s: State, a: Action, o: nat)
    requires Inv(s) && Step(s, a).Some? && o < |Step(s, a).value.objects|
    ensures |s.objects| <= |Step(s, a).value.objects| && Step(s, a).value.max == s.max
    ensures !Shared(Step(s, a).value, o) ==>
      if o < |s.objects| then !Shared(s, o) || (a == Drop && Chosen(s) == Some(s.objects[o].key))
      else a == Insert && |s.shared| >= s.max
  {
    hide JwksFlights.Step, ObjectOk;
  }

  /** No step deletes an entry or returns an object that the set has no room for. */
  ghost predicate NeverUnshares(s: State, actions: seq<Action>)
    requires Run(s, actions).Some?
    decreases |actions|
  {
    actions == [] ||
    (&& actions[0] != Drop && (actions[0] == Insert ==> |s.shared| < s.max)
     && NeverUnshares(Step(s, actions[0]).value, actions[1..]))
  }

  ghost predicate AllShared(s: State) {
    forall o :: 0 <= o < |s.objects| ==> Shared(s, o)
  }

  lemma {:induction false} StaysShared(s: State, actions: seq<Action>)
    requires Inv(s) && AllShared(s) && Run(s, actions).Some? && NeverUnshares(s, actions)
    ensures AllShared(Run(s, actions).value)
    decreases |actions|
  {
    hide Inv, Step, Shared;
    if actions != [] {
      var s1 := Step(s, actions[0]).value;
      StepKeeps(s, actions[0]);
      forall o | 0 <= o < |s1.objects| ensures Shared(s1, o) {
        LeavesByDrop(s, actions[0], o);
      }
      StaysShared(s1, actions[1..]);
    }
  }

  /**
   * One flight per key, as far as it holds. In every reachable state two refreshes of one key run at
   * once only on two objects of which at least one is not, or no longer, shared by the set; along a run
   * that deletes no entry and never finds the set full there is one refresh per key at most.
   */
  lemma {:induction false} OneFlightPerKey(max: nat, ttl: nat, actions: seq<Action>, o1: nat, o2: nat)
    requires Run(Fresh(max, ttl), actions).Some?
    requires InFlight(Run(Fresh(max, ttl), actions).value, o1) && InFlight(Run(Fresh(max, ttl), actions).value, o2)
    requires var s := Run(Fresh(max, ttl), actions).value; s.objects[o1].key == s.objects[o2].key
    ensures var s := Run(Fresh(max, ttl), actions).value;
      && (Shared(s, o1) && Shared(s, o2) ==> o1 == o2)
      && (NeverUnshares(Fresh(max, ttl), actions) ==> o1 == o2)
  {
    hide Run, NeverUnshares;
    FreshOk(max, ttl);
    if NeverUnshares(Fresh(max, ttl), actions) {
      StaysShared(Fresh(max, ttl), actions);
    }
  }

  // ---- two flights of one key ----------------------------------------------

  lemma {:induction false} RunJoined(s: State, first: seq<Action>, rest: seq<Action>)
    requires Run(s, first).Some?
    ensures Run(s, first + rest) == Run(Run(s, first).value, rest)
    decreases |first|
  {
    hide Step;
    if first == [] {
      assert first + rest == rest;
    } else {
      assert (first + rest)[1..] == first[1..] + rest;
      RunJoined(Step(s, first[0]).value, first[1..], rest);
    }
  }

  lemma {:induction false} RunCons(s: State, a: Action, rest: seq<Action>)
    requires Step(s, a).Some?
    ensures Run(s, [a] + rest) == Run(Step(s, a).value, rest)
  {
    hide Step;
    assert ([a] + rest)[1..] == rest;
  }

  /** Pruning goes from one state to the other: it deletes entries and nothing else. */
  predicate Pruning(s: State, s': State) {
    && s.lock.Held? && s'.lock.Held?
    && s' == s.(shared := s'.shared, lock := s.lock.(phase := s'.lock.phase))
    && |s'.shared| <= |s.shared|
    && forall k :: k in s'.shared ==> k in s.shared && s'.shared[k] == s.shared[k]
  }

  /** Reading and deleting entries, or going on, is always possible and leads on. */
  lemma {:induction false} PruneStep(s: State, a: Action)
    requires Inv(s) && s.lock.Held? && (a.Check? || a.Drop? || a.Proceed?) && Step(s, a).Some?
    ensures Pruning(s, Step(s, a).value)
    ensures a.Drop? ==> |Step(s, a).value.shared| < |s.shared|
  {
    hide JwksFlights.Inv, JwksFlights.Step, ObjectOk, Used, Completed, LookedUp, Inserted, Touched;
    if a.Drop? {
      DropShape(s);
      Smaller(s.shared, Chosen(s).value);
    }
  }

  lemma {:induction false} PruningOn(s: State, s1: State, s2: State)
    requires Pruning(s, s1) && Pruning(s1, s2)
    ensures Pruning(s, s2)
  {
  }

  lemma {:induction false} SweepStep(s: State) returns (a: Action)
    requires Inv(s) && s.lock.Held? && s.lock.phase.Sweeping?
    ensures (a.Check? || a.Drop? || a.Proceed?) && Step(s, a).Some? && Step(s, a).value.lock.Held?
    ensures match Step(s, a).value.lock.phase
      case LoopHead => true
      case Sweeping(left, doomed) =>
        left < s.lock.phase.left || (left == s.lock.phase.left && doomed.None? && s.lock.phase.doomed.Some?)
      case _ => false
  {
    hide JwksFlights.Step, ObjectOk, Used, Completed, LookedUp, Inserted, Touched;
    var Sweeping(left, doomed) := s.lock.phase;
    if doomed.Some? {
      a := Drop;
    } else if left == {} {
      a := Proceed;
    } else {
      var k :| k in left;
      a := Check(k);
    }
  }

  lemma {:induction false} SweepEnds(s: State) returns (actions: seq<Action>)
    requires Inv(s) && s.lock.Held? && s.lock.phase.Sweeping?
    ensures Run(s, actions).Some? && Inv(Run(s, actions).value)
    ensures Pruning(s, Run(s, actions).value) && Run(s, actions).value.lock.phase == LoopHead
    decreases s.lock.phase.left, s.lock.phase.doomed.Some?
  {
    hide Run, Inv, Step, Pruning;
    var a := SweepStep(s);
    var s1 := Step(s, a).value;
    StepKeeps(s, a);
    PruneStep(s, a);
    var rest: seq<Action> := [];
    if s1.lock.phase.Sweeping? {
      rest := SweepEnds(s1);
      PruningOn(s, s1, Run(s1, rest).value);
    } else {
      RunNone(s1);
    }
    RunCons(s, a, rest);
    actions := [a] + rest;
  }

  lemma {:induction false} RunNone(s: State)
    ensures Run(s, []) == Some(s)
  {
  }

  lemma {:induction false} SearchStep(s: State) returns (a: Action)
    requires Inv(s) && s.lock.Held? && s.lock.phase.Scanning?
    ensures (a.Check? || a.Drop? || a.Proceed?) && Step(s, a).Some? && Step(s, a).value.lock.Held?
    ensures match Step(s, a).value.lock.phase
      case LoopHead => a.Drop?
      case RoomMade => true
      case Scanning(left, _, _) => left < s.lock.phase.left
      case _ => false
  {
    hide JwksFlights.Step, ObjectOk, Used, Completed, LookedUp, Inserted, Touched;
    var Scanning(left, oldest, _) := s.lock.phase;
    if left != {} {
      var k :| k in left;
      a := Check(k);
    } else if oldest.Some? {
      a := Drop;
    } else {
      a := Proceed;
    }
  }

  /** The search for an entry to evict finds one and deletes it, or gives up. */
  lemma {:induction false} SearchEnds(s: State) returns (actions: seq<Action>)
    requires Inv(s) && s.lock.Held? && s.lock.phase.Scanning?
    ensures Run(s, actions).Some? && Inv(Run(s, actions).value)
    ensures var s' := Run(s, actions).value;
      Pruning(s, s') && (s'.lock.phase.RoomMade? || (s'.lock.phase.LoopHead? && |s'.shared| < |s.shared|))
    decreases s.lock.phase.left
  {
    hide Run, Inv, Step;
    var a := SearchStep(s);
    var s1 := Step(s, a).value;
    StepKeeps(s, a);
    PruneStep(s, a);
    var rest: seq<Action> := [];
    if s1.lock.phase.Scanning? {
      rest := SearchEnds(s1);
      PruningOn(s, s1, Run(s1, rest).value);
    } else {
      RunNone(s1);
    }
    RunCons(s, a, rest);
    actions := [a] + rest;
  }

  lemma {:induction false} LoopEnds(s: State) returns (actions: seq<Action>)
    requires Inv(s) && s.lock.Held? && s.lock.phase.LoopHead?
    ensures Run(s, actions).Some? && Inv(Run(s, actions).value)
    ensures Pruning(s, Run(s, actions).value) && Run(s, actions).value.lock.phase.RoomMade?
    decreases |s.shared|
  {
    hide Run, Inv, Step;
    LoopStep(s);
    var s1 := Step(s, Proceed).value;
    StepKeeps(s, Proceed);
    PruneStep(s, Proceed);
    var rest: seq<Action> := [];
    if s1.lock.phase.Scanning? {
      rest := SearchEnds(s1);
      var s2 := Run(s1, rest).value;
      PruningOn(s, s1, s2);
      if s2.lock.phase.LoopHead? {
        var more := LoopEnds(s2);
        PruningOn(s, s2, Run(s2, more).value);
        RunJoined(s1, rest, more);
        rest := rest + more;
      }
    } else {
      RunNone(s1);
    }
    RunCons(s, Proceed, rest);
    actions := [Proceed] + rest;
  }

  lemma {:induction false} LoopStep(s: State)
    requires s.lock.Held? && s.lock.phase.LoopHead?
    ensures Step(s, Proceed).Some? && Step(s, Proceed).value.lock.Held?
    ensures Step(s, Proceed).value.lock.phase.Scanning? || Step(s, Proceed).value.lock.phase.RoomMade?
  {
  }

  /** From wherever it is, a lookup that missed can come to its end. */
  lemma {:induction false} PruneEnds(s: State) returns (actions: seq<Action>)
    requires Inv(s) && s.lock.Held?
    ensures Run(s, actions).Some? && Inv(Run(s, actions).value)
    ensures Pruning(s, Run(s, actions).value) && Run(s, actions).value.lock.phase.RoomMade?
  {
    hide Run, Inv, Step;
    actions := [];
    RunNone(s);
    if s.lock.phase.Sweeping? {
      actions := SweepEnds(s);
    } else if s.lock.phase.Scanning? {
      actions := SearchEnds(s);
    }
    var s1 := Run(s, actions).value;
    if s1.lock.phase.LoopHead? {
      var rest := LoopEnds(s1);
      PruningOn(s, s1, Run(s1, rest).value);
      RunJoined(s, actions, rest);
      actions := actions + rest;
    }
  }

  /** The lookup returns a new object with nothing in flight, and every other object is as before. */
  predicate Served(s: State, s': State) {
    && s.lock.Held? && s'.lock.Free?
    && s'.objects == s.objects + [Object(s.lock.key, s.lock.now, JwksFlights.Fresh())]
    && s'.holds == s.holds[s.lock.caller := |s.objects|]
    && forall k :: k in s'.shared ==> s'.shared[k] == |s.objects| || (k in s.shared && s'.shared[k] == s.shared[k])
  }

  lemma {:induction false} LookupEnds(s: State) returns (actions: seq<Action>)
    requires Inv(s) && s.lock.Held?
    ensures Run(s, actions).Some? && Inv(Run(s, actions).value) && Served(s, Run(s, actions).value)
  {
    hide Run, ObjectOk, JwksFlights.Inv;
    actions := PruneEnds(s);
    var s1 := Run(s, actions).value;
    StepKeeps(s1, Insert);
    RunThen(s, actions, Insert);
    actions := actions + [Insert];
  }

  /** There is always a caller that holds nothing. */
  lemma {:induction false} Newcomer(holds: map<nat, nat>) returns (c: nat)
    ensures c !in holds
  {
    var below: nat := 0;
    while exists k :: k in holds && k >= below
      decreases |set k | k in holds && k >= below|
    {
      var k :| k in holds && k >= below;
      var was, now := set i | i in holds && i >= below, set i | i in holds && i >= k + 1;
      assert k in was && k !in now && now <= was;
      assert now <= was - {k};
      NoLarger(now, was - {k});
      below := k + 1;
    }
    c := below;
  }

  lemma {:induction false} NoLarger(a: set<nat>, b: set<nat>)
    requires a <= b
    ensures |a| <= |b|
    decreases |a|
  {
    if a != {} {
      var x :| x in a;
      NoLarger(a - {x}, b - {x});
    }
  }

  ghost predicate TwoFlights(s: State, o: nat) {
    InFlight(s, o) && exists p: nat :: p != o && InFlight(s, p) && s.objects[p].key == s.objects[o].key
  }

  /** A caller that is not blocked launches a refresh of the object it holds. */
  lemma {:induction false} LaunchStep(s: State, c: nat)
    requires Inv(s) && c in s.holds && c !in s.objects[s.holds[c]].cache.waiting && !InFlight(s, s.holds[c])
    ensures var s' := Step(s, Use(c, 0, JwksFlights.Launch(c)));
      && s'.Some? && Inv(s'.value) && InFlight(s'.value, s.holds[c]) && |s'.value.objects| == |s.objects|
      && s'.value.(objects := s.objects) == s
      && (forall o :: 0 <= o < |s.objects| ==> s'.value.objects[o].key == s.objects[o].key)
      && forall o :: InFlight(s, o) ==> InFlight(s'.value, o)
  {
    StepKeeps(s, Use(c, 0, JwksFlights.Launch(c)));
  }

  /** A second caller of the key gets another object, and refreshes it. */
  lemma {:induction false} SecondFlight(s: State, o: nat) returns (actions: seq<Action>)
    requires Inv(s) && InFlight(s, o) && !Shared(s, o) && s.lock.Free?
    ensures Run(s, actions).Some? && TwoFlights(Run(s, actions).value, o)
  {
    hide Run, JwksFlights.Inv, JwksFlights.Step;
    var k := s.objects[o].key;
    var c := Newcomer(s.holds);
    var s1 := Step(s, Lookup(c, k, 0)).value;
    StepKeeps(s, Lookup(c, k, 0));
    actions := [Lookup(c, k, 0)];
    RunNone(s1);
    RunCons(s, Lookup(c, k, 0), []);
    assert [Lookup(c, k, 0)] + [] == [Lookup(c, k, 0)];
    if k !in s.shared {
      var rest := LookupEnds(s1);
      RunJoined(s, actions, rest);
      actions := actions + rest;
    }
    var s2 := Run(s, actions).value;
    var p := s2.holds[c];
    assert p != o && s2.objects[p].key == k && InFlight(s2, o) && s2.objects[o].key == k;
    if !InFlight(s2, p) {
      assert ObjectOk(s2, p);
      if k in s.shared {
        assert ObjectOk(s, p);
      }
      LaunchStep(s2, c);
      RunThen(s, actions, Use(c, 0, JwksFlights.Launch(c)));
      actions := actions + [Use(c, 0, JwksFlights.Launch(c))];
    }
  }

  /** Whoever holds an object can have it refreshed. */
  lemma {:induction false} HolderFlies(s: State, o: nat) returns (actions: seq<Action>)
    requires Inv(s) && (InFlight(s, o) || HeldByCaller(s, o))
    ensures Run(s, actions).Some? && Inv(Run(s, actions).value) && InFlight(Run(s, actions).value, o)
    ensures var s' := Run(s, actions).value;
      && s'.(objects := s.objects) == s && |s'.objects| == |s.objects|
      && forall p :: 0 <= p < |s.objects| ==> s'.objects[p].key == s.objects[p].key
  {
    RunNone(s);
    actions := [];
    if !InFlight(s, o) {
      var c :| Holder(s, c, o);
      assert ObjectOk(s, o);
      var s1 := s;
      var wake, launch := Use(c, 0, JwksFlights.Wake(c)), Use(c, 0, JwksFlights.Launch(c));
      if c in s.objects[o].cache.waiting {
        s1 := Step(s, wake).value;
        StepKeeps(s, wake);
        RunThen(s, [], wake);
        actions := [] + [wake];
      }
      hide Run, Inv;
      LaunchStep(s1, c);
      RunThen(s, actions, launch);
      actions := actions + [launch];
    }
  }

  /**
   * What an object outside the set leads to. In every reachable state, if an object is not, or no longer, shared by
   * the set while a refresh of it runs or a caller holds it, then its key can come to be refreshed
   * twice at once, whatever else is going on.
   */
  lemma {:induction false} UnsharedFliesTwice(s: State, o: nat)
    requires Reachable(s) && o < |s.objects| && !Shared(s, o) && (InFlight(s, o) || HeldByCaller(s, o))
    ensures exists actions: seq<Action> :: Run(s, actions).Some? && TwoFlights(Run(s, actions).value, o)
  {
    hide Run, Inv, Step, JwksFlights.Inv;
    ReachableOk(s);
    var actions := HolderFlies(s, o);
    var s1 := Run(s, actions).value;
    if s1.lock.Held? {
      var rest := LookupEnds(s1);
      RunJoined(s, actions, rest);
      actions := actions + rest;
    }
    var s2 := Run(s, actions).value;
    assert InFlight(s2, o) && !Shared(s2, o);
    var more := SecondFlight(s2, o);
    RunJoined(s, actions, more);
    assert Run(s, actions + more).Some? && TwoFlights(Run(s, actions + more).value, o);
  }

  // ---- a run that evicts an entry in flight, and refreshes its key twice --

  /**
   * Caller 0 gets the object of x and leaves it idle. Caller 1 looks up y, and its sweep reads x as
   * idle. Caller 0 then launches a refresh, and the sweep deletes the entry. Caller 1 gets its object.
   * Caller 2 finds x gone, gets a second object for it and refreshes that one too.
   */
  const RACE := [
    Lookup(0, "x", 0), Proceed, Proceed, Insert,
    Lookup(1, "y", 9), Check("x"), Use(0, 9, JwksFlights.Launch(0)), Drop,
    Proceed, Proceed, Insert,
    Lookup(2, "x", 9), Check("y"), Proceed, Proceed, Insert, Use(2, 9, JwksFlights.Launch(2))]

  /** An object on which one caller is blocked on the first refresh. */
  function Flying(key: Key, c: nat): (r: Object) {
    Object(key, 9, JwksFlights.Cache(Some(0), [JwksFlights.Flight(1, false, false)], map[c := 0], {0}))
  }

  function Idle(key: Key, t: int): (r: Object) {
    Object(key, t, JwksFlights.Fresh())
  }

  /** The state after i steps of that run. */
  function RaceState(i: nat): (r: State) {
    var one := State(2, 1, [Idle("x", 0)], map["x" := 0], map[0 := 0], Free);
    var two := State(2, 1, [Flying("x", 0)], map[], map[0 := 0], Free);
    var three := State(2, 1, [Flying("x", 0), Idle("y", 9)], map["y" := 1], map[0 := 0, 1 := 1], Free);
    var shared, holds := map["y" := 1, "x" := 2], map[0 := 0, 1 := 1, 2 := 2];
    match i
    case 0 => Fresh(2, 1)
    case 1 => Fresh(2, 1).(lock := Held(0, "x", 0, Sweeping({}, None)))
    case 2 => Fresh(2, 1).(lock := Held(0, "x", 0, LoopHead))
    case 3 => Fresh(2, 1).(lock := Held(0, "x", 0, RoomMade))
    case 4 => one
    case 5 => one.(lock := Held(1, "y", 9, Sweeping({"x"}, None)))
    case 6 => one.(lock := Held(1, "y", 9, Sweeping({}, Some("x"))))
    case 7 => one.(objects := two.objects, lock := Held(1, "y", 9, Sweeping({}, Some("x"))))
    case 8 => two.(lock := Held(1, "y", 9, Sweeping({}, None)))
    case 9 => two.(lock := Held(1, "y", 9, LoopHead))
    case 10 => two.(lock := Held(1, "y", 9, RoomMade))
    case 11 => three
    case 12 => three.(lock := Held(2, "x", 9, Sweeping({"y"}, None)))
    case 13 => three.(lock := Held(2, "x", 9, Sweeping({}, None)))
    case 14 => three.(lock := Held(2, "x", 9, LoopHead))
    case 15 => three.(lock := Held(2, "x", 9, RoomMade))
    case 16 => State(2, 1, [Flying("x", 0), Idle("y", 9), Idle("x", 9)], shared, holds, Free)
    case _ => State(2, 1, [Flying("x", 0), Idle("y", 9), Flying("x", 2)], shared, holds, Free)
  }

  lemma {:induction false} FirstLaunch(key: Key, t: int, c: nat)
    ensures JwksFlights.Step(Idle(key, t).cache, JwksFlights.Launch(c)) == Some(Flying(key, c).cache)
  {
    var launched, flying := JwksFlights.Step(Idle(key, t).cache, JwksFlights.Launch(c)).value, Flying(key, c).cache;
    assert launched.flights == flying.flights && launched.waiting == flying.waiting &&
      launched.fetching == flying.fetching;
  }

  lemma {:induction false} RaceLookup(i: nat)
    requires i == 0 || i == 4 || i == 11
    ensures Step(RaceState(i), RACE[i]) == Some(RaceState(i + 1))
  {
    assert RaceState(i).shared.Keys == if i == 0 then {} else if i == 4 then {"x"} else {"y"};
  }

  lemma {:induction false} RaceInsert(i: nat)
    requires i == 3 || i == 10 || i == 15
    ensures Step(RaceState(i), RACE[i]) == Some(RaceState(i + 1))
  {
    var s, t := Inserted(RaceState(i)).value, RaceState(i + 1);
    assert s.objects == t.objects && s.shared == t.shared && s.holds == t.holds;
  }

  lemma {:induction false} RaceLaunch(i: nat)
    requires i == 6 || i == 16
    ensures Step(RaceState(i), RACE[i]) == Some(RaceState(i + 1))
  {
    FirstLaunch("x", if i == 6 then 0 else 9, if i == 6 then 0 else 2);
    hide JwksFlights.Step;
    assert Step(RaceState(i), RACE[i]).value.objects == RaceState(i + 1).objects;
  }

  lemma {:induction false} RacePrune(i: nat)
    requires i == 5 || i == 7 || i == 12
    ensures Step(RaceState(i), RACE[i]) == Some(RaceState(i + 1))
  {
    assert {"x"} - {"x"} == {} && {"y"} - {"y"} == {} && map["x" := 0] - {"x"} == map[];
  }

  lemma {:induction false} RaceProceed(i: nat)
    requires i in {1, 2, 8, 9, 13, 14}
    ensures Step(RaceState(i), RACE[i]) == Some(RaceState(i + 1))
  {
    assert |RaceState(14).shared| == 1;
  }

  lemma {:induction false} RaceStep(i: nat)
    requires i < |RACE|
    ensures Step(RaceState(i), RACE[i]) == Some(RaceState(i + 1))
  {
    hide Step, RaceState;
    if i == 0 || i == 4 || i == 11 {
      RaceLookup(i);
    } else if i == 3 || i == 10 || i == 15 {
      RaceInsert(i);
    } else if i == 6 || i == 16 {
      RaceLaunch(i);
    } else if i == 5 || i == 7 || i == 12 {
      RacePrune(i);
    } else {
      RaceProceed(i);
    }
  }

  lemma {:induction false} RaceUpTo(i: nat)
    requires i <= |RACE|
    ensures Run(Fresh(2, 1), RACE[..i]) == Some(RaceState(i))
  {
    hide Step;
    if i > 0 {
      RaceUpTo(i - 1);
      RunThen(Fresh(2, 1), RACE[..i - 1], RACE[i - 1]);
      RaceStep(i - 1);
      assert RACE[..i] == RACE[..i - 1] + [RACE[i - 1]];
    }
  }

  /** Pruning does delete an entry in flight, and a key is then refreshed twice at once. */
  lemma {:induction false} RaceHappens()
    ensures var s := Run(Fresh(2, 1), RACE[..8]);
      s.Some? && InFlight(s.value, 0) && "x" !in s.value.shared
    ensures var s := Run(Fresh(2, 1), RACE);
      && s.Some? && InFlight(s.value, 0) && InFlight(s.value, 2)
      && s.value.objects[0].key == s.value.objects[2].key && Shared(s.value, 2)
  {
    hide Run, Step;
    RaceUpTo(8);
    RaceUpTo(17);
    assert RACE[..17] == RACE;
  }
}
