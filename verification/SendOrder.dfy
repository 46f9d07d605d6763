/** The order in which accepted transactions reach the durability worker. */
module SendOrder {
  import opened Bytes
  import opened Waiters
  import opened DurabilityRuns

  // ---- the stream of sends ------------------------------------------------

  /** The transactions sent, in order. */
  function Sent(actions: seq<Action>): (r: seq<nat>) {
    if actions == [] then []
    else (if actions[0].Send? then [actions[0].txID] else []) + Sent(actions[1..])
  }

  /** The transactions right after m, in order. */
  predicate NextRun(q: seq<nat>, m: nat) {
    forall i :: 0 <= i < |q| ==> q[i] == m + 1 + i
  }

  /**
   * Every send of the run hands over the least accepted transaction that has not been handed over; the
   * ones in `lost` never will be.
   */
  ghost predicate InOrder(s: State, lost: set<nat>, actions: seq<Action>)
    requires Run(s, actions).Some?
    decreases |actions|
  {
    actions == [] ||
    (&& (actions[0].Send? ==>
           (forall u :: u in s.sending ==> actions[0].txID <= u) && (forall u :: u in lost ==> actions[0].txID < u))
     && InOrder(DurabilityRuns.Step(s, actions[0]).value, Lost(lost, actions[0]), actions[1..]))
  }

  function Lost(lost: set<nat>, a: Action): (r: set<nat>) {
    if a.Abandon? then lost + {a.txID} else lost
  }

  /** What is accepted beyond m is being sent or was given up. */
  ghost predicate Pool(s: State, m: nat, lost: set<nat>) {
    && s.sh.startTx > 0 && m <= Accepted(s.sh)
    && (forall u :: u in s.sending || u in lost <==> m < u <= Accepted(s.sh))
    && s.sending !! lost
  }

  /** The transaction a step hands over, if any, is one of the pool. */
  lemma {:induction false} PoolStep(s: State, m: nat, lost: set<nat>, a: Action)
    requires Pool(s, m, lost) && DurabilityRuns.Step(s, a).Some?
    ensures !a.Send? ==> Pool(DurabilityRuns.Step(s, a).value, m, Lost(lost, a))
    ensures a.Send? ==> a.txID in s.sending && m < a.txID
    ensures a.Send? && a.txID == m + 1 ==> Pool(DurabilityRuns.Step(s, a).value, m + 1, Lost(lost, a))
  {
    hide WorkerStep, CloserStep, Waited;
    match a {
      case WaitFor(t) => WaitedFrame(s.sh, t);
      case Reserve(_) =>
      case Send(_) =>
      case Abandon(_) =>
      case Announce => CloserFrame(s, a);
      case Signal => CloserFrame(s, a);
      case CloseQueue => CloserFrame(s, a);
      case Finish => CloserFrame(s, a);
      case _ => WorkerFrame(s, a);
    }
  }

  lemma {:induction false} CloserFrame(s: State, a: Action)
    requires CloserStep(s, a).Some?
    ensures var s' := CloserStep(s, a).value;
      s'.sending == s.sending && s'.sh.lastEnq == s.sh.lastEnq && s'.sh.startTx == s.sh.startTx && s'.queue == s.queue
  {
    hide Dropped;
    ReleasedFrame(s.sh, 0);
  }

  lemma {:induction false} WorkerFrame(s: State, a: Action)
    requires WorkerStep(s, a).Some?
    ensures var s' := WorkerStep(s, a).value;
      s'.sending == s.sending && s'.sh.lastEnq == s.sh.lastEnq && s'.sh.startTx == s.sh.startTx
  {
    hide Dropped, Released;
    if a.Release? && s.worker.Stored? && 0 < s.worker.done <= |s.worker.batch| {
      ReleasedFrame(s.sh, s.worker.batch[s.worker.done - 1]);
    }
    ReleasedFrame(s.sh.(fatal := true), 0);
  }

  lemma {:induction false} OrderIff(s: State, m: nat, lost: set<nat>, actions: seq<Action>)
    requires Pool(s, m, lost) && Run(s, actions).Some?
    ensures NextRun(Sent(actions), m) <==> InOrder(s, lost, actions)
    decreases |actions|
  {
    hide DurabilityRuns.Step;
    if actions != [] {
      var a, rest, s1 := actions[0], actions[1..], DurabilityRuns.Step(s, actions[0]).value;
      PoolStep(s, m, lost, a);
      if !a.Send? {
        assert Sent(actions) == Sent(rest);
        OrderIff(s1, m, Lost(lost, a), rest);
      } else if a.txID == m + 1 {
        OrderIff(s1, m + 1, Lost(lost, a), rest);
        NextRunCons(a.txID, Sent(rest), m);
        assert InOrder(s, lost, actions) <==> InOrder(s1, Lost(lost, a), rest);
      } else {
        assert Sent(actions)[0] == a.txID;
        assert m + 1 in s.sending || m + 1 in lost;
      }
    }
  }

  lemma {:induction false} NextRunCons(t: nat, q: seq<nat>, m: nat)
    requires t == m + 1
    ensures NextRun([t] + q, m) <==> NextRun(q, m + 1)
  {
    if NextRun([t] + q, m) {
      forall i | 0 <= i < |q| ensures q[i] == m + 2 + i {
        assert ([t] + q)[i + 1] == q[i];
      }
    }
  }

  /**
   * However many callers enqueue: the worker is handed the next transactions, each once and without a gap,
   * if and only if the sends happen in the order in which the transactions were accepted, and
   * none is sent after one that was given up.
   */
  lemma {:induction false} StreamInOrder(perTx: bool, startTx: nat, last: nat, mark: nat, actions: seq<Action>)
    requires StartsAt(startTx, last, mark) && Run(Started(perTx, startTx, last, mark), actions).Some?
    ensures NextRun(Sent(actions), last) <==> InOrder(Started(perTx, startTx, last, mark), {}, actions)
  {
    OrderIff(Started(perTx, startTx, last, mark), last, {}, actions);
  }

  // ---- what the worker makes of the stream -------------------------------

  /** What the worker has taken and not yet written. */
  function Unwritten(p: Phase): (r: seq<nat>) {
    match p
    case Collecting(b) => b
    case Writing(b, i) => if i <= |b| then b[i..] else []
    case Syncing(b, i) => if i <= |b| then b[i..] else []
    case Synced(b, i) => if i <= |b| then b[i..] else []
    case Stored(b, i) => if i <= |b| then b[i..] else []
    case _ => []
  }

  predicate GivenUp(p: Phase) {
    p.Failing? || p.Latched? || p.Stopped?
  }

  /** The stream up to m is written, taken or queued, in order. */
  ghost predicate Flowing(s: State, m: nat) {
    GivenUp(s.worker) ||
    (&& NextRun(Unwritten(s.worker) + s.queue, s.appended)
     && s.appended + |Unwritten(s.worker)| + |s.queue| == m)
  }

  /** Only a send adds to the stream. */
  lemma {:induction false} FlowStep(s: State, m: nat, a: Action)
    requires Flowing(s, m) && WorkerOk(s) && DurabilityRuns.Step(s, a).Some?
    ensures Flowing(DurabilityRuns.Step(s, a).value, m) || a.Send?
    ensures a.Send? && a.txID == m + 1 ==> Flowing(DurabilityRuns.Step(s, a).value, m + 1)
  {
    hide CallerStep, WorkerStep, CloserStep, Flowing, WorkerOk;
    match a {
      case Reserve(_) => CallerFlow(s, m, a);
      case Send(_) => CallerFlow(s, m, a);
      case Abandon(_) => CallerFlow(s, m, a);
      case WaitFor(_) => CallerFlow(s, m, a);
      case Announce => CloserFlow(s, m, a);
      case Signal => CloserFlow(s, m, a);
      case CloseQueue => CloserFlow(s, m, a);
      case Finish => CloserFlow(s, m, a);
      case _ => WorkerFlow(s, m, a);
    }
  }

  lemma {:induction false} CallerFlow(s: State, m: nat, a: Action)
    requires Flowing(s, m) && CallerStep(s, a).Some?
    ensures Flowing(CallerStep(s, a).value, m) || a.Send?
    ensures a.Send? && a.txID == m + 1 ==> Flowing(CallerStep(s, a).value, m + 1)
  {
    hide Waited, NextEnqueued;
    var s' := CallerStep(s, a).value;
    if a.Send? {
      assert Unwritten(s'.worker) + s'.queue == Unwritten(s.worker) + s.queue + [a.txID];
    }
  }

  lemma {:induction false} CloserFlow(s: State, m: nat, a: Action)
    requires Flowing(s, m) && CloserStep(s, a).Some?
    ensures Flowing(CloserStep(s, a).value, m)
  {
    hide Dropped;
  }

  lemma {:induction false} WorkerFlow(s: State, m: nat, a: Action)
    requires Flowing(s, m) && WorkerOk(s) && WorkerStep(s, a).Some?
    ensures Flowing(WorkerStep(s, a).value, m)
  {
    hide WorkerStep, WorkerOk;
    if GivenUp(s.worker) {
      StaysGivenUp(s, a);
    } else if a == Write {
      WriteFlow(s);
    } else {
      OtherFlow(s, a);
    }
  }

  lemma {:induction false} StaysGivenUp(s: State, a: Action)
    requires GivenUp(s.worker) && WorkerStep(s, a).Some?
    ensures GivenUp(WorkerStep(s, a).value.worker)
  {
    hide Dropped;
  }

  lemma {:induction false} WriteFlow(s: State)
    requires WorkerStep(s, Write).Some?
    ensures var s' := WorkerStep(s, Write).value;
      && Unwritten(s.worker) != [] && Unwritten(s.worker)[0] == s'.appended == s.appended + 1
      && Unwritten(s'.worker) == Unwritten(s.worker)[1..] && s'.queue == s.queue && !GivenUp(s'.worker)
      && Unwritten(s'.worker) + s'.queue == (Unwritten(s.worker) + s.queue)[1..]
  {
  }

  lemma {:induction false} OtherFlow(s: State, a: Action)
    requires WorkerOk(s) && WorkerStep(s, a).Some? && a != Write && !GivenUp(s.worker)
    ensures var s' := WorkerStep(s, a).value;
      GivenUp(s'.worker) ||
      (s'.appended == s.appended && Unwritten(s'.worker) + s'.queue == Unwritten(s.worker) + s.queue)
  {
    hide Dropped, Released;
    var s' := WorkerStep(s, a).value;
    if a == Receive || a == Drain {
      assert s.queue == [s.queue[0]] + s'.queue;
    } else {
      assert GivenUp(s'.worker) || Unwritten(s'.worker) == Unwritten(s.worker);
    }
  }

  lemma {:induction false} FlowRun(s: State, m: nat, actions: seq<Action>)
    requires Inv(s) && Flowing(s, m) && Run(s, actions).Some? && NextRun(Sent(actions), m)
    ensures exists m': nat :: Flowing(Run(s, actions).value, m')
    decreases |actions|
  {
    hide DurabilityRuns.Step, Flowing;
    if actions != [] {
      var a, rest, s1 := actions[0], actions[1..], DurabilityRuns.Step(s, actions[0]).value;
      assert WorkerOk(s);
      StepKeeps(s, a);
      FlowStep(s, m, a);
      hide Inv;
      if a.Send? {
        assert Sent(actions) == [a.txID] + Sent(rest) && Sent(actions)[0] == a.txID;
        NextRunCons(a.txID, Sent(rest), m);
        FlowRun(s1, m + 1, rest);
      } else {
        assert Sent(actions) == Sent(rest);
        FlowRun(s1, m, rest);
      }
    }
  }

  /** After sends in order, the segment never refuses what the worker is about to write. */
  lemma {:induction false} WritesAreNext(perTx: bool, startTx: nat, last: nat, mark: nat, actions: seq<Action>)
    requires StartsAt(startTx, last, mark) && Run(Started(perTx, startTx, last, mark), actions).Some?
    requires InOrder(Started(perTx, startTx, last, mark), {}, actions)
    ensures var s := Run(Started(perTx, startTx, last, mark), actions).value;
      s.worker.Writing? && s.worker.done < |s.worker.batch| ==> DurabilityRuns.Step(s, Write).Some?
  {
    var s0 := Started(perTx, startTx, last, mark);
    StreamInOrder(perTx, startTx, last, mark, actions);
    StartedOk(perTx, startTx, last, mark);
    assert Flowing(s0, last);
    hide Run, Inv, InOrder, Sent;
    FlowRun(s0, last, actions);
    var s := Run(s0, actions).value;
    var m': nat :| Flowing(s, m');
    if s.worker.Writing? && s.worker.done < |s.worker.batch| {
      assert (Unwritten(s.worker) + s.queue)[0] == s.worker.batch[s.worker.done];
    }
  }

  /** Two enqueuers overtaking each other leave the worker with a transaction the segment refuses. */
  lemma {:induction false} Overtaken(perTx: bool)
    ensures var s := Run(Started(perTx, 1, 0, 0), [Reserve(1), Reserve(2), Send(2), Send(1), Receive, Begin]);
      && s.Some? && s.value.worker == Writing([2], 0)
      && DurabilityRuns.Step(s.value, Write).None? && DurabilityRuns.Step(s.value, Fail).Some?
  {
    var s0 := Started(perTx, 1, 0, 0);
    var s1 := s0.(sh := s0.sh.(lastEnq := 1), sending := {1});
    var s2 := s0.(sh := s0.sh.(lastEnq := 2), sending := {1, 2});
    var s3 := s2.(sending := {1}, queue := [2]);
    var s4 := s2.(sending := {}, queue := [2, 1]);
    var s5 := s4.(queue := [1], worker := Collecting([2]));
    var s6 := s5.(worker := Writing([2], 0));
    assert {} + {1} == {1} && {1} + {2} == {1, 2} && {1, 2} - {2} == {1} && {1} - {1} == {};
    assert [] + [2] == [2] && [2] + [1] == [2, 1] && [2, 1][1..] == [1];
    assert DurabilityRuns.Step(s0, Reserve(1)) == Some(s1);
    assert DurabilityRuns.Step(s1, Reserve(2)) == Some(s2);
    assert DurabilityRuns.Step(s2, Send(2)) == Some(s3);
    assert DurabilityRuns.Step(s3, Send(1)) == Some(s4);
    hide DurabilityRuns.Step, Started;
    RunCons(s0, Reserve(1), [Reserve(2), Send(2), Send(1), Receive, Begin]);
    RunCons(s1, Reserve(2), [Send(2), Send(1), Receive, Begin]);
    RunCons(s2, Send(2), [Send(1), Receive, Begin]);
    RunCons(s3, Send(1), [Receive, Begin]);
    LastTwo(s4, s5, s6);
  }

  lemma {:induction false} RunCons(s: State, a: Action, rest: seq<Action>)
    requires DurabilityRuns.Step(s, a).Some?
    ensures Run(s, [a] + rest) == Run(DurabilityRuns.Step(s, a).value, rest)
  {
    hide DurabilityRuns.Step;
    assert ([a] + rest)[1..] == rest;
  }

  lemma {:induction false} LastTwo(s4: State, s5: State, s6: State)
    requires s4.worker == Idle && s4.queue == [2, 1] && s4.appended == 0
    requires s5 == s4.(queue := [1], worker := Collecting([2])) && s6 == s5.(worker := Writing([2], 0))
    ensures Run(s4, [Receive, Begin]) == Some(s6)
    ensures DurabilityRuns.Step(s6, Write).None? && DurabilityRuns.Step(s6, Fail).Some?
  {
    assert s4.queue[1..] == [1];
    RunCons(s4, Receive, [Begin]);
    RunCons(s5, Begin, []);
    assert [Receive, Begin] == [Receive] + [Begin] && [Begin] == [Begin] + [];
  }
}
