/** The state the durability worker shares with its callers: the durable mark and the waiters. */
module Waiters {
  import opened Bytes

  /** What a waiter's channel holds: nothing yet, its transaction and closed, or closed empty. */
  datatype Outcome = Pending | Ready | Failed

  datatype Channel = Channel(txID: nat, outcome: Outcome)

  /**
   * Everything guarded by stateMu, and the durable mark. `channels` are all channels ever
   * handed out, in order; `waiters` are the registered ones by transaction.
   */
  datatype Shared = Shared(durable: nat, lastEnq: nat, startTx: nat, waiters: map<nat, seq<nat>>,
                           channels: seq<Channel>, fatal: bool, closing: bool)

  /** The channel is registered for transaction t. */
  predicate Registered(s: Shared, t: nat, id: nat) {
    t in s.waiters && id in s.waiters[t]
  }

  /** The registered channels are exactly the pending ones, each registered once. */
  ghost predicate WaitersOk(s: Shared) {
    && (forall t, i :: t in s.waiters && 0 <= i < |s.waiters[t]| ==>
          s.waiters[t][i] < |s.channels| && s.channels[s.waiters[t][i]] == Channel(t, Pending))
    && (forall t, i, j :: t in s.waiters && 0 <= i < j < |s.waiters[t]| ==> s.waiters[t][i] != s.waiters[t][j])
    && (forall id :: 0 <= id < |s.channels| && s.channels[id].outcome == Pending ==>
          Registered(s, s.channels[id].txID, id))
  }

  // ---- the operations, as functions --------------------------------------

  /** nextEnqueuedTxIDLocked: the only transaction the worker will take next. */
  function NextEnqueued(lastEnq: nat, startTx: nat): (r: Option<nat>) {
    if lastEnq != 0 then (if lastEnq == MAX_U64 then None else Some(lastEnq + 1))
    else if startTx != 0 then Some(startTx)
    else Some(1)
  }

  /** The marks resumption hands the worker: the segment's last transaction, or zero on an empty segment. */
  predicate StartsAt(startTx: nat, last: nat, mark: nat) {
    startTx > 0 && last >= startTx - 1 && (mark == last || (mark == 0 && last == startTx - 1))
  }

  /** WaitUntilDurable: the new state and, unless the transaction is 0, the channel handed out. */
  function Waited(s: Shared, txID: nat): (r: (Shared, Option<nat>)) {
    if txID == 0 then (s, None)
    else
      var id := |s.channels|;
      if s.durable >= txID then (s.(channels := s.channels + [Channel(txID, Ready)]), Some(id))
      else if s.fatal || s.closing then (s.(channels := s.channels + [Channel(txID, Failed)]), Some(id))
      else
        var queue := if txID in s.waiters then s.waiters[txID] else [];
        (s.(channels := s.channels + [Channel(txID, Pending)], waiters := s.waiters[txID := queue + [id]]), Some(id))
  }

  function Resolved(c: Channel, upTo: nat): (r: Channel) {
    if c.outcome == Pending && c.txID <= upTo then c.(outcome := Ready) else c
  }

  function ResolvedAll(cs: seq<Channel>, upTo: nat): (r: seq<Channel>)
    ensures |r| == |cs| && forall i :: 0 <= i < |cs| ==> r[i] == Resolved(cs[i], upTo)
  {
    seq(|cs|, i requires 0 <= i < |cs| => Resolved(cs[i], upTo))
  }

  function Above(w: map<nat, seq<nat>>, upTo: nat): (r: map<nat, seq<nat>>) {
    map t | t in w && t > upTo :: w[t]
  }

  /** releaseWaitersUpTo: every pending channel at or below the mark gets its transaction. */
  function Released(s: Shared, upTo: nat): (r: Shared) {
    s.(waiters := Above(s.waiters, upTo), channels := ResolvedAll(s.channels, upTo))
  }

  function FailedAll(cs: seq<Channel>): (r: seq<Channel>)
    ensures |r| == |cs|
    ensures forall i :: 0 <= i < |cs| ==> r[i] == if cs[i].outcome == Pending then cs[i].(outcome := Failed) else cs[i]
  {
    seq(|cs|, i requires 0 <= i < |cs| => if cs[i].outcome == Pending then cs[i].(outcome := Failed) else cs[i])
  }

  /** closeWaitersLocked: every pending channel is closed without a value. */
  function Dropped(s: Shared): (r: Shared) {
    s.(waiters := map[], channels := FailedAll(s.channels))
  }

  /** The tail of syncBatchTail: the mark moves, then the waiters it covers are released. */
  function Marked(s: Shared, d: nat): (r: Shared) {
    Released(s.(durable := d), d)
  }

  lemma {:induction false} WaitedOk(s: Shared, txID: nat)
    requires WaitersOk(s)
    ensures WaitersOk(Waited(s, txID).0)
    ensures s.channels <= Waited(s, txID).0.channels
  {
    hide WaitersOk;
    if txID == 0 {
    } else if s.durable >= txID || s.fatal || s.closing {
      AddSettled(s, Channel(txID, if s.durable >= txID then Ready else Failed));
    } else {
      AddPending(s, Waited(s, txID).0, txID, if txID in s.waiters then s.waiters[txID] else []);
    }
  }

  lemma {:induction false} AddSettled(s: Shared, c: Channel)
    requires WaitersOk(s) && c.outcome != Pending
    ensures WaitersOk(s.(channels := s.channels + [c]))
  {
    var s' := s.(channels := s.channels + [c]);
    forall i | 0 <= i < |s'.channels| && s'.channels[i].outcome == Pending
      ensures Registered(s', s'.channels[i].txID, i)
    {
      assert Registered(s, s.channels[i].txID, i);
    }
  }

  lemma {:induction false} AddPending(s: Shared, s': Shared, t: nat, queue: seq<nat>)
    requires WaitersOk(s) && queue == if t in s.waiters then s.waiters[t] else []
    requires s'.channels == s.channels + [Channel(t, Pending)] && s'.waiters == s.waiters[t := queue + [|s.channels|]]
    ensures WaitersOk(s')
  {
    var id := |s.channels|;
    forall c | 0 <= c < |s'.channels| && s'.channels[c].outcome == Pending
      ensures Registered(s', s'.channels[c].txID, c)
    {
      if c < id {
        assert Registered(s, s.channels[c].txID, c);
      } else {
        assert s'.waiters[t][|queue|] == id;
      }
    }
    forall u, i | u in s'.waiters && 0 <= i < |s'.waiters[u]|
      ensures s'.waiters[u][i] < |s'.channels| && s'.channels[s'.waiters[u][i]] == Channel(u, Pending)
      ensures s'.waiters[u][i] == id ==> u == t && i == |queue|
    {
      assert s'.waiters[u][i] == if u == t && i == |queue| then id else s.waiters[u][i];
    }
    forall u, i, j | u in s'.waiters && 0 <= i < j < |s'.waiters[u]| ensures s'.waiters[u][i] != s'.waiters[u][j] {
      assert s'.waiters[u][i] == s.waiters[u][i];
    }
  }

  lemma {:induction false} ReleasedOk(s: Shared, upTo: nat)
    requires WaitersOk(s)
    ensures WaitersOk(Released(s, upTo))
  {
    var s' := Released(s, upTo);
    forall c | 0 <= c < |s'.channels| && s'.channels[c].outcome == Pending
      ensures Registered(s', s'.channels[c].txID, c)
    {
      assert Registered(s, s.channels[c].txID, c);
    }
  }

  /** The durable mark is not part of the waiter table. */
  lemma {:induction false} MarkMoves(s: Shared, d: nat)
    requires WaitersOk(s)
    ensures WaitersOk(s.(durable := d))
  {
    forall id | 0 <= id < |s.channels| && s.channels[id].outcome == Pending
      ensures Registered(s.(durable := d), s.channels[id].txID, id)
    {
      assert Registered(s, s.channels[id].txID, id);
    }
  }

  /** Releasing after every transaction of a batch comes to the same as releasing once at its end. */
  lemma {:induction false} MarkedTwice(s: Shared, d: nat, e: nat)
    requires d <= e
    ensures Marked(Marked(s, d), e) == Marked(s, e)
  {
    assert Above(Above(s.waiters, d), e) == Above(s.waiters, e);
    assert ResolvedAll(ResolvedAll(s.channels, d), e) == ResolvedAll(s.channels, e);
  }

  // ---- in place -----------------------------------------------------------

  class WaiterTable {
    var durable: nat
    var lastEnq: nat
    const startTx: nat
    var waiters: map<nat, seq<nat>>
    var channels: seq<Channel>
    var fatal: bool
    var closing: bool

    function View(): Shared
      reads this
    {
      Shared(durable, lastEnq, startTx, waiters, channels, fatal, closing)
    }

    constructor (start: nat, mark: nat)
      ensures View() == Shared(mark, mark, start, map[], [], false, false)
    {
      durable, lastEnq, startTx := mark, mark, start;
      waiters, channels, fatal, closing := map[], [], false, false;
    }

    method WaitUntilDurable(txID: nat) returns (id: Option<nat>)
      modifies this
      ensures (View(), id) == Waited(old(View()), txID)
    {
      if txID == 0 {
        return None;
      }
      if durable >= txID {
        channels := channels + [Channel(txID, Ready)];
        return Some(|channels| - 1);
      }
      if fatal || closing {
        channels := channels + [Channel(txID, Failed)];
        return Some(|channels| - 1);
      }
      var queue := if txID in waiters then waiters[txID] else [];
      waiters := waiters[txID := queue + [|channels|]];
      channels := channels + [Channel(txID, Pending)];
      return Some(|channels| - 1);
    }

    /**
     * Sends to and closes the channels of one transaction. Go panics on a send to or a
     * close of a closed channel, and blocks on a second send: each channel met here is pending.
     */
    method Settle(ids: seq<nat>, outcome: Outcome, ghost t: nat)
      requires outcome != Pending
      requires forall i :: 0 <= i < |ids| ==> ids[i] < |channels| && channels[ids[i]] == Channel(t, Pending)
      requires forall i, j :: 0 <= i < j < |ids| ==> ids[i] != ids[j]
      modifies this`channels
      ensures |channels| == old(|channels|)
      ensures forall c :: 0 <= c < |channels| ==>
        channels[c] == if c in ids then Channel(t, outcome) else old(channels[c])
    {
      for k := 0 to |ids|
        invariant |channels| == old(|channels|)
        invariant forall i :: k <= i < |ids| ==> channels[ids[i]] == Channel(t, Pending)
        invariant forall c :: 0 <= c < |channels| ==>
          channels[c] == if c in ids[..k] then Channel(t, outcome) else old(channels[c])
      {
        assert ids[..k + 1] == ids[..k] + [ids[k]];
        channels := channels[ids[k] := channels[ids[k]].(outcome := outcome)];
      }
      assert ids[..|ids|] == ids;
    }

    /** releaseWaitersUpTo, whatever order the map is visited in. */
    method ReleaseWaitersUpTo(lastDurable: nat)
      requires WaitersOk(View())
      modifies this`waiters, this`channels
      ensures View() == Released(old(View()), lastDurable) && WaitersOk(View())
    {
      hide WaitersOk, PartlySettled;
      ghost var was := View();
      NothingSettled(was);
      var left := waiters.Keys;
      while left != {}
        invariant left <= waiters.Keys <= was.waiters.Keys && |channels| == |was.channels|
        invariant WaitersOk(View())
        invariant forall t :: t in waiters ==> waiters[t] == was.waiters[t]
        invariant forall t :: t in waiters && t !in left ==> t > lastDurable
        invariant forall t :: t in was.waiters && t !in waiters ==> t <= lastDurable
        invariant PartlySettled(was, View(), Ready)
        decreases |left|
      {
        var txID :| txID in left;
        left := left - {txID};
        if txID > lastDurable {
          continue;
        }
        var ids := waiters[txID];
        ghost var before := View();
        RegisteredOnce(before, txID);
        waiters := waiters - {txID};
        Settle(ids, Ready, txID);
        SettledOk(was, before, View(), txID, Ready);
      }
      assert waiters == Above(was.waiters, lastDurable);
      AllReleased(was, View(), lastDurable);
    }

    /** closeWaitersLocked. */
    method CloseWaiters()
      requires WaitersOk(View())
      modifies this`waiters, this`channels
      ensures View() == Dropped(old(View())) && WaitersOk(View())
    {
      hide WaitersOk, PartlySettled;
      ghost var was := View();
      NothingSettled(was);
      var left := waiters.Keys;
      while left != {}
        invariant left == waiters.Keys <= was.waiters.Keys && |channels| == |was.channels|
        invariant WaitersOk(View())
        invariant forall t :: t in waiters ==> waiters[t] == was.waiters[t]
        invariant PartlySettled(was, View(), Failed)
        decreases |left|
      {
        var txID :| txID in left;
        left := left - {txID};
        var ids := waiters[txID];
        ghost var before := View();
        RegisteredOnce(before, txID);
        waiters := waiters - {txID};
        Settle(ids, Failed, txID);
        SettledOk(was, before, View(), txID, Failed);
      }
      assert waiters == map[];
      AllDropped(was, View());
    }
  }

  /** The pending channels whose transactions have left the table are settled, the others untouched. */
  ghost predicate PartlySettled(was: Shared, s: Shared, outcome: Outcome) {
    && |s.channels| == |was.channels|
    && (forall t :: t in s.waiters ==> t in was.waiters && s.waiters[t] == was.waiters[t])
    && forall c :: 0 <= c < |was.channels| ==>
         s.channels[c] == if was.channels[c].outcome == Pending && was.channels[c].txID !in s.waiters
                          then was.channels[c].(outcome := outcome) else was.channels[c]
  }

  lemma {:induction false} PendingIsRegistered(s: Shared)
    requires WaitersOk(s)
    ensures forall c :: 0 <= c < |s.channels| && s.channels[c].outcome == Pending ==> s.channels[c].txID in s.waiters
  {
    forall c | 0 <= c < |s.channels| && s.channels[c].outcome == Pending ensures s.channels[c].txID in s.waiters {
      assert Registered(s, s.channels[c].txID, c);
    }
  }

  lemma {:induction false} NothingSettled(s: Shared)
    requires WaitersOk(s)
    ensures PartlySettled(s, s, Ready) && PartlySettled(s, s, Failed)
  {
    PendingIsRegistered(s);
  }

  lemma {:induction false} RegisteredOnce(s: Shared, t: nat)
    requires WaitersOk(s) && t in s.waiters
    ensures forall i :: 0 <= i < |s.waiters[t]| ==>
      s.waiters[t][i] < |s.channels| && s.channels[s.waiters[t][i]] == Channel(t, Pending)
    ensures forall i, j :: 0 <= i < j < |s.waiters[t]| ==> s.waiters[t][i] != s.waiters[t][j]
  {
  }

  /** Settling exactly the channels of one transaction and dropping it keeps the table in order. */
  lemma {:induction false} SettledOk(was: Shared, s: Shared, s': Shared, t: nat, outcome: Outcome)
    requires WaitersOk(s) && PartlySettled(was, s, outcome) && t in s.waiters && outcome != Pending
    requires s'.waiters == s.waiters - {t} && |s'.channels| == |s.channels|
    requires forall c :: 0 <= c < |s.channels| ==>
      s'.channels[c] == if c in s.waiters[t] then Channel(t, outcome) else s.channels[c]
    ensures WaitersOk(s') && PartlySettled(was, s', outcome)
  {
    forall c | 0 <= c < |s.channels| && s.channels[c].outcome == Pending
      ensures Registered(s, s.channels[c].txID, c)
      ensures s'.channels[c].outcome == Pending ==> Registered(s', s'.channels[c].txID, c)
    {
      assert Registered(s, s.channels[c].txID, c);
    }
    forall u, i | u in s'.waiters && 0 <= i < |s'.waiters[u]|
      ensures s'.waiters[u][i] < |s'.channels| && s'.channels[s'.waiters[u][i]] == Channel(u, Pending)
    {
      assert s.channels[s.waiters[u][i]] == Channel(u, Pending);
    }
  }

  lemma {:induction false} AllReleased(was: Shared, s: Shared, upTo: nat)
    requires WaitersOk(was) && PartlySettled(was, s, Ready) && s.waiters == Above(was.waiters, upTo)
    ensures s.channels == ResolvedAll(was.channels, upTo)
  {
    PendingIsRegistered(was);
  }

  lemma {:induction false} AllDropped(was: Shared, s: Shared)
    requires PartlySettled(was, s, Failed) && s.waiters == map[]
    ensures s.channels == FailedAll(was.channels)
  {
  }
}
