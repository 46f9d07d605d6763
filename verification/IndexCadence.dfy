/** The cadence writer: one index entry per window of committed bytes. */
module IndexCadence {
  import opened Bytes
  import opened OffsetIndex

  /** The writer's state; `candidate` is the earliest commit of the current window. */
  datatype Cadence = Cadence(head: Index, interval: u64, since: u64, candidate: Option<Slot>, full: bool)

  function Saturated(a: u64, b: u64): (r: u64)
    ensures r == if a + b > MAX_U64 then MAX_U64 else a + b
  {
    if b > MAX_U64 - a then MAX_U64 else a + b
  }

  /** AppendAfterCommit. */
  function AfterCommit(c: Cadence, key: u64, offset: u64, len: u64): (r: Result<Cadence, IndexError>) {
    if c.full then Ok(c)
    else
      var since := Saturated(c.since, len);
      if c.candidate.None? then Ok(c.(since := since, candidate := Some(Slot(key, offset))))
      else if since >= c.interval then
        match Appended(c.head, c.candidate.value.key, c.candidate.value.offset)
        case Err(Full) => Ok(c.(full := true, candidate := None, since := 0))
        case Err(e) => Err(e)
        case Ok(head) => Ok(c.(head := head, candidate := Some(Slot(key, offset)), since := 0))
      else Ok(c.(since := since))
  }

  /** Sync: flush the pending candidate. */
  function Flushed(c: Cadence): (r: Result<Cadence, IndexError>) {
    if c.candidate.None? then Ok(c)
    else
      match Appended(c.head, c.candidate.value.key, c.candidate.value.offset)
      case Err(Full) => Ok(c.(full := true, candidate := None, since := 0))
      case Err(e) => Err(e)
      case Ok(head) => Ok(c.(head := head, candidate := None, since := 0))
  }

  datatype Event = Commit(key: u64, offset: u64, len: u64) | Sync

  function Step(c: Cadence, e: Event): (r: Result<Cadence, IndexError>) {
    match e
    case Commit(key, offset, len) => AfterCommit(c, key, offset, len)
    case Sync => Flushed(c)
  }

  function Feed(c: Cadence, events: seq<Event>): (r: Result<Cadence, IndexError>)
    decreases events
  {
    if events == [] then Ok(c)
    else
      match Step(c, events[0])
      case Err(e) => Err(e)
      case Ok(next) => Feed(next, events[1..])
  }

  /** The pairs a stream of events offers to the index. */
  function Offered(events: seq<Event>): (r: set<Slot>) {
    set e | e in events && e.Commit? :: Slot(e.key, e.offset)
  }

  /** The commits of the stream carry increasing transactions, all at or above `from`. */
  ghost predicate StreamFrom(events: seq<Event>, from: nat)
    decreases events
  {
    events == [] ||
    match events[0]
    case Commit(key, _, _) => from <= key && StreamFrom(events[1..], key + 1)
    case Sync => StreamFrom(events[1..], from)
  }

  /** Everything indexed or pending lies below the next transaction. */
  ghost predicate Ready(c: Cadence, next: nat) {
    && WellFormed(c.head)
    && c.head.lastKey < next
    && (c.candidate.Some? ==> c.head.lastKey < c.candidate.value.key < next)
  }

  /** What the index may name: its own entries and the pending candidate. */
  function Named(c: Cadence): (r: set<Slot>)
    requires c.head.count <= |c.head.slots|
  {
    (set s | s in Entries(c.head)) + (if c.candidate.Some? then {c.candidate.value} else {})
  }

  lemma {:induction false} StepReady(c: Cadence, e: Event, next: nat)
    requires Ready(c, next) && (e.Commit? ==> next <= e.key)
    ensures Step(c, e).Ok?
    ensures Ready(Step(c, e).value, if e.Commit? then e.key + 1 else next)
    ensures Named(Step(c, e).value) <= Named(c) + Offered([e])
    ensures Entries(c.head) <= Entries(Step(c, e).value.head)
  {
    hide Saturated;
    assert e.Commit? ==> Slot(e.key, e.offset) in Offered([e]) by { assert e in [e]; }
    if c.candidate.Some? {
      var s := c.candidate.value;
      var r := Appended(c.head, s.key, s.offset);
      if r.Ok? {
        ApplyKeeps(c.head, Append(s.key, s.offset));
        assert Entries(r.value) == Entries(c.head) + [s];
      }
    }
  }

  /**
   * For every increasing stream of commits, however it is interleaved with syncs, the
   * writer never meets a non-monotonic key, keeps what was indexed, and names only
   * pairs that were fed to it.
   */
  lemma {:induction false} StreamNeverFails(c: Cadence, events: seq<Event>, next: nat)
    requires Ready(c, next) && StreamFrom(events, next)
    ensures Feed(c, events).Ok?
    ensures var r := Feed(c, events).value;
      && WellFormed(r.head)
      && Entries(c.head) <= Entries(r.head)
      && Named(r) <= Named(c) + Offered(events)
    decreases events
  {
    if events != [] {
      var e := events[0];
      StepReady(c, e, next);
      var after := if e.Commit? then e.key + 1 else next;
      hide Step, Ready;
      StreamNeverFails(Step(c, e).value, events[1..], after);
      assert Offered([e]) <= Offered(events) && Offered(events[1..]) <= Offered(events) by {
        assert events == [e] + events[1..];
      }
    }
  }

  /** The 64-bit successor that initOffsetIndexForSegment truncates at. */
  function ResumeTarget(lastTx: u64): (r: u64) {
    if lastTx == MAX_U64 then 0 else lastTx + 1
  }

  /**
   * After a resume at lastTx the index names no later transaction, keeps every entry
   * it may keep, and is ready for the next commit.
   */
  lemma {:induction false} ResumeForgetsLost(ix: Index, lastTx: u64, interval: u64)
    requires WellFormed(ix)
    ensures var t := Truncated(ix, ResumeTarget(lastTx));
      && WellFormed(t)
      && Entries(t) <= Entries(ix)
      && (forall s :: s in Entries(t) ==> s.key <= lastTx)
      && (lastTx < MAX_U64 ==> forall s :: s in Entries(ix) && s.key <= lastTx ==> s in Entries(t))
      && Ready(Cadence(t, interval, 0, None, false), lastTx + 1)
  {
    var target := ResumeTarget(lastTx);
    var t := Truncated(ix, target);
    var k := Below(Entries(ix), target);
    ApplyKeeps(ix, Truncate(target));
    BelowSplits(Entries(ix), target, k);
    assert Entries(t) == Entries(ix)[..k];
  }

  // ---- in place -----------------------------------------------------------

  class OffsetIndexWriter {
    const head: OffsetIndexMut
    const minWriteIntervalBytes: u64
    var bytesSinceLastAppend: u64
    var candidateTxID: u64
    var candidateByteOffset: u64
    var haveCandidate: bool
    var full: bool

    ghost function View(): Cadence
      reads this, head, head.slots
    {
      Cadence(head.View(), minWriteIntervalBytes, bytesSinceLastAppend,
              if haveCandidate then Some(Slot(candidateTxID, candidateByteOffset)) else None, full)
    }

    constructor (ix: OffsetIndexMut, interval: u64)
      ensures head == ix && View() == Cadence(ix.View(), interval, 0, None, false)
    {
      head, minWriteIntervalBytes := ix, interval;
      bytesSinceLastAppend, candidateTxID, candidateByteOffset := 0, 0, 0;
      haveCandidate, full := false, false;
    }

    method AppendAfterCommit(txID: u64, byteOffset: u64, recordLen: u64) returns (r: Option<IndexError>)
      requires WellFormed(head.View())
      modifies this, head, head.slots
      ensures WellFormed(head.View())
      ensures r.None? <==> AfterCommit(old(View()), txID, byteOffset, recordLen).Ok?
      ensures r.None? ==> View() == AfterCommit(old(View()), txID, byteOffset, recordLen).value
    {
      if full {
        return None;
      }
      bytesSinceLastAppend := Saturated(bytesSinceLastAppend, recordLen);
      if !haveCandidate {
        candidateTxID, candidateByteOffset, haveCandidate := txID, byteOffset, true;
        return None;
      }
      if bytesSinceLastAppend >= minWriteIntervalBytes {
        hide WellFormed;
        r := head.AppendEntry(candidateTxID, candidateByteOffset);
        if r == Some(Full) {
          full, haveCandidate, bytesSinceLastAppend := true, false, 0;
          return None;
        }
        if r.Some? {
          return r;
        }
        candidateTxID, candidateByteOffset, bytesSinceLastAppend := txID, byteOffset, 0;
      }
      return None;
    }

    method SyncIndex() returns (r: Option<IndexError>)
      requires WellFormed(head.View())
      modifies this, head, head.slots
      ensures WellFormed(head.View())
      ensures r.None? <==> Flushed(old(View())).Ok?
      ensures r.None? ==> View() == Flushed(old(View())).value
    {
      if haveCandidate {
        hide WellFormed;
        r := head.AppendEntry(candidateTxID, candidateByteOffset);
        if r == Some(Full) {
          full := true;
        } else if r.Some? {
          return r;
        }
        haveCandidate, bytesSinceLastAppend := false, 0;
      }
      return None;
    }
  }
}
