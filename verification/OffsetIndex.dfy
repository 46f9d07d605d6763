/** The sparse per-segment offset index: a preallocated table of (tx id, byte offset) slots. */
module OffsetIndex {
  import opened Bytes

  /** One 16-byte slot. Key 0 marks an empty slot. */
  datatype Slot = Slot(key: u64, offset: u64)

  /** The offset index files of a listing of segments, where there is one. */
  type Sidecars = seq<Option<seq<Slot>>>

  const EMPTY := Slot(0, 0)

  datatype IndexError = Full | NonMonotonic(last: u64, got: u64)

  /** The index file's slots together with the writer's count and last key. */
  datatype Index = Index(slots: seq<Slot>, count: nat, lastKey: u64)

  ghost predicate Increasing(s: seq<Slot>) {
    && (forall i :: 0 <= i < |s| ==> s[i].key > 0)
    && (forall i, j :: 0 <= i < j < |s| ==> s[i].key < s[j].key)
  }

  predicate Blank(s: seq<Slot>) {
    forall i :: 0 <= i < |s| ==> s[i] == EMPTY
  }

  /** An increasing run of keys, then empty slots; the counters describe the run. */
  ghost predicate WellFormed(ix: Index) {
    && ix.count <= |ix.slots|
    && Increasing(ix.slots[..ix.count])
    && Blank(ix.slots[ix.count..])
    && ix.lastKey == LastKey(ix.slots[..ix.count])
  }

  function Blanks(n: nat): (r: seq<Slot>)
    ensures |r| == n && Blank(r)
  {
    seq(n, i => EMPTY)
  }

  function LastKey(s: seq<Slot>): u64 {
    if s == [] then 0 else s[|s| - 1].key
  }

  function Entries(ix: Index): seq<Slot>
    requires ix.count <= |ix.slots|
  {
    ix.slots[..ix.count]
  }

  function Created(cap: nat): Index {
    Index(Blanks(cap), 0, 0)
  }

  function Appended(ix: Index, key: u64, offset: u64): (r: Result<Index, IndexError>)
  {
    if ix.count >= |ix.slots| then Err(Full)
    else if key == 0 || key <= ix.lastKey then Err(NonMonotonic(ix.lastKey, key))
    else Ok(Index(ix.slots[ix.count := Slot(key, offset)], ix.count + 1, key))
  }

  /** The number of leading slots whose key is below target. */
  function Below(s: seq<Slot>, target: u64): (n: nat)
    ensures n <= |s|
  {
    if s == [] || s[0].key >= target then 0 else 1 + Below(s[1..], target)
  }

  lemma {:induction false} BelowSplits(s: seq<Slot>, target: u64, n: nat)
    requires Increasing(s) && n <= |s|
    ensures n == Below(s, target) <==>
      (forall i :: 0 <= i < n ==> s[i].key < target) && (forall i :: n <= i < |s| ==> s[i].key >= target)
  {
    if s != [] {
      assert Increasing(s[1..]) by {
        assert forall i :: 0 <= i < |s[1..]| ==> s[1..][i] == s[i + 1];
      }
      if n > 0 {
        BelowSplits(s[1..], target, n - 1);
        assert forall i :: 1 <= i < |s| ==> s[i] == s[1..][i - 1];
        assert forall i :: 0 <= i < |s[1..]| ==> s[1..][i] == s[i + 1];
      }
    }
  }

  function Truncated(ix: Index, target: u64): (r: Index)
    requires ix.count <= |ix.slots|
    ensures r.count <= |r.slots| == |ix.slots|
  {
    var k := Below(Entries(ix), target);
    if k >= ix.count then ix
    else Index(ix.slots[..k] + Blanks(ix.count - k) + ix.slots[ix.count..], k, LastKey(ix.slots[..k]))
  }

  /** scanOffsetIndexPrefix: how far the leading valid entries reach. */
  ghost predicate ValidPrefix(s: seq<Slot>, n: nat) {
    && n <= |s|
    && Increasing(s[..n])
    && (forall i :: 0 <= i < n ==> s[i].offset > 0)
  }

  function Prefix(s: seq<Slot>, from: nat): (n: nat)
    requires from <= |s|
    ensures from <= n <= |s|
    decreases |s| - from
  {
    if from == |s| || s[from].key == 0 || s[from].offset == 0 || (from > 0 && s[from].key <= s[from - 1].key) then from
    else Prefix(s, from + 1)
  }

  /** The scan stops at the longest valid prefix, no earlier and no later. */
  lemma {:induction false} PrefixIsLongest(s: seq<Slot>, from: nat)
    requires ValidPrefix(s, from)
    ensures ValidPrefix(s, Prefix(s, from))
    ensures forall n: nat :: ValidPrefix(s, n) ==> n <= Prefix(s, from)
    decreases |s| - from
  {
    if Prefix(s, from) == from {
      forall n: nat | from < n <= |s| ensures !ValidPrefix(s, n) {
        assert s[..n][from] == s[from];
        assert from > 0 ==> s[..n][from - 1] == s[from - 1];
      }
    } else {
      assert s[..from + 1] == s[..from] + [s[from]];
      PrefixIsLongest(s, from + 1);
    }
  }

  /** OpenOffsetIndexMut: resize to the capacity, keep the valid prefix, clear the rest. */
  function Resized(s: seq<Slot>, cap: nat): (r: seq<Slot>)
    ensures |r| == cap
  {
    if |s| >= cap then s[..cap] else s + Blanks(cap - |s|)
  }

  function Reopened(s: seq<Slot>, cap: nat): (r: Index)
    ensures |r.slots| == cap && r.count <= cap
  {
    var t := Resized(s, cap);
    var n := Prefix(t, 0);
    Index(t[..n] + Blanks(cap - n), n, LastKey(t[..n]))
  }

  // ---- whole runs ---------------------------------------------------------

  datatype Op = Append(key: u64, offset: u64) | Truncate(target: u64) | Reopen(cap: nat)

  function Apply(ix: Index, op: Op): (r: Index)
    requires ix.count <= |ix.slots|
    ensures r.count <= |r.slots|
  {
    match op
    case Append(key, offset) => (match Appended(ix, key, offset) { case Ok(r) => r case Err(_) => ix })
    case Truncate(target) => Truncated(ix, target)
    case Reopen(cap) => Reopened(ix.slots, cap)
  }

  function Run(cap: nat, ops: seq<Op>): (r: Index)
    ensures r.count <= |r.slots|
  {
    if ops == [] then Created(cap) else Apply(Run(cap, ops[..|ops| - 1]), ops[|ops| - 1])
  }

  lemma {:induction false} AppendedKeeps(ix: Index, key: u64, offset: u64)
    requires WellFormed(ix)
    ensures Appended(ix, key, offset).Ok? ==> WellFormed(Appended(ix, key, offset).value)
  {
    if Appended(ix, key, offset).Ok? {
      var r := Appended(ix, key, offset).value;
      assert Entries(r) == Entries(ix) + [Slot(key, offset)];
      assert r.slots[r.count..] == ix.slots[ix.count..][1..];
    }
  }

  lemma {:induction false} TruncatedKeeps(ix: Index, target: u64)
    requires WellFormed(ix)
    ensures WellFormed(Truncated(ix, target))
  {
    var k := Below(Entries(ix), target);
    if k < ix.count {
      var r := Truncated(ix, target);
      assert Entries(r) == Entries(ix)[..k];
      assert r.slots[k..] == Blanks(ix.count - k) + ix.slots[ix.count..];
    }
  }

  lemma {:induction false} ReopenedKeeps(s: seq<Slot>, cap: nat)
    ensures WellFormed(Reopened(s, cap))
  {
    var t := Resized(s, cap);
    PrefixIsLongest(t, 0);
    var n := Prefix(t, 0);
    var r := Reopened(s, cap);
    assert Entries(r) == t[..n] && r.slots[n..] == Blanks(cap - n);
  }

  lemma {:induction false} ApplyKeeps(ix: Index, op: Op)
    requires WellFormed(ix)
    ensures WellFormed(Apply(ix, op))
  {
    hide WellFormed, Appended, Truncated, Reopened;
    match op {
      case Append(key, offset) => AppendedKeeps(ix, key, offset);
      case Truncate(target) => TruncatedKeeps(ix, target);
      case Reopen(cap) => ReopenedKeeps(ix.slots, cap);
    }
  }

  /** However the index was used, its file is an increasing key prefix followed by zeros. */
  lemma {:induction false} RunWellFormed(cap: nat, ops: seq<Op>)
    ensures WellFormed(Run(cap, ops))
  {
    if ops != [] {
      RunWellFormed(cap, ops[..|ops| - 1]);
      ApplyKeeps(Run(cap, ops[..|ops| - 1]), ops[|ops| - 1]);
    }
  }

  /** The scan of a written index stops at its count if no entry has the offset 0, and before it otherwise. */
  lemma {:induction false} PrefixOfWritten(ix: Index)
    requires WellFormed(ix)
    ensures if forall i :: 0 <= i < ix.count ==> ix.slots[i].offset > 0 then Prefix(ix.slots, 0) == ix.count
            else Prefix(ix.slots, 0) < ix.count
  {
    var s := ix.slots;
    PrefixIsLongest(s, 0);
    if forall i :: 0 <= i < ix.count ==> s[i].offset > 0 {
      assert ValidPrefix(s, ix.count);
      forall m: nat | ix.count < m <= |s| ensures !ValidPrefix(s, m) {
        assert s[..m][ix.count] == s[ix.count..][0];
      }
    } else {
      var i :| 0 <= i < ix.count && s[i].offset == 0;
      assert Prefix(s, 0) <= i;
    }
  }

  lemma {:induction false} BlankIsBlanks(s: seq<Slot>)
    requires Blank(s)
    ensures s == Blanks(|s|)
  {
  }

  /**
   * Reopening at the same capacity recovers exactly the index that was written if and
   * only if no entry carries the offset 0, which the scan takes for a torn slot.
   */
  lemma {:induction false} ReopenRecovers(ix: Index)
    requires WellFormed(ix)
    ensures Reopened(ix.slots, |ix.slots|) == ix <==> forall i :: 0 <= i < ix.count ==> ix.slots[i].offset > 0
  {
    hide Prefix;
    var s := ix.slots;
    PrefixOfWritten(ix);
    BlankIsBlanks(s[ix.count..]);
    assert Resized(s, |s|) == s == s[..ix.count] + s[ix.count..];
  }

  // ---- the writable index, in place --------------------------------------

  class OffsetIndexMut {
    const slots: array<Slot>
    var numEntries: nat
    var lastKey: u64

    ghost function View(): (r: Index)
      reads this, slots
    {
      Index(slots[..], numEntries, lastKey)
    }

    constructor Create(cap: nat)
      ensures fresh(slots) && View() == Created(cap) && WellFormed(View())
    {
      slots := new Slot[cap](_ => EMPTY);
      numEntries, lastKey := 0, 0;
    }

    method AppendEntry(key: u64, offset: u64) returns (r: Option<IndexError>)
      requires WellFormed(View())
      modifies this, slots
      ensures WellFormed(View())
      ensures r.None? <==> Appended(old(View()), key, offset).Ok?
      ensures r.None? ==> View() == Appended(old(View()), key, offset).value
      ensures r.Some? ==> View() == old(View()) && r.value == Appended(old(View()), key, offset).error
    {
      if numEntries >= slots.Length {
        return Some(Full);
      }
      if key == 0 || key <= lastKey {
        return Some(NonMonotonic(lastKey, key));
      }
      ApplyKeeps(View(), Append(key, offset));
      slots[numEntries] := Slot(key, offset);
      numEntries, lastKey := numEntries + 1, key;
      return None;
    }

    /** Truncate: drops every entry at or above target, zero-filling the slots it leaves. */
    method TruncateFrom(target: u64)
      requires WellFormed(View())
      modifies this, slots
      ensures WellFormed(View())
      ensures View() == Truncated(old(View()), target)
    {
      ghost var was := View();
      var lo := CountBelow(slots[..], numEntries, target);
      ApplyKeeps(was, Truncate(target));
      if lo >= numEntries {
        return;
      }
      ZeroSlots(slots, lo, numEntries);
      numEntries := lo;
      lastKey := if lo == 0 then 0 else slots[lo - 1].key;
    }

    /** KeyLookup: the entry with the greatest key at or below target, if there is one. */
    method KeyLookup(target: u64) returns (r: Option<Slot>)
      requires WellFormed(View())
      ensures r.None? <==> forall i :: 0 <= i < numEntries ==> slots[i].key > target
      ensures r.Some? ==> r.value in Entries(View()) && r.value.key <= target
      ensures r.Some? ==> forall i :: 0 <= i < numEntries && slots[i].key <= target ==> slots[i].key <= r.value.key
    {
      r := LookupIn(slots[..], numEntries, target);
    }
  }

  /** writeZeroAt: clears the slots from lo up to n. */
  method ZeroSlots(a: array<Slot>, lo: nat, n: nat)
    requires lo <= n <= a.Length
    modifies a
    ensures a[..] == old(a[..lo]) + Blanks(n - lo) + old(a[n..])
  {
    for i := lo to n
      invariant a[..lo] == old(a[..lo]) && a[n..] == old(a[n..])
      invariant forall j :: lo <= j < i ==> a[j] == EMPTY
    {
      a[i] := EMPTY;
    }
    assert a[..] == a[..lo] + a[lo..n] + a[n..];
    assert a[lo..n] == Blanks(n - lo);
  }

  /** The binary search of Truncate: how many of the first n keys are below target. */
  method CountBelow(s: seq<Slot>, n: nat, target: u64) returns (lo: nat)
    requires n <= |s| && Increasing(s[..n])
    ensures lo == Below(s[..n], target)
  {
    var hi := n;
    lo := 0;
    assert forall i :: 0 <= i < n ==> s[i] == s[..n][i];
    while lo < hi
      invariant lo <= hi <= n
      invariant forall i :: 0 <= i < lo ==> s[..n][i].key < target
      invariant forall i :: hi <= i < n ==> s[..n][i].key >= target
    {
      var mid := (lo + hi) / 2;
      if s[mid].key < target {
        lo := mid + 1;
      } else {
        hi := mid;
      }
    }
    BelowSplits(s[..n], target, lo);
  }

  /** scanOffsetIndexPrefix over the slots of a file. */
  method ScanPrefix(s: seq<Slot>) returns (n: nat, last: u64)
    ensures n == Prefix(s, 0) && last == LastKey(s[..n])
  {
    n, last := 0, 0;
    while n < |s|
      invariant n <= |s| && Prefix(s, 0) == Prefix(s, n) && last == LastKey(s[..n])
    {
      if s[n].key == 0 || s[n].offset == 0 || (n > 0 && s[n].key <= last) {
        return;
      }
      last := s[n].key;
      n := n + 1;
    }
  }

  /** offsetIndexLookup: binary search over the first n slots. */
  method LookupIn(s: seq<Slot>, n: nat, target: u64) returns (r: Option<Slot>)
    requires n <= |s| && Increasing(s[..n])
    ensures r == Lookup(s[..n], target)
    ensures r.None? <==> forall i :: 0 <= i < n ==> s[i].key > target
    ensures r.Some? ==> r.value in s[..n] && r.value.key <= target
    ensures r.Some? ==> forall i :: 0 <= i < n && s[i].key <= target ==> s[i].key <= r.value.key
  {
    assert forall i :: 0 <= i < n ==> s[..n][i] == s[i];
    LookupGreatest(s[..n], target);
    if n == 0 {
      return None;
    }
    var lo, hi := 0, n;
    while lo < hi
      invariant 0 <= lo <= hi <= n
      invariant forall i :: 0 <= i < lo ==> s[i].key <= target
      invariant forall i :: hi <= i < n ==> s[i].key > target
    {
      var mid := (lo + hi) / 2;
      assert forall i, j :: 0 <= i < j < n ==> s[..n][i].key < s[..n][j].key;
      if s[mid].key <= target {
        lo := mid + 1;
      } else {
        hi := mid;
      }
    }
    if lo == 0 {
      return None;
    }
    return Some(s[lo - 1]);
  }

  /** The last slot, in order, whose key does not exceed target. */
  function Lookup(s: seq<Slot>, target: u64): (r: Option<Slot>) {
    if s == [] then None
    else if s[|s| - 1].key <= target then Some(s[|s| - 1])
    else Lookup(s[..|s| - 1], target)
  }

  lemma {:induction false} LookupGreatest(s: seq<Slot>, target: u64)
    requires Increasing(s)
    ensures Lookup(s, target).None? <==> forall i :: 0 <= i < |s| ==> s[i].key > target
    ensures var r := Lookup(s, target); r.Some? ==>
      && r.value in s && r.value.key <= target
      && forall i :: 0 <= i < |s| && s[i].key <= target ==> s[i].key <= r.value.key
    ensures forall k :: (0 <= k < |s| && s[k].key <= target && (k + 1 < |s| ==> s[k + 1].key > target) ==>
      Lookup(s, target) == Some(s[k]))
  {
    if s != [] && s[|s| - 1].key > target {
      LookupGreatest(s[..|s| - 1], target);
    }
  }
}
