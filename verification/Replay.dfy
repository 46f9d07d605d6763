/** Reading segments back: positioned readers, index-assisted seeks, and log replay. */
module Replay {
  import opened Bytes
  import opened Records
  import opened SegmentScan
  import opened Segments
  import opened OffsetIndex

  // ---- record boundaries --------------------------------------------------

  /** The offset of record k among those a scan of s accepts. */
  function Boundary(s: bytes, want: nat, k: nat): (r: nat)
    requires k <= |ScanRecords(s, want).records|
    ensures r <= |s|
    decreases k
  {
    if k == 0 then 0
    else
      ScanStep(s, want);
      var size := ScanNext(s).size;
      size + Boundary(s[size..], want + 1, k - 1)
  }

  /** From the boundary of record k the scan goes on with record k. */
  lemma {:induction false} ScanFromBoundary(s: bytes, want: nat, k: nat)
    requires k <= |ScanRecords(s, want).records|
    ensures var whole := ScanRecords(s, want);
      ScanRecords(s[Boundary(s, want, k)..], want + k) == RecordScan(whole.records[k..], whole.end)
    decreases k
  {
    hide Records.ScanNext, ScanRecords;
    if k > 0 {
      ScanStep(s, want);
      var size := ScanNext(s).size;
      ScanFromBoundary(s[size..], want + 1, k - 1);
      assert s[size..][Boundary(s[size..], want + 1, k - 1)..] == s[Boundary(s, want, k)..];
    }
  }

  // ---- seeking ------------------------------------------------------------

  /** validIndexedOffset: the offset lies in the file and a record with this transaction reads there. */
  predicate ValidIndexedOffset(data: bytes, offset: nat, txID: u64) {
    && SEGMENT_HEADER <= offset < |data|
    && ScanNext(data[offset..]).Got?
    && ScanNext(data[offset..]).rec.txID == txID
  }

  /** Where SeekToTxID starts looking: an index entry that checks out, or the first record. */
  function SeekStart(data: bytes, target: u64, index: Option<seq<Slot>>): (pos: nat)
    requires |data| >= SEGMENT_HEADER
    ensures SEGMENT_HEADER <= pos <= |data|
  {
    if index.None? then SEGMENT_HEADER
    else
      match Lookup(index.value, target)
      case None => SEGMENT_HEADER
      case Some(slot) =>
        if ValidIndexedOffset(data, slot.offset, slot.key) then slot.offset else SEGMENT_HEADER
  }

  /** The linear part of SeekToTxID: the first record at or above target, from pos on. */
  function LinearSeek(data: bytes, pos: nat, target: u64): (r: Result<nat, ReadError>)
    requires pos <= |data|
    ensures r.Ok? ==> pos <= r.value <= |data|
    decreases |data| - pos
  {
    match DecodeRecord(data[pos..], 0)
    case End => Ok(if pos + RECORD_HEADER < |data| then pos + RECORD_HEADER else |data|)
    case Bad(e) => Err(e)
    case Got(rec, size) => if rec.txID >= target then Ok(pos) else LinearSeek(data, pos + size, target)
  }

  function SeekOf(data: bytes, target: u64, index: Option<seq<Slot>>): (r: Result<nat, ReadError>)
    requires |data| >= SEGMENT_HEADER
    ensures r.Ok? ==> r.value <= |data|
  {
    LinearSeek(data, SeekStart(data, target, index), target)
  }

  /** An entry that passes validation names the boundary of the record with its key. */
  ghost predicate SoundEntry(f: SegmentFile, slot: Slot)
    requires |f.data| >= SEGMENT_HEADER
  {
    ValidIndexedOffset(f.data, slot.offset, slot.key) ==>
      && f.start <= slot.key < f.start + |BodyScan(f).records|
      && slot.offset == SEGMENT_HEADER + Boundary(f.data[SEGMENT_HEADER..], f.start, slot.key - f.start)
  }

  ghost predicate SoundIndex(f: SegmentFile, index: Option<seq<Slot>>)
    requires |f.data| >= SEGMENT_HEADER
  {
    index.Some? ==> Increasing(index.value) && forall s :: s in index.value ==> SoundEntry(f, s)
  }

  lemma {:induction false} SeekSkips(data: bytes, pos: nat, want: nat, k: nat, target: u64)
    requires pos <= |data| && k <= |ScanRecords(data[pos..], want).records|
    requires k > 0 ==> want + k - 1 < target
    ensures pos + Boundary(data[pos..], want, k) <= |data|
    ensures LinearSeek(data, pos, target) == LinearSeek(data, pos + Boundary(data[pos..], want, k), target)
    decreases k
  {
    hide Records.ScanNext, ScanRecords, DecodeRecord;
    if k > 0 {
      ScanStep(data[pos..], want);
      ReadersAgree(data[pos..]);
      ReadersAgreeOnGot(data[pos..]);
      var size := ScanNext(data[pos..]).size;
      assert data[pos..][size..] == data[pos + size..];
      SeekSkips(data, pos + size, want + 1, k - 1, target);
    }
  }

  /** Both readers return the same record wherever either returns one. */
  lemma {:induction false} ReadersAgreeOnGot(s: bytes)
    ensures ScanNext(s).Got? || DecodeRecord(s, 0).Got? ==> DecodeRecord(s, 0) == ScanNext(s)
  {
    ReadersAgree(s);
  }

  /**
   * Seeking through an index ends exactly where the linear scan ends, for every
   * target, whether that is a record, the end of the file or an error.
   */
  lemma {:induction false} SeekWithIndexIsLinear(f: SegmentFile, target: u64, index: Option<seq<Slot>>)
    requires |f.data| >= SEGMENT_HEADER && SoundIndex(f, index)
    ensures SeekOf(f.data, target, index) == SeekOf(f.data, target, None)
  {
    hide Records.ScanNext, ScanRecords, LinearSeek, Boundary;
    if index.Some? && Lookup(index.value, target).Some? {
      var slot := Lookup(index.value, target).value;
      LookupGreatest(index.value, target);
      if ValidIndexedOffset(f.data, slot.offset, slot.key) {
        assert SoundEntry(f, slot);
        SeekSkips(f.data, SEGMENT_HEADER, f.start, slot.key - f.start, target);
      }
    }
  }

  /** For a target inside the segment, the seek lands on the record that carries it. */
  lemma {:induction false} SeekFindsTarget(f: SegmentFile, target: u64, index: Option<seq<Slot>>)
    requires |f.data| >= SEGMENT_HEADER && SoundIndex(f, index)
    requires f.start <= target < f.start + |BodyScan(f).records|
    ensures SeekOf(f.data, target, index)
         == Ok(SEGMENT_HEADER + Boundary(f.data[SEGMENT_HEADER..], f.start, target - f.start))
  {
    hide Records.ScanNext, ScanRecords, DecodeRecord, Boundary;
    var body, k := f.data[SEGMENT_HEADER..], target - f.start;
    SeekWithIndexIsLinear(f, target, index);
    SeekSkips(f.data, SEGMENT_HEADER, f.start, k, target);
    ScanFromBoundary(body, f.start, k);
    var pos := SEGMENT_HEADER + Boundary(body, f.start, k);
    assert body[Boundary(body, f.start, k)..] == f.data[pos..];
    ScanStep(f.data[pos..], target);
    ReadersAgreeOnGot(f.data[pos..]);
  }

  class SegmentReader {
    const data: bytes
    var pos: nat

    ghost predicate Valid()
      reads this
    {
      SEGMENT_HEADER <= pos <= |data|
    }

    constructor (contents: bytes)
      requires ReadSegmentHeader(contents).None?
      ensures Valid() && data == contents && pos == SEGMENT_HEADER
    {
      data, pos := contents, SEGMENT_HEADER;
    }

    method Next() returns (r: Step)
      requires Valid()
      modifies this
      ensures Valid() && r == DecodeRecord(data[old(pos)..], 0)
      ensures r.Got? ==> pos == old(pos) + r.size
      ensures r.End? ==> pos == if old(pos) + RECORD_HEADER < |data| then old(pos) + RECORD_HEADER else |data|
    {
      r := DecodeRecord(data[pos..], 0);
      if r.Got? {
        pos := pos + r.size;
      } else {
        pos := if pos + RECORD_HEADER < |data| then pos + RECORD_HEADER else |data|;
      }
    }

    method SeekToTxID(target: u64, index: Option<seq<Slot>>) returns (r: Option<ReadError>)
      requires Valid()
      modifies this
      ensures Valid()
      ensures r.None? <==> SeekOf(data, target, index).Ok?
      ensures r.None? ==> pos == SeekOf(data, target, index).value
    {
      hide Records.DecodeRecord, SeekStart;
      pos := SeekStart(data, target, index);
      while true
        invariant Valid() && SeekOf(data, target, index) == LinearSeek(data, pos, target)
        decreases |data| - pos
      {
        var before := pos;
        var step := Next();
        match step {
          case End =>
            return None;
          case Bad(e) =>
            return Some(e);
          case Got(rec, _) =>
            if rec.txID >= target {
              pos := before;
              return None;
            }
        }
      }
    }
  }

  // ---- replay -------------------------------------------------------------

  /** Replay either ends at a state and a transaction, or in a record-read or an apply error. */
  datatype ReplayResult<S> = Replayed(state: S, maxTx: nat) | ReadFailed(error: ReadError) | ApplyFailed(txID: nat)

  /** Decode one payload and apply it; None stands for an error of either step. */
  type Applier<!S> = (S, bytes) -> Option<S>

  predicate StopAfter(info: SegmentInfo, txID: nat) {
    info.mode == AppendByFreshNextSegment && txID >= info.last
  }

  predicate EmptyDamagedTail(info: SegmentInfo) {
    info.mode == AppendByFreshNextSegment && info.last < info.start
  }

  /** The inner loop of replay, over the bytes the reader still has in front of it. */
  function ReplayRecords<S>(s: bytes, info: SegmentInfo, from: nat, st: S, maxTx: nat,
      apply: Applier<S>): (r: ReplayResult<S>)
    decreases |s|
  {
    match DecodeRecord(s, 0)
    case End => Replayed(st, maxTx)
    case Bad(e) => ReadFailed(e)
    case Got(rec, size) =>
      if rec.txID <= from then
        if StopAfter(info, rec.txID) then Replayed(st, maxTx)
        else ReplayRecords(s[size..], info, from, st, maxTx, apply)
      else
        match apply(st, rec.payload)
        case None => ApplyFailed(rec.txID)
        case Some(st') =>
          var maxTx' := if rec.txID > maxTx then rec.txID else maxTx;
          if StopAfter(info, rec.txID) then Replayed(st', maxTx')
          else ReplayRecords(s[size..], info, from, st', maxTx', apply)
  }

  /** seekReplayReaderToHorizon: any seek error falls back to the first record. */
  function ReplayStart(f: SegmentFile, from: nat, index: Option<seq<Slot>>): (pos: nat)
    requires |f.data| >= SEGMENT_HEADER && from <= MAX_U64
    ensures pos <= |f.data|
  {
    if from < f.start || index.None? then SEGMENT_HEADER
    else
      match SeekOf(f.data, if from == MAX_U64 then 0 else from + 1, index)
      case Ok(pos) => pos
      case Err(_) => SEGMENT_HEADER
  }

  /** replayLogWithApply over the scanned segments, with the index found beside each file. */
  function ReplayOf<S>(dir: seq<SegmentFile>, infos: seq<SegmentInfo>, indexes: Sidecars,
                       from: nat, st: S, maxTx: nat, apply: Applier<S>): (r: ReplayResult<S>)
    requires |dir| == |infos| == |indexes| && from <= MAX_U64
    decreases |dir|
  {
    if dir == [] then Replayed(st, maxTx)
    else if EmptyDamagedTail(infos[0]) || infos[0].last <= from then
      ReplayOf(dir[1..], infos[1..], indexes[1..], from, st, maxTx, apply)
    else if ReadSegmentHeader(dir[0].data).Some? then ReadFailed(ReadSegmentHeader(dir[0].data).value)
    else
      var pos := ReplayStart(dir[0], from, indexes[0]);
      match ReplayRecords(dir[0].data[pos..], infos[0], from, st, maxTx, apply)
      case Replayed(st', maxTx') => ReplayOf(dir[1..], infos[1..], indexes[1..], from, st', maxTx', apply)
      case failed => failed
  }

  method ReplayLog<S>(dir: seq<SegmentFile>, infos: seq<SegmentInfo>, indexes: Sidecars,
                      from: nat, st: S, apply: Applier<S>) returns (r: ReplayResult<S>)
    requires |dir| == |infos| == |indexes| && from <= MAX_U64
    ensures r == ReplayOf(dir, infos, indexes, from, st, from, apply)
  {
    hide Records.DecodeRecord, ReadSegmentHeader, ReplayStart;
    var state, maxTx: nat := st, from;
    for i := 0 to |dir|
      invariant ReplayOf(dir, infos, indexes, from, st, from, apply)
             == ReplayOf(dir[i..], infos[i..], indexes[i..], from, state, maxTx, apply)
    {
      assert dir[i..][1..] == dir[i + 1..] && infos[i..][1..] == infos[i + 1..] &&
        indexes[i..][1..] == indexes[i + 1..];
      var info := infos[i];
      if EmptyDamagedTail(info) || info.last <= from {
        continue;
      }
      var header := ReadSegmentHeader(dir[i].data);
      if header.Some? {
        return ReadFailed(header.value);
      }
      var pos := ReplayStart(dir[i], from, indexes[i]);
      ghost var whole := ReplayRecords(dir[i].data[pos..], info, from, state, maxTx, apply);
      while true
        invariant pos <= |dir[i].data|
        invariant whole == ReplayRecords(dir[i].data[pos..], info, from, state, maxTx, apply)
        decreases |dir[i].data| - pos
      {
        match DecodeRecord(dir[i].data[pos..], 0) {
          case End =>
            break;
          case Bad(e) =>
            return ReadFailed(e);
          case Got(rec, size) =>
            assert dir[i].data[pos..][size..] == dir[i].data[pos + size..];
            pos := pos + size;
            if rec.txID > from {
              var next := apply(state, rec.payload);
              if next.None? {
                return ApplyFailed(rec.txID);
              }
              state := next.value;
              maxTx := if rec.txID > maxTx then rec.txID else maxTx;
            }
            if StopAfter(info, rec.txID) {
              assert whole == Replayed(state, maxTx);
              break;
            }
        }
      }
      assert whole == Replayed(state, maxTx);
    }
    return Replayed(state, maxTx);
  }

  // ---- what replay visits -------------------------------------------------

  /** Applying, in order, the records above `from`. */
  function FoldRecords<S>(rs: seq<Record>, from: nat, st: S, maxTx: nat, apply: Applier<S>): (r: ReplayResult<S>)
    decreases rs
  {
    if rs == [] then Replayed(st, maxTx)
    else if rs[0].txID <= from then FoldRecords(rs[1..], from, st, maxTx, apply)
    else
      match apply(st, rs[0].payload)
      case None => ApplyFailed(rs[0].txID)
      case Some(st') => FoldRecords(rs[1..], from, st', if rs[0].txID > maxTx then rs[0].txID else maxTx, apply)
  }

  /** The streaming reader meets exactly the records the scan accepted, and stops before a torn tail. */
  lemma {:induction false} ReplayIsFold<S>(s: bytes, want: nat, info: SegmentInfo, from: nat, st: S, maxTx: nat,
      apply: Applier<S>)
    requires var sc := ScanRecords(s, want);
      if info.mode == AppendByFreshNextSegment
      then sc.end == Torn && sc.records != [] && info.last == want + |sc.records| - 1
      else sc.end == Clean
    ensures ReplayRecords(s, info, from, st, maxTx, apply)
         == FoldRecords(ScanRecords(s, want).records, from, st, maxTx, apply)
    decreases |s|
  {
    hide Records.ScanNext, ScanRecords, DecodeRecord;
    ScanStep(s, want);
    ReadersAgree(s);
    ReadersAgreeOnGot(s);
    if ScanNext(s).Got? {
      var Got(rec, size) := ScanNext(s);
      var sc := ScanRecords(s[size..], want + 1);
      if sc.records != [] || sc.end == Clean {
        var taken := if rec.txID > from then apply(st, rec.payload) else Some(st);
        if taken.Some? {
          var maxTx' := if rec.txID > from && rec.txID > maxTx then rec.txID else maxTx;
          ReplayIsFold(s[size..], want + 1, info, from, taken.value, maxTx', apply);
        }
      }
    }
  }

  /** The fold passes over a leading run of records at or below `from`. */
  lemma {:induction false} FoldSkips<S>(rs: seq<Record>, k: nat, from: nat, st: S, maxTx: nat, apply: Applier<S>)
    requires k <= |rs| && forall i :: 0 <= i < k ==> rs[i].txID <= from
    ensures FoldRecords(rs, from, st, maxTx, apply) == FoldRecords(rs[k..], from, st, maxTx, apply)
    decreases k
  {
    if k > 0 {
      FoldSkips(rs[1..], k - 1, from, st, maxTx, apply);
      assert rs[1..][k - 1..] == rs[k..];
    }
  }

  lemma {:induction false} FoldConcat<S>(a: seq<Record>, b: seq<Record>, from: nat, st: S, maxTx: nat,
      apply: Applier<S>)
    ensures FoldRecords(a + b, from, st, maxTx, apply) ==
      match FoldRecords(a, from, st, maxTx, apply)
      case Replayed(st', maxTx') => FoldRecords(b, from, st', maxTx', apply)
      case failed => failed
    decreases |a|
  {
    if a == [] {
      assert a + b == b;
    } else {
      assert (a + b)[1..] == a[1..] + b;
      if a[0].txID <= from {
        FoldConcat(a[1..], b, from, st, maxTx, apply);
      } else {
        var taken := apply(st, a[0].payload);
        if taken.Some? {
          FoldConcat(a[1..], b, from, taken.value, if a[0].txID > maxTx then a[0].txID else maxTx, apply);
        }
      }
    }
  }

  /** Each file's index is sound for that file. */
  ghost predicate SoundIndexes(dir: seq<SegmentFile>, indexes: Sidecars) {
    && |dir| == |indexes|
    && forall i :: 0 <= i < |dir| && |dir[i].data| >= SEGMENT_HEADER ==> SoundIndex(dir[i], indexes[i])
  }

  /** No index files at all. */
  function NoIndexes(n: nat): (r: Sidecars)
    ensures |r| == n && forall i :: 0 <= i < n ==> r[i] == None
  {
    seq(n, _ => None)
  }

  lemma {:induction false} NoIndexesSound(dir: seq<SegmentFile>)
    ensures SoundIndexes(dir, NoIndexes(|dir|))
  {
  }

  /** One file: replay from wherever the seek lands equals folding all its records. */
  lemma {:induction false} ReplayFile<S>(f: SegmentFile, isLast: bool, index: Option<seq<Slot>>, from: nat, st: S,
      maxTx: nat, apply: Applier<S>)
    requires SegmentOf(f, isLast).Ok? && 0 < f.start <= MAX_U64 && from <= MAX_U64
    requires var info := SegmentOf(f, isLast).value; !EmptyDamagedTail(info) && info.last > from
    requires |f.data| >= SEGMENT_HEADER ==> SoundIndex(f, index)
    ensures ReadSegmentHeader(f.data).None?
    ensures ReplayRecords(f.data[ReplayStart(f, from, index)..], SegmentOf(f, isLast).value, from, st, maxTx, apply)
         == FoldRecords(FileRecords(f), from, st, maxTx, apply)
  {
    hide Records.ScanNext, ScanRecords, ReplayRecords, FoldRecords, LinearSeek, Boundary;
    var info := SegmentOf(f, isLast).value;
    var body, rs := f.data[SEGMENT_HEADER..], FileRecords(f);
    var pos := ReplayStart(f, from, index);
    SegmentFacts(f, isLast);
    if from >= f.start && index.Some? {
      var k := from + 1 - f.start;
      SeekFindsTarget(f, from + 1, index);
      ScanFromBoundary(body, f.start, k);
      assert body[Boundary(body, f.start, k)..] == f.data[pos..];
      ReplayIsFold(f.data[pos..], f.start + k, info, from, st, maxTx, apply);
      FoldSkips(rs, k, from, st, maxTx, apply);
    } else {
      ReplayIsFold(body, f.start, info, from, st, maxTx, apply);
    }
  }

  lemma {:induction false} FileBelow<S>(f: SegmentFile, isLast: bool, from: nat, st: S, maxTx: nat, apply: Applier<S>)
    requires SegmentOf(f, isLast).Ok? && f.start > 0
    requires var info := SegmentOf(f, isLast).value; EmptyDamagedTail(info) || info.last <= from
    ensures FoldRecords(FileRecords(f), from, st, maxTx, apply) == Replayed(st, maxTx)
  {
    hide SegmentOf, FileRecords;
    SegmentFacts(f, isLast);
    FoldSkips(FileRecords(f), |FileRecords(f)|, from, st, maxTx, apply);
  }

  /** Replay of the segments a scan accepted is the fold of the log's records above `from`. */
  lemma {:induction false} ReplayIsLogFold<S>(dir: seq<SegmentFile>, indexes: Sidecars,
                                              from: nat, st: S, maxTx: nat, apply: Applier<S>)
    requires Listed(dir) && ScanOf(dir).Ok? && SoundIndexes(dir, indexes) && from <= MAX_U64
    ensures ReplayOf(dir, ScanOf(dir).value, indexes, from, st, maxTx, apply)
         == FoldRecords(LogRecords(dir), from, st, maxTx, apply)
    decreases |dir|
  {
    hide SegmentOf, FileRecords, ReplayRecords, FoldRecords, ReplayStart, SoundIndex, ReadSegmentHeader;
    if dir == [] {
      FoldSkips([], 0, from, st, maxTx, apply);
      FoldNone(from, st, maxTx, apply);
    } else {
      var infos := ScanOf(dir).value;
      var isLast := |dir| == 1;
      ScanTail(dir);
      FoldConcat(FileRecords(dir[0]), LogRecords(dir[1..]), from, st, maxTx, apply);
      if EmptyDamagedTail(infos[0]) || infos[0].last <= from {
        FileBelow(dir[0], isLast, from, st, maxTx, apply);
        ReplayIsLogFold(dir[1..], indexes[1..], from, st, maxTx, apply);
      } else {
        ReplayFile(dir[0], isLast, indexes[0], from, st, maxTx, apply);
        var r := FoldRecords(FileRecords(dir[0]), from, st, maxTx, apply);
        if r.Replayed? {
          ReplayIsLogFold(dir[1..], indexes[1..], from, r.state, r.maxTx, apply);
        }
      }
    }
  }

  lemma {:induction false} FoldNone<S>(from: nat, st: S, maxTx: nat, apply: Applier<S>)
    ensures FoldRecords([], from, st, maxTx, apply) == Replayed(st, maxTx)
  {
  }

  /** Applying payloads one after another. */
  function Fold<S>(st: S, ps: seq<bytes>, apply: Applier<S>): (r: Option<S>)
    decreases ps
  {
    if ps == [] then Some(st)
    else
      match apply(st, ps[0])
      case None => None
      case Some(st') => Fold(st', ps[1..], apply)
  }

  lemma {:induction false} FoldSplit<S>(st: S, a: seq<bytes>, b: seq<bytes>, apply: Applier<S>)
    ensures Fold(st, a + b, apply) ==
      match Fold(st, a, apply)
      case None => None
      case Some(st') => Fold(st', b, apply)
    decreases |a|
  {
    if a == [] {
      assert a + b == b;
    } else {
      assert (a + b)[1..] == a[1..] + b;
      var taken := apply(st, a[0]);
      if taken.Some? {
        FoldSplit(taken.value, a[1..], b, apply);
      }
    }
  }

  lemma {:induction false} FoldOfContiguous<S>(rs: seq<Record>, from: nat, st: S, apply: Applier<S>)
    requires forall i :: 0 <= i < |rs| ==> rs[i].txID == from + 1 + i
    ensures var r := FoldRecords(rs, from, st, from, apply);
      match Fold(st, Payloads(rs), apply)
      case Some(st') => r == Replayed(st', from + |rs|)
      case None => r.ApplyFailed? && from < r.txID <= from + |rs|
    decreases |rs|
  {
    FoldAbove(rs, from, from, st, apply);
  }

  lemma {:induction false} FoldAbove<S>(rs: seq<Record>, from: nat, maxTx: nat, st: S, apply: Applier<S>)
    requires from <= maxTx && forall i :: 0 <= i < |rs| ==> rs[i].txID == maxTx + 1 + i
    ensures var r := FoldRecords(rs, from, st, maxTx, apply);
      match Fold(st, Payloads(rs), apply)
      case Some(st') => r == Replayed(st', maxTx + |rs|)
      case None => r.ApplyFailed? && maxTx < r.txID <= maxTx + |rs|
    decreases |rs|
  {
    if rs != [] {
      assert Payloads(rs)[1..] == Payloads(rs[1..]);
      var taken := apply(st, rs[0].payload);
      if taken.Some? {
        FoldAbove(rs[1..], from, maxTx + 1, taken.value, apply);
      }
    }
  }

  /** The records of a log that come after transaction `from`. */
  function After(dir: seq<SegmentFile>, from: nat): (r: seq<Record>)
    requires dir != []
  {
    var rs, k := LogRecords(dir), from + 1 - dir[0].start;
    if 0 <= k <= |rs| then rs[k..] else []
  }

  /**
   * Replaying an accepted log from any point between just before its first
   * transaction and its horizon meets no record-read error and applies exactly the
   * transactions after that point up to the horizon, once each and in order. This
   * includes segments with torn or zero-filled tails, and any sound index.
   */
  lemma {:induction false} ReplayVisitsExactly<S>(dir: seq<SegmentFile>, indexes: Sidecars, from: nat, st: S,
      apply: Applier<S>)
    requires dir != [] && Listed(dir) && ScanOf(dir).Ok? && SoundIndexes(dir, indexes)
    requires dir[0].start - 1 <= from <= Horizon(ScanOf(dir).value) <= MAX_U64
    ensures var due := After(dir, from);
      && (forall i :: 0 <= i < |due| ==> due[i].txID == from + 1 + i)
      && from + |due| == Horizon(ScanOf(dir).value)
      && var r := ReplayOf(dir, ScanOf(dir).value, indexes, from, st, from, apply);
         match Fold(st, Payloads(due), apply)
         case Some(st') => r == Replayed(st', Horizon(ScanOf(dir).value))
         case None => r.ApplyFailed? && from < r.txID <= Horizon(ScanOf(dir).value)
  {
    hide ScanOf, ReplayOf, FoldRecords, Fold, SoundIndexes, LogRecords, Listed;
    var rs, k := LogRecords(dir), from + 1 - dir[0].start;
    ContiguousLog(dir);
    ReplayIsLogFold(dir, indexes, from, st, from, apply);
    FoldSkips(rs, k, from, st, from, apply);
    FoldOfContiguous(rs[k..], from, st, apply);
  }
}
