/** Entries of the advisory offset indexes: which can be relied on, and what the others do. */
module IndexEntries {
  import opened Bytes
  import opened Records
  import opened SegmentScan
  import opened Segments
  import OffsetIndex
  import opened Replay
  import IndexScan
  import opened TornWrites
  import opened Listings

  // ---- entries that do no harm ---------------------------------------------

  /** Record boundaries found by a scan are the writer's offsets. */
  lemma {:induction false} BoundaryIsOffset(start: nat, ps: seq<bytes>, tail: bytes, k: nat)
    requires Fits(start, ps) && TornTail(tail) && k <= |ps|
    ensures |ScanRecords(Encoded(start, ps) + tail, start).records| == |ps|
    ensures Boundary(Encoded(start, ps) + tail, start, k) == |Encoded(start, ps[..k])|
    decreases k
  {
    hide RecordBytes, TornTail, ScanRecords, Records.ScanNext, Encoded;
    ScanEncoded(start, ps, tail);
    if k == 0 {
      assert Encoded(start, ps[..0]) == [] by { EncodedNone(start); }
    } else {
      var first := RecordBytes(Entry(start, ps[0]));
      var s, rest := Encoded(start, ps) + tail, Encoded(start + 1, ps[1..]) + tail;
      EncodedCons(start, ps);
      EncodedCons(start, ps[..k]);
      assert ps[..k][1..] == ps[1..][..k - 1];
      assert s == first + rest && s[|first|..] == rest;
      ReadBack(Entry(start, ps[0]), rest);
      BoundaryIsOffset(start + 1, ps[1..], tail, k - 1);
      BoundaryStep(s, start, k);
    }
  }

  lemma {:induction false} BoundaryStep(s: bytes, want: nat, k: nat)
    requires 0 < k <= |ScanRecords(s, want).records| && ScanNext(s).Got?
    ensures k - 1 <= |ScanRecords(s[ScanNext(s).size..], want + 1).records|
    ensures Boundary(s, want, k) == ScanNext(s).size + Boundary(s[ScanNext(s).size..], want + 1, k - 1)
  {
    hide ScanRecords, Records.ScanNext;
    ScanStep(s, want);
  }

  predicate BoundaryAt(f: SegmentFile, k: nat, offset: nat) {
    && |f.data| >= SEGMENT_HEADER && k <= |BodyScan(f).records|
    && offset == SEGMENT_HEADER + Boundary(f.data[SEGMENT_HEADER..], f.start, k)
  }

  /** The offset is that of a record of the file, or of the end of its records. */
  ghost predicate OnBoundary(f: SegmentFile, offset: nat) {
    exists k: nat :: BoundaryAt(f, k, offset)
  }

  predicate OffsetAt(start: nat, ps: seq<bytes>, k: nat, offset: nat) {
    Fits(start, ps) && k <= |ps| && offset == OffsetOf(start, ps, k)
  }

  /** The offset is where the writer puts one of the records, or where it would put the next one. */
  ghost predicate AmongOffsets(start: nat, ps: seq<bytes>, offset: nat) {
    exists k: nat :: OffsetAt(start, ps, k, offset)
  }

  /** The size of the file, whether or not a loss of power undoes its last writes. */
  function Extent(f: File): (r: nat) {
    if |f.durable| <= |f.current| then |f.current| else |f.durable|
  }

  /** An entry that points in front of the records, behind the file or at the boundary of a record. */
  ghost predicate Harmless(s: Segment, e: OffsetIndex.Slot) {
    e.offset < SEGMENT_HEADER || e.offset >= Extent(s.file) || OnBoundary(Shown(s), e.offset)
  }

  /** Whatever its key, such an entry fails its validation or names the record with its key. */
  lemma {:induction false} HarmlessSound(s: Segment, e: OffsetIndex.Slot)
    requires Harmless(s, e) && |s.file.current| >= SEGMENT_HEADER && !BodyScan(Shown(s)).end.Broken?
    ensures SoundEntry(Shown(s), e)
  {
    hide ScanRecords, Records.ScanNext, Boundary;
    var f := Shown(s);
    if ValidIndexedOffset(f.data, e.offset, e.key) {
      var body := f.data[SEGMENT_HEADER..];
      var k: nat :| BoundaryAt(f, k, e.offset);
      ScanFromBoundary(body, f.start, k);
      assert body[Boundary(body, f.start, k)..] == f.data[e.offset..];
      ScanStep(f.data[e.offset..], f.start + k);
    }
  }

  lemma {:induction false} HeldBody(f: SegmentFile, log: seq<bytes>, n: nat)
    requires Holds(f, log, n)
    ensures f.start > 0 && Storable(log, f.start - 1 + n) && |f.data| >= SEGMENT_HEADER
    ensures f.data[SEGMENT_HEADER..] == Encoded(f.start, Stretch(log, f.start - 1, f.start - 1 + n)) + TailOf(f, log, n)
    ensures TornTail(TailOf(f, log, n)) && |BodyScan(f).records| == n && !BodyScan(f).end.Broken?
  {
    hide Encoded, TornTail, ScanRecords;
    HeldScan(f, log, n);
  }

  /** In a file that holds part of the log, the boundaries are the writer's offsets. */
  lemma {:induction false} HeldOffset(f: SegmentFile, log: seq<bytes>, n: nat, k: nat)
    requires Holds(f, log, n) && k <= n
    ensures f.start > 0 && Storable(log, f.start - 1 + n)
    ensures |f.data| >= SEGMENT_HEADER && |BodyScan(f).records| == n
    ensures SEGMENT_HEADER + Boundary(f.data[SEGMENT_HEADER..], f.start, k)
         == OffsetOf(f.start, Stretch(log, f.start - 1, f.start - 1 + n), k)
  {
    HeldBody(f, log, n);
    var ps := Stretch(log, f.start - 1, f.start - 1 + n);
    BoundaryIsOffset(f.start, ps, TailOf(f, log, n), k);
    hide Holds, TailOf, TornTail, ScanRecords, Encoded, Boundary;
  }

  lemma {:induction false} SamePlace(f: SegmentFile, log: seq<bytes>, n: nat, k: nat, offset: nat)
    requires Holds(f, log, n)
    ensures f.start > 0 && Storable(log, f.start - 1 + n)
    ensures BoundaryAt(f, k, offset) <==> OffsetAt(f.start, Stretch(log, f.start - 1, f.start - 1 + n), k, offset)
  {
    HeldBody(f, log, n);
    if k <= n {
      HeldOffset(f, log, n, k);
    }
    hide Holds, TailOf, TornTail, ScanRecords, Encoded, Boundary, OffsetOf;
  }

  lemma {:induction false} HeldBoundary(f: SegmentFile, log: seq<bytes>, n: nat, offset: nat)
    requires Holds(f, log, n)
    ensures f.start > 0 && Storable(log, f.start - 1 + n)
    ensures OnBoundary(f, offset) <==> AmongOffsets(f.start, Stretch(log, f.start - 1, f.start - 1 + n), offset)
  {
    hide Holds, BoundaryAt, OffsetAt;
    SamePlace(f, log, n, 0, offset);
    var ps := Stretch(log, f.start - 1, f.start - 1 + n);
    hide Stretch;
    if OnBoundary(f, offset) {
      var k: nat :| BoundaryAt(f, k, offset);
      SamePlace(f, log, n, k, offset);
    }
    if AmongOffsets(f.start, ps, offset) {
      var k: nat :| OffsetAt(f.start, ps, k, offset);
      SamePlace(f, log, n, k, offset);
    }
  }

  /** The file after a loss of power holds some of the records, and less than the next one behind them. */
  lemma {:induction false} HarmlessCut(s: Segment, log: seq<bytes>, n: nat, cut: Segment, m: nat, e: OffsetIndex.Slot)
    requires Harmless(s, e) && Holds(Shown(s), log, n)
    requires cut.start == s.start && Holds(Shown(cut), log, m) && m <= n && Extent(cut.file) <= Extent(s.file)
    requires s.start > 0 && Storable(log, s.start - 1 + n)
    requires m < n ==> Extent(cut.file) < OffsetOf(s.start, Stretch(log, s.start - 1, s.start - 1 + n), m + 1)
    ensures Harmless(cut, e)
  {
    hide Holds, Encoded, OnBoundary, OffsetOf;
    HeldBoundary(Shown(s), log, n, e.offset);
    HeldBoundary(Shown(cut), log, m, e.offset);
    var ps, qs := Stretch(log, s.start - 1, s.start - 1 + n), Stretch(log, s.start - 1, s.start - 1 + m);
    if OnBoundary(Shown(s), e.offset) {
      var k: nat :| OffsetAt(s.start, ps, k, e.offset);
      if k <= m {
        SameOffset(s.start, ps, qs, k);
        assert OffsetAt(s.start, qs, k, e.offset);
      } else {
        OffsetsGrow(s.start, ps, m + 1, k);
      }
    }
  }

  lemma {:induction false} SameOffset(start: nat, ps: seq<bytes>, qs: seq<bytes>, k: nat)
    requires Fits(start, ps) && qs <= ps && k <= |qs|
    ensures OffsetOf(start, ps, k) == OffsetOf(start, qs, k)
  {
    hide Encoded;
    assert qs[..k] == ps[..k];
  }

  lemma {:induction false} OffsetsGrow(start: nat, ps: seq<bytes>, j: nat, k: nat)
    requires Fits(start, ps) && j <= k <= |ps|
    ensures OffsetOf(start, ps, j) <= OffsetOf(start, ps, k)
    ensures j < k ==> OffsetOf(start, ps, j) + RECORD_OVERHEAD <= OffsetOf(start, ps, k)
  {
    hide Encoded;
    assert ps[..k][..j] == ps[..j];
    EncodedSplit(start, ps[..k], j);
    if j < k {
      EncodedCons(start + j, ps[..k][j..]);
    }
  }

  /** Appending a record keeps every entry harmless that does not point behind the write position. */
  lemma {:induction false} HarmlessNext(s: Segment, log: seq<bytes>, n: nat, next: Segment, e: OffsetIndex.Slot)
    requires Harmless(s, e) && Holds(Shown(s), log, n) && s.start > 0 && Storable(log, s.start - 1 + n)
    requires next.start == s.start && Holds(Shown(next), log, n + 1)
    requires e.offset <= OffsetOf(s.start, Stretch(log, s.start - 1, s.start - 1 + n), n)
    ensures Harmless(next, e)
  {
    hide Holds, Encoded, OnBoundary, OffsetOf, AmongOffsets, Storable, Stretch;
    HeldEnd(Shown(s), log, n);
    HeldBoundary(Shown(s), log, n, e.offset);
    HeldBoundary(Shown(next), log, n + 1, e.offset);
    OneMore(s.start, log, n);
    var ps, qs := Stretch(log, s.start - 1, s.start - 1 + n), Stretch(log, s.start - 1, s.start + n);
    if e.offset >= SEGMENT_HEADER {
      StillAmong(s.start, ps, qs, e.offset);
    }
  }

  lemma {:induction false} OneMore(start: nat, log: seq<bytes>, n: nat)
    requires 0 < start && Storable(log, start + n)
    ensures start + n <= |log|
    ensures var ps, qs := Stretch(log, start - 1, start - 1 + n), Stretch(log, start - 1, start + n);
      ps <= qs && Fits(start, ps) && Fits(start, qs)
  {
  }

  lemma {:induction false} StillAmong(start: nat, ps: seq<bytes>, qs: seq<bytes>, offset: nat)
    requires Fits(start, ps) && Fits(start, qs) && ps <= qs
    requires AmongOffsets(start, ps, offset) || offset == OffsetOf(start, ps, |ps|)
    ensures AmongOffsets(start, qs, offset)
  {
    hide OffsetOf;
    var k: nat := if offset == OffsetOf(start, ps, |ps|) then |ps| else var k: nat :| OffsetAt(start, ps, k, offset); k;
    SameOffset(start, qs, ps, k);
    assert OffsetAt(start, qs, k, offset);
  }

  lemma {:induction false} HeldEnd(f: SegmentFile, log: seq<bytes>, n: nat)
    requires Holds(f, log, n)
    ensures f.start > 0 && Storable(log, f.start - 1 + n)
    ensures OffsetOf(f.start, Stretch(log, f.start - 1, f.start - 1 + n), n) <= |f.data|
  {
    hide Encoded, TornTail;
    var ps := Stretch(log, f.start - 1, f.start - 1 + n);
    assert ps[..n] == ps;
  }

  // ---- entries that are not ------------------------------------------------

  lemma {:induction false} TornNotZero(t: bytes)
    requires TornTail(t)
    ensures DecodeRecord(t, 0) == ScanNext(t)
  {
    TornTailRead(t);
    ReadersAgree(t);
    if |t| >= RECORD_HEADER {
      var rec :| CutShort(t, rec);
      assert t[..RECORD_HEADER] == RecordBytes(rec)[..RECORD_HEADER] == Header(rec);
      HeaderFields(rec, t);
    }
  }

  /** A seek by the linear scan ends at a record of the file or at its end. */
  lemma {:induction false} LinearEnds(f: SegmentFile, log: seq<bytes>, n: nat, target: u64)
    requires Holds(f, log, n)
    ensures |f.data| >= SEGMENT_HEADER
    ensures var r := LinearSeek(f.data, SEGMENT_HEADER, target);
      r.Ok? && r.value < |f.data| ==> OnBoundary(f, r.value)
  {
    hide Holds, LinearSeek, OnBoundary, TailOf, TornTail, ScanRecords, Encoded, Storable, Stretch;
    HeldBody(f, log, n);
    if n == 0 || target >= f.start + n {
      SeekAtEnd(f, log, n, target);
    } else {
      SeekAtRecord(f, if target <= f.start then 0 else target - f.start, target);
    }
  }

  lemma {:induction false} SeekAtRecord(f: SegmentFile, k: nat, target: u64)
    requires |f.data| >= SEGMENT_HEADER && k < |BodyScan(f).records|
    requires k > 0 ==> f.start + k == target
    requires k == 0 ==> target <= f.start
    ensures LinearSeek(f.data, SEGMENT_HEADER, target).Ok?
    ensures OnBoundary(f, LinearSeek(f.data, SEGMENT_HEADER, target).value)
  {
    hide ScanRecords, Records.ScanNext, DecodeRecord, Boundary, LinearSeek, OnBoundary;
    var pos := SEGMENT_HEADER + Boundary(f.data[SEGMENT_HEADER..], f.start, k);
    SeekSkips(f.data, SEGMENT_HEADER, f.start, k, target);
    Place(f, k);
    AtRecord(f, k, pos);
    SeekHere(f.data, pos, target);
  }

  lemma {:induction false} SeekAtEnd(f: SegmentFile, log: seq<bytes>, n: nat, target: u64)
    requires Holds(f, log, n) && |f.data| >= SEGMENT_HEADER && |BodyScan(f).records| == n
    requires n == 0 || target >= f.start + n
    ensures LinearSeek(f.data, SEGMENT_HEADER, target).Ok? ==>
      LinearSeek(f.data, SEGMENT_HEADER, target).value == |f.data|
  {
    hide Holds, ScanRecords, Records.ScanNext, DecodeRecord, Boundary, LinearSeek;
    var pos := SEGMENT_HEADER + Boundary(f.data[SEGMENT_HEADER..], f.start, n);
    SeekSkips(f.data, SEGMENT_HEADER, f.start, n, target);
    AtTheEnd(f, log, n, pos);
    SeekHere(f.data, pos, target);
  }

  lemma {:induction false} Place(f: SegmentFile, k: nat)
    requires |f.data| >= SEGMENT_HEADER && k <= |ScanRecords(f.data[SEGMENT_HEADER..], f.start).records|
    ensures OnBoundary(f, SEGMENT_HEADER + Boundary(f.data[SEGMENT_HEADER..], f.start, k))
  {
    assert BoundaryAt(f, k, SEGMENT_HEADER + Boundary(f.data[SEGMENT_HEADER..], f.start, k));
  }

  lemma {:induction false} SeekHere(data: bytes, pos: nat, target: u64)
    requires pos <= |data|
    ensures var d, r := DecodeRecord(data[pos..], 0), LinearSeek(data, pos, target);
      && (d.Got? && d.rec.txID >= target ==> r == Ok(pos))
      && (!d.Got? && r.Ok? && (d.End? ==> pos + RECORD_HEADER > |data|) ==> r.value == |data|)
  {
    hide DecodeRecord;
  }

  lemma {:induction false} AtRecord(f: SegmentFile, k: nat, pos: nat)
    requires |f.data| >= SEGMENT_HEADER && k < |BodyScan(f).records|
    requires pos == SEGMENT_HEADER + Boundary(f.data[SEGMENT_HEADER..], f.start, k)
    ensures ScanNext(f.data[pos..]).Got? && ScanNext(f.data[pos..]).rec.txID == f.start + k
    ensures DecodeRecord(f.data[pos..], 0) == ScanNext(f.data[pos..])
  {
    hide ScanRecords, Records.ScanNext, DecodeRecord, Boundary;
    var body := f.data[SEGMENT_HEADER..];
    ScanFromBoundary(body, f.start, k);
    assert body[Boundary(body, f.start, k)..] == f.data[pos..];
    ScanStep(f.data[pos..], f.start + k);
    ReadersAgreeOnGot(f.data[pos..]);
  }

  lemma {:induction false} AtTheEnd(f: SegmentFile, log: seq<bytes>, n: nat, pos: nat)
    requires Holds(f, log, n) && |f.data| >= SEGMENT_HEADER && |BodyScan(f).records| == n
    requires pos == SEGMENT_HEADER + Boundary(f.data[SEGMENT_HEADER..], f.start, n)
    ensures var d := DecodeRecord(f.data[pos..], 0);
      !d.Got? && (d.End? ==> pos + RECORD_HEADER > |f.data|)
  {
    HeldOffset(f, log, n, n);
    HeldShape(f, log, n);
    var ps, tail := Stretch(log, f.start - 1, f.start - 1 + n), TailOf(f, log, n);
    assert ps[..n] == ps;
    hide Holds, TailOf, ScanRecords, Records.ScanNext, Encoded, DecodeRecord, TornTail, Boundary;
    assert f.data[pos..] == tail;
    TornTailRead(tail);
    TornNotZero(tail);
  }

  /**
   * An index changes where a seek ends exactly when one of its entries passes its validation without naming
   * the record with its key.
   */
  lemma {:induction false} SeekExact(f: SegmentFile, log: seq<bytes>, n: nat, index: seq<OffsetIndex.Slot>)
    requires Holds(f, log, n) && OffsetIndex.Increasing(index)
    ensures |f.data| >= SEGMENT_HEADER
    ensures (forall target: u64 :: SeekOf(f.data, target, Some(index)) == SeekOf(f.data, target, None))
       <==> SoundIndex(f, Some(index))
  {
    LinearEnds(f, log, n, 0);
    hide Holds, LinearSeek, SoundEntry, SeekOf, OffsetIndex.Increasing;
    if SoundIndex(f, Some(index)) {
      forall target: u64 ensures SeekOf(f.data, target, Some(index)) == SeekOf(f.data, target, None) {
        SeekWithIndexIsLinear(f, target, Some(index));
      }
    } else {
      var e :| e in index && !SoundEntry(f, e);
      UnsoundMisleads(f, log, n, index, e);
    }
  }

  lemma {:induction false} UnsoundMisleads(f: SegmentFile, log: seq<bytes>, n: nat, index: seq<OffsetIndex.Slot>,
      e: OffsetIndex.Slot)
    requires Holds(f, log, n) && OffsetIndex.Increasing(index) && e in index
    requires |f.data| >= SEGMENT_HEADER && !SoundEntry(f, e)
    ensures SeekOf(f.data, e.key, Some(index)) == Ok(e.offset) != SeekOf(f.data, e.key, None)
  {
    SeeksThere(f.data, index, e);
    LinearEnds(f, log, n, e.key);
    HeldBody(f, log, n);
    hide Holds, LinearSeek, Boundary, ScanRecords, Records.ScanNext, OnBoundary, TailOf, Encoded, OffsetIndex.Lookup;
    if OnBoundary(f, e.offset) {
      HarmlessSound(Segment(f.start, File(f.data, f.data)), e);
    }
  }

  /** An entry that passes its validation is where the seek for its key starts, and where it ends. */
  lemma {:induction false} SeeksThere(data: bytes, index: seq<OffsetIndex.Slot>, e: OffsetIndex.Slot)
    requires OffsetIndex.Increasing(index) && e in index && |data| >= SEGMENT_HEADER
    ensures ValidIndexedOffset(data, e.offset, e.key) ==> SeekOf(data, e.key, Some(index)) == Ok(e.offset)
  {
    hide Records.ScanNext, DecodeRecord;
    OffsetIndex.LookupGreatest(index, e.key);
    assert OffsetIndex.Lookup(index, e.key) == Some(e);
    if ValidIndexedOffset(data, e.offset, e.key) {
      ReadersAgreeOnGot(data[e.offset..]);
    }
  }

  /** What the fast scan makes of a segment's index differs from what the full scan makes of the segment. */
  predicate Misreports(a: IndexScan.Attempt<SegmentInfo>, full: Result<SegmentInfo, ScanError>) {
    match a
    case Declined => false
    case Failed(e) => full != Err(e)
    case Answered(info) => full != Ok(info)
  }

  /**
   * When the entry the fast scan looks up names a transaction that the segment has lost, the scan misreports the
   * segment exactly when the entry passes its validation; and what it then reports is a transaction that is not there.
   */
  lemma {:induction false} LostEntryExact(f: SegmentFile, log: seq<bytes>, n: nat, target: u64,
      index: seq<OffsetIndex.Slot>, e: OffsetIndex.Slot)
    requires Holds(f, log, n) && OffsetIndex.Lookup(index, target) == Some(e) && e.key >= f.start + n
    ensures Misreports(IndexScan.IndexedSegment(f, true, target, Some(index)), SegmentOf(f, true))
       <==> ValidIndexedOffset(f.data, e.offset, e.key)
    ensures match IndexScan.IndexedSegment(f, true, target, Some(index))
      case Answered(info) => SegmentOf(f, true).Ok? && SegmentOf(f, true).value.last < e.key <= info.last
      case _ => true
  {
    hide Holds, ValidIndexedOffset, IndexScan.IndexedSegment, TailOf, SegmentOf, FileRecords, BodyScan,
      OffsetIndex.Lookup, Entries, ReadSegmentHeader;
    HeldReport(f, log, n, true);
    HeldScan(f, log, n);
    FromEntry(f, target, index, e);
  }

  /** An entry that passes its validation makes the fast scan report at least its transaction, or fail. */
  lemma {:induction false} FromEntry(f: SegmentFile, target: u64, index: seq<OffsetIndex.Slot>, e: OffsetIndex.Slot)
    requires OffsetIndex.Lookup(index, target) == Some(e) && e.key >= f.start && ReadSegmentHeader(f.data).None?
    ensures var a := IndexScan.IndexedSegment(f, true, target, Some(index));
      && (a.Declined? <==> !ValidIndexedOffset(f.data, e.offset, e.key))
      && (a.Answered? ==> a.value.last >= e.key)
  {
    hide ScanRecords, Records.ScanNext, OffsetIndex.Lookup, ReadSegmentHeader;
    if ValidIndexedOffset(f.data, e.offset, e.key) {
      ScanStep(f.data[e.offset..], e.key);
    }
  }

  /** Bytes that read as a record with this key, at this distance from the front of a payload. */
  function Disguised(gap: nat, key: u64): (r: bytes) {
    seq(gap, _ => 0) + RecordBytes(Entry(key, []))
  }

  /** The next record to be appended, with a payload that carries such bytes at the offset of the entry. */
  lemma {:induction false} DisguiseRead(start: nat, ps: seq<bytes>, e: OffsetIndex.Slot) returns (crc: bytes)
    requires 0 < start && Fits(start, ps) && start + |ps| <= MAX_U64
    requires |SegmentBytes(start, ps)| + RECORD_HEADER <= e.offset
    requires e.offset + RECORD_OVERHEAD <= |SegmentBytes(start, ps)| + RECORD_HEADER + MAX_PAYLOAD
    ensures var p := Disguised(e.offset - |SegmentBytes(start, ps)| - RECORD_HEADER, e.key);
      && |p| <= MAX_PAYLOAD && Fits(start, ps + [p])
      && ValidIndexedOffset(SegmentBytes(start, ps + [p]), e.offset, e.key)
      && |crc| == RECORD_CRC && e.offset < |SegmentBytes(start, ps + [p])| - RECORD_CRC
      && SegmentBytes(start, ps + [p])[e.offset..] == RecordBytes(Entry(e.key, [])) + crc
  {
    var base := SegmentBytes(start, ps);
    var gap := e.offset - |base| - RECORD_HEADER;
    var inner := RecordBytes(Entry(e.key, []));
    var p := Disguised(gap, e.key);
    assert |inner| == RECORD_OVERHEAD;
    var rec := Entry(start + |ps|, p);
    AppendExtends(start, ps, base, rec);
    var data := SegmentBytes(start, ps + [p]);
    crc := RecordBytes(rec)[RECORD_HEADER + |p|..];
    assert RecordBytes(rec)[RECORD_HEADER..] == p + crc;
    assert |crc| == RECORD_CRC;
    hide RecordBytes, Encoded;
    assert data == base + RecordBytes(rec);
    assert data[|base| + RECORD_HEADER..] == p + crc;
    assert data[e.offset..] == data[|base| + RECORD_HEADER..][gap..] == inner + crc;
    ReadBack(Entry(e.key, []), crc);
  }

  /** With p as the next payload, the entry passes its validation where it should not. */
  ghost predicate Misled(start: nat, ps: seq<bytes>, p: bytes, e: OffsetIndex.Slot) {
    Fits(start, ps + [p]) && !SoundEntry(SegmentFile(start, SegmentBytes(start, ps + [p])), e)
  }

  /**
   * An entry for an earlier record, or one left from records that were lost: some next payload turns it into a
   * wrong one exactly when it points behind the write position.
   */
  lemma {:induction false} LurksExactly(start: nat, ps: seq<bytes>, e: OffsetIndex.Slot)
    requires 0 < start && Fits(start, ps) && start + |ps| <= MAX_U64
    requires var base := |SegmentBytes(start, ps)|;
      || e.offset < SEGMENT_HEADER
      || OnBoundary(SegmentFile(start, SegmentBytes(start, ps)), e.offset)
      || base + RECORD_OVERHEAD <= e.offset <= base + MAX_PAYLOAD - RECORD_CRC
    ensures (exists p :: Misled(start, ps, p, e)) <==> e.offset > |SegmentBytes(start, ps)|
  {
    if OnBoundary(SegmentFile(start, SegmentBytes(start, ps)), e.offset) {
      BoundaryInside(start, ps, e.offset);
    }
    hide OnBoundary, SoundEntry, Encoded, RecordBytes;
    if e.offset > |SegmentBytes(start, ps)| {
      BehindIsLurking(start, ps, e);
    } else {
      forall p | Fits(start, ps + [p]) ensures !Misled(start, ps, p, e) {
        BeforeIsSound(start, ps, p, e);
      }
    }
  }

  /** Some log of which these are the transactions from start on. */
  lemma {:induction false} SomeLog(start: nat, ps: seq<bytes>) returns (log: seq<bytes>)
    requires 0 < start && Fits(start, ps)
    ensures |log| == start - 1 + |ps| && Storable(log, |log|) && Stretch(log, start - 1, |log|) == ps
    ensures Holds(SegmentFile(start, SegmentBytes(start, ps)), log, |ps|)
  {
    log := seq(start - 1, _ => []) + ps;
    assert Stretch(log, start - 1, |log|) == ps;
    hide Encoded;
    assert SegmentBytes(start, ps)[|SegmentBytes(start, ps)|..] == [];
  }

  lemma {:induction false} WholeBoundary(start: nat, ps: seq<bytes>, offset: nat)
    requires 0 < start && Fits(start, ps)
    ensures OnBoundary(SegmentFile(start, SegmentBytes(start, ps)), offset) <==> AmongOffsets(start, ps, offset)
    ensures !BodyScan(SegmentFile(start, SegmentBytes(start, ps))).end.Broken?
  {
    hide OnBoundary, AmongOffsets, Encoded, Holds, Stretch, Storable, TailOf, TornTail;
    var log := SomeLog(start, ps);
    HeldBoundary(SegmentFile(start, SegmentBytes(start, ps)), log, |ps|, offset);
    HeldBody(SegmentFile(start, SegmentBytes(start, ps)), log, |ps|);
  }

  lemma {:induction false} BeforeIsSound(start: nat, ps: seq<bytes>, p: bytes, e: OffsetIndex.Slot)
    requires 0 < start && Fits(start, ps) && Fits(start, ps + [p]) && e.offset <= |SegmentBytes(start, ps)|
    requires e.offset < SEGMENT_HEADER || OnBoundary(SegmentFile(start, SegmentBytes(start, ps)), e.offset)
    ensures SoundEntry(SegmentFile(start, SegmentBytes(start, ps + [p])), e)
  {
    hide OnBoundary, AmongOffsets, SoundEntry, Encoded, OffsetOf, BodyScan;
    var g := SegmentFile(start, SegmentBytes(start, ps + [p]));
    WholeBoundary(start, ps, e.offset);
    WholeBoundary(start, ps + [p], e.offset);
    if e.offset >= SEGMENT_HEADER {
      StillAmong(start, ps, ps + [p], e.offset);
    }
    HarmlessSound(Segment(start, File(g.data, g.data)), e);
  }

  lemma {:induction false} BehindIsLurking(start: nat, ps: seq<bytes>, e: OffsetIndex.Slot)
    requires 0 < start && Fits(start, ps) && start + |ps| <= MAX_U64
    requires |SegmentBytes(start, ps)| + RECORD_HEADER <= e.offset
    requires e.offset + RECORD_OVERHEAD <= |SegmentBytes(start, ps)| + RECORD_HEADER + MAX_PAYLOAD
    ensures Misled(start, ps, Disguised(e.offset - |SegmentBytes(start, ps)| - RECORD_HEADER, e.key), e)
  {
    var _ := DisguiseRead(start, ps, e);
    hide SoundEntry, Encoded, Disguised, ValidIndexedOffset, RecordBytes;
    InsideIsWrong(start, ps, Disguised(e.offset - |SegmentBytes(start, ps)| - RECORD_HEADER, e.key), e);
  }

  /** No entry that points inside the last record names a record. */
  lemma {:induction false} InsideIsWrong(start: nat, ps: seq<bytes>, p: bytes, e: OffsetIndex.Slot)
    requires 0 < start && Fits(start, ps) && Fits(start, ps + [p])
    requires |SegmentBytes(start, ps)| < e.offset < |SegmentBytes(start, ps + [p])|
    requires ValidIndexedOffset(SegmentBytes(start, ps + [p]), e.offset, e.key)
    ensures Misled(start, ps, p, e)
  {
    hide SoundEntry, OnBoundary, AmongOffsets, Encoded, ValidIndexedOffset, BodyScan;
    var f := SegmentFile(start, SegmentBytes(start, ps + [p]));
    WholeBoundary(start, ps + [p], e.offset);
    if SoundEntry(f, e) {
      SoundOnBoundary(f, e);
      NoneBetween(start, ps, p, e.offset);
    }
  }

  lemma {:induction false} NoneBetween(start: nat, ps: seq<bytes>, p: bytes, offset: nat)
    requires Fits(start, ps + [p]) && Fits(start, ps) && AmongOffsets(start, ps + [p], offset)
    ensures offset <= |SegmentBytes(start, ps)| || offset >= |SegmentBytes(start, ps + [p])|
  {
    hide OffsetOf, SegmentBytes;
    var k: nat :| OffsetAt(start, ps + [p], k, offset);
    BetweenLast(start, ps, p, k);
  }

  lemma {:induction false} SoundOnBoundary(f: SegmentFile, e: OffsetIndex.Slot)
    requires |f.data| >= SEGMENT_HEADER && SoundEntry(f, e) && ValidIndexedOffset(f.data, e.offset, e.key)
    ensures OnBoundary(f, e.offset)
  {
    hide ScanRecords, Records.ScanNext, Boundary;
    assert BoundaryAt(f, e.key - f.start, e.offset);
  }

  lemma {:induction false} BoundaryInside(start: nat, ps: seq<bytes>, offset: nat)
    requires 0 < start && Fits(start, ps) && OnBoundary(SegmentFile(start, SegmentBytes(start, ps)), offset)
    ensures offset <= |SegmentBytes(start, ps)|
  {
  }

  /** No boundary lies inside the last record. */
  lemma {:induction false} BetweenLast(start: nat, ps: seq<bytes>, p: bytes, k: nat)
    requires Fits(start, ps + [p]) && Fits(start, ps) && k <= |ps| + 1
    ensures OffsetOf(start, ps + [p], k) <= |SegmentBytes(start, ps)| ||
      OffsetOf(start, ps + [p], k) == |SegmentBytes(start, ps + [p])|
  {
    hide Encoded;
    if k <= |ps| {
      SameOffset(start, ps + [p], ps, k);
      OffsetsGrow(start, ps, k, |ps|);
      assert ps[..|ps|] == ps;
    } else {
      assert (ps + [p])[..k] == ps + [p];
    }
  }
}
