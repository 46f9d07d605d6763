/** Segment contents, the appending writer and the positioned reader. */
module Segments {
  import opened Bytes
  import opened Records
  import opened SegmentScan

  // ---- contents -----------------------------------------------------------

  /** Payloads that a segment starting at `start` can hold and recovery can read back. */
  predicate Fits(start: nat, ps: seq<bytes>) {
    start + |ps| <= MAX_U64 + 1 && forall i :: 0 <= i < |ps| ==> |ps[i]| <= MAX_PAYLOAD
  }

  function Entry(txID: u64, payload: bytes): (r: Record) {
    Record(txID, CHANGESET, 0, payload)
  }

  function Entries(start: nat, ps: seq<bytes>): (r: seq<Record>)
    requires Fits(start, ps)
    ensures |r| == |ps|
  {
    seq(|ps|, i requires 0 <= i < |ps| => Entry(start + i, ps[i]))
  }

  /** The bytes of consecutive records, the first carrying transaction `start`. */
  function Encoded(start: nat, ps: seq<bytes>): (r: bytes)
    requires Fits(start, ps)
    decreases ps
  {
    if ps == [] then [] else RecordBytes(Entry(start, ps[0])) + Encoded(start + 1, ps[1..])
  }

  function SegmentBytes(start: nat, ps: seq<bytes>): (r: bytes)
    requires Fits(start, ps)
    ensures |r| == SEGMENT_HEADER + |Encoded(start, ps)|
  {
    SEGMENT_PREFIX + Encoded(start, ps)
  }

  lemma {:induction false} EncodedCons(start: nat, ps: seq<bytes>)
    requires Fits(start, ps) && ps != []
    ensures Fits(start + 1, ps[1..])
    ensures Encoded(start, ps) == RecordBytes(Entry(start, ps[0])) + Encoded(start + 1, ps[1..])
  {
    hide RecordBytes;
  }

  lemma {:induction false} EncodedNone(start: nat)
    requires Fits(start, [])
    ensures Encoded(start, []) == []
  {
  }

  lemma {:induction false} EncodedSplit(start: nat, ps: seq<bytes>, k: nat)
    requires Fits(start, ps) && k <= |ps|
    ensures Encoded(start, ps) == Encoded(start, ps[..k]) + Encoded(start + k, ps[k..])
    decreases k
  {
    hide RecordBytes;
    if k == 0 {
      assert ps[0..] == ps;
    } else {
      EncodedSplit(start + 1, ps[1..], k - 1);
      assert ps[1..][..k - 1] == ps[..k][1..] && ps[1..][k - 1..] == ps[k..];
    }
  }

  lemma {:induction false} EncodedSnoc(start: nat, ps: seq<bytes>, p: bytes)
    requires Fits(start, ps) && start + |ps| <= MAX_U64 && |p| <= MAX_PAYLOAD
    ensures Fits(start, ps + [p])
    ensures Encoded(start, ps + [p]) == Encoded(start, ps) + RecordBytes(Entry(start + |ps|, p))
  {
    hide RecordBytes;
    EncodedSplit(start, ps + [p], |ps|);
    assert (ps + [p])[..|ps|] == ps && (ps + [p])[|ps|..] == [p];
    assert Encoded(start + |ps|, [p]) == RecordBytes(Entry(start + |ps|, p)) + Encoded(start + |ps| + 1, []);
  }

  /** Scanning encoded records followed by a torn tail finds the records and the tail, and nothing else. */
  lemma {:induction false} ScanEncoded(start: nat, ps: seq<bytes>, tail: bytes)
    requires Fits(start, ps) && TornTail(tail)
    ensures ScanRecords(Encoded(start, ps) + tail, start)
         == RecordScan(Entries(start, ps), if AllZero(tail) then Clean else Torn)
    decreases |ps|
  {
    hide Records.ScanNext, RecordBytes, TornTail, Encoded, ScanRecords;
    var s := Encoded(start, ps) + tail;
    ScanStep(s, start);
    if ps == [] {
      EncodedNone(start);
      assert s == tail;
      TornTailRead(tail);
      assert Entries(start, ps) == [];
    } else {
      var first := Entry(start, ps[0]);
      var rest := Encoded(start + 1, ps[1..]) + tail;
      EncodedCons(start, ps);
      assert s == RecordBytes(first) + rest;
      ReadBack(first, rest);
      assert s[|RecordBytes(first)|..] == rest;
      ScanEncoded(start + 1, ps[1..], tail);
      var rs := ScanRecords(s, start).records;
      assert rs == [rs[0]] + rs[1..];
      assert Entries(start, ps) == [first] + Entries(start + 1, ps[1..]);
    }
  }

  // ---- SegmentWriter ------------------------------------------------------

  datatype AppendError = WrongType | WrongFlags | WrongTx | PayloadTooLong

  class SegmentWriter {
    var data: bytes            // the file as this writer sees it, buffered bytes included
    var size: nat              // the write position
    const startTx: nat
    var lastTx: nat
    var lastRecordOffset: nat
    var hasLastRecord: bool
    ghost var payloads: seq<bytes>   // the payload of every record before the write position

    ghost predicate Valid()
      reads this
    {
      && 0 < startTx <= MAX_U64
      && Fits(startTx, payloads)
      && size == |SegmentBytes(startTx, payloads)| <= |data|
      && data[..size] == SegmentBytes(startTx, payloads)
      && (hasLastRecord <==> payloads != [])
      && lastTx == (if payloads == [] then 0 else startTx - 1 + |payloads|)
      && (payloads != [] ==> lastRecordOffset == OffsetOf(startTx, payloads, |payloads| - 1))
    }

    /** CreateSegment: a file holding just the header. */
    constructor Create(start: nat)
      requires 0 < start <= MAX_U64
      ensures Valid() && startTx == start && payloads == [] && data == SEGMENT_PREFIX
    {
      data, size, startTx := SEGMENT_PREFIX, SEGMENT_HEADER, start;
      lastTx, lastRecordOffset, hasLastRecord := 0, 0, false;
      payloads := [];
    }

    /** The state a reopened segment is left in. */
    constructor Reopen(start: nat, contents: bytes, ghost ps: seq<bytes>, position: nat, last: nat, offset: nat)
      requires 0 < start <= MAX_U64 && Fits(start, ps)
      requires position == |SegmentBytes(start, ps)| <= |contents| && contents[..position] == SegmentBytes(start, ps)
      requires last == (if ps == [] then 0 else start - 1 + |ps|)
      requires ps != [] ==> offset == OffsetOf(start, ps, |ps| - 1)
      ensures Valid() && startTx == start && payloads == ps && data == contents && size == position
    {
      data, size, startTx := contents, position, start;
      lastTx, lastRecordOffset, hasLastRecord := last, offset, last > 0;
      payloads := ps;
    }

    /**
     * Append: accepts exactly the next contiguous changeset record and writes it at
     * the current position, over whatever padding the file had there. It refuses only
     * payloads whose length does not fit the header; one above the format ceiling it
     * writes, although recovery does not read it back.
     */
    method Append(rec: Record) returns (r: Option<AppendError>)
      requires Valid()
      modifies this
      ensures r.None? <==>
        && rec.recordType == CHANGESET && rec.flags == 0
        && rec.txID == old(startTx + |payloads|) && |rec.payload| <= MAX_U32
      ensures r == Some(PayloadTooLong) ==> |rec.payload| > MAX_U32 && rec.txID == old(startTx + |payloads|)
      ensures r.Some? || |rec.payload| <= MAX_PAYLOAD ==> Valid()
      ensures r.None? ==> payloads == old(payloads) + [rec.payload]
      ensures r.None? ==> lastTx == rec.txID && lastRecordOffset == old(size) && hasLastRecord
      ensures r.None? ==> size == old(size) + RECORD_OVERHEAD + |rec.payload|
      ensures r.None? ==> data == WriteAt(old(data), old(size), RecordBytes(rec))
      ensures r.Some? ==> unchanged(this)
    {
      if rec.recordType != CHANGESET {
        return Some(WrongType);
      }
      if rec.flags != 0 {
        return Some(WrongFlags);
      }
      if !hasLastRecord {
        if rec.txID != startTx {
          return Some(WrongTx);
        }
      } else if lastTx == MAX_U64 || rec.txID != lastTx + 1 {
        return Some(WrongTx);
      }
      if |rec.payload| > MAX_U32 {
        return Some(PayloadTooLong);
      }
      hide RecordBytes, SegmentBytes, WriteAt;
      if |rec.payload| <= MAX_PAYLOAD {
        AppendExtends(startTx, payloads, data, rec);
      }
      var offset := size;
      data := WriteAt(data, size, RecordBytes(rec));
      size := size + RECORD_OVERHEAD + |rec.payload|;
      lastTx, lastRecordOffset, hasLastRecord := rec.txID, offset, true;
      payloads := payloads + [rec.payload];
      assert payloads[..|payloads| - 1] == old(payloads);
      return None;
    }
  }

  /** The bytes of a file after `chunk` is written at `pos`. */
  function WriteAt(file: bytes, pos: nat, chunk: bytes): (r: bytes)
    requires pos <= |file|
  {
    file[..pos] + chunk + (if pos + |chunk| < |file| then file[pos + |chunk|..] else [])
  }

  /** Writing the next record behind the existing ones extends the segment by exactly that record. */
  lemma {:induction false} AppendExtends(start: nat, ps: seq<bytes>, file: bytes, rec: Record)
    requires Fits(start, ps) && SegmentBytes(start, ps) <= file
    requires Appendable(rec) && rec.txID == start + |ps|
    ensures Fits(start, ps + [rec.payload])
    ensures var size := |SegmentBytes(start, ps)|;
      && SegmentBytes(start, ps + [rec.payload]) == SegmentBytes(start, ps) + RecordBytes(rec)
      && SegmentBytes(start, ps + [rec.payload]) <= WriteAt(file, size, RecordBytes(rec))
  {
    hide RecordBytes;
    EncodedSnoc(start, ps, rec.payload);
    assert rec == Entry(start + |ps|, rec.payload);
  }

  /** The byte offset of record k of a segment. */
  function OffsetOf(start: nat, ps: seq<bytes>, k: nat): (r: nat)
    requires Fits(start, ps) && k <= |ps|
  {
    |SegmentBytes(start, ps[..k])|
  }

  // ---- reopening ----------------------------------------------------------

  /** What OpenSegmentForAppend leaves behind: the file, and how many records precede the write position. */
  datatype Reopened = Reopened(data: bytes, payloads: seq<bytes>)

  function Payloads(rs: seq<Record>): (r: seq<bytes>)
    ensures |r| == |rs|
  {
    seq(|rs|, i requires 0 <= i < |rs| => rs[i].payload)
  }

  /** The whole records a scan accepted, as they stand in the file. */
  lemma {:induction false} ScannedIsEncoded(s: bytes, want: nat)
    ensures var ps := Payloads(ScanRecords(s, want).records);
      && (ps != [] ==> Fits(want, ps))
      && (ps != [] ==> Encoded(want, ps) <= s)
    decreases |s|
  {
    hide Records.ScanNext, RecordBytes;
    match ScanNext(s)
    case End =>
    case Bad(_) =>
    case Got(rec, size) =>
      if Follows(rec, want).None? {
        AcceptedIsEncoded(s);
        ScannedIsEncoded(s[size..], want + 1);
        var sc := ScanRecords(s[size..], want + 1);
        var ps := Payloads(ScanRecords(s, want).records);
        assert ps == [rec.payload] + Payloads(sc.records);
        assert ps[1..] == Payloads(sc.records);
        assert rec == Entry(want, rec.payload);
        if sc.records == [] {
          assert Encoded(want, ps) == RecordBytes(rec) + Encoded(want + 1, []);
        }
        assert s == s[..size] + s[size..];
      }
  }

  lemma {:induction false} NoRecords(start: nat)
    requires start <= MAX_U64 + 1
    ensures SegmentBytes(start, []) == SEGMENT_PREFIX
  {
  }

  /** A record read right behind the known ones is the next entry of the segment. */
  lemma {:induction false} RecordExtends(start: nat, ps: seq<bytes>, file: bytes, rec: Record, n: nat)
    requires Fits(start, ps) && SegmentBytes(start, ps) <= file
    requires ScanNext(file[|SegmentBytes(start, ps)|..]) == Got(rec, n) && rec.txID == start + |ps|
    ensures Fits(start, ps + [rec.payload]) && SegmentBytes(start, ps + [rec.payload]) <= file
    ensures |SegmentBytes(start, ps + [rec.payload])| == |SegmentBytes(start, ps)| + n
  {
    hide Records.ScanNext, RecordBytes;
    var size := |SegmentBytes(start, ps)|;
    AcceptedIsEncoded(file[size..]);
    AppendExtends(start, ps, file, rec);
    assert file[..size + n] == file[..size] + file[size..][..n];
  }

  /** OpenSegmentForAppend, as a function of the file. */
  function ReopenOf(f: SegmentFile): (r: Result<Reopened, ScanError>) {
    if ReadSegmentHeader(f.data).Some? then Err(ReadFault(ReadSegmentHeader(f.data).value))
    else
      var scan := BodyScan(f);
      var ps := Payloads(scan.records);
      match scan.end
      case Broken(e) => Err(e)
      case Torn =>
        if ps == [] then Err(TornError(f))
        else
          ScannedIsEncoded(f.data[SEGMENT_HEADER..], f.start);
          Ok(Reopened(f.data[..SEGMENT_HEADER + |Encoded(f.start, ps)|], ps))
      case Clean => Ok(Reopened(f.data, ps))
  }

  method OpenSegmentForAppend(f: SegmentFile) returns (r: Result<SegmentWriter, ScanError>)
    requires 0 < f.start <= MAX_U64
    ensures r.Ok? <==> ReopenOf(f).Ok?
    ensures r.Err? ==> r.error == ReopenOf(f).error
    ensures r.Ok? ==> fresh(r.value) && r.value.Valid() && r.value.startTx == f.start
    ensures r.Ok? ==> Reopened(r.value.data, r.value.payloads) == ReopenOf(f).value
  {
    hide Records.ScanNext, RecordBytes, ScanRecords, SegmentBytes;
    var header := ReadSegmentHeader(f.data);
    if header.Some? {
      return Err(ReadFault(header.value));
    }
    var data, size := f.data, SEGMENT_HEADER;
    var lastTx, lastRecordOffset, count := 0, 0, 0;
    ghost var whole := BodyScan(f);
    ghost var ps: seq<bytes> := [];
    NoRecords(f.start);
    while true
      invariant count == |ps| <= |whole.records| && ps == Payloads(whole.records)[..count]
      invariant Fits(f.start, ps) && size == |SegmentBytes(f.start, ps)| && SegmentBytes(f.start, ps) <= data
      invariant lastTx == (if ps == [] then 0 else f.start - 1 + |ps|)
      invariant ps != [] ==> lastRecordOffset == OffsetOf(f.start, ps, |ps| - 1)
      invariant ScanRecords(data[size..], f.start + count) == RecordScan(whole.records[count..], whole.end)
      decreases |data| - size
    {
      ScanStep(data[size..], f.start + count);
      match ScanNext(data[size..]) {
        case End =>
          break;
        case Bad(e) =>
          if count == 0 || !DamagedTail(e) {
            return Err(ReadFault(e));
          }
          data := data[..size];
          break;
        case Got(rec, n) =>
          if count == 0 {
            if rec.txID != f.start {
              return Err(HistoryGap(f.start, rec.txID));
            }
          } else {
            var expected := NextContiguous(lastTx, rec.txID);
            if expected.Err? {
              return Err(expected.error);
            }
            if rec.txID != expected.value {
              return Err(HistoryGap(expected.value, rec.txID));
            }
          }
          RecordExtends(f.start, ps, data, rec, n);
          assert data[size..][n..] == data[size + n..];
          ps := ps + [rec.payload];
          assert ps[..|ps| - 1] == ps[..count];
          lastRecordOffset := size;
          size, lastTx, count := size + n, rec.txID, count + 1;
      }
    }
    assert ps == Payloads(whole.records);
    var w := new SegmentWriter.Reopen(f.start, data, ps, size, lastTx, lastRecordOffset);
    return Ok(w);
  }

  /**
   * The writer's reopen and recovery's scan read the same file the same way: they
   * agree on success except for a torn tail with no record before it, which the
   * scan of the last file reports as an artifact and the reopen refuses.
   */
  lemma {:induction false} ReopenMatchesScan(f: SegmentFile)
    requires 0 < f.start <= MAX_U64
    ensures ReopenOf(f).Ok? <==>
      SegmentOf(f, true).Ok? && !(SegmentOf(f, true).value.mode == AppendByFreshNextSegment
                                   && SegmentOf(f, true).value.last < f.start)
    ensures ReopenOf(f).Ok? ==>
      SegmentOf(f, true).value.last == f.start - 1 + |ReopenOf(f).value.payloads|
    ensures ReopenOf(f).Ok? && SegmentOf(f, true).value.mode == AppendInPlace ==> ReopenOf(f).value.data == f.data
  {
    hide Records.ScanNext;
  }
}
