/** The record format of a commit-log segment and its two independent readers. */
module Records {
  import opened Bytes
  import Checksum

  const RECORD_HEADER := 14   // tx_id(8) + record_type(1) + flags(1) + data_len(4)
  const RECORD_CRC := 4
  const RECORD_OVERHEAD := 18
  const CHANGESET: byte := 1
  const MAX_PAYLOAD: u32 := 0x400_0000   // the fixed 64 MiB format ceiling

  datatype Record = Record(txID: u64, recordType: byte, flags: byte, payload: bytes)

  datatype ReadError =
    | EndOfFile
    | UnexpectedEof
    | BadMagic
    | BadVersion(got: byte)
    | BadFlags
    | Truncated
    | TooLarge(size: u32, max: u32)
    | ChecksumMismatch(txID: u64)
    | UnknownType(recordType: byte)

  /** The outcome of one read: a record and the bytes it took, a clean end, or an error. */
  datatype Step = Got(rec: Record, size: nat) | End | Bad(error: ReadError)

  // ---- encoding -----------------------------------------------------------

  function Header(rec: Record): (h: bytes)
    requires |rec.payload| <= MAX_U32
    ensures |h| == RECORD_HEADER
  {
    ToLE(rec.txID, 8) + [rec.recordType, rec.flags] + ToLE(|rec.payload|, 4)
  }

  function RecordBytes(rec: Record): (r: bytes)
    requires |rec.payload| <= MAX_U32
    ensures |r| == RECORD_OVERHEAD + |rec.payload|
  {
    Header(rec) + rec.payload + Checksum.Crc32c(Header(rec) + rec.payload)
  }

  /** The records a segment may hold: changesets within the format ceiling. */
  predicate Appendable(rec: Record) {
    rec.recordType == CHANGESET && rec.flags == 0 && |rec.payload| <= MAX_PAYLOAD
  }

  // ---- decoding -----------------------------------------------------------

  function DataLen(s: bytes): (n: u32)
    requires |s| >= RECORD_HEADER
  {
    ToFromLE(s[10..14]); Widths();
    FromLE(s[10..14])
  }

  function TxOf(s: bytes): (n: u64)
    requires |s| >= RECORD_HEADER
  {
    ToFromLE(s[..8]); Widths();
    FromLE(s[..8])
  }

  predicate ZeroHeader(s: bytes)
    requires |s| >= RECORD_HEADER
  {
    AllZero(s[..RECORD_HEADER])
  }

  /** The checks both readers make once payload and checksum are in hand. */
  function Verified(s: bytes): (r: Step)
    requires |s| >= RECORD_HEADER && RECORD_OVERHEAD + DataLen(s) <= |s|
  {
    var end := RECORD_HEADER + DataLen(s);
    if s[end..end + RECORD_CRC] != Checksum.Crc32c(s[..end]) then Bad(ChecksumMismatch(TxOf(s)))
    else if s[8] != CHANGESET then Bad(UnknownType(s[8]))
    else if s[9] != 0 then Bad(BadFlags)
    else Got(Record(TxOf(s), s[8], s[9], s[RECORD_HEADER..end]), end + RECORD_CRC)
  }

  /** DecodeRecord: the streaming reader used by replay. A zero maxPayload means the default. */
  function DecodeRecord(s: bytes, maxPayload: u32): (r: Step)
    ensures r.Got? ==> RECORD_OVERHEAD <= r.size <= |s|
  {
    var limit := if maxPayload == 0 then MAX_PAYLOAD else maxPayload;
    if |s| == 0 then End
    else if |s| < RECORD_HEADER then (if AllZero(s) then End else Bad(Truncated))
    else if ZeroHeader(s) then End
    else if DataLen(s) > limit then Bad(TooLarge(DataLen(s), limit))
    else if |s| < RECORD_OVERHEAD + DataLen(s) then Bad(Truncated)
    else Verified(s)
  }

  /** scanNextRecord: the reader used by recovery scans, which knows how much of the file is left. */
  function ScanNext(s: bytes): (r: Step)
    ensures r.Got? ==> RECORD_OVERHEAD <= r.size <= |s|
  {
    if |s| == 0 then End
    else if |s| < RECORD_HEADER then (if AllZero(s) then End else Bad(Truncated))
    else if ZeroHeader(s) then (if AllZero(s[RECORD_HEADER..]) then End else Bad(Truncated))
    else if DataLen(s) + RECORD_CRC > |s| - RECORD_HEADER then Bad(Truncated)
    else if DataLen(s) > MAX_PAYLOAD then Bad(TooLarge(DataLen(s), MAX_PAYLOAD))
    else Verified(s)
  }

  predicate DamagedTail(e: ReadError) {
    e.Truncated? || e.ChecksumMismatch?
  }

  // ---- the two readers ----------------------------------------------------

  /** The only inputs on which the two readers part ways. */
  predicate ReadersDiffer(s: bytes) {
    && |s| >= RECORD_HEADER
    && if ZeroHeader(s) then !AllZero(s)
       else DataLen(s) > MAX_PAYLOAD && |s| < RECORD_OVERHEAD + DataLen(s)
  }

  lemma {:induction false} ReadersAgree(s: bytes)
    ensures DecodeRecord(s, 0) == ScanNext(s) <==> !ReadersDiffer(s)
    ensures ReadersDiffer(s) ==> ScanNext(s) == Bad(Truncated)
    ensures DecodeRecord(s, 0).Got? <==> ScanNext(s).Got?
    ensures ScanNext(s).End? ==> DecodeRecord(s, 0).End?
  {
    if |s| >= RECORD_HEADER {
      assert s == s[..RECORD_HEADER] + s[RECORD_HEADER..];
    }
  }

  /** Reading what was written, whatever follows it, gives the record back. */
  lemma {:induction false} ReadBack(rec: Record, rest: bytes)
    requires Appendable(rec)
    ensures ScanNext(RecordBytes(rec) + rest) == Got(rec, |RecordBytes(rec)|)
    ensures DecodeRecord(RecordBytes(rec) + rest, 0) == Got(rec, |RecordBytes(rec)|)
  {
    var s := RecordBytes(rec) + rest;
    HeaderFields(rec, s);
    var end := RECORD_HEADER + |rec.payload|;
    assert s[..end] == Header(rec) + rec.payload;
    assert s[RECORD_HEADER..end] == rec.payload;
    assert s[end..end + RECORD_CRC] == Checksum.Crc32c(s[..end]);
    assert s[8] == s[..RECORD_HEADER][8] != 0;
  }

  lemma {:induction false} HeaderFields(rec: Record, s: bytes)
    requires |rec.payload| <= MAX_U32
    requires |s| >= RECORD_HEADER && s[..RECORD_HEADER] == Header(rec)
    ensures TxOf(s) == rec.txID && s[8] == rec.recordType && s[9] == rec.flags
    ensures DataLen(s) == |rec.payload|
  {
    Widths();
    FromToLE(rec.txID, 8);
    FromToLE(|rec.payload|, 4);
    assert s[..8] == Header(rec)[..8] == ToLE(rec.txID, 8);
    assert s[10..14] == s[..RECORD_HEADER][10..14] == ToLE(|rec.payload|, 4);
    assert s[8] == s[..RECORD_HEADER][8] && s[9] == s[..RECORD_HEADER][9];
  }

  /** Every record either reader accepts is exactly the encoding of what it returned. */
  lemma {:induction false} AcceptedIsEncoded(s: bytes)
    requires ScanNext(s).Got?
    ensures var r := ScanNext(s);
      Appendable(r.rec) && r.size <= |s| && s[..r.size] == RecordBytes(r.rec)
  {
    var Got(rec, size) := ScanNext(s);
    var end := RECORD_HEADER + DataLen(s);
    ToFromLE(s[..8]);
    ToFromLE(s[10..14]);
    assert s[..RECORD_HEADER] == s[..8] + [s[8], s[9]] + s[10..14] == Header(rec);
    assert s[..end] == s[..RECORD_HEADER] + s[RECORD_HEADER..end];
    assert s[..size] == s[..end] + s[end..size];
  }

  // ---- torn writes --------------------------------------------------------

  /** What an interrupted append can leave behind the last whole record. */
  ghost predicate TornTail(t: bytes) {
    |t| < RECORD_HEADER || exists rec :: CutShort(t, rec)
  }

  predicate CutShort(t: bytes, rec: Record) {
    Appendable(rec) && t < RecordBytes(rec)
  }

  /** A torn record is caught by its length alone, never by its checksum. */
  lemma {:induction false} TornTailRead(t: bytes)
    requires TornTail(t)
    ensures ScanNext(t) == if AllZero(t) then End else Bad(Truncated)
    ensures AllZero(t) ==> |t| < RECORD_HEADER
  {
    if |t| >= RECORD_HEADER {
      var rec :| CutShort(t, rec);
      assert t[..RECORD_HEADER] == RecordBytes(rec)[..RECORD_HEADER] == Header(rec);
      HeaderFields(rec, t);
      assert t[8] == t[..RECORD_HEADER][8] != 0;
    }
  }
}
