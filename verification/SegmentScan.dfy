/** Recovery's scan of segment files: which records are readable, and how each file ends. */
module SegmentScan {
  import opened Bytes
  import opened Records

  const SEGMENT_HEADER := 8   // magic(4) + version(1) + flags(1) + padding(2)
  const MAGIC: bytes := [0x53, 0x48, 0x4E, 0x54]
  const VERSION: byte := 1
  const SEGMENT_PREFIX: bytes := MAGIC + [VERSION, 0, 0, 0]

  /** One segment file: the starting transaction its name carries, and its bytes. */
  datatype SegmentFile = SegmentFile(start: nat, data: bytes)

  /** listSegmentPaths: ordered by start, with the bootstrap transaction 0 refused. */
  ghost predicate Listed(dir: seq<SegmentFile>) {
    && (forall i :: 0 <= i < |dir| ==> 0 < dir[i].start <= MAX_U64)
    && (forall i, j :: 0 <= i < j < |dir| ==> dir[i].start < dir[j].start)
  }

  datatype AppendMode = AppendInPlace | AppendByFreshNextSegment | AppendForbidden

  datatype SegmentInfo = SegmentInfo(start: nat, last: int, mode: AppendMode)

  datatype ScanError =
    | ReadFault(error: ReadError)
    | HistoryGap(expected: nat, got: nat)
    | AfterMaximum(got: nat)

  /** How the scan of one segment ended: at the end of its records, at a torn tail, or in an error. */
  datatype ScanEnd = Clean | Torn | Broken(error: ScanError)

  datatype RecordScan = RecordScan(records: seq<Record>, end: ScanEnd)

  function ReadSegmentHeader(s: bytes): (r: Option<ReadError>)
    ensures r.None? <==> |s| >= SEGMENT_HEADER && s[..SEGMENT_HEADER] == SEGMENT_PREFIX
  {
    if s == [] then Some(EndOfFile)
    else if |s| < SEGMENT_HEADER then Some(UnexpectedEof)
    else if s[..4] != MAGIC then Some(BadMagic)
    else if s[4] != VERSION then Some(BadVersion(s[4]))
    else if s[5] != 0 || s[6] != 0 || s[7] != 0 then Some(BadFlags)
    else assert s[..SEGMENT_HEADER] == s[..4] + [s[4], s[5], s[6], s[7]]; None
  }

  /** The next transaction a contiguous log may hold after `last`, if any is left. */
  function NextContiguous(last: int, got: nat): (r: Result<nat, ScanError>)
    requires -1 <= last
    ensures r.Ok? <==> last != MAX_U64
  {
    if last == MAX_U64 then Err(AfterMaximum(got)) else Ok(last + 1)
  }

  /** The check a scanned record must pass: the first opens the segment, the rest follow on. */
  function Follows(rec: Record, want: nat): (r: Option<ScanError>)
  {
    if want > MAX_U64 then Some(AfterMaximum(rec.txID))
    else if rec.txID != want then Some(HistoryGap(want, rec.txID))
    else None
  }

  /** The records readable from s when transaction `want` is due next. */
  function ScanRecords(s: bytes, want: nat): (r: RecordScan)
    decreases |s|
  {
    match ScanNext(s)
    case End => RecordScan([], Clean)
    case Bad(e) => RecordScan([], if DamagedTail(e) then Torn else Broken(ReadFault(e)))
    case Got(rec, size) =>
      if Follows(rec, want).Some? then RecordScan([], Broken(Follows(rec, want).value))
      else
        var rest := ScanRecords(s[size..], want + 1);
        RecordScan([rec] + rest.records, rest.end)
  }

  /** One step of the scan, for the loops that make it. */
  lemma {:induction false} ScanStep(s: bytes, want: nat)
    ensures ScanNext(s).End? ==> ScanRecords(s, want) == RecordScan([], Clean)
    ensures ScanNext(s).Bad? ==>
      var e := ScanNext(s).error;
      ScanRecords(s, want) == RecordScan([], if DamagedTail(e) then Torn else Broken(ReadFault(e)))
    ensures ScanNext(s).Got? ==>
      var bad := Follows(ScanNext(s).rec, want);
      if bad.Some? then ScanRecords(s, want) == RecordScan([], Broken(bad.value))
      else
        && ScanRecords(s, want).records != []
        && ScanRecords(s, want).records[0] == ScanNext(s).rec
        && ScanRecords(s[ScanNext(s).size..], want + 1)
           == RecordScan(ScanRecords(s, want).records[1..], ScanRecords(s, want).end)
  {
    hide Records.ScanNext;
  }

  function BodyScan(f: SegmentFile): (r: RecordScan)
    requires |f.data| >= SEGMENT_HEADER
  {
    ScanRecords(f.data[SEGMENT_HEADER..], f.start)
  }

  /** What scanOneSegment reports for f: the specification of the method below. */
  function SegmentOf(f: SegmentFile, isLast: bool): (r: Result<SegmentInfo, ScanError>) {
    var header := ReadSegmentHeader(f.data);
    if header == Some(EndOfFile) && isLast then
      Ok(SegmentInfo(f.start, f.start - 1, AppendByFreshNextSegment))
    else if header.Some? then Err(ReadFault(header.value))
    else
      var scan := BodyScan(f);
      var last := f.start - 1 + |scan.records|;
      match scan.end
      case Broken(e) => Err(e)
      case Torn =>
        if scan.records == [] && !isLast then Err(TornError(f))
        else Ok(SegmentInfo(f.start, last, AppendByFreshNextSegment))
      case Clean =>
        Ok(SegmentInfo(f.start, last, if isLast then AppendInPlace else AppendForbidden))
  }

  /** The error of a tail that is damaged before any record was read. */
  function TornError(f: SegmentFile): ScanError
    requires |f.data| >= SEGMENT_HEADER
    requires BodyScan(f) == RecordScan([], Torn)
  {
    ReadFault(ScanNext(f.data[SEGMENT_HEADER..]).error)
  }

  method ScanOneSegment(f: SegmentFile, isLast: bool) returns (r: Result<SegmentInfo, ScanError>)
    requires 0 < f.start <= MAX_U64
    ensures r == SegmentOf(f, isLast)
  {
    hide Records.ScanNext, ReadSegmentHeader, ScanRecords;
    var header := ReadSegmentHeader(f.data);
    if header.Some? {
      if isLast && header.value == EndOfFile {
        return Ok(SegmentInfo(f.start, f.start - 1, AppendByFreshNextSegment));
      }
      return Err(ReadFault(header.value));
    }
    var mode := if isLast then AppendInPlace else AppendForbidden;
    var pos := SEGMENT_HEADER;
    var last, count := 0, 0;
    ghost var whole := BodyScan(f);
    while true
      invariant SEGMENT_HEADER <= pos <= |f.data|
      invariant count == 0 ==> pos == SEGMENT_HEADER
      invariant count > 0 ==> last == f.start - 1 + count <= MAX_U64
      invariant count <= |whole.records|
      invariant ScanRecords(f.data[pos..], f.start + count) == RecordScan(whole.records[count..], whole.end)
      decreases |f.data| - pos
    {
      ScanStep(f.data[pos..], f.start + count);
      match ScanNext(f.data[pos..]) {
        case End =>
          break;
        case Bad(e) =>
          if DamagedTail(e) && (count > 0 || isLast) {
            mode := AppendByFreshNextSegment;
            break;
          }
          return Err(ReadFault(e));
        case Got(rec, size) =>
          if count == 0 {
            if rec.txID != f.start {
              return Err(HistoryGap(f.start, rec.txID));
            }
          } else {
            var expected := NextContiguous(last, rec.txID);
            if expected.Err? {
              return Err(expected.error);
            }
            if rec.txID != expected.value {
              return Err(HistoryGap(expected.value, rec.txID));
            }
          }
          assert f.data[pos..][size..] == f.data[pos + size..];
          last, count, pos := rec.txID, count + 1, pos + size;
      }
    }
    if count == 0 {
      return Ok(SegmentInfo(f.start, f.start - 1, mode));
    }
    return Ok(SegmentInfo(f.start, last, mode));
  }

  // ---- the whole log ------------------------------------------------------

  /** The first discontinuity between neighbouring segments, if any. */
  function FirstGap(infos: seq<SegmentInfo>): (r: Option<ScanError>)
    requires forall i :: 0 <= i < |infos| ==> -1 <= infos[i].last
  {
    if |infos| < 2 then None
    else
      match NextContiguous(infos[0].last, infos[1].start)
      case Err(e) => Some(e)
      case Ok(want) =>
        if infos[1].start != want then Some(HistoryGap(want, infos[1].start)) else FirstGap(infos[1..])
  }

  /** The segment reports of a listing, the last file being the active one. */
  function Reports(dir: seq<SegmentFile>): (r: Result<seq<SegmentInfo>, ScanError>)
    ensures r.Ok? ==> |r.value| == |dir|
    ensures r.Ok? ==> forall i :: 0 <= i < |dir| ==>
      Ok(r.value[i]) == SegmentOf(dir[i], i == |dir| - 1) && dir[i].start - 1 <= r.value[i].last
  {
    if dir == [] then Ok([])
    else
      match SegmentOf(dir[0], |dir| == 1)
      case Err(e) => Err(e)
      case Ok(info) =>
        match Reports(dir[1..])
        case Err(e) => Err(e)
        case Ok(rest) => Ok([info] + rest)
  }

  lemma {:induction false} FirstBadReport(dir: seq<SegmentFile>, i: nat)
    requires i < |dir| && SegmentOf(dir[i], i == |dir| - 1).Err?
    requires forall k :: 0 <= k < i ==> SegmentOf(dir[k], k == |dir| - 1).Ok?
    ensures Reports(dir) == Err(SegmentOf(dir[i], i == |dir| - 1).error)
  {
    if i > 0 {
      assert dir[1..][i - 1] == dir[i];
      FirstBadReport(dir[1..], i - 1);
    }
  }

  lemma {:induction false} AllGoodReports(dir: seq<SegmentFile>)
    requires forall k :: 0 <= k < |dir| ==> SegmentOf(dir[k], k == |dir| - 1).Ok?
    ensures Reports(dir).Ok?
  {
    if dir != [] {
      forall k | 0 <= k < |dir[1..]| ensures SegmentOf(dir[1..][k], k == |dir[1..]| - 1).Ok? {
        assert dir[1..][k] == dir[k + 1];
      }
      AllGoodReports(dir[1..]);
    }
  }

  /** ScanSegments: every file scans, and neighbouring files are contiguous. */
  function ScanOf(dir: seq<SegmentFile>): (r: Result<seq<SegmentInfo>, ScanError>)
    ensures r.Ok? ==> |r.value| == |dir|
  {
    match Reports(dir)
    case Err(e) => Err(e)
    case Ok(infos) =>
      if FirstGap(infos).Some? then Err(FirstGap(infos).value) else Ok(infos)
  }

  function Horizon(infos: seq<SegmentInfo>): int {
    if infos == [] then 0 else infos[|infos| - 1].last
  }

  method ValidateSegmentContinuity(infos: seq<SegmentInfo>) returns (r: Option<ScanError>)
    requires forall i :: 0 <= i < |infos| ==> -1 <= infos[i].last
    ensures r == FirstGap(infos)
  {
    if infos == [] {
      return None;
    }
    for i := 1 to |infos|
      invariant FirstGap(infos) == FirstGap(infos[i - 1..])
    {
      var expected := NextContiguous(infos[i - 1].last, infos[i].start);
      if expected.Err? {
        return Some(expected.error);
      }
      if infos[i].start != expected.value {
        return Some(HistoryGap(expected.value, infos[i].start));
      }
      assert infos[i - 1..][1..] == infos[i..];
    }
    return None;
  }

  method ScanSegments(dir: seq<SegmentFile>) returns (r: Result<seq<SegmentInfo>, ScanError>, horizon: int)
    requires Listed(dir)
    ensures r == ScanOf(dir)
    ensures r.Ok? ==> horizon == Horizon(r.value)
  {
    hide SegmentOf;
    if dir == [] {
      return Ok([]), 0;
    }
    var infos: seq<SegmentInfo> := [];
    for i := 0 to |dir|
      invariant |infos| == i
      invariant forall k :: 0 <= k < i ==> SegmentOf(dir[k], k == |dir| - 1) == Ok(infos[k])
    {
      var info := ScanOneSegment(dir[i], i == |dir| - 1);
      if info.Err? {
        FirstBadReport(dir, i);
        return Err(info.error), 0;
      }
      infos := infos + [info.value];
    }
    AllGoodReports(dir);
    assert infos == Reports(dir).value;
    var gap := ValidateSegmentContinuity(infos);
    if gap.Some? {
      return Err(gap.value), 0;
    }
    return Ok(infos), infos[|infos| - 1].last;
  }

  // ---- what an accepted scan means ---------------------------------------

  lemma {:induction false} ScannedTxIDs(s: bytes, want: nat)
    ensures var rs := ScanRecords(s, want).records;
      && (rs != [] ==> want + |rs| - 1 <= MAX_U64)
      && forall i :: 0 <= i < |rs| ==> rs[i].txID == want + i && Appendable(rs[i])
    decreases |s|
  {
    hide Records.ScanNext, RecordBytes;
    match ScanNext(s)
    case End =>
    case Bad(_) =>
    case Got(rec, size) =>
      AcceptedIsEncoded(s);
      if Follows(rec, want).None? {
        ScannedTxIDs(s[size..], want + 1);
      }
  }

  /** The records of file i of an accepted listing; an empty trailing artifact has none. */
  function FileRecords(f: SegmentFile): (r: seq<Record>) {
    if |f.data| < SEGMENT_HEADER then [] else BodyScan(f).records
  }

  /** All records of a listing, in file order. */
  function LogRecords(dir: seq<SegmentFile>): (r: seq<Record>) {
    if dir == [] then [] else FileRecords(dir[0]) + LogRecords(dir[1..])
  }

  lemma {:induction false} SegmentFacts(f: SegmentFile, isLast: bool)
    requires SegmentOf(f, isLast).Ok?
    ensures var info := SegmentOf(f, isLast).value;
      && info.start == f.start
      && info.last == f.start - 1 + |FileRecords(f)|
      && (forall k :: 0 <= k < |FileRecords(f)| ==> FileRecords(f)[k].txID == f.start + k)
      && (FileRecords(f) != [] ==> info.last <= MAX_U64)
      && (info.mode == AppendForbidden ==> !isLast)
      && (info.mode == AppendInPlace ==> isLast)
      && (FileRecords(f) == [] && !isLast ==> info.mode == AppendForbidden)
  {
    if |f.data| >= SEGMENT_HEADER {
      ScannedTxIDs(f.data[SEGMENT_HEADER..], f.start);
    }
  }

  lemma {:induction false} ScanTail(dir: seq<SegmentFile>)
    requires dir != [] && ScanOf(dir).Ok?
    ensures ScanOf(dir[1..]).Ok? && ScanOf(dir[1..]).value == ScanOf(dir).value[1..]
  {
    var infos := ScanOf(dir).value;
    assert infos[1..] == Reports(dir[1..]).value;
  }

  /**
   * An accepted log is one unbroken run of transactions: the k-th record of the
   * listing carries the first start plus k, and the last is the horizon.
   */
  lemma {:induction false} ContiguousLog(dir: seq<SegmentFile>)
    requires dir != [] && ScanOf(dir).Ok?
    ensures Horizon(ScanOf(dir).value) == dir[0].start - 1 + |LogRecords(dir)|
    ensures forall k :: 0 <= k < |LogRecords(dir)| ==> LogRecords(dir)[k].txID == dir[0].start + k
    decreases |dir|
  {
    hide SegmentOf, FileRecords;
    var infos := ScanOf(dir).value;
    SegmentFacts(dir[0], |dir| == 1);
    if |dir| == 1 {
      assert LogRecords(dir) == FileRecords(dir[0]) + LogRecords([]);
    } else {
      ScanTail(dir);
      ContiguousLog(dir[1..]);
      assert infos[1].start == infos[0].last + 1;
      SegmentFacts(dir[1], |dir| == 2);
    }
  }
}
