/** What a crash can leave of a segment that was being appended to, and what a scan makes of it. */
module TornWrites {
  import opened Bytes
  import opened Records
  import opened SegmentScan
  import opened Segments

  // ---- files and crashes --------------------------------------------------

  /** A file's durable bytes and its bytes as last written. */
  datatype File = File(durable: bytes, current: bytes)

  /** After a crash: some prefix of what was written, then whatever was durable behind it. */
  function Survivor(f: File, p: nat): (r: bytes)
    requires p <= |f.current|
  {
    f.current[..p] + (if p < |f.durable| then f.durable[p..] else [])
  }

  /** Crashing with no more than q bytes kept, or again after q bytes were kept, comes to the same. */
  lemma {:induction false} SurvivorTwice(f: File, q: nat, p: nat)
    requires q <= |f.current| && p <= |Survivor(f, q)|
    ensures Survivor(File(f.durable, Survivor(f, q)), p) == Survivor(f, if p <= q then p else q)
  {
  }

  // ---- segments that hold a stretch of the log ---------------------------

  /** The payloads of transactions from+1 to upto; log[t - 1] is the payload of transaction t. */
  function Stretch(log: seq<bytes>, from: nat, upto: nat): (r: seq<bytes>)
    requires from <= upto <= |log|
    ensures |r| == upto - from
  {
    log[from..upto]
  }

  /** All payloads up to transaction n are within the format limits. */
  ghost predicate Storable(log: seq<bytes>, n: nat) {
    n <= |log| && n <= MAX_U64 && forall i :: 0 <= i < n ==> |log[i]| <= MAX_PAYLOAD
  }

  /** The file holds the n transactions of the log from its start on, then at most a torn record. */
  ghost predicate Holds(f: SegmentFile, log: seq<bytes>, n: nat) {
    && f.start > 0
    && Storable(log, f.start - 1 + n)
    && SegmentBytes(f.start, Stretch(log, f.start - 1, f.start - 1 + n)) <= f.data
    && TornTail(f.data[|SegmentBytes(f.start, Stretch(log, f.start - 1, f.start - 1 + n))|..])
  }

  /** The bytes behind the last whole record of such a file. */
  function TailOf(f: SegmentFile, log: seq<bytes>, n: nat): (r: bytes)
    requires Holds(f, log, n)
  {
    f.data[|SegmentBytes(f.start, Stretch(log, f.start - 1, f.start - 1 + n))|..]
  }

  lemma {:induction false} HeldScan(f: SegmentFile, log: seq<bytes>, n: nat)
    requires Holds(f, log, n)
    ensures ReadSegmentHeader(f.data).None?
    ensures BodyScan(f) == RecordScan(Entries(f.start, Stretch(log, f.start - 1, f.start - 1 + n)),
                                      if AllZero(TailOf(f, log, n)) then Clean else Torn)
    ensures FileRecords(f) == Entries(f.start, Stretch(log, f.start - 1, f.start - 1 + n))
  {
    hide Encoded, ScanRecords, TornTail;
    var ps := Stretch(log, f.start - 1, f.start - 1 + n);
    var size := |SegmentBytes(f.start, ps)|;
    var tail := f.data[size..];
    assert f.data == SegmentBytes(f.start, ps) + tail;
    assert f.data[..SEGMENT_HEADER] == SEGMENT_PREFIX;
    assert f.data[SEGMENT_HEADER..] == Encoded(f.start, ps) + tail;
    ScanEncoded(f.start, ps, tail);
  }

  lemma {:induction false} HeldShape(f: SegmentFile, log: seq<bytes>, n: nat)
    requires Holds(f, log, n)
    ensures f.data == SegmentBytes(f.start, Stretch(log, f.start - 1, f.start - 1 + n)) + TailOf(f, log, n)
    ensures TornTail(TailOf(f, log, n))
  {
    hide Encoded, TornTail;
  }

  /** What the recovery scan reports for a file that holds n transactions. */
  lemma {:induction false} HeldReport(f: SegmentFile, log: seq<bytes>, n: nat, isLast: bool)
    requires Holds(f, log, n) && (n > 0 || isLast)
    ensures |FileRecords(f)| == n
    ensures SegmentOf(f, isLast) == Ok(SegmentInfo(f.start, f.start - 1 + n,
      if !AllZero(TailOf(f, log, n)) then AppendByFreshNextSegment
      else if isLast then AppendInPlace else AppendForbidden))
  {
    hide ScanRecords, Holds, TailOf, ReadSegmentHeader;
    HeldScan(f, log, n);
  }

  lemma {:induction false} HeldRecords(f: SegmentFile, log: seq<bytes>, n: nat)
    requires Holds(f, log, n)
    ensures |FileRecords(f)| == n
    ensures forall i :: 0 <= i < n ==>
      FileRecords(f)[i].txID == f.start + i && FileRecords(f)[i].payload == log[f.start - 1 + i]
  {
    HeldScan(f, log, n);
  }

  // ---- cutting an append short -------------------------------------------

  /** The number of whole records among the first q encoded bytes. */
  function WholeRecords(start: nat, ps: seq<bytes>, q: nat): (k: nat)
    requires Fits(start, ps)
    ensures k <= |ps|
    decreases ps
  {
    if ps == [] || q < |RecordBytes(Entry(start, ps[0]))| then 0
    else 1 + WholeRecords(start + 1, ps[1..], q - |RecordBytes(Entry(start, ps[0]))|)
  }

  /** Any prefix of encoded records is some whole records and a proper prefix of the next one. */
  lemma {:induction false} PrefixIsTorn(start: nat, ps: seq<bytes>, q: nat)
    requires Fits(start, ps) && q <= |Encoded(start, ps)|
    ensures var k := WholeRecords(start, ps, q);
      && Encoded(start, ps[..k]) <= Encoded(start, ps)[..q]
      && var t := Encoded(start, ps)[|Encoded(start, ps[..k])|..q];
         if k == |ps| then t == [] else t < RecordBytes(Entry(start + k, ps[k]))
    decreases ps
  {
    hide RecordBytes, Encoded;
    var k := WholeRecords(start, ps, q);
    EncodedNone(start);
    if ps != [] {
      var first := RecordBytes(Entry(start, ps[0]));
      var rest := Encoded(start + 1, ps[1..]);
      EncodedCons(start, ps);
      if q < |first| {
        assert Encoded(start, ps)[0..q] == first[..q];
      } else {
        PrefixIsTorn(start + 1, ps[1..], q - |first|);
        EncodedCons(start, ps[..k]);
        assert ps[..k][1..] == ps[1..][..k - 1];
        BehindFirst(first, rest, Encoded(start + 1, ps[1..][..k - 1]), q);
      }
    }
  }

  lemma {:induction false} BehindFirst(first: bytes, rest: bytes, whole: bytes, q: nat)
    requires |first| <= q <= |first| + |rest| && whole <= rest[..q - |first|]
    ensures first + whole <= (first + rest)[..q]
    ensures (first + rest)[|first + whole|..q] == rest[|whole|..q - |first|]
  {
  }

  /** The prefix of an encoded stretch that ends inside or right after record k. */
  lemma {:induction false} WholeMonotone(start: nat, ps: seq<bytes>, m: nat, q: nat)
    requires Fits(start, ps) && m <= |ps| && |Encoded(start, ps[..m])| <= q
    ensures m <= WholeRecords(start, ps, q)
    decreases m
  {
    hide RecordBytes;
    if m > 0 {
      assert ps[..m][1..] == ps[1..][..m - 1];
      WholeMonotone(start + 1, ps[1..], m - 1, q - |RecordBytes(Entry(start, ps[0]))|);
    }
  }

  // ---- an active segment --------------------------------------------------

  /** The file holds the transactions up to `upto`, and then at most a few zero bytes. */
  ghost predicate Padded(start: nat, log: seq<bytes>, upto: nat, data: bytes) {
    && 0 < start <= upto + 1
    && Holds(SegmentFile(start, data), log, upto + 1 - start)
    && AllZero(TailOf(SegmentFile(start, data), log, upto + 1 - start))
  }

  /**
   * The file of a segment being appended to: durable up to transaction `synced` and written
   * up to transaction `written`, each time with at most a few zero bytes behind. A segment reopened
   * before its header was synced has no durable byte yet.
   */
  ghost predicate Appending(start: nat, log: seq<bytes>, synced: nat, written: nat, f: File) {
    && 0 < start <= synced + 1 && synced <= written && Storable(log, written)
    && (if f.durable == [] then synced == start - 1 else Padded(start, log, synced, f.durable))
    && Padded(start, log, written, f.current)
  }

  lemma {:induction false} PaddedShape(start: nat, log: seq<bytes>, upto: nat, data: bytes)
    requires Padded(start, log, upto, data)
    ensures 0 < start <= upto + 1 && Storable(log, upto) && data != []
    ensures Holds(SegmentFile(start, data), log, upto + 1 - start)
    ensures var base := SegmentBytes(start, Stretch(log, start - 1, upto));
      && base <= data && |data| < |base| + RECORD_HEADER && AllZero(data[|base|..])
      && TailOf(SegmentFile(start, data), log, upto + 1 - start) == data[|base|..]
  {
    hide Encoded, TornTail;
    TornTailRead(TailOf(SegmentFile(start, data), log, upto + 1 - start));
  }

  lemma {:induction false} PaddedFrom(start: nat, log: seq<bytes>, upto: nat, data: bytes)
    requires 0 < start <= upto + 1 && Storable(log, upto)
    requires var base := SegmentBytes(start, Stretch(log, start - 1, upto));
      base <= data && |data| < |base| + RECORD_HEADER && AllZero(data[|base|..])
    ensures Padded(start, log, upto, data)
  {
    hide Encoded;
  }

  /** Writing the next transaction at the writer's position. */
  lemma {:induction false} AppendingNext(start: nat, log: seq<bytes>, synced: nat, written: nat, f: File)
    requires Appending(start, log, synced, written, f) && Storable(log, written + 1)
    ensures var size := |SegmentBytes(start, Stretch(log, start - 1, written))|;
      && size <= |f.current|
      && Appending(start, log, synced, written + 1,
           f.(current := WriteAt(f.current, size, RecordBytes(Entry(written + 1, log[written])))))
  {
    AppendingShape(start, log, synced, written, f);
    hide *;
    NextBytes(start, log, written, f.current);
    AppendingWith(start, log, synced, written, f);
  }

  lemma {:induction false} NextBytes(start: nat, log: seq<bytes>, written: nat, current: bytes)
    requires 0 < start <= written + 1 && Storable(log, written + 1)
    requires SegmentBytes(start, Stretch(log, start - 1, written)) <= current
    requires |current| < |SegmentBytes(start, Stretch(log, start - 1, written))| + RECORD_HEADER
    ensures WriteAt(current, |SegmentBytes(start, Stretch(log, start - 1, written))|,
                    RecordBytes(Entry(written + 1, log[written])))
         == SegmentBytes(start, Stretch(log, start - 1, written + 1))
  {
    hide RecordBytes, Encoded;
    var ps := Stretch(log, start - 1, written);
    var rec := Entry(written + 1, log[written]);
    assert Stretch(log, start - 1, written + 1) == ps + [log[written]];
    AppendExtends(start, ps, current, rec);
    var padding := current[|SegmentBytes(start, ps)|..];
    OverPadding(SegmentBytes(start, ps), padding, RecordBytes(rec));
    assert current == SegmentBytes(start, ps) + padding;
  }

  lemma {:induction false} AppendingWith(start: nat, log: seq<bytes>, synced: nat, written: nat, f: File)
    requires Appending(start, log, synced, written, f) && Storable(log, written + 1)
    ensures 0 < start <= written + 1
    ensures Appending(start, log, synced, written + 1,
      f.(current := SegmentBytes(start, Stretch(log, start - 1, written + 1))))
  {
    hide Padded, Encoded;
    var whole := SegmentBytes(start, Stretch(log, start - 1, written + 1));
    assert whole[|whole|..] == [];
    PaddedFrom(start, log, written + 1, whole);
  }

  /** The current file is the written records and less than a record header of zero bytes. */
  lemma {:induction false} AppendingShape(start: nat, log: seq<bytes>, synced: nat, written: nat, f: File)
    requires Appending(start, log, synced, written, f)
    ensures 0 < start <= synced + 1 && synced <= written && Storable(log, written)
    ensures var base := SegmentBytes(start, Stretch(log, start - 1, written));
      base <= f.current && |f.current| < |base| + RECORD_HEADER && AllZero(f.current[|base|..])
  {
    hide Encoded, Padded;
    PaddedShape(start, log, written, f.current);
  }

  lemma {:induction false} OverPadding(whole: bytes, padding: bytes, chunk: bytes)
    requires |padding| <= |chunk|
    ensures WriteAt(whole + padding, |whole|, chunk) == whole + chunk
  {
  }

  lemma {:induction false} AppendingSynced(start: nat, log: seq<bytes>, synced: nat, written: nat, f: File)
    requires Appending(start, log, synced, written, f)
    ensures Appending(start, log, written, written, File(f.current, f.current))
  {
    AppendingShape(start, log, synced, written, f);
    hide Encoded, Padded;
    PaddedFrom(start, log, written, f.current);
  }

  // ---- crashes of an active segment --------------------------------------

  /** The crash cuts the file off before the end of a header that was never synced. */
  predicate HeaderLost(f: File, p: nat) {
    f.durable == [] && p < SEGMENT_HEADER
  }

  /** The number of transactions a crash leaves that keeps p bytes. */
  function Kept(start: nat, log: seq<bytes>, synced: nat, written: nat, p: nat): (n: nat)
    requires 0 < start <= synced + 1 && synced <= written && Storable(log, written)
    ensures synced + 1 - start <= n <= written + 1 - start
  {
    var m, ps := synced + 1 - start, Stretch(log, start - 1, written);
    if p <= |SegmentBytes(start, ps[..m])| || p < SEGMENT_HEADER then m
    else
      var n := WholeRecords(start, ps, p - SEGMENT_HEADER);
      if n < m then m else n
  }

  lemma {:induction false} KeptGrows(start: nat, log: seq<bytes>, synced: nat, written: nat, p: nat, q: nat)
    requires 0 < start <= synced + 1 && synced <= written && Storable(log, written) && p <= q
    ensures Kept(start, log, synced, written, p) <= Kept(start, log, synced, written, q)
  {
    var m, ps := synced + 1 - start, Stretch(log, start - 1, written);
    hide WholeRecords, Encoded;
    if SEGMENT_HEADER <= p {
      WholeGrows(start, ps, p - SEGMENT_HEADER, q - SEGMENT_HEADER);
    }
  }

  /** Keeping the bytes of a written transaction keeps the transaction. */
  lemma {:induction false} KeptCovers(start: nat, log: seq<bytes>, synced: nat, written: nat, u: nat, q: nat)
    requires 0 < start <= synced + 1 && synced <= u <= written && Storable(log, written)
    requires |SegmentBytes(start, Stretch(log, start - 1, u))| <= q
    ensures u <= start - 1 + Kept(start, log, synced, written, q)
  {
    if u > synced {
      KeptCases(start, log, synced, written, q);
      hide *;
      var ps, k := Stretch(log, start - 1, written), u + 1 - start;
      StretchFits(log, start, written, k);
      WholeMonotone(start, ps, k, q - SEGMENT_HEADER);
      StretchFits(log, start, written, synced + 1 - start);
      RecordsTakeSpace(start, ps, synced + 1 - start, k);
    }
  }

  lemma {:induction false} WholeGrows(start: nat, ps: seq<bytes>, p: nat, q: nat)
    requires Fits(start, ps) && p <= q
    ensures WholeRecords(start, ps, p) <= WholeRecords(start, ps, q)
    decreases ps
  {
    hide RecordBytes;
    if ps != [] && |RecordBytes(Entry(start, ps[0]))| <= p {
      var size := |RecordBytes(Entry(start, ps[0]))|;
      WholeGrows(start + 1, ps[1..], p - size, q - size);
    }
  }

  /**
   * Whatever prefix of its unsynced bytes a crash keeps, the surviving segment holds
   * every synced transaction, no transaction that was not written, and at most a torn record,
   * unless the header itself was never synced and is cut off.
   */
  lemma {:induction false} SurvivorHolds(start: nat, log: seq<bytes>, synced: nat, written: nat, f: File, p: nat)
    returns (n: nat)
    requires Appending(start, log, synced, written, f) && p <= |f.current| && !HeaderLost(f, p)
    ensures 0 < start <= synced + 1 && synced <= written && Storable(log, written)
    ensures n == Kept(start, log, synced, written, p)
    ensures Holds(SegmentFile(start, Survivor(f, p)), log, n)
    ensures synced <= start - 1 + n <= written
    ensures start - 1 + n < written ==>
      |TailOf(SegmentFile(start, Survivor(f, p)), log, n)| < |RecordBytes(Entry(start + n, log[start - 1 + n]))|
  {
    AppendingShape(start, log, synced, written, f);
    if f.durable == [] {
      WithHeader(start, log, synced, written, f, p);
      n := SyncedHolds(start, log, synced, written, File(SEGMENT_PREFIX, f.current), p);
    } else {
      n := SyncedHolds(start, log, synced, written, f, p);
    }
  }

  /** Past the header it makes no difference whether the header was synced. */
  lemma {:induction false} WithHeader(start: nat, log: seq<bytes>, synced: nat, written: nat, f: File, p: nat)
    requires Appending(start, log, synced, written, f) && f.durable == [] && SEGMENT_HEADER <= p <= |f.current|
    ensures Appending(start, log, synced, written, File(SEGMENT_PREFIX, f.current))
    ensures Survivor(File(SEGMENT_PREFIX, f.current), p) == Survivor(f, p)
  {
    hide Encoded;
    EmptyPadded(start, log);
    hide Padded;
  }

  lemma {:induction false} EmptyPadded(start: nat, log: seq<bytes>)
    requires start > 0 && Storable(log, start - 1)
    ensures Padded(start, log, start - 1, SEGMENT_PREFIX)
  {
    hide Encoded;
    NoRecords(start);
    assert Stretch(log, start - 1, start - 1) == [];
    assert SEGMENT_PREFIX[SEGMENT_HEADER..] == [];
    PaddedFrom(start, log, start - 1, SEGMENT_PREFIX);
  }

  lemma {:induction false} SyncedHolds(start: nat, log: seq<bytes>, synced: nat, written: nat, f: File, p: nat)
    returns (n: nat)
    requires Appending(start, log, synced, written, f) && p <= |f.current| && f.durable != []
    ensures 0 < start <= synced + 1 && synced <= written && Storable(log, written)
    ensures n == Kept(start, log, synced, written, p)
    ensures Holds(SegmentFile(start, Survivor(f, p)), log, n)
    ensures synced <= start - 1 + n <= written
    ensures start - 1 + n < written ==>
      |TailOf(SegmentFile(start, Survivor(f, p)), log, n)| < |RecordBytes(Entry(start + n, log[start - 1 + n]))|
  {
    AppendingShape(start, log, synced, written, f);
    DurablePadded(start, log, synced, written, f);
    PaddedShape(start, log, synced, f.durable);
    KeptCases(start, log, synced, written, p);
    hide *;
    if written == synced || p <= |SegmentBytes(start, Stretch(log, start - 1, synced))| {
      KeepsPadded(start, log, synced, written, f, p);
      PaddedShape(start, log, synced, Survivor(f, p));
      n := synced + 1 - start;
    } else if p <= |SegmentBytes(start, Stretch(log, start - 1, written))| {
      n := CutHolds(start, log, synced, written, f, p);
    } else {
      n := AllHolds(start, log, synced, written, f, p);
    }
  }

  /** A crash that keeps every written record leaves all of them and zeros. */
  lemma {:induction false} AllHolds(start: nat, log: seq<bytes>, synced: nat, written: nat, f: File, p: nat)
    returns (n: nat)
    requires Appending(start, log, synced, written, f) && synced < written && f.durable != []
    requires 0 < start <= synced + 1 && Storable(log, written)
    requires |SegmentBytes(start, Stretch(log, start - 1, written))| < p <= |f.current|
    ensures n == WholeRecords(start, Stretch(log, start - 1, written), p - SEGMENT_HEADER) == written + 1 - start
    ensures Holds(SegmentFile(start, Survivor(f, p)), log, n)
  {
    AppendingShape(start, log, synced, written, f);
    DurablePadded(start, log, synced, written, f);
    PaddedShape(start, log, synced, f.durable);
    var ps, m := Stretch(log, start - 1, written), synced + 1 - start;
    n := |ps|;
    hide Appending, Padded, Encoded, WholeRecords, Holds, TailOf;
    assert ps[..n] == ps && Stretch(log, start - 1, synced) == ps[..m];
    WholeMonotone(start, ps, n, p - SEGMENT_HEADER);
    RecordsTakeSpace(start, ps, m, n);
    MixedPadding(SegmentBytes(start, ps), File(SegmentBytes(start, ps), f.current), p);
    assert Survivor(f, p) == f.current[..p] == Survivor(File(SegmentBytes(start, ps), f.current), p);
    PaddedFrom(start, log, written, Survivor(f, p));
    PaddedShape(start, log, written, Survivor(f, p));
  }

  lemma {:induction false} DurablePadded(start: nat, log: seq<bytes>, synced: nat, written: nat, f: File)
    requires Appending(start, log, synced, written, f)
    ensures f.durable != [] ==> Padded(start, log, synced, f.durable)
    ensures f.durable == [] ==> synced == start - 1
  {
    hide Padded;
  }

  lemma {:induction false} KeptCases(start: nat, log: seq<bytes>, synced: nat, written: nat, p: nat)
    requires 0 < start <= synced + 1 && synced <= written && Storable(log, written)
    ensures Storable(log, synced)
    ensures var base := |SegmentBytes(start, Stretch(log, start - 1, synced))|;
      && SEGMENT_HEADER <= base
      && Kept(start, log, synced, written, p) ==
           if written == synced || p <= base then synced + 1 - start
           else WholeRecords(start, Stretch(log, start - 1, written), p - SEGMENT_HEADER)
  {
    var m, ps := synced + 1 - start, Stretch(log, start - 1, written);
    hide WholeRecords;
    StretchFits(log, start, written, m);
    if p > |SegmentBytes(start, ps[..m])| {
      WholeMonotone(start, ps, m, p - SEGMENT_HEADER);
    }
  }

  /** A crash that keeps no byte behind the synced records, or only padding, leaves padding at most. */
  lemma {:induction false} KeepsPadded(start: nat, log: seq<bytes>, synced: nat, written: nat, f: File, p: nat)
    requires Appending(start, log, synced, written, f) && p <= |f.current| && f.durable != []
    requires 0 < start <= synced + 1 && Storable(log, synced)
    requires written == synced || p <= |SegmentBytes(start, Stretch(log, start - 1, synced))|
    ensures Padded(start, log, synced, Survivor(f, p))
  {
    DurablePadded(start, log, synced, written, f);
    PaddedShape(start, log, synced, f.durable);
    SyncedPrefix(start, log, synced, written, f);
    AppendingShape(start, log, synced, written, f);
    hide Padded, Appending, Encoded, TornTail, TailOf, Holds;
    MixedPadding(SegmentBytes(start, Stretch(log, start - 1, synced)), f, p);
    PaddedFrom(start, log, synced, Survivor(f, p));
  }

  lemma {:induction false} SyncedPrefix(start: nat, log: seq<bytes>, synced: nat, written: nat, f: File)
    requires Appending(start, log, synced, written, f)
    ensures 0 < start <= synced + 1 <= written + 1 && Storable(log, written)
    ensures SegmentBytes(start, Stretch(log, start - 1, synced)) <= f.current
  {
    AppendingShape(start, log, synced, written, f);
    hide Encoded, Padded, Appending;
    var m, ps := synced + 1 - start, Stretch(log, start - 1, written);
    assert Stretch(log, start - 1, synced) == ps[..m];
    EncodedSplit(start, ps, m);
  }

  /** Two files with the same records and zeros behind them, cut anywhere into each other. */
  lemma {:induction false} MixedPadding(base: bytes, f: File, p: nat)
    requires base <= f.current && base <= f.durable && p <= |f.current|
    requires |f.durable| < |base| + RECORD_HEADER && AllZero(f.durable[|base|..])
    requires p <= |base| || (|f.current| < |base| + RECORD_HEADER && AllZero(f.current[|base|..]))
    ensures var s := Survivor(f, p);
      base <= s && |s| < |base| + RECORD_HEADER && AllZero(s[|base|..])
  {
    var s := Survivor(f, p);
    if p <= |base| {
      assert s == f.durable;
    } else {
      forall i | |base| <= i < |s| ensures s[i] == 0 {
        if i < p {
          assert s[i] == f.current[i] == f.current[|base|..][i - |base|];
        } else {
          assert s[i] == f.durable[i] == f.durable[|base|..][i - |base|];
        }
      }
    }
  }

  /** A crash that cuts into the unsynced records leaves the whole ones before the cut. */
  lemma {:induction false} CutHolds(start: nat, log: seq<bytes>, synced: nat, written: nat, f: File, p: nat)
    returns (n: nat)
    requires Appending(start, log, synced, written, f) && synced < written && f.durable != []
    requires 0 < start <= synced + 1 && Storable(log, written)
    requires |SegmentBytes(start, Stretch(log, start - 1, synced))| < p <= |f.current|
    requires p <= |SegmentBytes(start, Stretch(log, start - 1, written))|
    ensures n == WholeRecords(start, Stretch(log, start - 1, written), p - SEGMENT_HEADER)
    ensures Holds(SegmentFile(start, Survivor(f, p)), log, n)
    ensures synced <= start - 1 + n <= written
    ensures start - 1 + n < written ==>
      |TailOf(SegmentFile(start, Survivor(f, p)), log, n)| < |RecordBytes(Entry(start + n, log[start - 1 + n]))|
  {
    hide *;
    AppendingShape(start, log, synced, written, f);
    DurablePadded(start, log, synced, written, f);
    PaddedShape(start, log, synced, f.durable);
    var m := synced + 1 - start;
    StretchFits(log, start, written, m);
    var ps := Stretch(log, start - 1, written);
    n := WholeRecords(start, ps, p - SEGMENT_HEADER);
    StretchFits(log, start, written, n);
    PrefixIsTorn(start, ps, p - SEGMENT_HEADER);
    WholeMonotone(start, ps, m, p - SEGMENT_HEADER);
    CutTail(start, ps, m, n, f.durable, p);
    SameCut(f, SegmentBytes(start, ps), p);
    HoldsFrom(start, log, n, Survivor(f, p));
  }

  lemma {:induction false} SameCut(f: File, whole: bytes, p: nat)
    requires whole <= f.current && p <= |whole|
    ensures Survivor(File(f.durable, whole), p) == Survivor(f, p)
  {
  }

  /** A stretch of a storable log fits a segment, and so does each of its prefixes. */
  lemma {:induction false} StretchFits(log: seq<bytes>, start: nat, written: nat, k: nat)
    requires 0 < start <= written + 1 && Storable(log, written) && start - 1 + k <= written
    ensures written <= |log|
    ensures var ps := Stretch(log, start - 1, written);
      && Fits(start, ps) && Storable(log, start - 1 + k)
      && Stretch(log, start - 1, start - 1 + k) == ps[..k]
      && (k < |ps| ==> ps[k] == log[start - 1 + k])
  {
  }

  lemma {:induction false} HoldsFrom(start: nat, log: seq<bytes>, n: nat, data: bytes)
    requires start > 0 && Storable(log, start - 1 + n)
    requires SegmentBytes(start, Stretch(log, start - 1, start - 1 + n)) <= data
    requires TornTail(data[|SegmentBytes(start, Stretch(log, start - 1, start - 1 + n))|..])
    ensures Holds(SegmentFile(start, data), log, n)
    ensures TailOf(SegmentFile(start, data), log, n) ==
      data[|SegmentBytes(start, Stretch(log, start - 1, start - 1 + n))|..]
  {
    hide Encoded, TornTail;
  }

  /** The tail left when p bytes of the new contents are kept over an all-zero padding. */
  lemma {:induction false} CutTail(start: nat, ps: seq<bytes>, m: nat, n: nat, durable: bytes, p: nat)
    requires Fits(start, ps) && m <= n <= |ps|
    requires SegmentBytes(start, ps[..m]) <= durable
    requires |durable| < |SegmentBytes(start, ps[..m])| + RECORD_HEADER
    requires |SegmentBytes(start, ps[..m])| <= p <= |SegmentBytes(start, ps)|
    requires Encoded(start, ps[..n]) <= Encoded(start, ps)[..p - SEGMENT_HEADER]
    requires var t := Encoded(start, ps)[|Encoded(start, ps[..n])|..p - SEGMENT_HEADER];
      if n == |ps| then t == [] else t < RecordBytes(Entry(start + n, ps[n]))
    requires m < |ps|
    ensures var s := Survivor(File(durable, SegmentBytes(start, ps)), p);
      && SegmentBytes(start, ps[..n]) <= s
      && TornTail(s[|SegmentBytes(start, ps[..n])|..])
      && (n < |ps| ==> |s[|SegmentBytes(start, ps[..n])|..]| < |RecordBytes(Entry(start + n, ps[n]))|)
  {
    hide RecordBytes;
    var c := SegmentBytes(start, ps);
    var s := Survivor(File(durable, c), p);
    var whole := SegmentBytes(start, ps[..n]);
    var t := Encoded(start, ps)[|Encoded(start, ps[..n])|..p - SEGMENT_HEADER];
    assert c[..p] == whole + t;
    RecordsTakeSpace(start, ps, m, n);
    if p < |durable| {
      assert |s[|whole|..]| < RECORD_HEADER;
    } else {
      assert s[|whole|..] == t;
      assert n < |ps| ==> CutShort(t, Entry(start + n, ps[n]));
    }
  }

  lemma {:induction false} RecordsTakeSpace(start: nat, ps: seq<bytes>, m: nat, n: nat)
    requires Fits(start, ps) && m <= n <= |ps|
    ensures m < n ==> |Encoded(start, ps[..m])| + RECORD_OVERHEAD <= |Encoded(start, ps[..n])|
  {
    hide RecordBytes;
    EncodedSplit(start, ps[..n], m);
    assert ps[..n][..m] == ps[..m];
  }
}
