/** Directories of segments that hold stretches of one log, and what the recovery scan makes of them. */
module Listings {
  import opened Bytes
  import opened Records
  import opened SegmentScan
  import opened Segments
  import opened Recovery
  import opened TornWrites

  /** A segment that is no longer appended to: it holds at least one transaction. */
  ghost predicate Sealed(f: SegmentFile, log: seq<bytes>) {
    FileRecords(f) != [] && Holds(f, log, |FileRecords(f)|)
  }

  function NextStart(f: SegmentFile): (r: nat) {
    f.start + |FileRecords(f)|
  }

  /** Sealed segments without a gap between them, up to transaction end - 1. */
  ghost predicate Chain(dir: seq<SegmentFile>, log: seq<bytes>, end: nat)
    decreases |dir|
  {
    dir == [] ||
    (&& Sealed(dir[0], log)
     && NextStart(dir[0]) == (if |dir| == 1 then end else dir[1].start)
     && Chain(dir[1..], log, end))
  }

  /** The newest file of a directory: being appended to, or nothing but an empty file. */
  ghost predicate Newest(f: SegmentFile, log: seq<bytes>) {
    && 0 < f.start <= MAX_U64
    && if f.data == [] then Storable(log, f.start - 1) else Holds(f, log, |FileRecords(f)|)
  }

  lemma {:induction false} NewestReport(f: SegmentFile, log: seq<bytes>)
    requires Newest(f, log)
    ensures SegmentOf(f, true).Ok?
    ensures var info := SegmentOf(f, true).value;
      && info.start == f.start
      && info.last == f.start - 1 + |FileRecords(f)|
      && (info.mode == if f.data != [] && AllZero(TailOf(f, log, |FileRecords(f)|)) then AppendInPlace
                       else AppendByFreshNextSegment)
    ensures forall i :: 0 <= i < |FileRecords(f)| ==>
      FileRecords(f)[i].txID == f.start + i && f.start + i <= |log| && FileRecords(f)[i].payload == log[f.start - 1 + i]
  {
    hide Holds, TailOf, BodyScan;
    if f.data != [] {
      HeldReport(f, log, |FileRecords(f)|, true);
      HeldRecords(f, log, |FileRecords(f)|);
      HeldBounds(f, log, |FileRecords(f)|);
    }
  }

  lemma {:induction false} HeldBounds(f: SegmentFile, log: seq<bytes>, n: nat)
    requires Holds(f, log, n)
    ensures f.start > 0 && Storable(log, f.start - 1 + n)
  {
  }

  lemma {:induction false} ChainBelow(dir: seq<SegmentFile>, log: seq<bytes>, end: nat)
    requires Chain(dir, log, end)
    ensures forall i :: 0 <= i < |dir| ==> Sealed(dir[i], log) && dir[i].start < NextStart(dir[i]) <= end
    decreases |dir|
  {
    hide Sealed;
    if dir != [] {
      ChainBelow(dir[1..], log, end);
      assert |FileRecords(dir[0])| > 0 by { SealedNonempty(dir[0], log); }
      forall i | 0 <= i < |dir| ensures Sealed(dir[i], log) && dir[i].start < NextStart(dir[i]) <= end {
        if i > 0 {
          assert dir[i] == dir[1..][i - 1];
        } else if |dir| > 1 {
          assert dir[1] == dir[1..][0];
        }
      }
    }
  }

  lemma {:induction false} SealedNonempty(f: SegmentFile, log: seq<bytes>)
    requires Sealed(f, log)
    ensures |FileRecords(f)| > 0
  {
  }

  lemma {:induction false} ChainSuffix(dir: seq<SegmentFile>, log: seq<bytes>, end: nat, k: nat)
    requires Chain(dir, log, end) && k <= |dir|
    ensures Chain(dir[k..], log, end)
    decreases k
  {
    hide Sealed;
    if k > 0 {
      ChainSuffix(dir[1..], log, end, k - 1);
      assert dir[1..][k - 1..] == dir[k..];
    } else {
      assert dir[0..] == dir;
    }
  }

  lemma {:induction false} ChainSnoc(dir: seq<SegmentFile>, f: SegmentFile, log: seq<bytes>)
    requires Chain(dir, log, f.start) && Sealed(f, log)
    ensures Chain(dir + [f], log, NextStart(f))
    decreases |dir|
  {
    hide Sealed;
    if dir == [] {
      assert ([f])[1..] == [];
    } else {
      ChainSnoc(dir[1..], f, log);
      assert (dir + [f])[1..] == dir[1..] + [f];
    }
  }

  lemma {:induction false} ChainPrefix(dir: seq<SegmentFile>, log: seq<bytes>, end: nat, k: nat)
    requires Chain(dir, log, end) && k <= |dir|
    ensures Chain(dir[..k], log, if k == |dir| then end else dir[k].start)
    decreases k
  {
    hide Sealed, NextStart;
    if k > 0 {
      ChainPrefix(dir[1..], log, end, k - 1);
      assert dir[1..][..k - 1] == dir[..k][1..];
    }
  }

  /** The segments before the last one. */
  lemma {:induction false} ChainFront(dir: seq<SegmentFile>, log: seq<bytes>, end: nat)
    requires Chain(dir, log, end) && dir != []
    ensures Chain(dir[..|dir| - 1], log, dir[|dir| - 1].start)
    ensures Sealed(dir[|dir| - 1], log) && NextStart(dir[|dir| - 1]) == end
    decreases |dir|
  {
    hide Sealed;
    if |dir| > 1 {
      ChainFront(dir[1..], log, end);
      assert dir[1..][..|dir| - 2] == dir[..|dir| - 1][1..];
      if |dir| > 2 {
        assert dir[..|dir| - 1][1] == dir[1];
      }
    }
  }

  /** Only the part of the log that the files hold matters. */
  lemma {:induction false} HoldsAgain(f: SegmentFile, log: seq<bytes>, log': seq<bytes>, n: nat, h: nat)
    requires Holds(f, log, n) && f.start - 1 + n <= h <= |log| && h <= |log'| && log[..h] == log'[..h]
    ensures Holds(f, log', n)
    ensures TailOf(f, log', n) == TailOf(f, log, n)
  {
    hide Encoded, TornTail;
    var from, upto := f.start - 1, f.start - 1 + n;
    assert Stretch(log, from, upto) == log[..h][from..upto];
    assert Stretch(log', from, upto) == log'[..h][from..upto];
    assert forall i :: 0 <= i < upto ==> log'[i] == log'[..h][i] == log[..h][i];
  }

  lemma {:induction false} ChainAgain(dir: seq<SegmentFile>, log: seq<bytes>, log': seq<bytes>, end: nat, h: nat)
    requires Chain(dir, log, end) && end <= h + 1 && h <= |log| && h <= |log'| && log[..h] == log'[..h]
    ensures Chain(dir, log', end)
    decreases |dir|
  {
    hide Holds, FileRecords;
    if dir != [] {
      ChainBelow(dir, log, end);
      HoldsAgain(dir[0], log, log', |FileRecords(dir[0])|, h);
      ChainAgain(dir[1..], log, log', end, h);
    }
  }

  /** Putting a sealed segment in front of an accepted directory. */
  lemma {:induction false} ScanCons(dir: seq<SegmentFile>)
    requires |dir| > 1 && ScanOf(dir[1..]).Ok? && SegmentOf(dir[0], false).Ok?
    requires SegmentOf(dir[0], false).value.last + 1 == dir[1].start <= MAX_U64 && dir[0].start > 0
    ensures ScanOf(dir).Ok? && Horizon(ScanOf(dir).value) == Horizon(ScanOf(dir[1..]).value)
  {
    hide SegmentOf;
    ScannedStart(dir[1..]);
    SegmentFacts(dir[0], false);
    var infos := [SegmentOf(dir[0], false).value] + ScanOf(dir[1..]).value;
    assert Reports(dir) == Ok(infos);
    assert infos[1..] == ScanOf(dir[1..]).value;
  }

  lemma {:induction false} LogFromCons(dir: seq<SegmentFile>, log: seq<bytes>)
    requires dir != [] && LogFrom(dir[1..], log)
    requires forall i :: 0 <= i < |FileRecords(dir[0])| ==>
      0 < FileRecords(dir[0])[i].txID <= |log| && FileRecords(dir[0])[i].payload == log[FileRecords(dir[0])[i].txID - 1]
    ensures LogFrom(dir, log)
  {
    hide FileRecords;
    var head, rs := FileRecords(dir[0]), LogRecords(dir);
    forall i | 0 <= i < |rs| ensures 0 < rs[i].txID <= |log| && rs[i].payload == log[rs[i].txID - 1] {
      assert rs[i] == if i < |head| then head[i] else LogRecords(dir[1..])[i - |head|];
    }
  }

  lemma {:induction false} ListedCons(dir: seq<SegmentFile>)
    requires |dir| > 1 && Listed(dir[1..]) && 0 < dir[0].start < dir[1].start
    ensures Listed(dir)
  {
    forall i, j | 0 <= i < j < |dir| ensures dir[i].start < dir[j].start {
      assert dir[j] == dir[1..][j - 1] && dir[1] == dir[1..][0];
      if i > 0 {
        assert dir[i] == dir[1..][i - 1];
      }
    }
    forall i | 0 <= i < |dir| ensures 0 < dir[i].start <= MAX_U64 {
      if i > 0 {
        assert dir[i] == dir[1..][i - 1];
      }
    }
  }

  /** The recovery scan accepts such a directory, and reads the log up to the newest whole record. */
  lemma {:induction false} ChainScan(dir: seq<SegmentFile>, last: SegmentFile, log: seq<bytes>)
    requires Chain(dir, log, last.start) && Newest(last, log)
    ensures var all := dir + [last];
      && Listed(all)
      && ScanOf(all).Ok?
      && Horizon(ScanOf(all).value) == NextStart(last) - 1
      && LogFrom(all, log)
    decreases |dir|
  {
    hide SegmentOf, FileRecords, Newest, Sealed, ScanOf, LogFrom, Horizon, Listed, TailOf;
    var all := dir + [last];
    if dir == [] {
      assert all == [last];
      LoneScan(last, log);
    } else {
      ChainScan(dir[1..], last, log);
      assert all[1..] == dir[1..] + [last];
      SealedReport(dir[0], log);
      NewestBounds(last, log);
      ChainBelow(dir, log, last.start);
      assert all[1].start == NextStart(dir[0]) <= MAX_U64;
      ScanCons(all);
      LogFromCons(all, log);
      ListedCons(all);
    }
  }

  lemma {:induction false} LoneScan(last: SegmentFile, log: seq<bytes>)
    requires Newest(last, log)
    ensures Listed([last]) && ScanOf([last]).Ok? && Horizon(ScanOf([last]).value) == NextStart(last) - 1 &&
      LogFrom([last], log)
  {
    hide SegmentOf, FileRecords, Newest, TailOf;
    NewestReport(last, log);
    NewestBounds(last, log);
    assert [last][1..] == [];
    assert Reports([last][1..]) == Ok([]);
    assert LogRecords([last]) == FileRecords(last) + LogRecords([]);
  }

  lemma {:induction false} NewestBounds(f: SegmentFile, log: seq<bytes>)
    requires Newest(f, log)
    ensures 0 < f.start <= MAX_U64 && Storable(log, NextStart(f) - 1)
  {
    hide BodyScan;
    if f.data != [] {
      HeldBounds(f, log, |FileRecords(f)|);
    }
  }

  lemma {:induction false} SealedReport(f: SegmentFile, log: seq<bytes>)
    requires Sealed(f, log)
    ensures SegmentOf(f, false).Ok? && SegmentOf(f, false).value.start == f.start
    ensures SegmentOf(f, false).value.last == NextStart(f) - 1
    ensures 0 < f.start < NextStart(f) <= MAX_U64 + 1
    ensures forall i :: 0 <= i < |FileRecords(f)| ==>
      FileRecords(f)[i].txID == f.start + i && f.start + i <= |log| && FileRecords(f)[i].payload == log[f.start - 1 + i]
  {
    hide Holds, BodyScan, FileRecords;
    HeldReport(f, log, |FileRecords(f)|, false);
    HeldRecords(f, log, |FileRecords(f)|);
    HeldBounds(f, log, |FileRecords(f)|);
  }

  // ---- segments whose bytes need not all be durable ----------------------

  /** A segment file that nobody writes to any more. */
  datatype Segment = Segment(start: nat, file: File)

  function Shown(s: Segment): (r: SegmentFile) {
    SegmentFile(s.start, s.file.current)
  }

  /** What a crash that keeps p bytes of the file leaves. */
  function Left(s: Segment, p: nat): (r: SegmentFile)
    requires p <= |s.file.current|
  {
    SegmentFile(s.start, Survivor(s.file, p))
  }

  function AllShown(ss: seq<Segment>): (r: seq<SegmentFile>)
    ensures |r| == |ss| && forall i :: 0 <= i < |ss| ==> r[i] == Shown(ss[i])
  {
    seq(|ss|, i requires 0 <= i < |ss| => Shown(ss[i]))
  }

  predicate Cuts(ss: seq<Segment>, cuts: seq<nat>) {
    |cuts| == |ss| && forall i :: 0 <= i < |ss| ==> cuts[i] <= |ss[i].file.current|
  }

  function AllLeft(ss: seq<Segment>, cuts: seq<nat>): (r: seq<SegmentFile>)
    requires Cuts(ss, cuts)
    ensures |r| == |ss| && forall i :: 0 <= i < |ss| ==> r[i] == Left(ss[i], cuts[i])
  {
    seq(|ss|, i requires 0 <= i < |ss| => Left(ss[i], cuts[i]))
  }

  /** Files that are durable as they are. */
  function Solid(dir: seq<SegmentFile>): (r: seq<Segment>)
    ensures |r| == |dir| && forall i :: 0 <= i < |dir| ==> r[i] == Segment(dir[i].start, File(dir[i].data, dir[i].data))
  {
    seq(|dir|, i requires 0 <= i < |dir| => Segment(dir[i].start, File(dir[i].data, dir[i].data)))
  }

  /** The part of the file that no crash takes away. */
  function Bare(s: Segment): (r: SegmentFile) {
    SegmentFile(s.start, s.file.durable)
  }

  /** Every transaction the file shows is durable. */
  predicate Whole(s: Segment) {
    NextStart(Bare(s)) == NextStart(Shown(s))
  }

  predicate AllWhole(ss: seq<Segment>) {
    forall i :: 0 <= i < |ss| ==> Whole(ss[i])
  }

  /** Whatever a crash does to the file, it holds the transactions it shows. */
  ghost predicate Firm(s: Segment, log: seq<bytes>) {
    forall p :: 0 <= p <= |s.file.current| ==>
      Sealed(Left(s, p), log) && NextStart(Left(s, p)) == NextStart(Shown(s))
  }

  /** Whatever records the file has are those of the log from its start on. */
  ghost predicate Honest(f: SegmentFile, log: seq<bytes>) {
    |f.data| < SEGMENT_HEADER || Holds(f, log, |FileRecords(f)|)
  }

  /**
   * A segment left behind shows whole records of the log. It is durable as it is unless it ends in a
   * torn record; and either it is durable in all its records, or a crash can leave fewer.
   */
  ghost predicate SegmentOk(s: Segment, log: seq<bytes>) {
    && Sealed(Shown(s), log)
    && (AllZero(TailOf(Shown(s), log, |FileRecords(Shown(s))|)) ==> s.file.durable == s.file.current)
    && (if Whole(s) then Firm(s, log)
        else
          && NextStart(Bare(s)) < NextStart(Shown(s))
          && (s.file.durable == [] || |s.file.durable| >= SEGMENT_HEADER)
          && forall p :: 0 <= p <= |s.file.current| ==>
               Honest(Left(s, p), log) && NextStart(Left(s, p)) <= NextStart(Shown(s)))
  }

  ghost predicate StoredChain(ss: seq<Segment>, log: seq<bytes>, end: nat) {
    && Chain(AllShown(ss), log, end)
    && forall i :: 0 <= i < |ss| ==> SegmentOk(ss[i], log)
  }

  lemma {:induction false} SolidOk(f: SegmentFile, log: seq<bytes>)
    requires Sealed(f, log)
    ensures SegmentOk(Segment(f.start, File(f.data, f.data)), log)
    ensures Whole(Segment(f.start, File(f.data, f.data)))
  {
    hide Sealed, FileRecords;
    var s := Segment(f.start, File(f.data, f.data));
    forall p | 0 <= p <= |f.data| ensures Left(s, p) == f {
      assert Survivor(s.file, p) == f.data;
    }
  }

  lemma {:induction false} SolidChain(dir: seq<SegmentFile>, log: seq<bytes>, end: nat)
    requires Chain(dir, log, end)
    ensures AllShown(Solid(dir)) == dir && StoredChain(Solid(dir), log, end) && AllWhole(Solid(dir))
  {
    hide Chain, Sealed, SegmentOk, Whole;
    assert AllShown(Solid(dir)) == dir;
    ChainBelow(dir, log, end);
    forall i | 0 <= i < |dir| ensures SegmentOk(Solid(dir)[i], log) && Whole(Solid(dir)[i]) {
      SolidOk(dir[i], log);
    }
  }

  lemma {:induction false} StoredSuffix(ss: seq<Segment>, log: seq<bytes>, end: nat, k: nat)
    requires StoredChain(ss, log, end) && k <= |ss|
    ensures StoredChain(ss[k..], log, end)
  {
    hide Chain, SegmentOk;
    ChainSuffix(AllShown(ss), log, end, k);
    assert AllShown(ss[k..]) == AllShown(ss)[k..];
  }

  lemma {:induction false} StoredSnoc(ss: seq<Segment>, s: Segment, log: seq<bytes>)
    requires StoredChain(ss, log, s.start) && SegmentOk(s, log)
    ensures StoredChain(ss + [s], log, NextStart(Shown(s)))
  {
    hide Chain, Sealed, FileRecords, TailOf, Whole, Firm, NextStart;
    ChainSnoc(AllShown(ss), Shown(s), log);
    assert AllShown(ss + [s]) == AllShown(ss) + [Shown(s)];
  }

  lemma {:induction false} StoredFront(ss: seq<Segment>, log: seq<bytes>, end: nat)
    requires StoredChain(ss, log, end) && ss != []
    ensures StoredChain(ss[..|ss| - 1], log, ss[|ss| - 1].start)
    ensures SegmentOk(ss[|ss| - 1], log) && NextStart(Shown(ss[|ss| - 1])) == end
  {
    hide Chain, SegmentOk, FileRecords, Sealed;
    ChainFront(AllShown(ss), log, end);
    assert AllShown(ss[..|ss| - 1]) == AllShown(ss)[..|ss| - 1];
  }

  lemma {:induction false} SealedAgain(f: SegmentFile, log: seq<bytes>, log': seq<bytes>, h: nat)
    requires Sealed(f, log) && NextStart(f) - 1 <= h <= |log| && h <= |log'| && log[..h] == log'[..h]
    ensures Sealed(f, log')
    ensures TailOf(f, log', |FileRecords(f)|) == TailOf(f, log, |FileRecords(f)|)
  {
    hide Holds, FileRecords, TailOf;
    HoldsAgain(f, log, log', |FileRecords(f)|, h);
  }

  lemma {:induction false} SegmentAgain(s: Segment, log: seq<bytes>, log': seq<bytes>, h: nat)
    requires SegmentOk(s, log) && NextStart(Shown(s)) - 1 <= h <= |log| && h <= |log'| && log[..h] == log'[..h]
    ensures SegmentOk(s, log')
  {
    hide Sealed, FileRecords, TailOf, Shown, Left, Whole;
    SealedAgain(Shown(s), log, log', h);
    if Whole(s) {
      forall p | 0 <= p <= |s.file.current| ensures Sealed(Left(s, p), log') {
        SealedAgain(Left(s, p), log, log', h);
      }
    } else {
      forall p | 0 <= p <= |s.file.current| ensures Honest(Left(s, p), log') {
        HonestAgain(Left(s, p), log, log', h);
      }
    }
  }

  lemma {:induction false} HonestAgain(f: SegmentFile, log: seq<bytes>, log': seq<bytes>, h: nat)
    requires Honest(f, log) && NextStart(f) - 1 <= h <= |log| && h <= |log'| && log[..h] == log'[..h]
    ensures Honest(f, log')
  {
    hide Holds, FileRecords;
    if |f.data| >= SEGMENT_HEADER {
      HoldsAgain(f, log, log', |FileRecords(f)|, h);
    }
  }

  lemma {:induction false} StoredAgain(ss: seq<Segment>, log: seq<bytes>, log': seq<bytes>, end: nat, h: nat)
    requires StoredChain(ss, log, end) && end <= h + 1 && h <= |log| && h <= |log'| && log[..h] == log'[..h]
    ensures StoredChain(ss, log', end)
  {
    hide Chain, SegmentOk, FileRecords, Sealed;
    ChainBelow(AllShown(ss), log, end);
    ChainAgain(AllShown(ss), log, log', end, h);
    forall i | 0 <= i < |ss| ensures SegmentOk(ss[i], log') {
      assert AllShown(ss)[i] == Shown(ss[i]);
      SegmentAgain(ss[i], log, log', h);
    }
  }

  /**
   * Whatever a crash does to the files of such a chain, if all are durable they are a chain of the same
   * transactions.
   */
  lemma {:induction false} LeftChain(ss: seq<Segment>, cuts: seq<nat>, log: seq<bytes>, end: nat)
    requires StoredChain(ss, log, end) && AllWhole(ss) && Cuts(ss, cuts)
    ensures Chain(AllLeft(ss, cuts), log, end)
    decreases |ss|
  {
    hide Sealed, FileRecords, NextStart, Shown, Left, TailOf, Whole;
    if ss != [] {
      StoredSuffix(ss, log, end, 1);
      LeftChain(ss[1..], cuts[1..], log, end);
      assert AllLeft(ss, cuts)[1..] == AllLeft(ss[1..], cuts[1..]);
      assert Whole(ss[0]) && SegmentOk(ss[0], log);
      if |ss| > 1 {
        SameNames(ss[1], cuts[1]);
      }
    }
  }

  lemma {:induction false} SameNames(s: Segment, p: nat)
    requires p <= |s.file.current|
    ensures Left(s, p).start == Shown(s).start == s.start
  {
  }
}
