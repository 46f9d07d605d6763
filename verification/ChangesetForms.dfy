/** Which accepted changeset bytes the encoder would write again. */
module ChangesetForms {
  import opened Bytes
  import opened Bsatn
  import opened Rows
  import opened Changesets

  /** Rows of such a table are written in one way only. */
  predicate Plain(cols: seq<Column>) {
    forall i :: 0 <= i < |cols| ==> cols[i].kind != JSON
  }

  /** The writer's row limit admits what the reader's did. */
  predicate Admits(limits: Limits, maxRow: u32) {
    limits.maxRow == 0 || 0 < maxRow <= limits.maxRow
  }

  // ---- rows ---------------------------------------------------------------

  /** The bytes of one decoded row are what the encoder writes for it. */
  lemma {:induction false} OneTaken(s: bytes, cols: seq<Column>, maxRow: u32)
    requires Plain(cols) && DecodeOne(s, cols, maxRow).Ok?
    ensures var Taken(row, used) := DecodeOne(s, cols, maxRow).value;
      && 4 <= used <= |s| && used - 4 <= MAX_U32 && (maxRow > 0 ==> used - 4 <= maxRow)
      && RowTyped(row) && EncodeRow(row, Some(cols)) == Ok(s[4..used]) && RowSize(row, Some(cols)) == Ok(used - 4)
      && s[..4] == ToLE(used - 4, 4)
  {
    hide DecodeRow, EncodeRow, RowSize, ToLE, FromLE, RowTyped;
    var n := FromLE(s[..4]);
    ToFromLE(s[..4]);
    Widths();
    RowReencodes(s[4..4 + n], cols);
    RowEncodes(DecodeRow(s[4..4 + n], cols).value, Some(cols));
  }

  lemma {:induction false} RowListTaken(s: bytes, count: nat, cols: seq<Column>, maxRow: u32, limits: Limits)
    requires Plain(cols) && Admits(limits, maxRow) && DecodeRowList(s, count, cols, maxRow).Ok?
    ensures var Taken(rows, used) := DecodeRowList(s, count, cols, maxRow).value;
      && |rows| == count && used <= |s| && RowsTyped(rows)
      && EncodeRowList(rows, Some(cols), limits.maxRow) == Ok(s[..used])
      && RowListSize(rows, Some(cols), limits.maxRow) == Ok(used)
    decreases count
  {
    hide DecodeOne, EncodeRow, RowSize, ToLE, RowTyped, Plain;
    if count > 0 {
      var first := DecodeOne(s, cols, maxRow).value;
      OneTaken(s, cols, maxRow);
      RowListTaken(s[first.used..], count - 1, cols, maxRow, limits);
      var rest := DecodeRowList(s[first.used..], count - 1, cols, maxRow).value;
      var rows := [first.value] + rest.value;
      assert rows[1..] == rest.value;
      assert s[..4] + s[4..first.used] + s[first.used..][..rest.used] == s[..first.used + rest.used];
    }
  }

  /** The same for a counted list of rows. */
  lemma {:induction false} RowsTaken(s: bytes, cols: seq<Column>, maxRow: u32, limits: Limits)
    requires Plain(cols) && Admits(limits, maxRow) && DecodeRows(s, cols, maxRow).Ok?
    ensures var Taken(rows, used) := DecodeRows(s, cols, maxRow).value;
      && used <= |s| && RowsTyped(rows)
      && EncodeRows(rows, Some(cols), limits.maxRow) == Ok(s[..used])
      && RowsSize(rows, Some(cols), limits.maxRow) == Ok(used)
  {
    hide DecodeRowList, EncodeRowList, RowListSize, ToLE, FromLE, RowsTyped, Plain;
    var count := FromLE(s[..4]);
    ToFromLE(s[..4]);
    Widths();
    RowListTaken(s[4..], count, cols, maxRow, limits);
    var rows := DecodeRowList(s[4..], count, cols, maxRow).value;
    assert s[..4] + s[4..][..rows.used] == s[..4 + rows.used];
  }

  // ---- tables -------------------------------------------------------------

  /** The table IDs in the order in which the decoder meets them. */
  function TableIDs(s: bytes, count: nat, reg: Registry, maxRow: u32): (r: seq<u32>)
    decreases count
  {
    if count == 0 || |s| < 4 || TableID(s) !in reg then []
    else
      var cols := reg[TableID(s)];
      match DecodeRows(s[4..], cols, maxRow)
      case Err(_) => []
      case Ok(ins) =>
        match DecodeRows(s[4 + ins.used..], cols, maxRow)
        case Err(_) => []
        case Ok(del) => [TableID(s)] + TableIDs(s[4 + ins.used + del.used..], count - 1, reg, maxRow)
  }

  /** Tables once read are kept as read, and the others are those of the IDs met. */
  lemma {:induction false} TablesKept(s: bytes, count: nat, reg: Registry, maxRow: u32, seen: Decoding)
    requires DecodeTables(s, count, reg, maxRow, seen).Ok?
    ensures var d, ids := DecodeTables(s, count, reg, maxRow, seen).value, TableIDs(s, count, reg, maxRow);
      && |ids| == count
      && (forall id :: id in seen ==> id in d && d[id] == seen[id])
      && (forall id :: id in d <==> id in seen || id in ids)
    decreases count
  {
    hide DecodeRows;
    if count > 0 {
      var id := TableID(s);
      var ins := DecodeRows(s[4..], reg[id], maxRow).value;
      var del := DecodeRows(s[4 + ins.used..], reg[id], maxRow).value;
      TablesKept(s[4 + ins.used + del.used..], count - 1, reg, maxRow,
        seen[id := TableChange(Some(reg[id]), ins.value, del.value)]);
    }
  }

  /** What was decoded, as the changeset it is. */
  function AsChangeset(d: Decoding): (r: Changeset) {
    map id | id in d :: Some(d[id])
  }

  ghost predicate AllPlain(d: Decoding, reg: Registry) {
    forall id :: id in d && id in reg ==> Plain(reg[id])
  }

  lemma {:induction false} TablesTyped(s: bytes, count: nat, reg: Registry, maxRow: u32, seen: Decoding)
    requires DecodeTables(s, count, reg, maxRow, seen).Ok? && ChangesTyped(AsChangeset(seen))
    requires AllPlain(DecodeTables(s, count, reg, maxRow, seen).value, reg)
    ensures ChangesTyped(AsChangeset(DecodeTables(s, count, reg, maxRow, seen).value))
    decreases count
  {
    hide DecodeRows, DecodeTables, RowsTyped, AllPlain, EncodeRows, RowsSize, ToLE, ChangesTyped, AsChangeset, TableIDs;
    if count == 0 {
      NoTables(s, reg, maxRow, seen);
    } else {
      var id, rest, more := FirstTable(s, count, reg, maxRow, seen, Limits(0, 0));
      OneTyped(seen, id, DecodeTables(s, count, reg, maxRow, seen).value[id]);
      TablesTyped(rest, count - 1, reg, maxRow, more);
    }
  }

  lemma {:induction false} NoTables(s: bytes, reg: Registry, maxRow: u32, seen: Decoding)
    requires DecodeTables(s, 0, reg, maxRow, seen).Ok?
    ensures DecodeTables(s, 0, reg, maxRow, seen) == Ok(seen)
  {
  }

  lemma {:induction false} OneTyped(seen: Decoding, id: u32, t: TableChange)
    requires ChangesTyped(AsChangeset(seen)) && RowsTyped(t.inserts) && RowsTyped(t.deletes)
    ensures ChangesTyped(AsChangeset(seen[id := t]))
  {
    hide RowsTyped;
    var more := seen[id := t];
    forall k | k in more ensures RowsTyped(more[k].inserts) && RowsTyped(more[k].deletes) {
      if k != id {
        assert AsChangeset(seen)[k] == Some(seen[k]);
      }
    }
  }

  /** The encoder writes this ID and this table as the bytes of s that come before the rest. */
  predicate WrittenAs(t: TableChange, limits: Limits, id: u32, s: bytes, rest: bytes) {
    && RowsTyped(t.inserts) && RowsTyped(t.deletes)
    && var ins, del := EncodeRows(t.inserts, t.schema, limits.maxRow), EncodeRows(t.deletes, t.schema, limits.maxRow);
       && ins.Ok? && del.Ok?
       && s == ToLE(id, 4) + ins.value + del.value + rest
       && RowsSize(t.inserts, t.schema, limits.maxRow) == Ok(|ins.value|)
       && RowsSize(t.deletes, t.schema, limits.maxRow) == Ok(|del.value|)
  }

  /** The first table read: its bytes, its place in the result, and how the encoder writes it. */
  lemma {:induction false} FirstTable(s: bytes, count: nat, reg: Registry, maxRow: u32, seen: Decoding, limits: Limits)
    returns (id: u32, rest: bytes, more: Decoding)
    requires count > 0 && DecodeTables(s, count, reg, maxRow, seen).Ok? && Admits(limits, maxRow)
    requires AllPlain(DecodeTables(s, count, reg, maxRow, seen).value, reg)
    ensures DecodeTables(rest, count - 1, reg, maxRow, more) == DecodeTables(s, count, reg, maxRow, seen)
    ensures TableIDs(s, count, reg, maxRow) == [id] + TableIDs(rest, count - 1, reg, maxRow)
    ensures var d := DecodeTables(s, count, reg, maxRow, seen).value;
      id in d && more == seen[id := d[id]] && WrittenAs(d[id], limits, id, s, rest)
  {
    hide DecodeRows, EncodeRows, RowsSize, RowsTyped, Plain, ToLE, FromLE;
    id := TableID(s);
    TableBytes(s);
    var ins := DecodeRows(s[4..], reg[id], maxRow).value;
    var del := DecodeRows(s[4 + ins.used..], reg[id], maxRow).value;
    rest, more := s[4 + ins.used + del.used..], seen[id := TableChange(Some(reg[id]), ins.value, del.value)];
    TablesKept(rest, count - 1, reg, maxRow, more);
    RowsTaken(s[4..], reg[id], maxRow, limits);
    RowsTaken(s[4 + ins.used..], reg[id], maxRow, limits);
    Pieces(s, ins.used, del.used);
  }

  lemma {:induction false} TableBytes(s: bytes)
    requires |s| >= 4
    ensures s[..4] == ToLE(TableID(s), 4)
  {
    ToFromLE(s[..4]);
  }

  lemma {:induction false} Pieces(s: bytes, a: nat, b: nat)
    requires 4 + a + b <= |s|
    ensures s == s[..4] + s[4..][..a] + s[4 + a..][..b] + s[4 + a + b..]
  {
  }

  /** In the order in which they were read, the encoder writes the tables back as they were. */
  lemma {:induction false} TablesTaken(s: bytes, count: nat, reg: Registry, maxRow: u32, seen: Decoding, out: bytes,
      limits: Limits)
    requires DecodeTables(s, count, reg, maxRow, seen).Ok? && Admits(limits, maxRow)
    requires AllPlain(DecodeTables(s, count, reg, maxRow, seen).value, reg)
    requires ChangesTyped(AsChangeset(DecodeTables(s, count, reg, maxRow, seen).value))
    requires RecordLengthError(|out| + |s|, limits.maxRecord).None?
    ensures var cs := AsChangeset(DecodeTables(s, count, reg, maxRow, seen).value);
      var ids := TableIDs(s, count, reg, maxRow);
      && AllLive(cs, ids)
      && EncodeTables(cs, ids, out, limits) == Ok(out + s)
      && TablesSize(cs, ids, |out|, limits) == Ok(|out| + |s|)
    decreases count
  {
    hide DecodeRows, EncodeRows, RowsSize, RowsTyped, Plain, ToLE, AllPlain, Admits, ChangesTyped, RecordLengthError;
    var d, ids := DecodeTables(s, count, reg, maxRow, seen).value, TableIDs(s, count, reg, maxRow);
    if count == 0 {
      assert out + s == out;
    } else {
      var id, rest, more := FirstTable(s, count, reg, maxRow, seen, limits);
      var ins := EncodeRows(d[id].inserts, d[id].schema, limits.maxRow).value;
      var del := EncodeRows(d[id].deletes, d[id].schema, limits.maxRow).value;
      var next := out + ToLE(id, 4) + ins + del;
      assert next + rest == out + s;
      TablesTaken(rest, count - 1, reg, maxRow, more, next, limits);
      assert ids[1..] == TableIDs(rest, count - 1, reg, maxRow);
      TableWritten(AsChangeset(d), ids, out, limits, s, rest);
    }
  }

  lemma {:induction false} TableWritten(cs: Changeset, ids: seq<u32>, out: bytes, limits: Limits, s: bytes, rest: bytes)
    requires ChangesTyped(cs) && AllLive(cs, ids) && ids != []
    requires WrittenAs(cs[ids[0]].value, limits, ids[0], s, rest)
    requires RecordLengthError(|out| + |s|, limits.maxRecord).None?
    ensures var t := cs[ids[0]].value;
      var next := out + ToLE(ids[0], 4) + EncodeRows(t.inserts, t.schema, limits.maxRow).value
                      + EncodeRows(t.deletes, t.schema, limits.maxRow).value;
      && EncodeTables(cs, ids, out, limits) == EncodeTables(cs, ids[1..], next, limits)
      && TablesSize(cs, ids, |out|, limits) == TablesSize(cs, ids[1..], |next|, limits)
  {
    hide EncodeRows, RowsSize, RowsTyped, ToLE;
  }

  /** And if the encoder writes them back as they were, it does so in that order. */
  lemma {:induction false} OrderTaken(s: bytes, count: nat, reg: Registry, maxRow: u32, seen: Decoding, out: bytes,
      limits: Limits, a: seq<u32>)
    requires DecodeTables(s, count, reg, maxRow, seen).Ok? && Admits(limits, maxRow) && |a| == count
    requires AllPlain(DecodeTables(s, count, reg, maxRow, seen).value, reg)
    requires ChangesTyped(AsChangeset(DecodeTables(s, count, reg, maxRow, seen).value))
    requires AllLive(AsChangeset(DecodeTables(s, count, reg, maxRow, seen).value), a)
    requires EncodeTables(AsChangeset(DecodeTables(s, count, reg, maxRow, seen).value), a, out, limits) == Ok(out + s)
    ensures a == TableIDs(s, count, reg, maxRow)
    decreases count
  {
    hide DecodeRows, EncodeRows, RowsTyped, Plain, ToLE, FromLE, AllPlain, Admits, EncodeTables, DecodeTables;
    if count > 0 {
      var d := DecodeTables(s, count, reg, maxRow, seen).value;
      var cs := AsChangeset(d);
      var id, rest, more := FirstTable(s, count, reg, maxRow, seen, limits);
      EncodeTablesStep(cs, a, out, limits);
      var t := cs[a[0]].value;
      var ins := EncodeRows(t.inserts, t.schema, limits.maxRow).value;
      var del := EncodeRows(t.deletes, t.schema, limits.maxRow).value;
      var next := out + ToLE(a[0], 4) + ins + del;
      EncodeGrows(cs, a[1..], next, limits);
      SameID(s, out, a[0], id, next);
      assert next == out + ToLE(id, 4) + ins + del;
      assert next + rest == out + s;
      OrderTaken(rest, count - 1, reg, maxRow, more, next, limits, a[1..]);
      assert a == [a[0]] + a[1..];
    }
  }

  lemma {:induction false} EncodeGrows(cs: Changeset, ids: seq<u32>, out: bytes, limits: Limits)
    requires ChangesTyped(cs) && AllLive(cs, ids) && EncodeTables(cs, ids, out, limits).Ok?
    ensures out <= EncodeTables(cs, ids, out, limits).value
    decreases |ids|
  {
    hide EncodeRows, RowsTyped, ToLE;
    if ids != [] {
      EncodeTablesStep(cs, ids, out, limits);
      var t := cs[ids[0]].value;
      EncodeGrows(cs, ids[1..], out + ToLE(ids[0], 4) + EncodeRows(t.inserts, t.schema, limits.maxRow).value
                                    + EncodeRows(t.deletes, t.schema, limits.maxRow).value, limits);
    }
  }

  /** Both write the same four bytes first. */
  lemma {:induction false} SameID(s: bytes, out: bytes, a: u32, b: u32, next: bytes)
    requires out + ToLE(a, 4) <= next <= out + s && ToLE(b, 4) <= s
    ensures a == b
  {
    hide ToLE, FromLE;
    Widths();
    FromToLE(a, 4);
    FromToLE(b, 4);
    assert (out + s)[|out|..|out| + 4] == s[..4] == ToLE(b, 4);
    assert (out + s)[..|next|] == next && next[|out|..|out| + 4] == ToLE(a, 4);
    assert (out + s)[|out|..|out| + 4] == (out + s)[..|next|][|out|..|out| + 4];
  }

  // ---- whole changesets ---------------------------------------------------

  /** Two ascending sequences of the same elements are the same. */
  lemma {:induction false} AscendingUnique(a: seq<u32>, b: seq<u32>)
    requires Ascending(a) && Ascending(b) && forall x :: x in a <==> x in b
    ensures a == b
    decreases |a|
  {
    assert (a != [] ==> a[0] in b) && (b != [] ==> b[0] in a);
    if a != [] {
      assert a[0] == b[0];
      forall x ensures x in a[1..] <==> x in b[1..] {
        if x in a[1..] {
          assert x in a && x > a[0];
        }
        if x in b[1..] {
          assert x in b && x > b[0];
        }
      }
      AscendingUnique(a[1..], b[1..]);
    }
  }

  function IDsOf(data: bytes, reg: Registry, maxRow: u32): (r: seq<u32>)
    requires |data| >= 5
  {
    TableIDs(data[5..], FromLE(data[1..5]), reg, maxRow)
  }

  /**
   * Bytes that the decoder accepts, of tables without JSON columns and within the writer's limits, are what the
   * encoder writes for the changeset they decode to if and only if their table IDs ascend.
   */
  lemma {:induction false} ChangesetReencodes(data: bytes, reg: Registry, maxRow: u32, limits: Limits)
    requires Decode(data, reg, maxRow).Ok? && AllPlain(Decode(data, reg, maxRow).value, reg)
    requires Admits(limits, maxRow) && RecordLengthError(|data|, limits.maxRecord).None?
    ensures ChangesTyped(AsChangeset(Decode(data, reg, maxRow).value))
    ensures Encode(AsChangeset(Decode(data, reg, maxRow).value), limits) == Ok(data)
       <==> Ascending(IDsOf(data, reg, maxRow))
  {
    hide DecodeTables, EncodeTables, TableIDs, TablesSize, Plain, Admits, AllPlain, ToLE, FromLE, Sorted, Ascending,
      RecordLengthError, RowsTyped;
    var d, count := Decode(data, reg, maxRow).value, FromLE(data[1..5]);
    var cs, ids, s := AsChangeset(d), IDsOf(data, reg, maxRow), data[5..];
    TablesTyped(s, count, reg, maxRow, map[]);
    TablesKept(s, count, reg, maxRow, map[]);
    HeaderBytes(data);
    var live := Sorted(Live(cs));
    SortedAscends(Live(cs));
    LiveIDs(d, ids);
    if Ascending(ids) {
      AscendingUnique(live, ids);
      TablesTaken(s, count, reg, maxRow, map[], data[..5], limits);
      assert data[..5] + s == data;
    }
    if Encode(cs, limits) == Ok(data) {
      EncodeGrows(cs, live, [CHANGESET_VERSION] + ToLE(|live|, 4), limits);
      SameCount(data, |live|, count);
      assert data[..5] + s == data;
      OrderTaken(s, count, reg, maxRow, map[], data[..5], limits, live);
    }
  }

  lemma {:induction false} LiveIDs(d: Decoding, ids: seq<u32>)
    requires forall id :: id in d <==> id in ids
    ensures forall x :: x in Sorted(Live(AsChangeset(d))) <==> x in ids
  {
    SortedAscends(Live(AsChangeset(d)));
    hide Sorted;
    assert forall x :: x in Live(AsChangeset(d)) <==> x in d;
  }

  lemma {:induction false} HeaderBytes(data: bytes)
    requires |data| >= 5 && data[0] == CHANGESET_VERSION
    ensures FromLE(data[1..5]) <= MAX_U32 && data[..5] == [CHANGESET_VERSION] + ToLE(FromLE(data[1..5]), 4)
  {
    hide ToLE, FromLE;
    ToFromLE(data[1..5]);
    Widths();
    assert data[..5] == [data[0]] + data[1..5];
  }

  lemma {:induction false} SameCount(data: bytes, n: nat, count: nat)
    requires n <= MAX_U32 && |data| >= 5 && count == FromLE(data[1..5])
    requires [CHANGESET_VERSION] + ToLE(n, 4) <= data
    ensures n == count
  {
    hide ToLE, FromLE;
    Widths();
    FromToLE(n, 4);
    assert data[..5] == [CHANGESET_VERSION] + ToLE(n, 4);
    assert data[1..5] == data[..5][1..] == ToLE(n, 4);
  }
}
