/** The changeset codec: what the durability worker writes as a record's payload. */
module Changesets {
  import opened Bytes
  import opened Bsatn
  import opened Rows

  const CHANGESET_VERSION: byte := 1

  /** The rows one transaction inserts into and deletes from one table. */
  datatype TableChange = TableChange(schema: Option<seq<Column>>, inserts: seq<Row>, deletes: seq<Row>)

  /** Changes by table ID; a table may be present without a change record. */
  type Changeset = map<u32, Option<TableChange>>

  datatype ChangesetError =
    | CountOverflow
    | RowFault(error: CodecError)
    | RowOverflow
    | RowTooLarge
    | RecordOverflow
    | RecordTooLarge
    | TooShort
    | WrongVersion(version: byte)
    | CountExceedsRest
    | TruncatedChangeset
    | DuplicateTable(id: u32)
    | UnknownTable(id: u32)
    | TrailingBytes

  /** Writer limits; zero means no limit beyond the format's own. */
  datatype Limits = Limits(maxRow: u32, maxRecord: u32)

  function RowLengthError(n: nat, maxRow: u32): (r: Option<ChangesetError>) {
    if n > MAX_U32 then Some(RowOverflow)
    else if maxRow > 0 && n > maxRow then Some(RowTooLarge)
    else None
  }

  function RecordLengthError(n: nat, maxRecord: u32): (r: Option<ChangesetError>) {
    if n > MAX_U32 then Some(RecordOverflow)
    else if maxRecord > 0 && n > maxRecord then Some(RecordTooLarge)
    else None
  }

  // ---- table order --------------------------------------------------------

  function MinOf(ids: set<u32>): (m: u32)
    requires ids != {}
    ensures m in ids && forall x :: x in ids ==> m <= x
  {
    HasMin(ids);
    var m :| m in ids && forall x :: x in ids ==> m <= x;
    m
  }

  lemma {:induction false} HasMin(ids: set<u32>)
    requires ids != {}
    ensures exists m :: m in ids && forall x :: x in ids ==> m <= x
  {
    var a :| a in ids;
    MinBelow(ids, a);
  }

  lemma {:induction false} MinBelow(ids: set<u32>, a: u32)
    requires a in ids
    ensures exists m :: m in ids && forall x :: x in ids ==> m <= x
    decreases a
  {
    if x :| x in ids && x < a {
      MinBelow(ids, x);
    }
  }

  /** Table IDs in increasing order. */
  function Sorted(ids: set<u32>): (r: seq<u32>)
    ensures |r| == |ids|
    ensures forall i :: 0 <= i < |r| ==> r[i] in ids
    decreases |ids|
  {
    if ids == {} then [] else [MinOf(ids)] + Sorted(ids - {MinOf(ids)})
  }

  predicate Ascending(s: seq<u32>) {
    forall i, j :: 0 <= i < j < |s| ==> s[i] < s[j]
  }

  lemma {:induction false} SortedAscends(ids: set<u32>)
    ensures Ascending(Sorted(ids))
    ensures forall x :: x in ids ==> x in Sorted(ids)
    decreases |ids|
  {
    hide MinOf, Ascending;
    if ids == {} {
      assert Ascending([]) by { NoneAscends(); }
    } else {
      var m := MinOf(ids);
      SortedAscends(ids - {m});
      ConsAscends(m, Sorted(ids - {m}));
      forall x | x in ids ensures x in Sorted(ids) {
        assert x == m || x in ids - {m};
      }
    }
  }

  lemma {:induction false} NoneAscends()
    ensures Ascending([])
  {
  }

  lemma {:induction false} ConsAscends(m: u32, rest: seq<u32>)
    requires Ascending(rest) && forall i :: 0 <= i < |rest| ==> m < rest[i]
    ensures Ascending([m] + rest)
  {
  }

  function Live(cs: Changeset): (r: set<u32>) {
    set id | id in cs && cs[id].Some?
  }

  predicate AllLive(cs: Changeset, ids: seq<u32>) {
    forall i :: 0 <= i < |ids| ==> ids[i] in cs && cs[ids[i]].Some?
  }

  // ---- the size check -----------------------------------------------------

  function RowListSize(rows: seq<Row>, schema: Option<seq<Column>>, maxRow: u32): (r: Result<nat, ChangesetError>) {
    if rows == [] then Ok(0)
    else
      match RowSize(rows[0], schema)
      case Err(e) => Err(RowFault(e))
      case Ok(n) =>
        if RowLengthError(n, maxRow).Some? then Err(RowLengthError(n, maxRow).value)
        else
          match RowListSize(rows[1..], schema, maxRow)
          case Err(e) => Err(e)
          case Ok(rest) => Ok(4 + n + rest)
  }

  /** encodedChangesetRowsSize. */
  function RowsSize(rows: seq<Row>, schema: Option<seq<Column>>, maxRow: u32): (r: Result<nat, ChangesetError>) {
    if |rows| > MAX_U32 then Err(CountOverflow)
    else
      match RowListSize(rows, schema, maxRow)
      case Err(e) => Err(e)
      case Ok(n) => Ok(4 + n)
  }

  function TablesSize(cs: Changeset, ids: seq<u32>, size: nat, limits: Limits): (r: Result<nat, ChangesetError>)
    requires AllLive(cs, ids)
    decreases |ids|
  {
    if ids == [] then Ok(size)
    else
      var t := cs[ids[0]].value;
      match RowsSize(t.inserts, t.schema, limits.maxRow)
      case Err(e) => Err(e)
      case Ok(ins) =>
        match RowsSize(t.deletes, t.schema, limits.maxRow)
        case Err(e) => Err(e)
        case Ok(del) =>
          var size' := size + 4 + ins + del;
          if RecordLengthError(size', limits.maxRecord).Some? then Err(RecordLengthError(size', limits.maxRecord).value)
          else TablesSize(cs, ids[1..], size', limits)
  }

  /** encodedChangesetSizeWithLimits: what ValidateChangeset checks before a commit. */
  function SizeOf(cs: Changeset, limits: Limits): (r: Result<nat, ChangesetError>) {
    var ids := Sorted(Live(cs));
    if |ids| > MAX_U32 then Err(CountOverflow) else TablesSize(cs, ids, 5, limits)
  }

  /** A row has a size and it is within the limit. */
  predicate RowWithin(row: Row, schema: Option<seq<Column>>, maxRow: u32) {
    && RowSize(row, schema).Ok? && RowSize(row, schema).value <= MAX_U32
    && (maxRow > 0 ==> RowSize(row, schema).value <= maxRow)
  }

  predicate RowsWithin(rows: seq<Row>, schema: Option<seq<Column>>, maxRow: u32) {
    |rows| <= MAX_U32 && forall i :: 0 <= i < |rows| ==> RowWithin(rows[i], schema, maxRow)
  }

  lemma {:induction false} RowListAccepts(rows: seq<Row>, schema: Option<seq<Column>>, maxRow: u32)
    ensures RowListSize(rows, schema, maxRow).Ok? <==>
      forall i :: 0 <= i < |rows| ==> RowWithin(rows[i], schema, maxRow)
    decreases |rows|
  {
    hide RowSize;
    if rows != [] {
      RowListAccepts(rows[1..], schema, maxRow);
      assert forall i :: 0 < i < |rows| ==> rows[i] == rows[1..][i - 1];
    }
  }

  /** The bytes the listed tables take: their IDs and their two lists of rows. */
  function TotalSize(cs: Changeset, ids: seq<u32>, maxRow: u32): (r: nat)
    requires AllLive(cs, ids) && forall i :: 0 <= i < |ids| ==> TableWithin(cs[ids[i]].value, maxRow)
    decreases |ids|
  {
    if ids == [] then 0
    else
      var t := cs[ids[0]].value;
      assert TableWithin(t, maxRow);
      RowListAccepts(t.inserts, t.schema, maxRow);
      RowListAccepts(t.deletes, t.schema, maxRow);
      4 + RowsSize(t.inserts, t.schema, maxRow).value + RowsSize(t.deletes, t.schema, maxRow).value
      + TotalSize(cs, ids[1..], maxRow)
  }

  predicate TableWithin(t: TableChange, maxRow: u32) {
    RowsWithin(t.inserts, t.schema, maxRow) && RowsWithin(t.deletes, t.schema, maxRow)
  }

  lemma {:induction false} TablesAccept(cs: Changeset, ids: seq<u32>, size: nat, limits: Limits)
    requires AllLive(cs, ids)
    ensures TablesSize(cs, ids, size, limits).Ok? <==>
      && (forall i :: 0 <= i < |ids| ==> TableWithin(cs[ids[i]].value, limits.maxRow))
      && (ids != [] ==> RecordLengthError(size + TotalSize(cs, ids, limits.maxRow), limits.maxRecord).None?)
    ensures TablesSize(cs, ids, size, limits).Ok? ==>
      TablesSize(cs, ids, size, limits).value == size + TotalSize(cs, ids, limits.maxRow)
    decreases |ids|
  {
    hide RowListSize, RowWithin;
    if ids != [] {
      var t := cs[ids[0]].value;
      RowListAccepts(t.inserts, t.schema, limits.maxRow);
      RowListAccepts(t.deletes, t.schema, limits.maxRow);
      assert forall i :: 0 < i < |ids| ==> ids[i] == ids[1..][i - 1];
      if TableWithin(t, limits.maxRow) {
        var ins := RowsSize(t.inserts, t.schema, limits.maxRow).value;
        var del := RowsSize(t.deletes, t.schema, limits.maxRow).value;
        TablesAccept(cs, ids[1..], size + 4 + ins + del, limits);
      }
    }
  }

  /**
   * The running size check accepts a changeset if and only if every row and every count is within
   * its limit and the whole payload is within the record limit, which an empty changeset need not be.
   */
  lemma {:induction false} SizeAccepts(cs: Changeset, limits: Limits)
    ensures AllLive(cs, Sorted(Live(cs)))
    ensures var ids := Sorted(Live(cs));
      SizeOf(cs, limits).Ok? <==>
        && |ids| <= MAX_U32
        && (forall i :: 0 <= i < |ids| ==> TableWithin(cs[ids[i]].value, limits.maxRow))
        && (ids != [] ==> RecordLengthError(5 + TotalSize(cs, ids, limits.maxRow), limits.maxRecord).None?)
  {
    hide TablesSize, TableWithin, TotalSize, Sorted;
    TablesAccept(cs, Sorted(Live(cs)), 5, limits);
  }

  // ---- encoding -----------------------------------------------------------

  predicate RowsTyped(rows: seq<Row>) {
    forall i :: 0 <= i < |rows| ==> RowTyped(rows[i])
  }

  predicate ChangesTyped(cs: Changeset) {
    forall id :: id in cs && cs[id].Some? ==> RowsTyped(cs[id].value.inserts) && RowsTyped(cs[id].value.deletes)
  }

  function EncodeRowList(rows: seq<Row>, schema: Option<seq<Column>>, maxRow: u32): (r: Result<bytes, ChangesetError>)
    requires RowsTyped(rows)
  {
    if rows == [] then Ok([])
    else
      match RowSize(rows[0], schema)
      case Err(e) => Err(RowFault(e))
      case Ok(n) =>
        if RowLengthError(n, maxRow).Some? then Err(RowLengthError(n, maxRow).value)
        else
          match EncodeRow(rows[0], schema)
          case Err(e) => Err(RowFault(e))
          case Ok(row) =>
            match EncodeRowList(rows[1..], schema, maxRow)
            case Err(e) => Err(e)
            case Ok(rest) => Ok(ToLE(n, 4) + row + rest)
  }

  /** appendChangesetRows onto an empty buffer. */
  function EncodeRows(rows: seq<Row>, schema: Option<seq<Column>>, maxRow: u32): (r: Result<bytes, ChangesetError>)
    requires RowsTyped(rows)
  {
    if |rows| > MAX_U32 then Err(CountOverflow)
    else
      match EncodeRowList(rows, schema, maxRow)
      case Err(e) => Err(e)
      case Ok(b) => Ok(ToLE(|rows|, 4) + b)
  }

  /** The table loop of the encoder; the record length is checked after each list of rows. */
  function EncodeTables(cs: Changeset, ids: seq<u32>, out: bytes, limits: Limits): (r: Result<bytes, ChangesetError>)
    requires ChangesTyped(cs) && AllLive(cs, ids)
    decreases |ids|
  {
    if ids == [] then Ok(out)
    else
      var t := cs[ids[0]].value;
      match EncodeRows(t.inserts, t.schema, limits.maxRow)
      case Err(e) => Err(e)
      case Ok(ins) =>
        var out1 := out + ToLE(ids[0], 4) + ins;
        if RecordLengthError(|out1|, limits.maxRecord).Some? then Err(RecordLengthError(|out1|, limits.maxRecord).value)
        else
          match EncodeRows(t.deletes, t.schema, limits.maxRow)
          case Err(e) => Err(e)
          case Ok(del) =>
            var out2 := out1 + del;
            if RecordLengthError(|out2|, limits.maxRecord).Some? then
              Err(RecordLengthError(|out2|, limits.maxRecord).value)
            else EncodeTables(cs, ids[1..], out2, limits)
  }

  /** encodeChangesetWithLimits. */
  function Encode(cs: Changeset, limits: Limits): (r: Result<bytes, ChangesetError>)
    requires ChangesTyped(cs)
  {
    match SizeOf(cs, limits)
    case Err(e) => Err(e)
    case Ok(_) =>
      var ids := Sorted(Live(cs));
      EncodeTables(cs, ids, [CHANGESET_VERSION] + ToLE(|ids|, 4), limits)
  }

  /** What the size check leaves to the encoder: text, array counts and, without a schema, nulls. */
  predicate RowWritable(row: Row, schema: Option<seq<Column>>) {
    RowEncodable(row) && (schema.None? ==> forall i :: 0 <= i < |row| ==> !row[i].Null?)
  }

  predicate RowsWritable(rows: seq<Row>, schema: Option<seq<Column>>) {
    forall i :: 0 <= i < |rows| ==> RowWritable(rows[i], schema)
  }

  predicate TableWritable(t: TableChange) {
    RowsWritable(t.inserts, t.schema) && RowsWritable(t.deletes, t.schema)
  }

  predicate Writable(cs: Changeset) {
    forall id :: id in cs && cs[id].Some? ==> TableWritable(cs[id].value)
  }

  lemma {:induction false} RowListEncodes(rows: seq<Row>, schema: Option<seq<Column>>, maxRow: u32)
    requires RowsTyped(rows) && RowListSize(rows, schema, maxRow).Ok?
    ensures EncodeRowList(rows, schema, maxRow).Ok? <==> RowsWritable(rows, schema)
    ensures EncodeRowList(rows, schema, maxRow).Ok? ==>
      |EncodeRowList(rows, schema, maxRow).value| == RowListSize(rows, schema, maxRow).value
    decreases |rows|
  {
    hide RowSize, EncodeRow, RowWritable, RowTyped;
    if rows != [] {
      RowEncodesIff(rows[0], schema);
      RowListEncodes(rows[1..], schema, maxRow);
      assert forall i :: 0 < i < |rows| ==> rows[i] == rows[1..][i - 1];
    }
  }

  lemma {:induction false} RowEncodesIff(row: Row, schema: Option<seq<Column>>)
    requires RowTyped(row) && RowSize(row, schema).Ok?
    ensures EncodeRow(row, schema).Ok? <==> RowWritable(row, schema)
    ensures EncodeRow(row, schema).Ok? ==> |EncodeRow(row, schema).value| == RowSize(row, schema).value
  {
    hide RowSize, EncodeRow, RowEncodable;
    RowEncodes(row, schema);
  }

  lemma {:induction false} RowsEncode(rows: seq<Row>, schema: Option<seq<Column>>, maxRow: u32)
    requires RowsTyped(rows) && RowsSize(rows, schema, maxRow).Ok?
    ensures EncodeRows(rows, schema, maxRow).Ok? <==> RowsWritable(rows, schema)
    ensures EncodeRows(rows, schema, maxRow).Ok? ==>
      |EncodeRows(rows, schema, maxRow).value| == RowsSize(rows, schema, maxRow).value
  {
    hide RowListSize, EncodeRowList, RowsWritable;
    RowListEncodes(rows, schema, maxRow);
  }

  lemma {:induction false} TablesEncode(cs: Changeset, ids: seq<u32>, out: bytes, limits: Limits)
    requires ChangesTyped(cs) && AllLive(cs, ids)
    requires TablesSize(cs, ids, |out|, limits).Ok?
    ensures EncodeTables(cs, ids, out, limits).Ok? <==> forall i :: 0 <= i < |ids| ==> TableWritable(cs[ids[i]].value)
    ensures EncodeTables(cs, ids, out, limits).Ok? ==>
      |EncodeTables(cs, ids, out, limits).value| == TablesSize(cs, ids, |out|, limits).value
    decreases |ids|
  {
    hide EncodeRows, RowsSize, RowsTyped, RowsWritable;
    if ids != [] {
      var t := cs[ids[0]].value;
      RowsEncode(t.inserts, t.schema, limits.maxRow);
      RowsEncode(t.deletes, t.schema, limits.maxRow);
      assert forall i :: 0 < i < |ids| ==> ids[i] == ids[1..][i - 1];
      if TableWritable(t) {
        var ins := EncodeRows(t.inserts, t.schema, limits.maxRow).value;
        var del := EncodeRows(t.deletes, t.schema, limits.maxRow).value;
        TablesEncode(cs, ids[1..], out + ToLE(ids[0], 4) + ins + del, limits);
      }
    }
  }

  /**
   * A changeset the size check accepts encodes if and only if its rows are writable,
   * and then to exactly the predicted length.
   */
  lemma {:induction false} AcceptedEncodes(cs: Changeset, limits: Limits)
    requires ChangesTyped(cs) && SizeOf(cs, limits).Ok?
    ensures Encode(cs, limits).Ok? <==> Writable(cs)
    ensures Encode(cs, limits).Ok? ==> |Encode(cs, limits).value| == SizeOf(cs, limits).value
  {
    hide EncodeTables, TablesSize, TableWritable, RowsTyped;
    var ids := Sorted(Live(cs));
    TablesEncode(cs, ids, [CHANGESET_VERSION] + ToLE(|ids|, 4), limits);
    SortedAscends(Live(cs));
    if forall i :: 0 <= i < |ids| ==> TableWritable(cs[ids[i]].value) {
      forall id | id in cs && cs[id].Some? ensures TableWritable(cs[id].value) {
        assert id in Live(cs);
      }
    }
  }

  // ---- the size check and the encoder, in place --------------------------

  method EncodedChangesetRowsSize(rows: seq<Row>, schema: Option<seq<Column>>, maxRow: u32)
    returns (r: Result<nat, ChangesetError>)
    ensures r == RowsSize(rows, schema, maxRow)
  {
    hide RowSize;
    if |rows| > MAX_U32 {
      return Err(CountOverflow);
    }
    var size := 4;
    for i := 0 to |rows|
      invariant size >= 4
      invariant RowListSize(rows, schema, maxRow) == Plus(size - 4, RowListSize(rows[i..], schema, maxRow))
    {
      assert rows[i..][1..] == rows[i + 1..];
      var n := RowSize(rows[i], schema);
      if n.Err? {
        return Err(RowFault(n.error));
      }
      var bad := RowLengthError(n.value, maxRow);
      if bad.Some? {
        return Err(bad.value);
      }
      size := size + 4 + n.value;
    }
    return Ok(size);
  }

  function Plus(n: nat, r: Result<nat, ChangesetError>): Result<nat, ChangesetError> {
    match r
    case Err(e) => Err(e)
    case Ok(m) => Ok(n + m)
  }

  /** Appends the row count and the length-prefixed rows; a row never encodes to another length than predicted. */
  method AppendChangesetRows(dst: bytes, rows: seq<Row>, schema: Option<seq<Column>>, maxRow: u32)
    returns (r: Result<bytes, ChangesetError>)
    requires RowsTyped(rows)
    ensures r == Onto(dst, EncodeRows(rows, schema, maxRow))
  {
    hide RowSize, EncodeRow, ToLE, RowTyped;
    if |rows| > MAX_U32 {
      return Err(CountOverflow);
    }
    var out := dst + ToLE(|rows|, 4);
    ghost var head := out;
    assert rows[0..] == rows;
    for i := 0 to |rows|
      invariant Onto(head, EncodeRowList(rows, schema, maxRow)) == Onto(out, EncodeRowList(rows[i..], schema, maxRow))
    {
      assert rows[i..][1..] == rows[i + 1..];
      var n := RowSize(rows[i], schema);
      if n.Err? {
        return Err(RowFault(n.error));
      }
      var bad := RowLengthError(n.value, maxRow);
      if bad.Some? {
        return Err(bad.value);
      }
      var row := EncodeRow(rows[i], schema);
      if row.Err? {
        return Err(RowFault(row.error));
      }
      RowEncodesIff(rows[i], schema);
      if |row.value| != n.value {
        assert false;
      }
      OntoTwice(out, ToLE(n.value, 4) + row.value, EncodeRowList(rows[i + 1..], schema, maxRow));
      out := out + (ToLE(n.value, 4) + row.value);
    }
    assert out + [] == out;
    OntoTwice(dst, ToLE(|rows|, 4), EncodeRowList(rows, schema, maxRow));
    return Ok(out);
  }

  /** An encoded tail behind a buffer. */
  function Onto(b: bytes, r: Result<bytes, ChangesetError>): Result<bytes, ChangesetError> {
    match r
    case Err(e) => Err(e)
    case Ok(t) => Ok(b + t)
  }

  lemma {:induction false} OntoTwice(a: bytes, b: bytes, r: Result<bytes, ChangesetError>)
    ensures Onto(a, Onto(b, r)) == Onto(a + b, r)
  {
    if r.Ok? {
      assert a + (b + r.value) == a + b + r.value;
    }
  }

  method EncodeChangeset(cs: Changeset, limits: Limits) returns (r: Result<bytes, ChangesetError>)
    requires ChangesTyped(cs)
    ensures r == Encode(cs, limits)
  {
    hide EncodeRows, RowsTyped, ToLE, TablesSize, Sorted;
    var size := SizeOf(cs, limits);
    if size.Err? {
      return Err(size.error);
    }
    var ids := Sorted(Live(cs));
    var out := [CHANGESET_VERSION] + ToLE(|ids|, 4);
    ghost var whole := EncodeTables(cs, ids, out, limits);
    for i := 0 to |ids|
      invariant whole == EncodeTables(cs, ids[i..], out, limits)
    {
      assert ids[i..][1..] == ids[i + 1..];
      var t := cs[ids[i]].value;
      var inserted := AppendChangesetRows(out + ToLE(ids[i], 4), t.inserts, t.schema, limits.maxRow);
      if inserted.Err? {
        return Err(inserted.error);
      }
      var bad := RecordLengthError(|inserted.value|, limits.maxRecord);
      if bad.Some? {
        return Err(bad.value);
      }
      var deleted := AppendChangesetRows(inserted.value, t.deletes, t.schema, limits.maxRow);
      if deleted.Err? {
        return Err(deleted.error);
      }
      bad := RecordLengthError(|deleted.value|, limits.maxRecord);
      if bad.Some? {
        return Err(bad.value);
      }
      out := deleted.value;
    }
    return Ok(out);
  }

  // ---- what the size check does not see ----------------------------------

  lemma {:induction false} EmptyItemsSize(xs: seq<bytes>)
    requires forall i :: 0 <= i < |xs| ==> xs[i] == []
    ensures ItemsSize(xs) == 4 * |xs|
  {
    if xs != [] {
      EmptyItemsSize(xs[1..]);
    }
  }

  function OneRow(id: u32, cols: seq<Column>, row: Row): (r: Changeset) {
    map[id := Some(TableChange(Some(cols), [row], []))]
  }

  lemma {:induction false} OneRowSize(id: u32, cols: seq<Column>, row: Row, limits: Limits, n: nat)
    requires RowSize(row, Some(cols)) == Ok(n) && RowLengthError(n, limits.maxRow).None?
    requires RecordLengthError(21 + n, limits.maxRecord).None?
    ensures SizeOf(OneRow(id, cols, row), limits) == Ok(21 + n)
  {
    hide RowSize;
    var cs := OneRow(id, cols, row);
    assert Live(cs) == {id};
    assert MinOf({id}) == id && {id} - {id} == {};
    assert Sorted({id}) == [id] + Sorted({});
    var t := cs[id].value;
    assert RowListSize([row][1..], Some(cols), limits.maxRow) == Ok(0);
    assert RowListSize([row], Some(cols), limits.maxRow) == Ok(4 + n);
    assert TablesSize(cs, [id][1..], 21 + n, limits) == Ok(21 + n);
    assert RowsSize(t.deletes, t.schema, limits.maxRow) == Ok(4);
    assert TablesSize(cs, [id], 5, limits) == Ok(21 + n);
  }

  /**
   * The size check alone is not enough: an array of more than MAX_ITEMS empty strings
   * passes it under the default limits, and then does not encode.
   */
  lemma {:induction false} ArrayCountUnchecked(id: u32, xs: seq<bytes>)
    requires MAX_ITEMS < |xs| < 0x1F_FFFF && forall i :: 0 <= i < |xs| ==> xs[i] == []
    ensures var cs := OneRow(id, [Column(STRINGS, false)], [Strings(xs)]);
      var limits := Limits(0x80_0000, 0x400_0000);
      ChangesTyped(cs) && SizeOf(cs, limits).Ok? && Encode(cs, limits).Err?
  {
    hide SizeOf, Encode, ItemsSize;
    var cols, row := [Column(STRINGS, false)], [Strings(xs)];
    var cs := OneRow(id, cols, row);
    var limits := Limits(0x80_0000, 0x400_0000);
    EmptyItemsSize(xs);
    assert ColumnsSize(row[1..], cols[1..]) == Ok(0);
    assert RowSize(row, Some(cols)) == Ok(5 + 4 * |xs|);
    OneRowSize(id, cols, row, limits, 5 + 4 * |xs|);
    AcceptedEncodes(cs, limits);
    assert !Encodable(row[0]);
    assert !RowWritable(cs[id].value.inserts[0], Some(cols));
  }

  /** Two lists of rows and a table ID, as the encoder lays them out. */
  lemma {:induction false} EncodeTablesStep(cs: Changeset, ids: seq<u32>, out: bytes, limits: Limits)
    requires ChangesTyped(cs) && AllLive(cs, ids) && ids != [] && EncodeTables(cs, ids, out, limits).Ok?
    ensures var t := cs[ids[0]].value;
      && EncodeRows(t.inserts, t.schema, limits.maxRow).Ok? && EncodeRows(t.deletes, t.schema, limits.maxRow).Ok?
      && EncodeTables(cs, ids, out, limits)
         == EncodeTables(cs, ids[1..], out + ToLE(ids[0], 4) + EncodeRows(t.inserts, t.schema, limits.maxRow).value
                                           + EncodeRows(t.deletes, t.schema, limits.maxRow).value, limits)
  {
    hide EncodeRows, RowsTyped;
  }

  // ---- decoding -----------------------------------------------------------

  datatype Taken<T> = Taken(value: T, used: nat)

  /** decodeRow. */
  function DecodeOne(s: bytes, cols: seq<Column>, maxRow: u32): (r: Result<Taken<Row>, ChangesetError>) {
    if |s| < 4 then Err(TruncatedChangeset)
    else
      var n := FromLE(s[..4]);
      if maxRow > 0 && n > maxRow then Err(RowTooLarge)
      else if n > |s| - 4 then Err(TruncatedChangeset)
      else
        match DecodeRow(s[4..4 + n], cols)
        case Err(e) => Err(RowFault(e))
        case Ok(row) => Ok(Taken(row, 4 + n))
  }

  function DecodeRowList(s: bytes, count: nat, cols: seq<Column>,
      maxRow: u32): (r: Result<Taken<seq<Row>>, ChangesetError>)
    ensures r.Ok? ==> r.value.used <= |s|
    decreases count
  {
    if count == 0 then Ok(Taken([], 0))
    else
      match DecodeOne(s, cols, maxRow)
      case Err(e) => Err(e)
      case Ok(first) =>
        match DecodeRowList(s[first.used..], count - 1, cols, maxRow)
        case Err(e) => Err(e)
        case Ok(rest) => Ok(Taken([first.value] + rest.value, first.used + rest.used))
  }

  /** A row count, checked against the bytes left, and that many rows. */
  function DecodeRows(s: bytes, cols: seq<Column>, maxRow: u32): (r: Result<Taken<seq<Row>>, ChangesetError>)
    ensures r.Ok? ==> r.value.used <= |s|
  {
    if |s| < 4 then Err(TruncatedChangeset)
    else
      var count := FromLE(s[..4]);
      if count * 4 > |s| - 4 then Err(CountExceedsRest)
      else
        match DecodeRowList(s[4..], count, cols, maxRow)
        case Err(e) => Err(e)
        case Ok(rows) => Ok(rows.(used := 4 + rows.used))
  }

  type Registry = map<u32, seq<Column>>

  type Decoding = map<u32, TableChange>

  /** The table loop of the decoder, from byte string s on, with the tables read so far. */
  function DecodeTables(s: bytes, count: nat, reg: Registry, maxRow: u32,
                        seen: Decoding): (r: Result<Decoding, ChangesetError>)
    decreases count
  {
    if count == 0 then (if s != [] then Err(TrailingBytes) else Ok(seen))
    else if |s| < 4 then Err(TruncatedChangeset)
    else
      var id := TableID(s);
      if id in seen then Err(DuplicateTable(id))
      else if id !in reg then Err(UnknownTable(id))
      else
        match DecodeRows(s[4..], reg[id], maxRow)
        case Err(e) => Err(e)
        case Ok(ins) =>
          match DecodeRows(s[4 + ins.used..], reg[id], maxRow)
          case Err(e) => Err(e)
          case Ok(del) =>
            DecodeTables(s[4 + ins.used + del.used..], count - 1, reg, maxRow,
                         seen[id := TableChange(Some(reg[id]), ins.value, del.value)])
  }

  function TableID(s: bytes): (r: u32)
    requires |s| >= 4
  {
    ToFromLE(s[..4]); Widths();
    FromLE(s[..4])
  }

  /** decodeChangesetWithMax. */
  function Decode(data: bytes, reg: Registry, maxRow: u32): (r: Result<Decoding, ChangesetError>) {
    if |data| < 5 then Err(TooShort)
    else if data[0] != CHANGESET_VERSION then Err(WrongVersion(data[0]))
    else
      var count := FromLE(data[1..5]);
      if count * 4 > |data| - 5 then Err(CountExceedsRest)
      else DecodeTables(data[5..], count, reg, maxRow, map[])
  }

  // ---- round trip ---------------------------------------------------------

  lemma {:induction false} RowListBack(rows: seq<Row>, cols: seq<Column>, maxRow: u32, readMax: u32, rest: bytes)
    requires RowsTyped(rows) && EncodeRowList(rows, Some(cols), maxRow).Ok?
    requires readMax == 0 || 0 < maxRow <= readMax
    ensures var e := EncodeRowList(rows, Some(cols), maxRow).value;
      && DecodeRowList(e + rest, |rows|, cols, readMax) == Ok(Taken(rows, |e|))
      && 4 * |rows| <= |e|
    decreases |rows|
  {
    hide RowSize, EncodeRow, DecodeRow, ToLE, FromLE, RowTyped, DecodeOne;
    if rows != [] {
      var row := EncodeRow(rows[0], Some(cols)).value;
      var tail := EncodeRowList(rows[1..], Some(cols), maxRow).value;
      RowRoundTrip(rows[0], cols);
      var s := EncodeRowList(rows, Some(cols), maxRow).value + rest;
      OneBack(row, tail + rest, cols, readMax);
      assert s == ToLE(|row|, 4) + row + (tail + rest);
      RowListBack(rows[1..], cols, maxRow, readMax, rest);
      assert s[4 + |row|..] == tail + rest;
      assert [rows[0]] + rows[1..] == rows;
    }
  }

  lemma {:induction false} OneBack(row: bytes, rest: bytes, cols: seq<Column>, readMax: u32)
    requires |row| <= MAX_U32 && (readMax == 0 || |row| <= readMax) && DecodeRow(row, cols).Ok?
    ensures DecodeOne(ToLE(|row|, 4) + row + rest, cols, readMax) == Ok(Taken(DecodeRow(row, cols).value, 4 + |row|))
  {
    hide DecodeRow, ToLE, FromLE;
    Widths();
    FromToLE(|row|, 4);
    var s := ToLE(|row|, 4) + row + rest;
    assert s[..4] == ToLE(|row|, 4) && s[4..4 + |row|] == row;
  }

  lemma {:induction false} RowsBack(rows: seq<Row>, cols: seq<Column>, maxRow: u32, readMax: u32, rest: bytes)
    requires RowsTyped(rows) && EncodeRows(rows, Some(cols), maxRow).Ok?
    requires readMax == 0 || 0 < maxRow <= readMax
    ensures var e := EncodeRows(rows, Some(cols), maxRow).value;
      && DecodeRows(e + rest, cols, readMax) == Ok(Taken(rows, |e|))
      && |e| >= 4
  {
    hide EncodeRowList, DecodeRowList, ToLE, FromLE, RowsTyped;
    var b := EncodeRowList(rows, Some(cols), maxRow).value;
    var s := ToLE(|rows|, 4) + b + rest;
    RowListBack(rows, cols, maxRow, readMax, rest);
    Widths();
    FromToLE(|rows|, 4);
    assert s[..4] == ToLE(|rows|, 4) && s[4..] == b + rest;
  }

  /** Every live table uses the registry's schema for its ID. */
  predicate Registered(cs: Changeset, reg: Registry) {
    forall id :: id in cs && cs[id].Some? ==> id in reg && cs[id].value.schema == Some(reg[id])
  }

  function Changes(cs: Changeset, ids: seq<u32>): (r: Decoding)
    requires AllLive(cs, ids)
  {
    map id | id in ids :: cs[id].value
  }

  lemma {:induction false} TableStepBack(s: bytes, id: u32, ins: bytes, del: bytes, rest: bytes, t: TableChange,
      count: nat, reg: Registry, readMax: u32, seen: Decoding)
    requires s == ToLE(id, 4) + ins + del + rest && count > 0 && id !in seen && id in reg && t.schema == Some(reg[id])
    requires DecodeRows(ins + (del + rest), reg[id], readMax) == Ok(Taken(t.inserts, |ins|))
    requires DecodeRows(del + rest, reg[id], readMax) == Ok(Taken(t.deletes, |del|))
    ensures DecodeTables(s, count, reg, readMax, seen) == DecodeTables(rest, count - 1, reg, readMax, seen[id := t])
  {
    hide DecodeRows, ToLE, FromLE;
    Widths();
    FromToLE(id, 4);
    assert s[..4] == ToLE(id, 4) && s[4..] == ins + (del + rest);
    assert s[4 + |ins|..] == del + rest && s[4 + |ins| + |del|..] == rest;
    assert t == TableChange(Some(reg[id]), t.inserts, t.deletes);
  }

  lemma {:induction false} TablesBack(cs: Changeset, ids: seq<u32>, done: seq<u32>, out: bytes, limits: Limits,
      reg: Registry, readMax: u32)
    requires ChangesTyped(cs) && AllLive(cs, ids) && AllLive(cs, done) && Registered(cs, reg)
    requires forall i, j :: 0 <= i < j < |done + ids| ==> (done + ids)[i] != (done + ids)[j]
    requires readMax == 0 || 0 < limits.maxRow <= readMax
    requires EncodeTables(cs, ids, out, limits).Ok?
    ensures var e := EncodeTables(cs, ids, out, limits).value;
      && out <= e && 4 * |ids| <= |e| - |out|
      && AllLive(cs, done + ids)
      && DecodeTables(e[|out|..], |ids|, reg, readMax, Changes(cs, done)) == Ok(Changes(cs, done + ids))
    decreases |ids|
  {
    hide EncodeRows, DecodeRows, RowsTyped, ToLE, FromLE, EncodeTables, DecodeTables;
    var e := EncodeTables(cs, ids, out, limits).value;
    if ids == [] {
      NoTablesBack(cs, out, limits, reg, readMax, Changes(cs, done));
      assert done + ids == done;
    } else {
      var id, t := ids[0], cs[ids[0]].value;
      EncodeTablesStep(cs, ids, out, limits);
      var ins := EncodeRows(t.inserts, t.schema, limits.maxRow).value;
      var del := EncodeRows(t.deletes, t.schema, limits.maxRow).value;
      var next := out + ToLE(id, 4) + ins + del;
      assert done + [id] + ids[1..] == done + ids;
      TablesBack(cs, ids[1..], done + [id], next, limits, reg, readMax);
      var rest := e[|next|..];
      RowsBack(t.deletes, reg[id], limits.maxRow, readMax, rest);
      RowsBack(t.inserts, reg[id], limits.maxRow, readMax, del + rest);
      assert e[|out|..] == ToLE(id, 4) + ins + del + rest;
      assert id !in done by { FreshID(done, ids); }
      TableStepBack(e[|out|..], id, ins, del, rest, t, |ids|, reg, readMax, Changes(cs, done));
      assert Changes(cs, done)[id := t] == Changes(cs, done + [id]);
    }
  }

  lemma {:induction false} FreshID(done: seq<u32>, ids: seq<u32>)
    requires ids != [] && forall i, j :: 0 <= i < j < |done + ids| ==> (done + ids)[i] != (done + ids)[j]
    ensures ids[0] !in done
  {
    assert (done + ids)[|done|] == ids[0];
    assert forall i :: 0 <= i < |done| ==> (done + ids)[i] == done[i];
  }

  lemma {:induction false} NoTablesBack(cs: Changeset, out: bytes, limits: Limits, reg: Registry, readMax: u32,
      seen: Decoding)
    requires ChangesTyped(cs)
    ensures EncodeTables(cs, [], out, limits) == Ok(out)
    ensures DecodeTables(out[|out|..], 0, reg, readMax, seen) == Ok(seen)
  {
  }

  /** Decoding an encoded changeset gives back every table that has a change record, and nothing else. */
  lemma {:induction false} ChangesetRoundTrip(cs: Changeset, limits: Limits, reg: Registry, readMax: u32)
    requires ChangesTyped(cs) && Registered(cs, reg) && Encode(cs, limits).Ok?
    requires readMax == 0 || 0 < limits.maxRow <= readMax
    ensures Decode(Encode(cs, limits).value, reg, readMax) == Ok(map id | id in cs && cs[id].Some? :: cs[id].value)
  {
    hide EncodeTables, DecodeTables, ToLE, FromLE, RowsTyped, TablesSize, Sorted;
    var ids := Sorted(Live(cs));
    var out := [CHANGESET_VERSION] + ToLE(|ids|, 4);
    SortedAscends(Live(cs));
    TablesBack(cs, ids, [], out, limits, reg, readMax);
    var e := Encode(cs, limits).value;
    Widths();
    FromToLE(|ids|, 4);
    assert e[..5] == out && e[1..5] == e[..5][1..] == ToLE(|ids|, 4) && e[0] == e[..5][0];
    assert [] + ids == ids;
    assert Changes(cs, ids) == map id | id in cs && cs[id].Some? :: cs[id].value;
    assert Changes(cs, []) == map[];
  }

  // ---- the decoder, in place ---------------------------------------------

  function More(rows: seq<Row>, used: nat,
                r: Result<Taken<seq<Row>>, ChangesetError>): Result<Taken<seq<Row>>, ChangesetError> {
    match r
    case Err(e) => Err(e)
    case Ok(t) => Ok(Taken(rows + t.value, used + t.used))
  }

  lemma {:induction false} MoreTwice(rows: seq<Row>, used: nat, row: Row, n: nat,
      r: Result<Taken<seq<Row>>, ChangesetError>)
    ensures More(rows, used, More([row], n, r)) == More(rows + [row], used + n, r)
    ensures More([], 0, r) == r
  {
    if r.Ok? {
      assert rows + ([row] + r.value.value) == rows + [row] + r.value.value;
      assert [] + r.value.value == r.value.value;
    }
  }

  lemma {:induction false} RowListStep(s: bytes, count: nat, cols: seq<Column>, maxRow: u32)
    ensures count == 0 ==> DecodeRowList(s, count, cols, maxRow) == Ok(Taken([], 0))
    ensures count > 0 && DecodeOne(s, cols, maxRow).Err? ==>
      DecodeRowList(s, count, cols, maxRow) == Err(DecodeOne(s, cols, maxRow).error)
    ensures count > 0 && DecodeOne(s, cols, maxRow).Ok? ==>
      var d := DecodeOne(s, cols, maxRow).value;
      && 4 <= d.used <= |s|
      && DecodeRowList(s, count, cols, maxRow) ==
         More([d.value], d.used, DecodeRowList(s[d.used..], count - 1, cols, maxRow))
  {
    hide DecodeRow, FromLE;
  }

  /** A row count and its rows from position `start` on. */
  method DecodeChangesetRows(data: bytes, start: nat, cols: seq<Column>, maxRow: u32)
    returns (r: Result<seq<Row>, ChangesetError>, pos: nat)
    requires start <= |data|
    ensures match DecodeRows(data[start..], cols, maxRow)
      case Err(e) => r == Err(e)
      case Ok(t) => r == Ok(t.value) && pos == start + t.used
  {
    hide DecodeOne, FromLE, DecodeRowList;
    pos := start;
    if pos + 4 > |data| {
      return Err(TruncatedChangeset), pos;
    }
    assert data[start..][..4] == data[pos..pos + 4] && data[start..][4..] == data[start + 4..];
    var count := FromLE(data[pos..pos + 4]);
    pos := pos + 4;
    if count * 4 > |data| - pos {
      return Err(CountExceedsRest), pos;
    }
    var rows: seq<Row> := [];
    ghost var whole := DecodeRowList(data[start + 4..], count, cols, maxRow);
    MoreTwice([], 0, [], 0, whole);
    for i := 0 to count
      invariant start + 4 <= pos <= |data|
      invariant whole == More(rows, pos - start - 4, DecodeRowList(data[pos..], count - i, cols, maxRow))
    {
      RowListStep(data[pos..], count - i, cols, maxRow);
      var d := DecodeOne(data[pos..], cols, maxRow);
      if d.Err? {
        return Err(d.error), pos;
      }
      assert data[pos..][d.value.used..] == data[pos + d.value.used..];
      MoreTwice(rows, pos - start - 4, d.value.value, d.value.used,
          DecodeRowList(data[pos + d.value.used..], count - i - 1, cols, maxRow));
      rows := rows + [d.value.value];
      pos := pos + d.value.used;
    }
    RowListStep(data[pos..], 0, cols, maxRow);
    assert rows + [] == rows;
    return Ok(rows), pos;
  }

  method DecodeChangeset(data: bytes, reg: Registry, maxRow: u32) returns (r: Result<Decoding, ChangesetError>)
    ensures r == Decode(data, reg, maxRow)
  {
    hide DecodeRows, FromLE;
    if |data| < 5 {
      return Err(TooShort);
    }
    if data[0] != CHANGESET_VERSION {
      return Err(WrongVersion(data[0]));
    }
    var count, pos: nat := FromLE(data[1..5]), 5;
    if count * 4 > |data| - pos {
      return Err(CountExceedsRest);
    }
    var tables: Decoding := map[];
    for i := 0 to count
      invariant 5 <= pos <= |data|
      invariant DecodeTables(data[5..], count, reg, maxRow, map[]) ==
        DecodeTables(data[pos..], count - i, reg, maxRow, tables)
    {
      if pos + 4 > |data| {
        return Err(TruncatedChangeset);
      }
      var id := TableID(data[pos..]);
      ghost var from := pos;
      pos := pos + 4;
      if id in tables {
        return Err(DuplicateTable(id));
      }
      if id !in reg {
        return Err(UnknownTable(id));
      }
      assert data[from..][4..] == data[pos..];
      var inserts, afterInserts := DecodeChangesetRows(data, pos, reg[id], maxRow);
      if inserts.Err? {
        return Err(inserts.error);
      }
      assert data[from..][afterInserts - from..] == data[afterInserts..];
      var deletes, afterDeletes := DecodeChangesetRows(data, afterInserts, reg[id], maxRow);
      if deletes.Err? {
        return Err(deletes.error);
      }
      assert data[from..][afterDeletes - from..] == data[afterDeletes..];
      pos := afterDeletes;
      tables := tables[id := TableChange(Some(reg[id]), inserts.value, deletes.value)];
    }
    if pos != |data| {
      return Err(TrailingBytes);
    }
    return Ok(tables);
  }
}
