/** The BSATN codec for rows under a table schema with nullable columns. */
module Rows {
  import opened Bytes
  import opened Bsatn

  datatype Column = Column(kind: Kind, nullable: bool)

  type Row = seq<Value>

  predicate RowTyped(row: Row) {
    forall i :: 0 <= i < |row| ==> WellTyped(row[i])
  }

  // ---- one column ---------------------------------------------------------

  /** appendColumnValue onto an empty buffer. */
  function EncodeColumn(v: Value, col: Column): (r: Result<bytes, CodecError>)
    requires WellTyped(v)
  {
    if KindOf(v) != col.kind then Err(TagMismatch(col.kind, KindOf(v)))
    else if !col.nullable then EncodeValue(v)
    else if v.Null? then Ok([col.kind, 0])
    else
      match EncodeValue(v)
      case Err(e) => Err(e)
      case Ok(e) => Ok([col.kind] + e[0 := 1])
  }

  function DecodeColumn(s: bytes, col: Column): (r: Result<Decoded, CodecError>) {
    match Take(s, 1)
    case Err(e) => Err(e)
    case Ok(t) =>
      if t[0] != col.kind then Err(TagMismatch(col.kind, t[0]))
      else if !col.nullable then Advanced(DecodePayload(col.kind, s[1..]), 1)
      else
        match Take(s[1..], 1)
        case Err(e) => Err(e)
        case Ok(p) =>
          if p[0] == 0 then Ok(Decoded(Null(col.kind), 2))
          else if p[0] == 1 then Advanced(DecodePayload(col.kind, s[2..]), 2)
          else Err(InvalidPresence)
  }

  function Advanced(r: Result<Decoded, CodecError>, n: nat): Result<Decoded, CodecError> {
    match r
    case Err(e) => Err(e)
    case Ok(d) => Ok(d.(used := n + d.used))
  }

  /** The size of a value in its column, where its kind and nullness fit. */
  function ColumnSize(v: Value, col: Column): (r: Result<nat, CodecError>) {
    if KindOf(v) != col.kind then Err(TagMismatch(col.kind, KindOf(v)))
    else if col.nullable then Ok(if v.Null? then 2 else ValueSize(v) + 1)
    else if v.Null? then Err(NullWithoutSchema)
    else Ok(ValueSize(v))
  }

  /** The buffer grows at its end, and the tag behind a nullable column's tag is overwritten by the presence mark. */
  method AppendColumnValue(dst: bytes, v: Value, col: Column) returns (out: bytes, err: Option<CodecError>)
    requires WellTyped(v)
    ensures err.None? <==> EncodeColumn(v, col).Ok?
    ensures err.None? ==> out == dst + EncodeColumn(v, col).value
    ensures err.Some? ==> err.value == EncodeColumn(v, col).error && dst <= out
  {
    hide EncodePayload;
    if KindOf(v) != col.kind {
      return dst, Some(TagMismatch(col.kind, KindOf(v)));
    }
    if !col.nullable {
      if v.Null? {
        return dst, Some(NullWithoutSchema);
      }
      var e := EncodeValue(v);
      if e.Err? {
        return dst, Some(e.error);
      }
      return dst + e.value, None;
    }
    out := dst + [col.kind];
    if v.Null? {
      return out + [0], None;
    }
    var before := |out|;
    var e := EncodeValue(v);
    if e.Err? {
      return out, Some(e.error);
    }
    out := out + e.value;
    out := out[before := 1];
    assert out == dst + ([col.kind] + e.value[0 := 1]);
    return out, None;
  }

  lemma {:induction false} ColumnEncodes(v: Value, col: Column)
    requires WellTyped(v)
    ensures EncodeColumn(v, col).Ok? <==> ColumnSize(v, col).Ok? && (v.Null? || Encodable(v))
    ensures EncodeColumn(v, col).Ok? ==> |EncodeColumn(v, col).value| == ColumnSize(v, col).value
  {
    hide EncodePayload, Encodable, ValueSize;
    EncodesExactly(v);
    NullNotEncodable(v);
  }

  lemma {:induction false} NullNotEncodable(v: Value)
    ensures v.Null? ==> !Encodable(v)
  {
  }

  lemma {:induction false} ColumnRoundTrip(v: Value, col: Column, rest: bytes)
    requires WellTyped(v) && EncodeColumn(v, col).Ok?
    ensures DecodeColumn(EncodeColumn(v, col).value + rest, col) == Ok(Decoded(v, |EncodeColumn(v, col).value|))
  {
    hide EncodePayload, DecodePayload, Encodable;
    var e := EncodeColumn(v, col).value;
    var s := e + rest;
    assert |s| >= 2 ==> s[1..][..1] == [s[1]];
    if v.Null? {
      assert s[1] == e[1] == 0;
    } else {
      EncodesExactly(v);
      PayloadBack(v, rest);
      var p := EncodePayload(v).value;
      if col.nullable {
        assert e == [col.kind, 1] + p;
        assert s[2..] == p + rest && s[1] == e[1] == 1;
      } else {
        assert s[1..] == p + rest;
      }
    }
  }

  lemma {:induction false} ColumnReencodes(s: bytes, col: Column)
    requires DecodeColumn(s, col).Ok? && col.kind != JSON
    ensures var d := DecodeColumn(s, col).value;
      WellTyped(d.value) && d.used <= |s| && EncodeColumn(d.value, col) == Ok(s[..d.used])
  {
    hide EncodePayload, DecodePayload, Encodable;
    var d := DecodeColumn(s, col).value;
    if d.value.Null? && col.nullable {
      NullOnlyByPresence(s, col);
      assert s[..2] == [s[0], s[1]];
    } else if col.nullable {
      PayloadTaken(col.kind, s[2..]);
      assert s[..d.used] == [s[0], s[1]] + s[2..][..d.used - 2];
      var e := [col.kind] + s[2..][..d.used - 2];
      assert [col.kind] + e[0 := 1] == s[..d.used];
    } else {
      PayloadTaken(col.kind, s[1..]);
      assert s[..d.used] == [s[0]] + s[1..][..d.used - 1];
    }
  }

  lemma {:induction false} NullOnlyByPresence(s: bytes, col: Column)
    requires DecodeColumn(s, col).Ok? && col.nullable && DecodeColumn(s, col).value.value.Null?
    ensures |s| >= 2 && s[1] == 0 && DecodeColumn(s, col).value == Decoded(Null(col.kind), 2)
  {
    hide DecodePayload;
    if |s| >= 2 && DecodePayload(col.kind, s[2..]).Ok? {
      DecodedKind(col.kind, s[2..]);
    }
  }

  // ---- rows ---------------------------------------------------------------

  function EncodeColumns(row: Row, cols: seq<Column>): (r: Result<bytes, CodecError>)
    requires |row| == |cols| && RowTyped(row)
    decreases |cols|
  {
    if cols == [] then Ok([])
    else
      match EncodeColumn(row[0], cols[0])
      case Err(e) => Err(e)
      case Ok(first) =>
        match EncodeColumns(row[1..], cols[1..])
        case Err(e) => Err(e)
        case Ok(rest) => Ok(first + rest)
  }

  /** A row for a schema, or the columns alone where there is no schema and so no nullable column. */
  function EncodeRow(row: Row, schema: Option<seq<Column>>): (r: Result<bytes, CodecError>)
    requires RowTyped(row)
  {
    if schema.None? then EncodePlain(row)
    else if |row| != |schema.value| then Err(RowShape(|schema.value|, |row|))
    else EncodeColumns(row, schema.value)
  }

  function EncodePlain(row: Row): (r: Result<bytes, CodecError>)
    requires RowTyped(row)
  {
    if row == [] then Ok([])
    else
      match EncodeValue(row[0])
      case Err(e) => Err(e)
      case Ok(first) =>
        match EncodePlain(row[1..])
        case Err(e) => Err(e)
        case Ok(rest) => Ok(first + rest)
  }

  function ColumnsSize(row: Row, cols: seq<Column>): (r: Result<nat, CodecError>)
    requires |row| == |cols|
    decreases |cols|
  {
    if cols == [] then Ok(0)
    else
      match ColumnSize(row[0], cols[0])
      case Err(e) => Err(e)
      case Ok(first) =>
        match ColumnsSize(row[1..], cols[1..])
        case Err(e) => Err(e)
        case Ok(rest) => Ok(first + rest)
  }

  function PlainSize(row: Row): (r: nat) {
    if row == [] then 0 else ValueSize(row[0]) + PlainSize(row[1..])
  }

  /** EncodedProductValueSizeForSchema. */
  function RowSize(row: Row, schema: Option<seq<Column>>): (r: Result<nat, CodecError>) {
    if schema.None? then Ok(PlainSize(row))
    else if |row| != |schema.value| then Err(RowShape(|schema.value|, |row|))
    else ColumnsSize(row, schema.value)
  }

  datatype Fields = Fields(values: Row, used: nat)

  /** decodeProductValueColumns from column `at` on: running out of bytes is a row that is too short. */
  function DecodeColumns(s: bytes, cols: seq<Column>, at: nat): (r: Result<Fields, CodecError>)
    requires at <= |cols|
    decreases |cols| - at
  {
    if at == |cols| then Ok(Fields([], 0))
    else
      match DecodeColumn(s, cols[at])
      case Err(EndOfFile) => Err(RowShape(|cols|, at))
      case Err(UnexpectedEof) => Err(RowShape(|cols|, at))
      case Err(e) => Err(e)
      case Ok(d) =>
        DecodedWithin(s, cols[at]);
        match DecodeColumns(s[d.used..], cols, at + 1)
        case Err(e) => Err(e)
        case Ok(rest) => Ok(Fields([d.value] + rest.values, d.used + rest.used))
  }

  lemma {:induction false} DecodedWithin(s: bytes, col: Column)
    requires DecodeColumn(s, col).Ok?
    ensures DecodeColumn(s, col).value.used <= |s|
  {
    hide DecodePayload;
    if |s| >= 2 && col.nullable && DecodePayload(col.kind, s[2..]).Ok? {
      PayloadWithin(col.kind, s[2..]);
    } else if !col.nullable {
      PayloadWithin(col.kind, s[1..]);
    }
  }

  lemma {:induction false} PayloadWithin(k: Kind, s: bytes)
    requires DecodePayload(k, s).Ok?
    ensures DecodePayload(k, s).value.used <= |s|
  {
    hide EncodePayload;
    if k == JSON {
      PrefixTaken(s);
    } else {
      PayloadTaken(k, s);
    }
  }

  /** DecodeProductValueFromBytes. */
  function DecodeRow(s: bytes, cols: seq<Column>): (r: Result<Row, CodecError>) {
    match DecodeColumns(s, cols, 0)
    case Err(e) => Err(e)
    case Ok(f) => if f.used != |s| then Err(RowShape(|cols|, |cols| + 1)) else Ok(f.values)
  }

  method AppendProductValueForColumns(dst: bytes, row: Row, cols: seq<Column>)
    returns (out: bytes, err: Option<CodecError>)
    requires RowTyped(row)
    ensures err.None? <==> EncodeRow(row, Some(cols)).Ok?
    ensures err.None? ==> out == dst + EncodeRow(row, Some(cols)).value
    ensures err.Some? ==> err.value == EncodeRow(row, Some(cols)).error && out == dst
  {
    hide EncodeColumn;
    if |row| != |cols| {
      return dst, Some(RowShape(|cols|, |row|));
    }
    var start := |dst|;
    out := dst;
    assert out[start..] == [] && row[0..] == row && cols[0..] == cols;
    FollowingNone(EncodeColumns(row, cols));
    for i := 0 to |cols|
      invariant |out| >= start && out[..start] == dst
      invariant EncodeColumns(row, cols) == Following(out[start..], EncodeColumns(row[i..], cols[i..]))
    {
      var before := out;
      out, err := AppendColumnValue(out, row[i], cols[i]);
      assert row[i..][1..] == row[i + 1..] && cols[i..][1..] == cols[i + 1..];
      if err.Some? {
        return out[..start], err;
      }
      assert out[start..] == before[start..] + EncodeColumn(row[i], cols[i]).value;
      FollowingTwice(before[start..], EncodeColumn(row[i], cols[i]).value, EncodeColumns(row[i + 1..], cols[i + 1..]));
    }
    assert row[|cols|..] == [] && cols[|cols|..] == [];
    return out, None;
  }

  /** An encoded tail behind bytes already written. */
  function Following(b: bytes, r: Result<bytes, CodecError>): Result<bytes, CodecError> {
    match r
    case Err(e) => Err(e)
    case Ok(t) => Ok(b + t)
  }

  lemma {:induction false} FollowingNone(r: Result<bytes, CodecError>)
    ensures Following([], r) == r
  {
    if r.Ok? {
      assert [] + r.value == r.value;
    }
  }

  lemma {:induction false} FollowingTwice(a: bytes, b: bytes, r: Result<bytes, CodecError>)
    ensures Following(a, Following(b, r)) == Following(a + b, r)
  {
    if r.Ok? {
      assert a + (b + r.value) == a + b + r.value;
    }
  }

  method DecodeProductValueColumns(s: bytes, cols: seq<Column>) returns (r: Result<Fields, CodecError>)
    ensures r == DecodeColumns(s, cols, 0)
  {
    hide DecodeColumn;
    var pos: nat := 0;
    var values: Row := [];
    assert s[0..] == s;
    BehindNone(DecodeColumns(s, cols, 0));
    for i := 0 to |cols|
      invariant pos <= |s| && |values| == i
      invariant DecodeColumns(s, cols, 0) == Behind(values, pos, DecodeColumns(s[pos..], cols, i))
    {
      var d := DecodeColumn(s[pos..], cols[i]);
      if d.Err? {
        if d.error.EndOfFile? || d.error.UnexpectedEof? {
          return Err(RowShape(|cols|, i));
        }
        return Err(d.error);
      }
      DecodedWithin(s[pos..], cols[i]);
      assert s[pos..][d.value.used..] == s[pos + d.value.used..];
      BehindTwice(values, pos, d.value, DecodeColumns(s[pos + d.value.used..], cols, i + 1));
      values := values + [d.value.value];
      pos := pos + d.value.used;
    }
    assert values + [] == values;
    return Ok(Fields(values, pos));
  }

  function Behind(values: Row, used: nat, r: Result<Fields, CodecError>): Result<Fields, CodecError> {
    match r
    case Err(e) => Err(e)
    case Ok(f) => Ok(Fields(values + f.values, used + f.used))
  }

  lemma {:induction false} BehindNone(r: Result<Fields, CodecError>)
    ensures Behind([], 0, r) == r
  {
    if r.Ok? {
      assert [] + r.value.values == r.value.values;
    }
  }

  lemma {:induction false} BehindTwice(values: Row, used: nat, d: Decoded, r: Result<Fields, CodecError>)
    ensures Behind(values, used, Behind([d.value], d.used, r)) == Behind(values + [d.value], used + d.used, r)
  {
    if r.Ok? {
      assert values + ([d.value] + r.value.values) == values + [d.value] + r.value.values;
    }
  }

  // ---- laws ---------------------------------------------------------------

  predicate RowEncodable(row: Row) {
    forall i :: 0 <= i < |row| ==> row[i].Null? || Encodable(row[i])
  }

  lemma {:induction false} ColumnsEncode(row: Row, cols: seq<Column>)
    requires |row| == |cols| && RowTyped(row)
    ensures EncodeColumns(row, cols).Ok? <==> ColumnsSize(row, cols).Ok? && RowEncodable(row)
    ensures EncodeColumns(row, cols).Ok? ==> |EncodeColumns(row, cols).value| == ColumnsSize(row, cols).value
    decreases |cols|
  {
    hide EncodeColumn, ColumnSize, Encodable, WellTyped;
    if cols != [] {
      ColumnEncodes(row[0], cols[0]);
      ColumnsEncode(row[1..], cols[1..]);
      SplitEncodable(row);
    }
  }

  lemma {:induction false} SplitEncodable(row: Row)
    requires row != []
    ensures RowEncodable(row) <==> (row[0].Null? || Encodable(row[0])) && RowEncodable(row[1..])
  {
    hide Encodable;
    if RowEncodable(row[1..]) {
      assert forall i :: 0 < i < |row| ==> row[i] == row[1..][i - 1];
    }
  }

  lemma {:induction false} PlainEncodes(row: Row)
    requires RowTyped(row)
    ensures EncodePlain(row).Ok? <==> forall i :: 0 <= i < |row| ==> Encodable(row[i])
    ensures EncodePlain(row).Ok? ==> |EncodePlain(row).value| == PlainSize(row)
    decreases |row|
  {
    hide EncodeValue, Encodable, WellTyped, ValueSize;
    if row != [] {
      EncodesExactly(row[0]);
      PlainEncodes(row[1..]);
      assert forall i :: 0 < i < |row| ==> row[i] == row[1..][i - 1];
    }
  }

  /** The size check predicts the encoder exactly, except for what only the encoder checks. */
  lemma {:induction false} RowEncodes(row: Row, schema: Option<seq<Column>>)
    requires RowTyped(row)
    ensures EncodeRow(row, schema).Ok? <==>
      RowSize(row, schema).Ok? && RowEncodable(row) && (schema.None? ==> forall i :: 0 <= i < |row| ==> !row[i].Null?)
    ensures EncodeRow(row, schema).Ok? ==> |EncodeRow(row, schema).value| == RowSize(row, schema).value
  {
    hide EncodeColumns, ColumnsSize, EncodePlain, PlainSize, Encodable, WellTyped;
    if schema.None? {
      PlainEncodes(row);
      forall i | 0 <= i < |row| ensures row[i].Null? ==> !Encodable(row[i]) {
        NullNotEncodable(row[i]);
      }
    } else if |row| == |schema.value| {
      ColumnsEncode(row, schema.value);
    }
  }

  lemma {:induction false} ColumnsRoundTrip(row: Row, cols: seq<Column>, at: nat, rest: bytes)
    requires at <= |cols| == |row| && RowTyped(row) && EncodeColumns(row[at..], cols[at..]).Ok?
    ensures var e := EncodeColumns(row[at..], cols[at..]).value;
      DecodeColumns(e + rest, cols, at) == Ok(Fields(row[at..], |e|))
    decreases |cols| - at
  {
    hide EncodeColumn, DecodeColumn, WellTyped;
    if at == |cols| {
      assert row[at..] == [] && cols[at..] == [];
    } else {
      assert row[at..][1..] == row[at + 1..] && cols[at..][1..] == cols[at + 1..];
      var first := EncodeColumn(row[at], cols[at]).value;
      var tail := EncodeColumns(row[at + 1..], cols[at + 1..]).value;
      assert first + tail + rest == first + (tail + rest);
      ColumnRoundTrip(row[at], cols[at], tail + rest);
      assert (first + (tail + rest))[|first|..] == tail + rest;
      ColumnsRoundTrip(row, cols, at + 1, rest);
      assert [row[at]] + row[at + 1..] == row[at..];
    }
  }

  /** An encoded row decodes to itself and has exactly the computed size. */
  lemma {:induction false} RowRoundTrip(row: Row, cols: seq<Column>)
    requires RowTyped(row) && EncodeRow(row, Some(cols)).Ok?
    ensures DecodeRow(EncodeRow(row, Some(cols)).value, cols) == Ok(row)
    ensures RowSize(row, Some(cols)) == Ok(|EncodeRow(row, Some(cols)).value|)
  {
    hide EncodeColumns, DecodeColumns, ColumnsSize, WellTyped, Encodable;
    var e := EncodeRow(row, Some(cols)).value;
    assert row[0..] == row && cols[0..] == cols && e + [] == e;
    ColumnsRoundTrip(row, cols, 0, []);
    RowEncodes(row, Some(cols));
  }

  lemma {:induction false} ColumnsReencode(s: bytes, cols: seq<Column>, at: nat)
    requires at <= |cols| && (forall i :: 0 <= i < |cols| ==> cols[i].kind != JSON) && DecodeColumns(s, cols, at).Ok?
    ensures var f := DecodeColumns(s, cols, at).value;
      && RowTyped(f.values) && |f.values| == |cols| - at && f.used <= |s|
      && EncodeColumns(f.values, cols[at..]) == Ok(s[..f.used])
    decreases |cols| - at
  {
    hide EncodeColumn, DecodeColumn, WellTyped;
    var f := DecodeColumns(s, cols, at).value;
    if at < |cols| {
      var d := DecodeColumn(s, cols[at]).value;
      ColumnReencodes(s, cols[at]);
      ColumnsReencode(s[d.used..], cols, at + 1);
      var rest := DecodeColumns(s[d.used..], cols, at + 1).value;
      assert f.values[1..] == rest.values && cols[at..][1..] == cols[at + 1..];
      assert s[..f.used] == s[..d.used] + s[d.used..][..rest.used];
    }
  }

  /** Without JSON columns, every accepted row is the encoding of what it decodes to. */
  lemma {:induction false} RowReencodes(s: bytes, cols: seq<Column>)
    requires (forall i :: 0 <= i < |cols| ==> cols[i].kind != JSON) && DecodeRow(s, cols).Ok?
    ensures RowTyped(DecodeRow(s, cols).value)
    ensures EncodeRow(DecodeRow(s, cols).value, Some(cols)) == Ok(s)
  {
    hide EncodeColumns, DecodeColumns, WellTyped;
    ColumnsReencode(s, cols, 0);
    assert cols[0..] == cols && s[..|s|] == s;
  }
}
