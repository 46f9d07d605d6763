/** The schema section of a snapshot: tables, columns, indexes and the trailing event flags. */
module SchemaCodec {
  import opened Bytes
  import opened Bsatn
  import opened Utf8

  const MAX_NAME: nat := 0x10_0000
  const MAX_INT32: nat := 0x7FFF_FFFF
  const EVENT_MAGIC: bytes := [0x45, 0x56, 0x54, 0x31]

  datatype ColumnDef = ColumnDef(index: nat, name: bytes, kind: Kind, nullable: bool, auto: bool)

  datatype IndexDef = IndexDef(id: nat, name: bytes, columns: seq<nat>, unique: bool, primary: bool)

  datatype TableDef = TableDef(id: u32, name: bytes, columns: seq<ColumnDef>, indexes: seq<IndexDef>, isEvent: bool)

  datatype Schema = Schema(version: u32, tables: seq<TableDef>)

  // ---- well-formed schemas ------------------------------------------------

  predicate NameOk(name: bytes) {
    0 < |name| <= MAX_NAME && ValidUtf8(name)
  }

  predicate AutoKind(k: Kind) {
    1 <= k <= 8
  }

  predicate ColumnOk(c: ColumnDef) {
    c.index <= MAX_INT32 && NameOk(c.name) && (c.auto ==> !c.nullable && AutoKind(c.kind))
  }

  /** The column does not repeat an index or a name. */
  predicate NewColumn(c: ColumnDef, seen: seq<ColumnDef>) {
    forall i :: 0 <= i < |seen| ==> seen[i].index != c.index && seen[i].name != c.name
  }

  predicate ColumnsOk(cols: seq<ColumnDef>) {
    cols == [] ||
    (ColumnsOk(cols[..|cols| - 1]) && ColumnOk(cols[|cols| - 1]) && NewColumn(cols[|cols| - 1], cols[..|cols| - 1]))
  }

  predicate HasColumn(cols: seq<ColumnDef>, index: nat) {
    exists i :: 0 <= i < |cols| && cols[i].index == index
  }

  predicate RefsOk(refs: seq<nat>, cols: seq<ColumnDef>) {
    forall i :: 0 <= i < |refs| ==> refs[i] <= MAX_INT32 && HasColumn(cols, refs[i])
  }

  predicate IndexOk(x: IndexDef, cols: seq<ColumnDef>) {
    NameOk(x.name) && (x.primary ==> x.unique) && 0 < |x.columns| <= MAX_U32 && RefsOk(x.columns, cols)
  }

  /** The index does not repeat a name or make a second primary index, and its ID is its position. */
  predicate NewIndex(x: IndexDef, seen: seq<IndexDef>) {
    x.id == |seen| && forall i :: 0 <= i < |seen| ==> seen[i].name != x.name && !(seen[i].primary && x.primary)
  }

  predicate IndexesOk(xs: seq<IndexDef>, cols: seq<ColumnDef>) {
    xs == [] ||
    (&& IndexesOk(xs[..|xs| - 1], cols)
     && IndexOk(xs[|xs| - 1], cols)
     && NewIndex(xs[|xs| - 1], xs[..|xs| - 1]))
  }

  /** Every auto-increment column has a unique index of its own. */
  predicate AutoBacked(cols: seq<ColumnDef>, xs: seq<IndexDef>) {
    forall i :: 0 <= i < |cols| && cols[i].auto ==>
      exists j :: 0 <= j < |xs| && xs[j].unique && xs[j].columns == [cols[i].index]
  }

  predicate TableOk(t: TableDef) {
    && NameOk(t.name)
    && 0 < |t.columns| <= MAX_U32 && ColumnsOk(t.columns)
    && |t.indexes| <= MAX_U32 && IndexesOk(t.indexes, t.columns)
    && AutoBacked(t.columns, t.indexes)
  }

  predicate NewTable(t: TableDef, seen: seq<TableDef>) {
    forall i :: 0 <= i < |seen| ==> seen[i].id != t.id && seen[i].name != t.name
  }

  predicate TablesOk(ts: seq<TableDef>) {
    ts == [] || (TablesOk(ts[..|ts| - 1]) && TableOk(ts[|ts| - 1]) && NewTable(ts[|ts| - 1], ts[..|ts| - 1]))
  }

  predicate WellFormed(s: Schema) {
    |s.tables| <= MAX_U32 && TablesOk(s.tables)
  }

  // ---- encoding -----------------------------------------------------------

  function Flag(b: bool): (r: byte) {
    if b then 1 else 0
  }

  function ColumnBytes(c: ColumnDef): (r: bytes) {
    ToLE(c.index, 4) + Prefix(c.name) + [c.kind, Flag(c.nullable), Flag(c.auto)]
  }

  function ColumnsBytes(cols: seq<ColumnDef>): (r: bytes) {
    if cols == [] then [] else ColumnBytes(cols[0]) + ColumnsBytes(cols[1..])
  }

  function RefsBytes(refs: seq<nat>): (r: bytes) {
    if refs == [] then [] else ToLE(refs[0], 4) + RefsBytes(refs[1..])
  }

  function IndexBytes(x: IndexDef): (r: bytes) {
    Prefix(x.name) + [Flag(x.unique), Flag(x.primary)] + ToLE(|x.columns|, 4) + RefsBytes(x.columns)
  }

  function IndexesBytes(xs: seq<IndexDef>): (r: bytes) {
    if xs == [] then [] else IndexBytes(xs[0]) + IndexesBytes(xs[1..])
  }

  function TableBytes(t: TableDef): (r: bytes) {
    ToLE(t.id, 4) + Prefix(t.name) + ToLE(|t.columns|, 4) + ColumnsBytes(t.columns)
    + ToLE(|t.indexes|, 4) + IndexesBytes(t.indexes)
  }

  function TablesBytes(ts: seq<TableDef>): (r: bytes) {
    if ts == [] then [] else TableBytes(ts[0]) + TablesBytes(ts[1..])
  }

  function FlagsBytes(ts: seq<TableDef>): (r: bytes) {
    if ts == [] then [] else ToLE(ts[0].id, 4) + [Flag(ts[0].isEvent)] + FlagsBytes(ts[1..])
  }

  /** EncodeSchemaSnapshot, for the registry's tables in increasing order of ID. */
  function Encode(s: Schema): (r: bytes) {
    ToLE(s.version, 4) + ToLE(|s.tables|, 4) + TablesBytes(s.tables)
    + EVENT_MAGIC + ToLE(|s.tables|, 4) + FlagsBytes(s.tables)
  }

  // ---- decoding -----------------------------------------------------------

  datatype Read<T> = Read(value: T, used: nat)

  function U32(s: bytes): (r: Option<Read<nat>>)
    ensures r.Some? ==> r.value.used == 4 <= |s| && r.value.value <= MAX_U32
  {
    if |s| < 4 then None
    else
      ToFromLE(s[..4]); Widths();
      Some(Read(FromLE(s[..4]), 4))
  }

  /** readString. */
  function Str(s: bytes): (r: Option<Read<bytes>>)
    ensures r.Some? ==> r.value.used <= |s|
  {
    match U32(s)
    case None => None
    case Some(n) =>
      if n.value > MAX_NAME || n.value > |s| - 4 || !ValidUtf8(s[4..4 + n.value]) then None
      else Some(Read(s[4..4 + n.value], 4 + n.value))
  }

  function ParseColumn(s: bytes): (r: Option<Read<ColumnDef>>)
    ensures r.Some? ==> r.value.used <= |s|
  {
    match U32(s)
    case None => None
    case Some(index) =>
      match Str(s[4..])
      case None => None
      case Some(name) =>
        if index.value > MAX_INT32 || name.value == [] then None
        else
          match ParseType(s[4 + name.used..], index.value, name.value)
          case None => None
          case Some(c) => Some(Read(c, 7 + name.used))
  }

  /** The three bytes behind a column's name. */
  function ParseType(s: bytes, index: nat, name: bytes): (r: Option<ColumnDef>)
    ensures r.Some? ==> |s| >= 3
  {
    if |s| < 3 || s[0] > 21 || s[1] > 1 || s[2] > 1 then None
    else if s[2] == 1 && (s[1] == 1 || !AutoKind(s[0])) then None
    else Some(ColumnDef(index, name, s[0], s[1] == 1, s[2] == 1))
  }

  /** The column loop, behind the columns already read. */
  function ParseColumns(s: bytes, count: nat, seen: seq<ColumnDef>): (r: Option<Read<seq<ColumnDef>>>)
    ensures r.Some? ==> r.value.used <= |s| && |r.value.value| == |seen| + count
    decreases count
  {
    if count == 0 then Some(Read(seen, 0))
    else
      match ParseColumn(s)
      case None => None
      case Some(c) =>
        if !NewColumn(c.value, seen) then None
        else
          match ParseColumns(s[c.used..], count - 1, seen + [c.value])
          case None => None
          case Some(rest) => Some(Read(rest.value, c.used + rest.used))
  }

  function ParseRefs(s: bytes, count: nat, cols: seq<ColumnDef>): (r: Option<Read<seq<nat>>>)
    ensures r.Some? ==> r.value.used <= |s| && |r.value.value| == count
    decreases count
  {
    if count == 0 then Some(Read([], 0))
    else
      match U32(s)
      case None => None
      case Some(ref) =>
        if ref.value > MAX_INT32 || !HasColumn(cols, ref.value) then None
        else
          match ParseRefs(s[4..], count - 1, cols)
          case None => None
          case Some(rest) => Some(Read([ref.value] + rest.value, 4 + rest.used))
  }

  function ParseIndex(s: bytes, id: nat, cols: seq<ColumnDef>): (r: Option<Read<IndexDef>>)
    ensures r.Some? ==> r.value.used <= |s|
  {
    match Str(s)
    case None => None
    case Some(name) =>
      var at := name.used;
      if name.value == [] || |s| < at + 2 || s[at] > 1 || s[at + 1] > 1 || (s[at + 1] == 1 && s[at] != 1) then None
      else
        match U32(s[at + 2..])
        case None => None
        case Some(n) =>
          if n.value == 0 then None
          else
            match ParseRefs(s[at + 6..], n.value, cols)
            case None => None
            case Some(refs) =>
              Some(Read(IndexDef(id, name.value, refs.value, s[at] == 1, s[at + 1] == 1), at + 6 + refs.used))
  }

  function ParseIndexes(s: bytes, count: nat, cols: seq<ColumnDef>,
      seen: seq<IndexDef>): (r: Option<Read<seq<IndexDef>>>)
    ensures r.Some? ==> r.value.used <= |s| && |r.value.value| == |seen| + count
    decreases count
  {
    if count == 0 then Some(Read(seen, 0))
    else
      match ParseIndex(s, |seen|, cols)
      case None => None
      case Some(x) =>
        if !NewIndex(x.value, seen) then None
        else
          match ParseIndexes(s[x.used..], count - 1, cols, seen + [x.value])
          case None => None
          case Some(rest) => Some(Read(rest.value, x.used + rest.used))
  }

  /** What follows a table's name: its columns, its indexes and the auto-increment check. */
  function ParseBody(s: bytes, id: u32, name: bytes): (r: Option<Read<TableDef>>)
    ensures r.Some? ==> r.value.used <= |s|
  {
    match U32(s)
    case None => None
    case Some(n) =>
      if n.value == 0 then None
      else
        match ParseColumns(s[4..], n.value, [])
        case None => None
        case Some(cols) =>
          match U32(s[4 + cols.used..])
          case None => None
          case Some(m) =>
            match ParseIndexes(s[8 + cols.used..], m.value, cols.value, [])
            case None => None
            case Some(xs) =>
              if !AutoBacked(cols.value, xs.value) then None
              else Some(Read(TableDef(id, name, cols.value, xs.value, false), 8 + cols.used + xs.used))
  }

  function ParseTable(s: bytes): (r: Option<Read<TableDef>>)
    ensures r.Some? ==> r.value.used <= |s|
  {
    match U32(s)
    case None => None
    case Some(id) =>
      match Str(s[4..])
      case None => None
      case Some(name) =>
        if name.value == [] then None
        else
          match ParseBody(s[4 + name.used..], id.value, name.value)
          case None => None
          case Some(t) => Some(Read(t.value, 4 + name.used + t.used))
  }

  function ParseTables(s: bytes, count: nat, seen: seq<TableDef>): (r: Option<Read<seq<TableDef>>>)
    ensures r.Some? ==> r.value.used <= |s| && |r.value.value| == |seen| + count
    decreases count
  {
    if count == 0 then Some(Read(seen, 0))
    else
      match ParseTable(s)
      case None => None
      case Some(t) =>
        if !NewTable(t.value, seen) then None
        else
          match ParseTables(s[t.used..], count - 1, seen + [t.value])
          case None => None
          case Some(rest) => Some(Read(rest.value, t.used + rest.used))
  }

  /** The position of a table by ID. */
  function Find(ts: seq<TableDef>, id: nat): (r: Option<nat>)
    ensures r.Some? ==> r.value < |ts| && ts[r.value].id == id
    ensures r.None? ==> forall i :: 0 <= i < |ts| ==> ts[i].id != id
  {
    if ts == [] then None
    else if ts[|ts| - 1].id == id then Some(|ts| - 1)
    else Find(ts[..|ts| - 1], id)
  }

  /** The event flag loop: each table is flagged once, and nothing follows. */
  function ParseFlags(s: bytes, count: nat, ts: seq<TableDef>, flagged: set<nat>): (r: Option<seq<TableDef>>)
    decreases count
  {
    if count == 0 then (if s == [] then Some(ts) else None)
    else
      match U32(s)
      case None => None
      case Some(id) =>
        if |s| < 5 || s[4] > 1 then None
        else
          match Find(ts, id.value)
          case None => None
          case Some(i) =>
            if id.value in flagged then None
            else ParseFlags(s[5..], count - 1, ts[i := ts[i].(isEvent := s[4] == 1)], flagged + {id.value})
  }

  /** readOptionalSchemaSnapshotEventFlags: the section may be missing altogether, but not in part. */
  function ParseEvents(s: bytes, ts: seq<TableDef>): (r: Option<seq<TableDef>>) {
    if s == [] then Some(ts)
    else if |s| < 8 || s[..4] != EVENT_MAGIC then None
    else
      match U32(s[4..])
      case None => None
      case Some(n) => if n.value != |ts| then None else ParseFlags(s[8..], n.value, ts, {})
  }

  /** DecodeSchemaSnapshot. */
  function Decode(s: bytes): (r: Option<Schema>) {
    match U32(s)
    case None => None
    case Some(version) =>
      match U32(s[4..])
      case None => None
      case Some(n) =>
        match ParseTables(s[8..], n.value, [])
        case None => None
        case Some(ts) =>
          match ParseEvents(s[8 + ts.used..], ts.value)
          case None => None
          case Some(tables) => Some(Schema(version.value, tables))
  }

  // ---- reading back what was written -------------------------------------

  lemma {:induction false} U32Back(n: nat, rest: bytes)
    requires n <= MAX_U32
    ensures U32(ToLE(n, 4) + rest) == Some(Read(n, 4)) && (ToLE(n, 4) + rest)[4..] == rest
  {
    hide ToLE, FromLE;
    Widths();
    FromToLE(n, 4);
    assert (ToLE(n, 4) + rest)[..4] == ToLE(n, 4);
  }

  lemma {:induction false} StrBack(name: bytes, rest: bytes)
    requires |name| <= MAX_NAME && ValidUtf8(name)
    ensures Str(Prefix(name) + rest) == Some(Read(name, 4 + |name|)) && (Prefix(name) + rest)[4 + |name|..] == rest
  {
    hide ToLE, FromLE, U32, ValidUtf8;
    var s := Prefix(name) + rest;
    assert s == ToLE(|name|, 4) + (name + rest);
    U32Back(|name|, name + rest);
    assert s[4..4 + |name|] == name;
  }

  lemma {:induction false} ColumnBack(c: ColumnDef, rest: bytes)
    requires ColumnOk(c)
    ensures ParseColumn(ColumnBytes(c) + rest) == Some(Read(c, |ColumnBytes(c)|))
  {
    hide ToLE, FromLE, U32, Str, ValidUtf8, Prefix;
    var tail := [c.kind, Flag(c.nullable), Flag(c.auto)] + rest;
    var s := ColumnBytes(c) + rest;
    assert s == ToLE(c.index, 4) + (Prefix(c.name) + tail);
    U32Back(c.index, Prefix(c.name) + tail);
    StrBack(c.name, tail);
    DropTwice(s, 4, 4 + |c.name|);
  }

  lemma {:induction false} DropTwice(s: bytes, a: nat, b: nat)
    requires a + b <= |s|
    ensures s[a..][b..] == s[a + b..]
  {
  }

  lemma {:induction false} SplitColumns(seen: seq<ColumnDef>, cols: seq<ColumnDef>)
    requires ColumnsOk(seen + cols)
    ensures ColumnsOk(seen)
    ensures cols != [] ==> ColumnOk(cols[0]) && NewColumn(cols[0], seen)
    decreases |cols|
  {
    hide ColumnOk, NewColumn;
    if cols == [] {
      assert seen + cols == seen;
    } else {
      var n := |cols| - 1;
      assert (seen + cols)[..|seen + cols| - 1] == seen + cols[..n];
      SplitColumns(seen, cols[..n]);
      if n == 0 {
        assert seen + cols[..0] == seen;
      }
    }
  }

  lemma {:induction false} ColumnsBack(seen: seq<ColumnDef>, cols: seq<ColumnDef>, rest: bytes)
    requires ColumnsOk(seen + cols)
    ensures ParseColumns(ColumnsBytes(cols) + rest, |cols|, seen) == Some(Read(seen + cols, |ColumnsBytes(cols)|))
    decreases |cols|
  {
    hide ColumnBytes, ParseColumn, NewColumn, ColumnOk, ColumnsOk;
    if cols == [] {
      assert seen + cols == seen;
    } else {
      SplitColumns(seen, cols);
      var tail := ColumnsBytes(cols[1..]) + rest;
      var s := ColumnsBytes(cols) + rest;
      assert s == ColumnBytes(cols[0]) + tail;
      ColumnBack(cols[0], tail);
      assert s[|ColumnBytes(cols[0])|..] == tail;
      assert seen + [cols[0]] + cols[1..] == seen + cols;
      ColumnsBack(seen + [cols[0]], cols[1..], rest);
    }
  }

  lemma {:induction false} RefsBack(refs: seq<nat>, cols: seq<ColumnDef>, rest: bytes)
    requires RefsOk(refs, cols)
    ensures ParseRefs(RefsBytes(refs) + rest, |refs|, cols) == Some(Read(refs, |RefsBytes(refs)|))
    decreases |refs|
  {
    hide ToLE, U32, HasColumn;
    if refs != [] {
      var tail := RefsBytes(refs[1..]) + rest;
      assert RefsBytes(refs) + rest == ToLE(refs[0], 4) + tail;
      U32Back(refs[0], tail);
      RefsBack(refs[1..], cols, rest);
      assert [refs[0]] + refs[1..] == refs;
    }
  }

  lemma {:induction false} IndexBack(x: IndexDef, cols: seq<ColumnDef>, rest: bytes)
    requires IndexOk(x, cols)
    ensures ParseIndex(IndexBytes(x) + rest, x.id, cols) == Some(Read(x, |IndexBytes(x)|))
  {
    hide ToLE, FromLE, U32, Str, ValidUtf8, Prefix, RefsBytes, ParseRefs, RefsOk;
    var flags := [Flag(x.unique), Flag(x.primary)];
    var refs := RefsBytes(x.columns) + rest;
    var s := IndexBytes(x) + rest;
    var tail := ToLE(|x.columns|, 4) + refs;
    assert s == Prefix(x.name) + (flags + tail);
    StrBack(x.name, flags + tail);
    var at := 4 + |x.name|;
    assert s[at] == (flags + tail)[0] && s[at + 1] == (flags + tail)[1];
    assert s[at + 2..] == tail by { assert s[at..][2..] == tail; }
    U32Back(|x.columns|, refs);
    assert s[at + 6..] == refs by { assert s[at + 2..][4..] == refs; }
    RefsBack(x.columns, cols, rest);
  }

  lemma {:induction false} SplitIndexes(seen: seq<IndexDef>, xs: seq<IndexDef>, cols: seq<ColumnDef>)
    requires IndexesOk(seen + xs, cols)
    ensures IndexesOk(seen, cols)
    ensures xs != [] ==> IndexOk(xs[0], cols) && NewIndex(xs[0], seen)
    decreases |xs|
  {
    hide IndexOk, NewIndex;
    if xs == [] {
      assert seen + xs == seen;
    } else {
      var n := |xs| - 1;
      assert (seen + xs)[..|seen + xs| - 1] == seen + xs[..n];
      SplitIndexes(seen, xs[..n], cols);
      if n == 0 {
        assert seen + xs[..0] == seen;
      }
    }
  }

  lemma {:induction false} IndexesBack(seen: seq<IndexDef>, xs: seq<IndexDef>, cols: seq<ColumnDef>, rest: bytes)
    requires IndexesOk(seen + xs, cols)
    ensures ParseIndexes(IndexesBytes(xs) + rest, |xs|, cols, seen) == Some(Read(seen + xs, |IndexesBytes(xs)|))
    decreases |xs|
  {
    hide IndexBytes, ParseIndex, IndexOk, IndexesOk;
    if xs == [] {
      assert seen + xs == seen;
    } else {
      SplitIndexes(seen, xs, cols);
      var tail := IndexesBytes(xs[1..]) + rest;
      var s := IndexesBytes(xs) + rest;
      assert s == IndexBytes(xs[0]) + tail;
      IndexBack(xs[0], cols, tail);
      assert s[|IndexBytes(xs[0])|..] == tail;
      assert seen + [xs[0]] + xs[1..] == seen + xs;
      IndexesBack(seen + [xs[0]], xs[1..], cols, rest);
    }
  }

  lemma {:induction false} BodyBack(t: TableDef, rest: bytes)
    requires TableOk(t)
    ensures var body := ToLE(|t.columns|, 4) + ColumnsBytes(t.columns) + ToLE(|t.indexes|, 4) + IndexesBytes(t.indexes);
      ParseBody(body + rest, t.id, t.name) == Some(Read(t.(isEvent := false), |body|))
  {
    hide ToLE, U32, ColumnsBytes, IndexesBytes, ParseColumns, ParseIndexes, ColumnsOk, IndexesOk, AutoBacked, NameOk;
    var colBytes, idxBytes := ColumnsBytes(t.columns), IndexesBytes(t.indexes);
    var s := ToLE(|t.columns|, 4) + colBytes + ToLE(|t.indexes|, 4) + idxBytes + rest;
    var a := ToLE(|t.indexes|, 4) + (idxBytes + rest);
    assert s == ToLE(|t.columns|, 4) + (colBytes + a);
    U32Back(|t.columns|, colBytes + a);
    assert [] + t.columns == t.columns && [] + t.indexes == t.indexes;
    ColumnsBack([], t.columns, a);
    assert s[4 + |colBytes|..] == a by { assert s[4..][|colBytes|..] == a; }
    U32Back(|t.indexes|, idxBytes + rest);
    assert s[8 + |colBytes|..] == idxBytes + rest by { assert s[4 + |colBytes|..][4..] == idxBytes + rest; }
    IndexesBack([], t.indexes, t.columns, rest);
  }

  lemma {:induction false} TableBack(t: TableDef, rest: bytes)
    requires TableOk(t)
    ensures ParseTable(TableBytes(t) + rest) == Some(Read(t.(isEvent := false), |TableBytes(t)|))
  {
    hide ToLE, U32, Str, ValidUtf8, Prefix, ColumnsBytes, IndexesBytes, ParseBody, ColumnsOk, IndexesOk, AutoBacked;
    var body := ToLE(|t.columns|, 4) + ColumnsBytes(t.columns) + ToLE(|t.indexes|, 4) + IndexesBytes(t.indexes);
    var s := TableBytes(t) + rest;
    assert s == ToLE(t.id, 4) + (Prefix(t.name) + (body + rest));
    U32Back(t.id, Prefix(t.name) + (body + rest));
    StrBack(t.name, body + rest);
    assert s[8 + |t.name|..] == body + rest by { assert s[4..][4 + |t.name|..] == body + rest; }
    BodyBack(t, rest);
  }

  /** The tables as they stand before the event flags are read. */
  function Unflagged(ts: seq<TableDef>): (r: seq<TableDef>)
    ensures |r| == |ts| && forall i :: 0 <= i < |ts| ==> r[i] == ts[i].(isEvent := false)
  {
    seq(|ts|, i requires 0 <= i < |ts| => ts[i].(isEvent := false))
  }

  lemma {:induction false} SplitTables(seen: seq<TableDef>, ts: seq<TableDef>)
    requires TablesOk(seen + ts)
    ensures TablesOk(seen)
    ensures ts != [] ==> TableOk(ts[0]) && NewTable(ts[0], seen)
    decreases |ts|
  {
    hide TableOk, NewTable;
    if ts == [] {
      assert seen + ts == seen;
    } else {
      var n := |ts| - 1;
      assert (seen + ts)[..|seen + ts| - 1] == seen + ts[..n];
      SplitTables(seen, ts[..n]);
      if n == 0 {
        assert seen + ts[..0] == seen;
      }
    }
  }

  lemma {:induction false} TablesBack(seen: seq<TableDef>, ts: seq<TableDef>, rest: bytes)
    requires TablesOk(seen + ts)
    ensures ParseTables(TablesBytes(ts) + rest, |ts|, Unflagged(seen)) ==
      Some(Read(Unflagged(seen + ts), |TablesBytes(ts)|))
    decreases |ts|
  {
    hide TableBytes, ParseTable, TableOk, TablesOk;
    if ts == [] {
      assert seen + ts == seen;
    } else {
      SplitTables(seen, ts);
      var tail := TablesBytes(ts[1..]) + rest;
      var s := TablesBytes(ts) + rest;
      assert s == TableBytes(ts[0]) + tail;
      TableBack(ts[0], tail);
      assert s[|TableBytes(ts[0])|..] == tail;
      assert seen + [ts[0]] + ts[1..] == seen + ts;
      assert Unflagged(seen + [ts[0]]) == Unflagged(seen) + [ts[0].(isEvent := false)];
      TablesBack(seen + [ts[0]], ts[1..], rest);
    }
  }

  // ---- event flags --------------------------------------------------------

  lemma {:induction false} DistinctTables(ts: seq<TableDef>)
    requires TablesOk(ts)
    ensures forall i, j :: 0 <= i < j < |ts| ==> ts[i].id != ts[j].id
    decreases |ts|
  {
    hide TableOk;
    if ts != [] {
      var n := |ts| - 1;
      DistinctTables(ts[..n]);
      forall i, j | 0 <= i < j < |ts| ensures ts[i].id != ts[j].id {
        assert ts[i] == ts[..n][i];
        if j < n {
          assert ts[j] == ts[..n][j];
        }
      }
    }
  }

  /** The first k tables flagged, the others not yet. */
  function PartFlagged(ts: seq<TableDef>, k: nat): (r: seq<TableDef>)
    requires k <= |ts|
    ensures |r| == |ts|
    ensures forall i :: 0 <= i < |ts| ==> r[i] == if i < k then ts[i] else ts[i].(isEvent := false)
  {
    ts[..k] + Unflagged(ts[k..])
  }

  function FirstIds(ts: seq<TableDef>, k: nat): (r: set<nat>)
    requires k <= |ts|
  {
    set i | 0 <= i < k :: ts[i].id as nat
  }

  /** One turn of the event flag loop. */
  lemma {:induction false} FlagStepBack(ts: seq<TableDef>, k: nat, tail: bytes)
    requires k < |ts| && forall i, j :: 0 <= i < j < |ts| ==> ts[i].id != ts[j].id
    ensures ParseFlags(ToLE(ts[k].id, 4) + ([Flag(ts[k].isEvent)] + tail), |ts| - k, PartFlagged(ts, k),
                       FirstIds(ts, k))
         == ParseFlags(tail, |ts| - k - 1, PartFlagged(ts, k + 1), FirstIds(ts, k + 1))
  {
    hide ToLE, U32, Find, PartFlagged;
    var t, now := ts[k], PartFlagged(ts, k);
    var s := ToLE(t.id, 4) + ([Flag(t.isEvent)] + tail);
    U32Back(t.id, [Flag(t.isEvent)] + tail);
    assert s[4] == s[4..][0] && s[5..] == s[4..][1..] == tail;
    assert Find(now, t.id) == Some(k) by {
      assert now[k].id == t.id;
      var i := Find(now, t.id).value;
      assert ts[i].id == now[i].id;
    }
    assert now[k := now[k].(isEvent := t.isEvent)] == PartFlagged(ts, k + 1);
    IdsGrow(ts, k);
  }

  lemma {:induction false} IdsGrow(ts: seq<TableDef>, k: nat)
    requires k < |ts| && forall i, j :: 0 <= i < j < |ts| ==> ts[i].id != ts[j].id
    ensures ts[k].id !in FirstIds(ts, k) && FirstIds(ts, k) + {ts[k].id as nat} == FirstIds(ts, k + 1)
  {
  }

  lemma {:induction false} FlagsBack(ts: seq<TableDef>, k: nat, rest: bytes)
    requires k <= |ts| && forall i, j :: 0 <= i < j < |ts| ==> ts[i].id != ts[j].id
    ensures ParseFlags(FlagsBytes(ts[k..]) + rest, |ts| - k, PartFlagged(ts, k), FirstIds(ts, k))
      == if rest == [] then Some(ts) else None
    decreases |ts| - k
  {
    if k == |ts| {
      hide U32, Find;
      assert PartFlagged(ts, k) == ts && FlagsBytes(ts[k..]) + rest == rest;
    } else {
      hide ToLE, ParseFlags, PartFlagged, FirstIds;
      var tail := FlagsBytes(ts[k + 1..]) + rest;
      assert ts[k..][1..] == ts[k + 1..];
      assert FlagsBytes(ts[k..]) + rest == ToLE(ts[k].id, 4) + ([Flag(ts[k].isEvent)] + tail);
      FlagStepBack(ts, k, tail);
      FlagsBack(ts, k + 1, rest);
    }
  }

  /**
   * The codec gives back every well-formed schema, event flags included, and takes nothing
   * behind it.
   */
  lemma {:induction false} SchemaRoundTrip(sch: Schema, trailing: bytes)
    requires WellFormed(sch)
    ensures Decode(Encode(sch) + trailing) == if trailing == [] then Some(sch) else None
  {
    hide ToLE, U32, TablesBytes, FlagsBytes, ParseTables, ParseFlags, TablesOk;
    var ts, n := sch.tables, |sch.tables|;
    var flags := FlagsBytes(ts) + trailing;
    var events := EVENT_MAGIC + (ToLE(n, 4) + flags);
    var s := Encode(sch) + trailing;
    assert s == ToLE(sch.version, 4) + (ToLE(n, 4) + (TablesBytes(ts) + events));
    U32Back(sch.version, ToLE(n, 4) + (TablesBytes(ts) + events));
    U32Back(n, TablesBytes(ts) + events);
    assert s[8..] == TablesBytes(ts) + events by { assert s[4..][4..] == TablesBytes(ts) + events; }
    assert [] + ts == ts && Unflagged([]) == [];
    TablesBack([], ts, events);
    assert s[8 + |TablesBytes(ts)|..] == events by { assert s[8..][|TablesBytes(ts)|..] == events; }
    EventsBack(ts, trailing);
  }

  lemma {:induction false} EventsBack(ts: seq<TableDef>, trailing: bytes)
    requires |ts| <= MAX_U32 && TablesOk(ts)
    ensures ParseEvents(EVENT_MAGIC + (ToLE(|ts|, 4) + (FlagsBytes(ts) + trailing)), Unflagged(ts))
         == if trailing == [] then Some(ts) else None
  {
    hide ToLE, U32, FlagsBytes, ParseFlags, TablesOk;
    var flags := FlagsBytes(ts) + trailing;
    var events := EVENT_MAGIC + (ToLE(|ts|, 4) + flags);
    assert events[..4] == EVENT_MAGIC && events[4..] == ToLE(|ts|, 4) + flags;
    U32Back(|ts|, flags);
    assert events[8..] == events[4..][4..] == flags;
    DistinctTables(ts);
    assert ts[0..] == ts && PartFlagged(ts, 0) == Unflagged(ts) && FirstIds(ts, 0) == {};
    FlagsBack(ts, 0, trailing);
  }

  // ---- what is accepted is well formed -----------------------------------

  lemma {:induction false} ColumnSound(s: bytes)
    requires ParseColumn(s).Some?
    ensures ColumnOk(ParseColumn(s).value.value)
  {
    hide ValidUtf8, FromLE;
  }

  lemma {:induction false} ColumnsSound(s: bytes, count: nat, seen: seq<ColumnDef>)
    requires ColumnsOk(seen) && ParseColumns(s, count, seen).Some?
    ensures ColumnsOk(ParseColumns(s, count, seen).value.value)
    decreases count
  {
    hide ParseColumn, ColumnOk, NewColumn;
    if count > 0 {
      var c := ParseColumn(s).value;
      ColumnSound(s);
      assert (seen + [c.value])[..|seen|] == seen;
      ColumnsSound(s[c.used..], count - 1, seen + [c.value]);
    }
  }

  lemma {:induction false} RefsSound(s: bytes, count: nat, cols: seq<ColumnDef>)
    requires ParseRefs(s, count, cols).Some?
    ensures RefsOk(ParseRefs(s, count, cols).value.value, cols)
    decreases count
  {
    hide HasColumn, U32;
    if count > 0 {
      RefsSound(s[4..], count - 1, cols);
    }
  }

  lemma {:induction false} IndexSound(s: bytes, id: nat, cols: seq<ColumnDef>)
    requires ParseIndex(s, id, cols).Some?
    ensures IndexOk(ParseIndex(s, id, cols).value.value, cols) && ParseIndex(s, id, cols).value.value.id == id
  {
    hide ValidUtf8, FromLE, ParseRefs, RefsOk;
    var at := Str(s).value.used;
    RefsSound(s[at + 6..], U32(s[at + 2..]).value.value, cols);
  }

  lemma {:induction false} IndexesSound(s: bytes, count: nat, cols: seq<ColumnDef>, seen: seq<IndexDef>)
    requires IndexesOk(seen, cols) && ParseIndexes(s, count, cols, seen).Some?
    ensures IndexesOk(ParseIndexes(s, count, cols, seen).value.value, cols)
    decreases count
  {
    hide ParseIndex, IndexOk, NewIndex;
    if count > 0 {
      var x := ParseIndex(s, |seen|, cols).value;
      IndexSound(s, |seen|, cols);
      assert (seen + [x.value])[..|seen|] == seen;
      IndexesSound(s[x.used..], count - 1, cols, seen + [x.value]);
    }
  }

  lemma {:induction false} TableSound(s: bytes)
    requires ParseTable(s).Some?
    ensures TableOk(ParseTable(s).value.value)
  {
    hide ValidUtf8, FromLE, ParseColumns, ParseIndexes, ColumnsOk, IndexesOk, AutoBacked;
    var name := Str(s[4..]).value;
    var b := s[4 + name.used..];
    var n := U32(b).value.value;
    var cols := ParseColumns(b[4..], n, []).value;
    NothingYet(cols.value);
    ColumnsSound(b[4..], n, []);
    IndexesSound(b[8 + cols.used..], U32(b[4 + cols.used..]).value.value, cols.value, []);
  }

  lemma {:induction false} NothingYet(cols: seq<ColumnDef>)
    ensures ColumnsOk([]) && IndexesOk([], cols) && TablesOk([])
  {
  }

  lemma {:induction false} TablesSound(s: bytes, count: nat, seen: seq<TableDef>)
    requires TablesOk(seen) && ParseTables(s, count, seen).Some?
    ensures TablesOk(ParseTables(s, count, seen).value.value)
    decreases count
  {
    hide ParseTable, TableOk, NewTable;
    if count > 0 {
      var t := ParseTable(s).value;
      TableSound(s);
      assert (seen + [t.value])[..|seen|] == seen;
      TablesSound(s[t.used..], count - 1, seen + [t.value]);
    }
  }

  /** Flagging a table changes nothing the checks look at. */
  lemma {:induction false} FlagKeeps(ts: seq<TableDef>, i: nat, e: bool)
    requires TablesOk(ts) && i < |ts|
    ensures TablesOk(ts[i := ts[i].(isEvent := e)])
    decreases |ts|
  {
    hide ColumnsOk, IndexesOk, AutoBacked, NameOk;
    var n := |ts| - 1;
    var us := ts[i := ts[i].(isEvent := e)];
    if i < n {
      FlagKeeps(ts[..n], i, e);
      assert us[..n] == ts[..n][i := ts[..n][i].(isEvent := e)];
      assert us[n] == ts[n];
    } else {
      assert us[..n] == ts[..n];
    }
  }

  lemma {:induction false} FlagsSound(s: bytes, count: nat, ts: seq<TableDef>, flagged: set<nat>)
    requires TablesOk(ts) && ParseFlags(s, count, ts, flagged).Some?
    ensures TablesOk(ParseFlags(s, count, ts, flagged).value) && |ParseFlags(s, count, ts, flagged).value| == |ts|
    decreases count
  {
    hide U32, TablesOk;
    if count > 0 {
      var id := U32(s).value.value;
      var i := Find(ts, id).value;
      FlagKeeps(ts, i, s[4] == 1);
      FlagsSound(s[5..], count - 1, ts[i := ts[i].(isEvent := s[4] == 1)], flagged + {id});
    }
  }

  /**
   * Whatever the decoder accepts is well formed: no repeated table or column, no index on a missing
   * column, index IDs equal to their positions, at most one primary index, auto-increment backed.
   */
  lemma {:induction false} DecodedIsWellFormed(s: bytes)
    requires Decode(s).Some?
    ensures WellFormed(Decode(s).value)
  {
    hide U32, ParseTables, ParseFlags, TablesOk;
    var n := U32(s[4..]).value.value;
    NothingYet([]);
    TablesSound(s[8..], n, []);
    var ts := ParseTables(s[8..], n, []).value;
    var rest := s[8 + ts.used..];
    if rest != [] {
      FlagsSound(rest[8..], U32(rest[4..]).value.value, ts.value, {});
    }
  }

  // ---- the decoding loops, in place --------------------------------------

  function Shifted<T>(n: nat, r: Option<Read<T>>): Option<Read<T>> {
    match r
    case None => None
    case Some(x) => Some(Read(x.value, n + x.used))
  }

  /** The outcome of a loop that left off at pos agrees with the parse from start. */
  predicate Ends<T(==)>(parsed: Option<Read<T>>, start: nat, r: Option<T>, pos: nat) {
    match parsed
    case None => r == None
    case Some(x) => r == Some(x.value) && pos == start + x.used
  }

  lemma {:induction false} ColumnStep(s: bytes, count: nat, seen: seq<ColumnDef>, from: nat)
    ensures count == 0 ==> Shifted(from, ParseColumns(s, count, seen)) == Some(Read(seen, from))
    ensures count > 0 && (ParseColumn(s).None? || !NewColumn(ParseColumn(s).value.value, seen)) ==>
      Shifted(from, ParseColumns(s, count, seen)) == None
    ensures count > 0 && ParseColumn(s).Some? && NewColumn(ParseColumn(s).value.value, seen) ==>
      var c := ParseColumn(s).value;
      Shifted(from, ParseColumns(s, count, seen)) ==
          Shifted(from + c.used, ParseColumns(s[c.used..], count - 1, seen + [c.value]))
  {
    hide ParseColumn, NewColumn;
  }

  /** The column loop, with the seen indexes and names in sets. */
  method ReadColumns(s: bytes, start: nat, count: nat) returns (r: Option<seq<ColumnDef>>, pos: nat)
    requires start <= |s|
    ensures Ends(ParseColumns(s[start..], count, []), start, r, pos)
  {
    hide ParseColumn, ParseColumns, NewColumn, Shifted;
    pos := start;
    StartShift(ParseColumns(s[start..], count, []));
    assert forall c: ColumnDef :: NewColumn(c, []) by { NoColumns(); }
    var cols: seq<ColumnDef> := [];
    var seenColumns: set<nat>, seenNames: set<bytes> := {}, {};
    for i := 0 to count
      invariant start <= pos <= |s|
      invariant forall c: ColumnDef :: NewColumn(c, cols) <==> c.index !in seenColumns && c.name !in seenNames
      invariant ParseColumns(s[start..], count, []) == Shifted(pos - start, ParseColumns(s[pos..], count - i, cols))
    {
      ColumnStep(s[pos..], count - i, cols, pos - start);
      var c := ParseColumn(s[pos..]);
      if c.None? || c.value.value.index in seenColumns || c.value.value.name in seenNames {
        return None, pos;
      }
      assert s[pos..][c.value.used..] == s[pos + c.value.used..];
      OneColumnMore(cols, c.value.value, seenColumns, seenNames);
      cols := cols + [c.value.value];
      seenColumns, seenNames := seenColumns + {c.value.value.index}, seenNames + {c.value.value.name};
      pos := pos + c.value.used;
    }
    ColumnStep(s[pos..], 0, cols, pos - start);
    return Some(cols), pos;
  }

  lemma {:induction false} NoColumns()
    ensures forall c: ColumnDef :: NewColumn(c, [])
  {
  }

  lemma {:induction false} StartShift<T>(r: Option<Read<T>>)
    ensures Shifted(0, r) == r
  {
  }

  lemma {:induction false} OneColumnMore(cols: seq<ColumnDef>, c: ColumnDef, indexes: set<nat>, names: set<bytes>)
    requires forall d: ColumnDef :: NewColumn(d, cols) <==> d.index !in indexes && d.name !in names
    ensures forall d: ColumnDef :: NewColumn(d, cols + [c]) <==>
      d.index !in indexes + {c.index} && d.name !in names + {c.name}
  {
    forall d: ColumnDef ensures NewColumn(d, cols + [c]) <==>
      NewColumn(d, cols) && d.index != c.index && d.name != c.name
    {
      if NewColumn(d, cols + [c]) {
        assert (cols + [c])[|cols|] == c;
        assert forall i :: 0 <= i < |cols| ==> (cols + [c])[i] == cols[i];
      }
    }
  }

  lemma {:induction false} IndexStep(s: bytes, count: nat, cols: seq<ColumnDef>, seen: seq<IndexDef>, from: nat)
    ensures count == 0 ==> Shifted(from, ParseIndexes(s, count, cols, seen)) == Some(Read(seen, from))
    ensures
      (count > 0 && (ParseIndex(s, |seen|, cols).None? || !NewIndex(ParseIndex(s, |seen|, cols).value.value, seen))) ==>
      Shifted(from, ParseIndexes(s, count, cols, seen)) == None
    ensures
      (count > 0 && ParseIndex(s, |seen|, cols).Some? && NewIndex(ParseIndex(s, |seen|, cols).value.value, seen)) ==>
      var x := ParseIndex(s, |seen|, cols).value;
      Shifted(from, ParseIndexes(s, count, cols, seen))
        == Shifted(from + x.used, ParseIndexes(s[x.used..], count - 1, cols, seen + [x.value]))
  {
    hide ParseIndex, NewIndex;
  }

  /** The index loop, counting primary indexes and numbering the indexes as they come. */
  method ReadIndexes(s: bytes, start: nat, count: nat, cols: seq<ColumnDef>)
    returns (r: Option<seq<IndexDef>>, pos: nat)
    requires start <= |s|
    ensures Ends(ParseIndexes(s[start..], count, cols, []), start, r, pos)
  {
    hide ParseIndex, ParseIndexes, NewIndex, Shifted;
    pos := start;
    StartShift(ParseIndexes(s[start..], count, cols, []));
    assert forall x: IndexDef :: x.id == 0 ==> NewIndex(x, []) by { NoIndexes(); }
    var xs: seq<IndexDef> := [];
    var seenNames: set<bytes>, primaries := {}, 0;
    for i := 0 to count
      invariant start <= pos <= |s| && |xs| == i
      invariant forall x: IndexDef :: x.id == i ==>
        (NewIndex(x, xs) <==> x.name !in seenNames && !(x.primary && primaries > 0))
      invariant ParseIndexes(s[start..], count, cols, []) ==
        Shifted(pos - start, ParseIndexes(s[pos..], count - i, cols, xs))
    {
      IndexStep(s[pos..], count - i, cols, xs, pos - start);
      var x := ParseIndex(s[pos..], i, cols);
      if x.None? {
        return None, pos;
      }
      IndexSound(s[pos..], i, cols);
      if x.value.value.name in seenNames {
        return None, pos;
      }
      if x.value.value.primary && primaries + 1 > 1 {
        return None, pos;
      }
      assert s[pos..][x.value.used..] == s[pos + x.value.used..];
      OneIndexMore(xs, x.value.value, seenNames, primaries);
      xs := xs + [x.value.value];
      seenNames := seenNames + {x.value.value.name};
      primaries := if x.value.value.primary then primaries + 1 else primaries;
      pos := pos + x.value.used;
    }
    IndexStep(s[pos..], 0, cols, xs, pos - start);
    return Some(xs), pos;
  }

  lemma {:induction false} NoIndexes()
    ensures forall x: IndexDef :: x.id == 0 ==> NewIndex(x, [])
  {
  }

  lemma {:induction false} OneIndexMore(xs: seq<IndexDef>, x: IndexDef, names: set<bytes>, primaries: nat)
    requires forall y: IndexDef :: y.id == |xs| ==>
      (NewIndex(y, xs) <==> y.name !in names && !(y.primary && primaries > 0))
    ensures forall y: IndexDef :: y.id == |xs| + 1 ==>
      (NewIndex(y, xs + [x]) <==> y.name !in names + {x.name} && !(y.primary && (x.primary || primaries > 0)))
  {
    forall y: IndexDef | y.id == |xs| + 1
      ensures NewIndex(y, xs + [x]) <==> NewIndex(y.(id := |xs|), xs) && y.name != x.name && !(y.primary && x.primary)
    {
      if NewIndex(y, xs + [x]) {
        assert (xs + [x])[|xs|] == x;
        assert forall i :: 0 <= i < |xs| ==> (xs + [x])[i] == xs[i];
      }
    }
  }

  /** The event flag loop, which marks tables in place and remembers which it has seen. */
  method ReadEventFlags(s: bytes, tables: seq<TableDef>) returns (r: Option<seq<TableDef>>)
    ensures r == ParseEvents(s, tables)
  {
    hide U32, Find;
    if s == [] {
      return Some(tables);
    }
    if |s| < 8 || s[..4] != EVENT_MAGIC {
      return None;
    }
    var n := U32(s[4..]);
    if n.None? || n.value.value != |tables| {
      return None;
    }
    var ts, pos, seen: set<nat> := tables, 8, {};
    for i := 0 to |tables|
      invariant 8 <= pos <= |s| && |ts| == |tables|
      invariant ParseFlags(s[8..], |tables|, tables, {}) == ParseFlags(s[pos..], |tables| - i, ts, seen)
    {
      var id := U32(s[pos..]);
      if id.None? || pos + 5 > |s| || s[pos + 4] > 1 {
        return None;
      }
      var at := Find(ts, id.value.value);
      if at.None? || id.value.value in seen {
        return None;
      }
      assert s[pos..][4] == s[pos + 4] && s[pos..][5..] == s[pos + 5..];
      seen := seen + {id.value.value};
      ts := ts[at.value := ts[at.value].(isEvent := s[pos + 4] == 1)];
      pos := pos + 5;
    }
    if pos != |s| {
      return None;
    }
    return Some(ts);
  }

  lemma {:induction false} TableStep(s: bytes, count: nat, seen: seq<TableDef>, from: nat)
    ensures count == 0 ==> Shifted(from, ParseTables(s, count, seen)) == Some(Read(seen, from))
    ensures count > 0 && (ParseTable(s).None? || !NewTable(ParseTable(s).value.value, seen)) ==>
      Shifted(from, ParseTables(s, count, seen)) == None
    ensures count > 0 && ParseTable(s).Some? && NewTable(ParseTable(s).value.value, seen) ==>
      var t := ParseTable(s).value;
      Shifted(from, ParseTables(s, count, seen)) ==
          Shifted(from + t.used, ParseTables(s[t.used..], count - 1, seen + [t.value]))
  {
    hide ParseTable, NewTable;
  }

  /** DecodeSchemaSnapshot's table loop, with the seen IDs and names in sets. */
  method ReadTables(s: bytes, start: nat, count: nat) returns (r: Option<seq<TableDef>>, pos: nat)
    requires start <= |s|
    ensures Ends(ParseTables(s[start..], count, []), start, r, pos)
  {
    hide ParseTable, ParseTables, NewTable, Shifted;
    pos := start;
    StartShift(ParseTables(s[start..], count, []));
    assert forall t: TableDef :: NewTable(t, []) by { NoTables(); }
    var ts: seq<TableDef> := [];
    var seenTables: set<u32>, seenNames: set<bytes> := {}, {};
    for i := 0 to count
      invariant start <= pos <= |s|
      invariant forall t: TableDef :: NewTable(t, ts) <==> t.id !in seenTables && t.name !in seenNames
      invariant ParseTables(s[start..], count, []) == Shifted(pos - start, ParseTables(s[pos..], count - i, ts))
    {
      TableStep(s[pos..], count - i, ts, pos - start);
      var t := ReadTable(s, pos);
      if t.None? || t.value.value.id in seenTables || t.value.value.name in seenNames {
        return None, pos;
      }
      assert s[pos..][t.value.used..] == s[pos + t.value.used..];
      OneTableMore(ts, t.value.value, seenTables, seenNames);
      ts := ts + [t.value.value];
      seenTables, seenNames := seenTables + {t.value.value.id}, seenNames + {t.value.value.name};
      pos := pos + t.value.used;
    }
    TableStep(s[pos..], 0, ts, pos - start);
    return Some(ts), pos;
  }

  lemma {:induction false} NoTables()
    ensures forall t: TableDef :: NewTable(t, [])
  {
  }

  lemma {:induction false} OneTableMore(ts: seq<TableDef>, t: TableDef, ids: set<u32>, names: set<bytes>)
    requires forall u: TableDef :: NewTable(u, ts) <==> u.id !in ids && u.name !in names
    ensures forall u: TableDef :: NewTable(u, ts + [t]) <==> u.id !in ids + {t.id} && u.name !in names + {t.name}
  {
    forall u: TableDef ensures NewTable(u, ts + [t]) <==> NewTable(u, ts) && u.id != t.id && u.name != t.name {
      if NewTable(u, ts + [t]) {
        assert (ts + [t])[|ts|] == t;
        assert forall i :: 0 <= i < |ts| ==> (ts + [t])[i] == ts[i];
      }
    }
  }

  method ReadTable(s: bytes, start: nat) returns (r: Option<Read<TableDef>>)
    requires start <= |s|
    ensures r == ParseTable(s[start..])
  {
    hide U32, Str, ParseColumns, ParseIndexes, AutoBacked;
    var b := s[start..];
    var id := U32(b);
    if id.None? {
      return None;
    }
    var name := Str(b[4..]);
    if name.None? || name.value.value == [] {
      return None;
    }
    var at := 4 + name.value.used;
    assert b[at..] == s[start + at..];
    var n := U32(b[at..]);
    if n.None? || n.value.value == 0 {
      return None;
    }
    assert b[at..][4..] == s[start + at + 4..];
    var cols, pos := ReadColumns(s, start + at + 4, n.value.value);
    if cols.None? {
      return None;
    }
    assert b[at..][pos - start - at..] == s[pos..];
    var m := U32(s[pos..]);
    if m.None? {
      return None;
    }
    assert b[at..][pos + 4 - start - at..] == s[pos + 4..];
    var xs, end := ReadIndexes(s, pos + 4, m.value.value, cols.value);
    if xs.None? || !AutoBacked(cols.value, xs.value) {
      return None;
    }
    return Some(Read(TableDef(id.value.value, name.value.value, cols.value, xs.value, false), end - start));
  }
}
