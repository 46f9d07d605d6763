/** The BSATN codec for single column values. */
module Bsatn {
  import opened Bytes
  import opened Utf8

  const MAX_VALUE: nat := 0x400_0000      // 64 MiB for the payload of one value
  const MAX_ITEMS: nat := 0x10_0000       // strings in one array

  /** The value kinds; the number of a kind is its tag byte. */
  type Kind = k: int | 0 <= k <= 21

  const BOOL: Kind := 0
  const STRING: Kind := 11
  const BYTES: Kind := 12
  const STRINGS: Kind := 18
  const UUID: Kind := 19
  const JSON: Kind := 21

  /** How the payload of a kind is laid out. Wide integers are 64-bit words. */
  datatype Layout =
    | OneBool
    | Integer(width: nat, signed: bool)
    | FloatBits(width: nat)
    | WideWords(count: nat)
    | LengthPrefixed
    | StringArray
    | SixteenBytes

  function LayoutOf(k: Kind): (r: Layout) {
    match k
    case 0 => OneBool
    case 1 => Integer(1, true)
    case 2 => Integer(1, false)
    case 3 => Integer(2, true)
    case 4 => Integer(2, false)
    case 5 => Integer(4, true)
    case 6 => Integer(4, false)
    case 7 => Integer(8, true)
    case 8 => Integer(8, false)
    case 9 => FloatBits(4)
    case 10 => FloatBits(8)
    case 11 => LengthPrefixed
    case 12 => LengthPrefixed
    case 13 => WideWords(2)
    case 14 => WideWords(2)
    case 15 => WideWords(4)
    case 16 => WideWords(4)
    case 17 => Integer(8, true)
    case 18 => StringArray
    case 19 => SixteenBytes
    case 20 => Integer(8, true)
    case _ => LengthPrefixed
  }

  /** A column value. Strings are their bytes; wide integers their words, the most significant first. */
  datatype Value =
    | Null(of: Kind)
    | Bool(b: bool)
    | Number(kind: Kind, n: int)
    | Float(kind: Kind, bits: nat)
    | Wide(kind: Kind, words: seq<u64>)
    | Text(s: bytes)
    | Blob(data: bytes)
    | Strings(items: seq<bytes>)
    | Uuid(u: bytes)
    | Json(j: bytes)

  function KindOf(v: Value): (k: Kind) {
    match v
    case Null(k) => k
    case Bool(_) => BOOL
    case Number(k, _) => k
    case Float(k, _) => k
    case Wide(k, _) => k
    case Text(_) => STRING
    case Blob(_) => BYTES
    case Strings(_) => STRINGS
    case Uuid(_) => UUID
    case Json(_) => JSON
  }

  /** The canonical form of JSON text; None where it is rejected. Left uninterpreted. */
  const Canonical: bytes -> Option<bytes>

  predicate InRange(n: int, width: nat, signed: bool) {
    if signed then 0 <= 2 * n + Range(width) < 2 * Range(width) else 0 <= n < Range(width)
  }

  predicate NotANumber(bits: nat, width: nat) {
    if width == 4 then (bits / 0x80_0000) % 0x100 == 0xFF && bits % 0x80_0000 != 0
    else (bits / 0x10_0000_0000_0000) % 0x800 == 0x7FF && bits % 0x10_0000_0000_0000 != 0
  }

  /** What the value constructors guarantee; strings may hold any bytes, of any length. */
  predicate WellTyped(v: Value) {
    match v
    case Number(k, n) => LayoutOf(k).Integer? && InRange(n, LayoutOf(k).width, LayoutOf(k).signed)
    case Float(k, bits) => LayoutOf(k).FloatBits? && bits < Range(LayoutOf(k).width) &&
      !NotANumber(bits, LayoutOf(k).width)
    case Wide(k, words) => LayoutOf(k).WideWords? && |words| == LayoutOf(k).count
    case Uuid(u) => |u| == 16
    case Json(j) => Canonical(j) == Some(j)
    case _ => true
  }

  // ---- encoding -----------------------------------------------------------

  predicate AllUtf8(xs: seq<bytes>) {
    forall i :: 0 <= i < |xs| ==> ValidUtf8(xs[i])
  }

  datatype CodecError =
    | NullWithoutSchema
    | InvalidUtf8
    | TooLarge
    | InvalidBool
    | InvalidPresence
    | InvalidFloat
    | InvalidJson
    | UnknownTag(tag: byte)
    | TagMismatch(expected: Kind, got: byte)
    | RowShape(columns: nat, read: nat)
    | EndOfFile
    | UnexpectedEof

  /** Two's complement. */
  function Unsigned(n: int, width: nat): (r: nat)
    requires InRange(n, width, true) || InRange(n, width, false)
    ensures r < Range(width)
  {
    if n < 0 then n + Range(width) else n
  }

  function Signed(u: nat, width: nat): (r: int) {
    if 2 * u >= Range(width) then u - Range(width) else u
  }

  function WordBytes(words: seq<u64>): (r: bytes)
    ensures |r| == 8 * |words|
  {
    if words == [] then [] else WordBytes(words[1..]) + ToLE(words[0], 8)
  }

  function Prefix(b: bytes): (r: bytes)
    ensures |r| == 4 + |b|
  {
    ToLE(|b|, 4) + b
  }

  function ItemBytes(xs: seq<bytes>): (r: bytes) {
    if xs == [] then [] else Prefix(xs[0]) + ItemBytes(xs[1..])
  }

  function ItemsSize(xs: seq<bytes>): (r: nat) {
    if xs == [] then 0 else 4 + |xs[0]| + ItemsSize(xs[1..])
  }

  /** The payload behind the tag byte. */
  function EncodePayload(v: Value): (r: Result<bytes, CodecError>)
    requires WellTyped(v) && !v.Null?
  {
    match v
    case Bool(b) => Ok([if b then 1 else 0])
    case Number(k, n) => Ok(ToLE(Unsigned(n, LayoutOf(k).width), LayoutOf(k).width))
    case Float(k, bits) => Ok(ToLE(bits, LayoutOf(k).width))
    case Wide(_, words) => Ok(WordBytes(words))
    case Text(s) =>
      if !ValidUtf8(s) then Err(InvalidUtf8) else if |s| > MAX_VALUE then Err(TooLarge) else Ok(Prefix(s))
    case Blob(data) => if |data| > MAX_VALUE then Err(TooLarge) else Ok(Prefix(data))
    case Strings(xs) =>
      if |xs| > MAX_ITEMS then Err(TooLarge)
      else if !AllUtf8(xs) then Err(InvalidUtf8)
      else if !WithinBudget(xs, 4) then Err(TooLarge)
      else Ok(ToLE(|xs|, 4) + ItemBytes(xs))
    case Uuid(u) => Ok(u)
    case Json(j) => if |j| > MAX_VALUE then Err(TooLarge) else Ok(Prefix(j))
  }

  /** The running check of validateArrayStringPayloadSize, `used` bytes being taken already. */
  predicate WithinBudget(xs: seq<bytes>, used: nat)
    requires used <= MAX_VALUE
    decreases xs
  {
    xs == [] ||
    (&& !(used > MAX_VALUE - 4 || |xs[0]| > MAX_VALUE - used - 4)
     && WithinBudget(xs[1..], used + 4 + |xs[0]|))
  }

  method ValidateArrayStringPayloadSize(xs: seq<bytes>) returns (ok: bool)
    ensures ok <==> 4 + ItemsSize(xs) <= MAX_VALUE
  {
    var used := 4;
    for i := 0 to |xs|
      invariant 4 <= used <= MAX_VALUE
      invariant WithinBudget(xs, 4) <==> WithinBudget(xs[i..], used)
    {
      if used > MAX_VALUE - 4 || |xs[i]| > MAX_VALUE - used - 4 {
        BudgetIsSize(xs, 4);
        return false;
      }
      used := used + 4 + |xs[i]|;
      assert xs[i..][1..] == xs[i + 1..];
    }
    BudgetIsSize(xs, 4);
    return true;
  }

  lemma {:induction false} BudgetIsSize(xs: seq<bytes>, used: nat)
    requires used <= MAX_VALUE
    ensures WithinBudget(xs, used) <==> used + ItemsSize(xs) <= MAX_VALUE
    decreases |xs|
  {
    if xs != [] && used + 4 + |xs[0]| <= MAX_VALUE {
      BudgetIsSize(xs[1..], used + 4 + |xs[0]|);
    }
  }

  /** AppendValue onto an empty buffer. */
  function EncodeValue(v: Value): (r: Result<bytes, CodecError>)
    requires WellTyped(v)
  {
    if v.Null? then Err(NullWithoutSchema)
    else
      match EncodePayload(v)
      case Err(e) => Err(e)
      case Ok(p) => Ok([KindOf(v)] + p)
  }

  /** The encoded size of the fixed-width numeric kinds, tag included. */
  function FixedSize(k: Kind): (r: nat) {
    match k
    case 1 => 2
    case 2 => 2
    case 3 => 3
    case 4 => 3
    case 5 => 5
    case 6 => 5
    case 9 => 5
    case 7 => 9
    case 8 => 9
    case 10 => 9
    case 17 => 9
    case 20 => 9
    case 13 => 17
    case 14 => 17
    case 15 => 33
    case 16 => 33
    case _ => 0
  }

  /** EncodedValueSize. */
  function ValueSize(v: Value): (r: nat) {
    match v
    case Null(_) => 0
    case Bool(_) => 2
    case Number(k, _) => FixedSize(k)
    case Float(k, _) => FixedSize(k)
    case Wide(k, _) => FixedSize(k)
    case Text(s) => 1 + 4 + |s|
    case Blob(data) => 1 + 4 + |data|
    case Strings(xs) => 1 + 4 + ItemsSize(xs)
    case Uuid(_) => 17
    case Json(j) => 1 + 4 + |j|
  }

  /** Exactly the values the encoder takes. */
  predicate Encodable(v: Value) {
    match v
    case Null(_) => false
    case Text(s) => ValidUtf8(s) && |s| <= MAX_VALUE
    case Blob(data) => |data| <= MAX_VALUE
    case Strings(xs) => |xs| <= MAX_ITEMS && AllUtf8(xs) && 4 + ItemsSize(xs) <= MAX_VALUE
    case Json(j) => |j| <= MAX_VALUE
    case _ => true
  }

  lemma {:induction false} ItemBytesSize(xs: seq<bytes>)
    ensures |ItemBytes(xs)| == ItemsSize(xs)
  {
    if xs != [] {
      ItemBytesSize(xs[1..]);
    }
  }

  lemma {:induction false} EncodesExactly(v: Value)
    requires WellTyped(v)
    ensures EncodeValue(v).Ok? <==> Encodable(v)
    ensures EncodeValue(v).Ok? ==> |EncodeValue(v).value| == ValueSize(v)
  {
    hide ValidUtf8, ItemBytes, ItemsSize, WithinBudget, Range;
    if v.Strings? {
      BudgetIsSize(v.items, 4);
      ItemBytesSize(v.items);
    }
  }

  // ---- decoding -----------------------------------------------------------

  datatype Decoded = Decoded(value: Value, used: nat)

  /** io.ReadFull of n bytes. */
  function Take(s: bytes, n: nat): (r: Result<bytes, CodecError>)
    ensures r.Ok? ==> n <= |s| && r.value == s[..n]
  {
    if n <= |s| then Ok(s[..n]) else Err(if s == [] then EndOfFile else UnexpectedEof)
  }

  /** A four-byte length and that many bytes. */
  function TakePrefixed(s: bytes): (r: Result<bytes, CodecError>) {
    match Take(s, 4)
    case Err(e) => Err(e)
    case Ok(h) =>
      var n := FromLE(h);
      if n == 0 then Ok([])
      else if n > MAX_VALUE then Err(TooLarge)
      else if n > |s| - 4 then Err(UnexpectedEof)
      else Ok(s[4..4 + n])
  }

  datatype Items = Items(strings: seq<bytes>, used: nat)

  /** The array loop: `remaining` bytes of the value's budget are left. */
  function DecodeItems(s: bytes, count: nat, remaining: nat): (r: Result<Items, CodecError>)
    requires remaining <= MAX_VALUE
    decreases count
  {
    if count == 0 then Ok(Items([], 0))
    else if remaining < 4 then Err(TooLarge)
    else
      match Take(s, 4)
      case Err(e) => Err(e)
      case Ok(h) =>
        var n := FromLE(h);
        if n > remaining - 4 then Err(TooLarge)
        else if n > |s| - 4 then Err(UnexpectedEof)
        else if !ValidUtf8(s[4..4 + n]) then Err(InvalidUtf8)
        else
          match DecodeItems(s[4 + n..], count - 1, remaining - 4 - n)
          case Err(e) => Err(e)
          case Ok(rest) => Ok(Items([s[4..4 + n]] + rest.strings, 4 + n + rest.used))
  }

  function WordsOf(s: bytes): (r: seq<u64>)
    requires |s| % 8 == 0
    ensures |r| == |s| / 8
  {
    if s == [] then []
    else
      var n := |s| - 8;
      ToFromLE(s[n..]); Widths();
      [FromLE(s[n..])] + WordsOf(s[..n])
  }

  /** decodePayload for a known tag. */
  function DecodePayload(k: Kind, s: bytes): (r: Result<Decoded, CodecError>) {
    match LayoutOf(k)
    case OneBool =>
      (match Take(s, 1)
       case Err(e) => Err(e)
       case Ok(b) => if b[0] > 1 then Err(InvalidBool) else Ok(Decoded(Bool(b[0] == 1), 1)))
    case Integer(w, signed) =>
      (match Take(s, w)
       case Err(e) => Err(e)
       case Ok(b) => Ok(Decoded(Number(k, if signed then Signed(FromLE(b), w) else FromLE(b)), w)))
    case FloatBits(w) =>
      (match Take(s, w)
       case Err(e) => Err(e)
       case Ok(b) => if NotANumber(FromLE(b), w) then Err(InvalidFloat) else Ok(Decoded(Float(k, FromLE(b)), w)))
    case WideWords(n) =>
      (match Take(s, 8 * n)
       case Err(e) => Err(e)
       case Ok(b) => Ok(Decoded(Wide(k, WordsOf(b)), 8 * n)))
    case SixteenBytes =>
      (match Take(s, 16)
       case Err(e) => Err(e)
       case Ok(b) => Ok(Decoded(Uuid(b), 16)))
    case StringArray =>
      (match Take(s, 4)
       case Err(e) => Err(e)
       case Ok(h) =>
         if FromLE(h) > MAX_ITEMS then Err(TooLarge)
         else
           match DecodeItems(s[4..], FromLE(h), MAX_VALUE - 4)
           case Err(e) => Err(e)
           case Ok(items) => Ok(Decoded(Strings(items.strings), 4 + items.used)))
    case LengthPrefixed =>
      match TakePrefixed(s)
      case Err(e) => Err(e)
      case Ok(b) => DecodeText(k, b)
  }

  /** What the three length-prefixed kinds make of their bytes. */
  function DecodeText(k: Kind, b: bytes): (r: Result<Decoded, CodecError>) {
    if k == STRING then (if ValidUtf8(b) then Ok(Decoded(Text(b), 4 + |b|)) else Err(InvalidUtf8))
    else if k == BYTES then Ok(Decoded(Blob(b), 4 + |b|))
    else
      match Canonical(b)
      case None => Err(InvalidJson)
      case Some(j) => Ok(Decoded(Json(j), 4 + |b|))
  }

  function DecodeValue(s: bytes): (r: Result<Decoded, CodecError>) {
    match Take(s, 1)
    case Err(e) => Err(e)
    case Ok(t) =>
      if t[0] > 21 then Err(UnknownTag(t[0]))
      else
        match DecodePayload(t[0], s[1..])
        case Err(e) => Err(e)
        case Ok(d) => Ok(d.(used := 1 + d.used))
  }

  method DecodeArrayString(s: bytes) returns (r: Result<Decoded, CodecError>)
    ensures r == DecodePayload(STRINGS, s)
  {
    hide ValidUtf8, FromLE, DecodeItems;
    var h := Take(s, 4);
    if h.Err? {
      return Err(h.error);
    }
    var count := FromLE(h.value);
    if count > MAX_ITEMS {
      return Err(TooLarge);
    }
    var pos: nat, remaining: nat := 4, MAX_VALUE - 4;
    var xs: seq<bytes> := [];
    PrependedNone(DecodeItems(s[4..], count, MAX_VALUE - 4));
    for i := 0 to count
      invariant 4 <= pos <= |s| && remaining <= MAX_VALUE
      invariant DecodeItems(s[4..], count, MAX_VALUE - 4) ==
        Prepended(xs, pos - 4, DecodeItems(s[pos..], count - i, remaining))
    {
      ItemStep(s[pos..], count - i, remaining);
      if remaining < 4 {
        return Err(TooLarge);
      }
      var l := Take(s[pos..], 4);
      if l.Err? {
        return Err(l.error);
      }
      var n := FromLE(l.value);
      if n > remaining - 4 {
        return Err(TooLarge);
      }
      if n > |s| - pos - 4 {
        return Err(UnexpectedEof);
      }
      var data := s[pos + 4..pos + 4 + n];
      assert s[pos..][4..4 + n] == data && s[pos..][4 + n..] == s[pos + 4 + n..];
      if !ValidUtf8(data) {
        return Err(InvalidUtf8);
      }
      PrependedTwice(xs, pos - 4, data, DecodeItems(s[pos + 4 + n..], count - i - 1, remaining - 4 - n));
      xs := xs + [data];
      pos, remaining := pos + 4 + n, remaining - 4 - n;
    }
    ItemStep(s[pos..], 0, remaining);
    assert xs + [] == xs;
    return Ok(Decoded(Strings(xs), pos));
  }

  /** A decoded tail behind strings already read. */
  function Prepended(xs: seq<bytes>, used: nat, r: Result<Items, CodecError>): Result<Items, CodecError> {
    match r
    case Err(e) => Err(e)
    case Ok(items) => Ok(Items(xs + items.strings, used + items.used))
  }

  lemma {:induction false} PrependedNone(r: Result<Items, CodecError>)
    ensures Prepended([], 0, r) == r
  {
    if r.Ok? {
      assert [] + r.value.strings == r.value.strings;
    }
  }

  lemma {:induction false} PrependedTwice(xs: seq<bytes>, used: nat, x: bytes, r: Result<Items, CodecError>)
    ensures Prepended(xs, used, Prepended([x], 4 + |x|, r)) == Prepended(xs + [x], used + 4 + |x|, r)
  {
    if r.Ok? {
      assert xs + ([x] + r.value.strings) == xs + [x] + r.value.strings;
    }
  }

  /** One turn of the array loop. */
  lemma {:induction false} ItemStep(s: bytes, count: nat, remaining: nat)
    requires remaining <= MAX_VALUE
    ensures count == 0 ==> DecodeItems(s, count, remaining) == Ok(Items([], 0))
    ensures count > 0 && remaining < 4 ==> DecodeItems(s, count, remaining) == Err(TooLarge)
    ensures count > 0 && remaining >= 4 && Take(s, 4).Err? ==> DecodeItems(s, count, remaining) == Err(Take(s, 4).error)
    ensures count > 0 && remaining >= 4 && Take(s, 4).Ok? ==>
      var n := FromLE(Take(s, 4).value);
      DecodeItems(s, count, remaining) ==
        if n > remaining - 4 then Err(TooLarge)
        else if n > |s| - 4 then Err(UnexpectedEof)
        else if !ValidUtf8(s[4..4 + n]) then Err(InvalidUtf8)
        else Prepended([s[4..4 + n]], 4 + n, DecodeItems(s[4 + n..], count - 1, remaining - 4 - n))
  {
    hide ValidUtf8, FromLE;
  }

  // ---- round trips --------------------------------------------------------

  lemma {:induction false} PrefixBack(b: bytes, rest: bytes)
    requires |b| <= MAX_VALUE
    ensures var s := Prefix(b) + rest;
      && Take(s, 4) == Ok(ToLE(|b|, 4)) && FromLE(ToLE(|b|, 4)) == |b|
      && s[4..4 + |b|] == b && s[4 + |b|..] == rest
      && TakePrefixed(s) == Ok(b)
  {
    hide FromLE, ToLE;
    Widths();
    FromToLE(|b|, 4);
    var s := Prefix(b) + rest;
    assert s[..4] == ToLE(|b|, 4);
  }

  lemma {:induction false} PrefixTaken(s: bytes)
    requires TakePrefixed(s).Ok?
    ensures var b := TakePrefixed(s).value; |b| <= MAX_VALUE && 4 + |b| <= |s| && s[..4 + |b|] == Prefix(b)
  {
    hide FromLE, ToLE;
    ToFromLE(s[..4]);
    var b := TakePrefixed(s).value;
    assert s[..4 + |b|] == s[..4] + s[4..4 + |b|];
  }

  /**
   * Decoding an encoded array stops with a size error exactly where the encoder's
   * running budget would have refused it.
   */
  lemma {:induction false} ItemsBack(xs: seq<bytes>, rest: bytes, remaining: nat)
    requires AllUtf8(xs) && remaining <= MAX_VALUE && forall i :: 0 <= i < |xs| ==> |xs[i]| <= MAX_VALUE
    ensures DecodeItems(ItemBytes(xs) + rest, |xs|, remaining)
         == if WithinBudget(xs, MAX_VALUE - remaining) then Ok(Items(xs, ItemsSize(xs))) else Err(TooLarge)
    decreases |xs|
  {
    hide FromLE, ToLE, ValidUtf8, Prefix, Take, DecodeItems, TakePrefixed;
    var s := ItemBytes(xs) + rest;
    ItemStep(s, |xs|, remaining);
    if xs != [] {
      var tail := ItemBytes(xs[1..]) + rest;
      assert s == Prefix(xs[0]) + tail;
      PrefixBack(xs[0], tail);
      if remaining >= 4 + |xs[0]| {
        ItemsBack(xs[1..], rest, remaining - 4 - |xs[0]|);
        assert [xs[0]] + xs[1..] == xs;
      }
    }
  }

  lemma {:induction false} ItemsTaken(s: bytes, count: nat, remaining: nat)
    requires remaining <= MAX_VALUE && DecodeItems(s, count, remaining).Ok?
    ensures var items := DecodeItems(s, count, remaining).value;
      && |items.strings| == count && AllUtf8(items.strings)
      && items.used == ItemsSize(items.strings) <= remaining && items.used <= |s|
      && s[..items.used] == ItemBytes(items.strings)
    decreases count
  {
    hide FromLE, ToLE, ValidUtf8, DecodeItems, Take;
    ItemStep(s, count, remaining);
    if count > 0 {
      var n := FromLE(Take(s, 4).value);
      ItemTaken(s, n);
      ItemsTaken(s[4 + n..], count - 1, remaining - 4 - n);
      var items := DecodeItems(s, count, remaining).value;
      assert items.strings[1..] == DecodeItems(s[4 + n..], count - 1, remaining - 4 - n).value.strings;
      assert s[..items.used] == s[..4 + n] + s[4 + n..][..items.used - 4 - n];
    }
  }

  lemma {:induction false} ItemTaken(s: bytes, n: nat)
    requires |s| >= 4 && n == FromLE(s[..4]) && 4 + n <= |s|
    ensures s[..4 + n] == Prefix(s[4..4 + n])
  {
    ToFromLE(s[..4]);
    assert s[..4 + n] == s[..4] + s[4..4 + n];
  }

  lemma {:induction false} WordsBack(words: seq<u64>)
    ensures WordsOf(WordBytes(words)) == words
  {
    if words != [] {
      WordsBack(words[1..]);
      Widths();
      FromToLE(words[0], 8);
      var s := WordBytes(words);
      assert s[..|s| - 8] == WordBytes(words[1..]) && s[|s| - 8..] == ToLE(words[0], 8);
    }
  }

  lemma {:induction false} WordsTaken(s: bytes)
    requires |s| % 8 == 0
    ensures WordBytes(WordsOf(s)) == s
    decreases |s|
  {
    if s != [] {
      var n := |s| - 8;
      WordsTaken(s[..n]);
      ToFromLE(s[n..]);
      assert s == s[..n] + s[n..];
    }
  }

  lemma {:induction false} NumberBack(n: int, width: nat, signed: bool)
    requires InRange(n, width, signed) && width > 0
    ensures var u := FromLE(ToLE(Unsigned(n, width), width));
      (if signed then Signed(u, width) else u) == n
  {
    FromToLE(Unsigned(n, width), width);
  }

  lemma {:induction false} NumberTaken(b: bytes, signed: bool)
    requires b != []
    ensures var n := if signed then Signed(FromLE(b), |b|) else FromLE(b);
      InRange(n, |b|, signed) && ToLE(Unsigned(n, |b|), |b|) == b
  {
    ToFromLE(b);
  }

  lemma {:induction false} PayloadBack(v: Value, rest: bytes)
    requires WellTyped(v) && Encodable(v)
    ensures EncodePayload(v).Ok?
    ensures DecodePayload(KindOf(v), EncodePayload(v).value + rest) == Ok(Decoded(v, |EncodePayload(v).value|))
  {
    hide ValidUtf8, FromLE, ToLE, Range, WordsOf, WordBytes, DecodeItems, ItemBytes, ItemsSize, WithinBudget, Prefix,
      NotANumber, Signed, Unsigned, InRange;
    EncodesExactly(v);
    var p := EncodePayload(v).value;
    var s := p + rest;
    assert s[..|p|] == p;
    match v
    case Bool(_) =>
    case Number(k, n) => NumberBack(n, LayoutOf(k).width, LayoutOf(k).signed);
    case Float(k, bits) => FromToLE(bits, LayoutOf(k).width);
    case Wide(_, words) => WordsBack(words);
    case Text(t) => PrefixBack(t, rest);
    case Blob(t) => PrefixBack(t, rest);
    case Json(t) => PrefixBack(t, rest);
    case Uuid(_) =>
    case Strings(xs) => StringsBack(xs, rest);
  }

  lemma {:induction false} StringsBack(xs: seq<bytes>, rest: bytes)
    requires Encodable(Strings(xs))
    ensures var p := ToLE(|xs|, 4) + ItemBytes(xs);
      DecodePayload(STRINGS, p + rest) == Ok(Decoded(Strings(xs), |p|))
  {
    hide ValidUtf8, FromLE, ToLE, DecodeItems, ItemBytes, ItemsSize, WithinBudget;
    var s := ToLE(|xs|, 4) + ItemBytes(xs) + rest;
    Widths();
    FromToLE(|xs|, 4);
    assert s[..4] == ToLE(|xs|, 4) && s[4..] == ItemBytes(xs) + rest;
    SmallItems(xs);
    BudgetIsSize(xs, 4);
    ItemsBack(xs, rest, MAX_VALUE - 4);
    ItemBytesSize(xs);
  }

  lemma {:induction false} SmallItems(xs: seq<bytes>)
    ensures forall i :: 0 <= i < |xs| ==> |xs[i]| <= ItemsSize(xs)
  {
    if xs != [] {
      SmallItems(xs[1..]);
      forall i | 0 <= i < |xs| ensures |xs[i]| <= ItemsSize(xs) {
        if i > 0 {
          assert xs[i] == xs[1..][i - 1];
        }
      }
    }
  }

  /** Whatever follows it, an encoded value decodes to itself and takes exactly its computed size. */
  lemma {:induction false} ValueRoundTrip(v: Value, rest: bytes)
    requires WellTyped(v) && EncodeValue(v).Ok?
    ensures DecodeValue(EncodeValue(v).value + rest) == Ok(Decoded(v, ValueSize(v)))
  {
    hide EncodePayload, DecodePayload, Encodable;
    EncodesExactly(v);
    PayloadBack(v, rest);
    var e, p := EncodeValue(v).value, EncodePayload(v).value;
    assert (e + rest)[1..] == p + rest && (e + rest)[..1] == [KindOf(v)];
  }

  /** Every accepted payload outside JSON re-encodes to the bytes it was read from. */
  lemma {:induction false} PayloadTaken(k: Kind, s: bytes)
    requires DecodePayload(k, s).Ok? && k != JSON
    ensures var d := DecodePayload(k, s).value;
      && KindOf(d.value) == k && WellTyped(d.value) && Encodable(d.value)
      && d.used <= |s| && !d.value.Null?
      && EncodePayload(d.value) == Ok(s[..d.used])
  {
    hide ValidUtf8, FromLE, ToLE, Range, WordsOf, WordBytes, DecodeItems, ItemBytes, ItemsSize, WithinBudget, Prefix,
      NotANumber, Signed, Unsigned, InRange, TakePrefixed;
    var d := DecodePayload(k, s).value;
    match LayoutOf(k)
    case OneBool => assert s[..1] == [s[0]];
    case Integer(w, signed) => NumberTaken(s[..w], signed);
    case FloatBits(w) => ToFromLE(s[..w]);
    case WideWords(n) => WordsTaken(s[..8 * n]);
    case SixteenBytes =>
    case LengthPrefixed => PrefixTaken(s);
    case StringArray => StringsTaken(s);
  }

  lemma {:induction false} StringsTaken(s: bytes)
    requires DecodePayload(STRINGS, s).Ok?
    ensures var d := DecodePayload(STRINGS, s).value;
      && d.value.Strings? && Encodable(d.value) && d.used <= |s|
      && EncodePayload(d.value) == Ok(s[..d.used])
  {
    hide ValidUtf8, FromLE, ToLE, DecodeItems, ItemBytes, ItemsSize, WithinBudget, AllUtf8, DecodePayload, Take;
    StringsShape(s);
    var count := FromLE(s[..4]);
    ItemsTaken(s[4..], count, MAX_VALUE - 4);
    var items := DecodeItems(s[4..], count, MAX_VALUE - 4).value;
    assert ToLE(count, 4) == s[..4] by { ToFromLE(s[..4]); }
    BudgetIsSize(items.strings, 4);
    assert s[..4 + items.used] == s[..4] + s[4..][..items.used];
  }

  lemma {:induction false} StringsShape(s: bytes)
    requires DecodePayload(STRINGS, s).Ok?
    ensures |s| >= 4 && FromLE(s[..4]) <= MAX_ITEMS && DecodeItems(s[4..], FromLE(s[..4]), MAX_VALUE - 4).Ok?
    ensures var items := DecodeItems(s[4..], FromLE(s[..4]), MAX_VALUE - 4).value;
      DecodePayload(STRINGS, s).value == Decoded(Strings(items.strings), 4 + items.used)
  {
    hide DecodeItems, FromLE;
  }

  lemma {:induction false} ValueReencodes(s: bytes)
    requires DecodeValue(s).Ok? && !DecodeValue(s).value.value.Json?
    ensures var d := DecodeValue(s).value;
      WellTyped(d.value) && d.used <= |s| && EncodeValue(d.value) == Ok(s[..d.used])
  {
    hide EncodePayload, DecodePayload, Encodable;
    var k := s[0];
    DecodedKind(k, s[1..]);
    PayloadTaken(k, s[1..]);
    var d := DecodeValue(s).value;
    assert s[..d.used] == [k] + s[1..][..d.used - 1];
  }

  /** Accepted JSON is a length-prefixed text whose canonical form is the value. */
  lemma {:induction false} JsonCanonical(s: bytes)
    requires DecodeValue(s).Ok? && DecodeValue(s).value.value.Json?
    ensures var d := DecodeValue(s).value;
      && 5 <= d.used <= |s|
      && var text := s[5..d.used];
         |text| <= MAX_VALUE && s[..d.used] == [JSON] + Prefix(text) && Canonical(text) == Some(d.value.j)
  {
    hide FromLE, ToLE, ValidUtf8, TakePrefixed;
    var k, body := s[0], s[1..];
    DecodedKind(k, body);
    PrefixTaken(body);
    var b := TakePrefixed(body).value;
    assert s[..5 + |b|] == [JSON] + body[..4 + |b|];
    assert s[5..5 + |b|] == body[..4 + |b|][4..] == b;
  }

  lemma {:induction false} DecodedKind(k: Kind, s: bytes)
    requires DecodePayload(k, s).Ok?
    ensures DecodePayload(k, s).value.value.Json? <==> k == JSON
    ensures KindOf(DecodePayload(k, s).value.value) == k && !DecodePayload(k, s).value.value.Null?
  {
    hide ValidUtf8, FromLE, Range, WordsOf, DecodeItems, NotANumber, Signed, TakePrefixed;
  }

  // ---- what the layouts mean ---------------------------------------------

  datatype Bounds = Bounds(lo: int, hi: int)

  /** The values of the integer kinds; timestamps and durations are 64-bit signed. */
  function IntegerBounds(k: Kind): (r: Option<Bounds>) {
    match k
    case 1 => Some(Bounds(-128, 127))
    case 2 => Some(Bounds(0, 255))
    case 3 => Some(Bounds(-32768, 32767))
    case 4 => Some(Bounds(0, 65535))
    case 5 => Some(Bounds(-2147483648, 2147483647))
    case 6 => Some(Bounds(0, 4294967295))
    case 7 => Some(Bounds(-9223372036854775808, 9223372036854775807))
    case 8 => Some(Bounds(0, 18446744073709551615))
    case 17 => Some(Bounds(-9223372036854775808, 9223372036854775807))
    case 20 => Some(Bounds(-9223372036854775808, 9223372036854775807))
    case _ => None
  }

  lemma {:induction false} IntegerKinds(k: Kind, n: int)
    ensures WellTyped(Number(k, n)) <==>
      IntegerBounds(k).Some? && IntegerBounds(k).value.lo <= n <= IntegerBounds(k).value.hi
  {
    hide Range;
    Widths();
  }

  /** A float is not a number exactly when its exponent is all ones and its fraction is not zero. */
  lemma {:induction false} NaNs(sign: nat, exponent: nat, fraction: nat)
    ensures sign < 2 && exponent < 0x100 && fraction < 0x80_0000 ==>
      (NotANumber(sign * 0x8000_0000 + exponent * 0x80_0000 + fraction, 4) <==> exponent == 0xFF && fraction > 0)
    ensures sign < 2 && exponent < 0x800 && fraction < 0x10_0000_0000_0000 ==>
      (NotANumber(sign * 0x8000_0000_0000_0000 + exponent * 0x10_0000_0000_0000 + fraction, 8) <==>
          exponent == 0x7FF && fraction > 0)
  {
  }

  /** The number a wide integer's words stand for, the most significant first. */
  function Magnitude(words: seq<u64>): (r: nat) {
    if words == [] then 0 else words[0] * Range(8 * |words[1..]|) + Magnitude(words[1..])
  }

  lemma {:induction false} LittleEndianJoin(low: nat, high: nat, w: nat, v: nat)
    requires low < Range(w)
    ensures ToLE(low + Range(w) * high, w + v) == ToLE(low, w) + ToLE(high, v)
    decreases w
  {
    if w > 0 {
      var n := low + Range(w) * high;
      assert Range(w) * high == 256 * (Range(w - 1) * high) by { Regroup(Range(w - 1), high); }
      assert n % 256 == low % 256 && n / 256 == low / 256 + Range(w - 1) * high;
      LittleEndianJoin(low / 256, high, w - 1, v);
    }
  }

  lemma {:induction false} Regroup(a: nat, b: nat)
    ensures (256 * a) * b == 256 * (a * b)
  {
  }

  lemma {:induction false} MagnitudeBound(words: seq<u64>)
    ensures Magnitude(words) < Range(8 * |words|)
  {
    if words != [] {
      var n := 8 * |words[1..]|;
      MagnitudeBound(words[1..]);
      RangeSplit(n, 8);
      MulBound(words[0], Magnitude(words[1..]), Range(n), Range(8)) by { Widths(); }
    }
  }

  lemma {:induction false} MulBound(w: nat, m: nat, r: nat, limit: nat)
    requires w < limit && m < r
    ensures w * r + m < r * limit
  {
    assert (w + 1) * r <= limit * r;
  }

  lemma {:induction false} RangeSplit(w: nat, v: nat)
    ensures Range(w + v) == Range(w) * Range(v)
    decreases v
  {
    if v > 0 {
      RangeSplit(w, v - 1);
      assert Range(w + v) == 256 * (Range(w) * Range(v - 1));
      assert Range(w) * (256 * Range(v - 1)) == 256 * (Range(w) * Range(v - 1));
    }
  }

  /** Word by word, a wide integer is written as the little-endian form of the whole number. */
  lemma {:induction false} WideIsLittleEndian(words: seq<u64>)
    ensures WordBytes(words) == ToLE(Magnitude(words), 8 * |words|)
  {
    if words != [] {
      var n := 8 * |words[1..]|;
      WideIsLittleEndian(words[1..]);
      MagnitudeBound(words[1..]);
      LittleEndianJoin(Magnitude(words[1..]), words[0], n, 8);
      assert words[0] * Range(n) == Range(n) * words[0];
    }
  }
}
