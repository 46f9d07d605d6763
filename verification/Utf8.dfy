/** UTF-8 validity by table, and what it means. */
module Utf8 {
  import opened Bytes

  // ---- the table of section 4 of RFC 3629 --------------------------------

  predicate Within(s: bytes, i: nat, lo: int, hi: int) {
    i < |s| && lo <= s[i] <= hi
  }

  /** The length of the well-formed sequence s begins with, or 0. */
  function SequenceLength(s: bytes): (n: nat)
    ensures n <= |s|
  {
    if Within(s, 0, 0x00, 0x7F) then 1
    else if Within(s, 0, 0xC2, 0xDF) && Within(s, 1, 0x80, 0xBF) then 2
    else if && Within(s, 2, 0x80, 0xBF)
            && (|| (s[0] == 0xE0 && Within(s, 1, 0xA0, 0xBF))
                || (Within(s, 0, 0xE1, 0xEC) && Within(s, 1, 0x80, 0xBF))
                || (s[0] == 0xED && Within(s, 1, 0x80, 0x9F))
                || (Within(s, 0, 0xEE, 0xEF) && Within(s, 1, 0x80, 0xBF))) then 3
    else if && Within(s, 2, 0x80, 0xBF) && Within(s, 3, 0x80, 0xBF)
            && (|| (s[0] == 0xF0 && Within(s, 1, 0x90, 0xBF))
                || (Within(s, 0, 0xF1, 0xF3) && Within(s, 1, 0x80, 0xBF))
                || (s[0] == 0xF4 && Within(s, 1, 0x80, 0x8F))) then 4
    else 0
  }

  predicate ValidUtf8(s: bytes)
    decreases |s|
  {
    s == [] || (SequenceLength(s) > 0 && ValidUtf8(s[SequenceLength(s)..]))
  }

  // ---- code points --------------------------------------------------------

  /** A Unicode scalar value: any code point that is not a surrogate. */
  predicate Scalar(c: nat) {
    c < 0xD800 || 0xE000 <= c < 0x11_0000
  }

  /** The shortest UTF-8 form of a code point. */
  function Form(c: nat): (r: bytes)
    requires c < 0x11_0000
    ensures |r| > 0
  {
    if c < 0x80 then [c]
    else if c < 0x800 then [0xC0 + c / 0x40, 0x80 + c % 0x40]
    else if c < 0x1_0000 then [0xE0 + c / 0x1000, 0x80 + c / 0x40 % 0x40, 0x80 + c % 0x40]
    else [0xF0 + c / 0x4_0000, 0x80 + c / 0x1000 % 0x40, 0x80 + c / 0x40 % 0x40, 0x80 + c % 0x40]
  }

  function Forms(cs: seq<nat>): (r: bytes)
    requires AllScalar(cs)
  {
    if cs == [] then [] else Form(cs[0]) + Forms(cs[1..])
  }

  predicate AllScalar(cs: seq<nat>) {
    forall i :: 0 <= i < |cs| ==> Scalar(cs[i])
  }

  /** The code point of a well-formed sequence: the payload bits of its bytes, joined. */
  function CodePoint(s: bytes): (c: int)
    requires SequenceLength(s) > 0
  {
    match SequenceLength(s)
    case 1 => s[0]
    case 2 => Join2(s[0] as int - 0xC0, s[1] as int - 0x80)
    case 3 => Join3(s[0] as int - 0xE0, s[1] as int - 0x80, s[2] as int - 0x80)
    case _ => Join4(s[0] as int - 0xF0, s[1] as int - 0x80, s[2] as int - 0x80, s[3] as int - 0x80)
  }

  function Join2(a: int, b: int): int {
    a * 0x40 + b
  }

  function Join3(a: int, b: int, c: int): int {
    a * 0x1000 + b * 0x40 + c
  }

  function Join4(a: int, b: int, c: int, d: int): int {
    a * 0x4_0000 + b * 0x1000 + c * 0x40 + d
  }

  lemma {:induction false} Parts2(a: nat, b: nat)
    requires b < 0x40
    ensures Join2(a, b) / 0x40 == a && Join2(a, b) % 0x40 == b
  {
  }

  lemma {:induction false} Parts3(a: nat, b: nat, c: nat)
    requires b < 0x40 && c < 0x40
    ensures var n := Join3(a, b, c); n / 0x1000 == a && n / 0x40 % 0x40 == b && n % 0x40 == c
  {
    assert Join3(a, b, c) / 0x40 == a * 0x40 + b;
  }

  lemma {:induction false} Parts4(a: nat, b: nat, c: nat, d: nat)
    requires b < 0x40 && c < 0x40 && d < 0x40
    ensures var n := Join4(a, b, c, d);
      n / 0x4_0000 == a && n / 0x1000 % 0x40 == b && n / 0x40 % 0x40 == c && n % 0x40 == d
  {
    assert Join4(a, b, c, d) / 0x1000 == a * 0x40 + b;
    assert Join4(a, b, c, d) / 0x40 == a * 0x1000 + b * 0x40 + c;
  }

  lemma {:induction false} SequenceIsForm(s: bytes)
    requires SequenceLength(s) > 0
    ensures CodePoint(s) >= 0 && Scalar(CodePoint(s)) && s[..SequenceLength(s)] == Form(CodePoint(s))
  {
    match SequenceLength(s)
    case 1 => assert s[..1] == [s[0]];
    case 2 =>
      hide Join2;
      SequenceRange2(s[0] - 0xC0, s[1] - 0x80);
      Parts2(s[0] - 0xC0, s[1] - 0x80);
      assert s[..2] == [s[0], s[1]];
    case 3 =>
      hide Join3;
      SequenceRange3(s[0] - 0xE0, s[1] - 0x80, s[2] - 0x80);
      Parts3(s[0] - 0xE0, s[1] - 0x80, s[2] - 0x80);
      assert s[..3] == [s[0], s[1], s[2]];
    case _ =>
      hide Join4;
      SequenceRange4(s[0] - 0xF0, s[1] - 0x80, s[2] - 0x80, s[3] - 0x80);
      Parts4(s[0] - 0xF0, s[1] - 0x80, s[2] - 0x80, s[3] - 0x80);
      assert s[..4] == [s[0], s[1], s[2], s[3]];
  }

  /** The ranges the table leaves are those of the scalar values with that many bytes. */
  lemma {:induction false} SequenceRange2(a: nat, b: nat)
    requires 2 <= a < 0x20 && b < 0x40
    ensures 0x80 <= Join2(a, b) < 0x800
  {
  }

  lemma {:induction false} SequenceRange3(a: nat, b: nat, c: nat)
    requires a < 0x10 && b < 0x40 && c < 0x40 && (a == 0 ==> b >= 0x20) && (a == 0xD ==> b < 0x20)
    ensures 0x800 <= Join3(a, b, c) < 0x1_0000 && Scalar(Join3(a, b, c))
  {
  }

  lemma {:induction false} SequenceRange4(a: nat, b: nat, c: nat, d: nat)
    requires a < 5 && b < 0x40 && c < 0x40 && d < 0x40 && (a == 0 ==> b >= 0x10) && (a == 4 ==> b < 0x10)
    ensures 0x1_0000 <= Join4(a, b, c, d) < 0x11_0000
  {
  }

  lemma {:induction false} FormIsSequence(c: nat, rest: bytes)
    requires Scalar(c)
    ensures SequenceLength(Form(c) + rest) == |Form(c)|
  {
  }

  /** A byte string passes the table if and only if it is the UTF-8 form of some scalar values. */
  lemma {:induction false} ValidMeansScalars(s: bytes)
    ensures ValidUtf8(s) <==> exists cs: seq<nat> :: AllScalar(cs) && s == Forms(cs)
  {
    if ValidUtf8(s) {
      var cs := Scalars(s);
    }
    forall cs: seq<nat> | AllScalar(cs) ensures ValidUtf8(Forms(cs)) {
      FormsAreValid(cs);
    }
  }

  lemma {:induction false} Scalars(s: bytes) returns (cs: seq<nat>)
    requires ValidUtf8(s)
    ensures AllScalar(cs) && s == Forms(cs)
    decreases |s|
  {
    hide SequenceLength, Form, CodePoint;
    if s == [] {
      cs := [];
    } else {
      var n := SequenceLength(s);
      SequenceIsForm(s);
      var rest := Scalars(s[n..]);
      cs := [CodePoint(s)] + rest;
      assert cs[1..] == rest && s == s[..n] + s[n..];
    }
  }

  lemma {:induction false} FormsAreValid(cs: seq<nat>)
    requires AllScalar(cs)
    ensures ValidUtf8(Forms(cs))
    decreases |cs|
  {
    hide SequenceLength, Form;
    if cs != [] {
      FormsAreValid(cs[1..]);
      FormIsSequence(cs[0], Forms(cs[1..]));
      var s := Form(cs[0]) + Forms(cs[1..]);
      assert s[|Form(cs[0])|..] == Forms(cs[1..]);
    }
  }
}
