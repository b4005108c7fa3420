/**
 JavaScript text at the byte level: UTF-16 code units, the UTF-8 encoding that
 `Buffer.from` and `Buffer.byteLength` use (section 3 of RFC 3629, with U+FFFD for
 an unpaired surrogate), and the streaming decoder behind `TextDecoder`.
 */
module Utf8Text {

  /** A Unicode scalar value: any code point but a surrogate. */
  type Scalar = c: int | 0 <= c <= 0x10FFFF && !(0xD800 <= c <= 0xDFFF)
  type Unit = u: int | 0 <= u <= 0xFFFF
  type Byte = b: int | 0 <= b <= 0xFF

  const REPLACEMENT: Scalar := 0xFFFD
  const BOM: Scalar := 0xFEFF

  function Utf16(c: Scalar): (r: seq<Unit>)
    ensures 1 <= |r| <= 2
  {
    if c < 0x10000 then [c] else [0xD800 + (c - 0x10000) / 0x400, 0xDC00 + (c - 0x10000) % 0x400]
  }

  function Utf8(c: Scalar): (r: seq<Byte>)
    ensures |Utf16(c)| <= |r| <= 4
    ensures |Utf16(c)| == 2 <==> |r| == 4
  {
    if c < 0x80 then [c]
    else if c < 0x800 then [0xC0 + c / 0x40, 0x80 + c % 0x40]
    else if c < 0x10000 then [0xE0 + c / 0x40 / 0x40, 0x80 + c / 0x40 % 0x40, 0x80 + c % 0x40]
    else [0xF0 + c / 0x40 / 0x40 / 0x40, 0x80 + c / 0x40 / 0x40 % 0x40, 0x80 + c / 0x40 % 0x40, 0x80 + c % 0x40]
  }

  /** The string value of well-formed text. */
  function Units(text: seq<Scalar>): seq<Unit> {
    if text == [] then [] else Utf16(text[0]) + Units(text[1..])
  }

  /** The UTF-8 bytes of the text, scalar by scalar. */
  function Utf8Bytes(text: seq<Scalar>): seq<Byte> {
    if text == [] then [] else Utf8(text[0]) + Utf8Bytes(text[1..])
  }

  function Utf8Length(text: seq<Scalar>): nat {
    if text == [] then 0 else |Utf8(text[0])| + Utf8Length(text[1..])
  }

  predicate IsHigh(u: Unit) { 0xD800 <= u <= 0xDBFF }

  predicate IsLow(u: Unit) { 0xDC00 <= u <= 0xDFFF }

  function Paired(high: int, low: int): Scalar
    requires 0xD800 <= high <= 0xDBFF && 0xDC00 <= low <= 0xDFFF
  {
    0x10000 + (high - 0xD800) * 0x400 + (low - 0xDC00)
  }

  /** `Buffer.from(string)`: an unpaired surrogate becomes U+FFFD. */
  function Encode(units: seq<Unit>): seq<Byte> {
    if units == [] then []
    else if IsHigh(units[0]) && |units| > 1 && IsLow(units[1]) then
      Utf8(Paired(units[0], units[1])) + Encode(units[2..])
    else if IsHigh(units[0]) || IsLow(units[0]) then Utf8(REPLACEMENT) + Encode(units[1..])
    else Utf8(units[0]) + Encode(units[1..])
  }

  // ---- The decoder: state between two bytes ---------------------------------------------

  /** `needed` bytes are missing; the next one must lie in lower..upper. */
  datatype Pending = Pending(point: nat, needed: nat, lower: int, upper: int)

  const START := Pending(0, 0, 0x80, 0xBF)

  function Lead(b: Byte): Pending {
    if 0xC2 <= b <= 0xDF then Pending(b - 0xC0, 1, 0x80, 0xBF)
    else if 0xE0 <= b <= 0xEF then
      Pending(b - 0xE0, 2, if b == 0xE0 then 0xA0 else 0x80, if b == 0xED then 0x9F else 0xBF)
    else if 0xF0 <= b <= 0xF4 then
      Pending(b - 0xF0, 3, if b == 0xF0 then 0x90 else 0x80, if b == 0xF4 then 0x8F else 0xBF)
    else START
  }

  function AsScalar(point: nat): Scalar {
    if point <= 0x10FFFF && !(0xD800 <= point <= 0xDFFF) then point else REPLACEMENT
  }

  /** What one byte gives: the code units it completes and the state after it. */
  datatype Step = Step(units: seq<Unit>, next: Pending)

  function StepFromStart(b: Byte): Step {
    if b < 0x80 then Step([b], START)
    else if Lead(b).needed == 0 then Step([REPLACEMENT], START)
    else Step([], Lead(b))
  }

  /** A byte out of range ends the sequence as malformed and is looked at afresh. */
  function StepFrom(p: Pending, b: Byte): Step {
    if p.needed == 0 then StepFromStart(b)
    else if !(p.lower <= b <= p.upper) then Step([REPLACEMENT] + StepFromStart(b).units, StepFromStart(b).next)
    else
      var point := p.point * 0x40 + b % 0x40;
      if p.needed == 1 then Step(Utf16(AsScalar(point)), START)
      else Step([], Pending(point, p.needed - 1, 0x80, 0xBF))
  }

  /**
   `decode(bytes, { stream: true })`: complete sequences give their scalar value,
   malformed ones U+FFFD, and an incomplete sequence at the end stays pending.
   */
  function DecodeFrom(p: Pending, bytes: seq<Byte>): seq<Unit>
    decreases |bytes|
  {
    if bytes == [] then []
    else StepFrom(p, bytes[0]).units + DecodeFrom(StepFrom(p, bytes[0]).next, bytes[1..])
  }

  /** The decoder drops a leading byte order mark. */
  function Decode(bytes: seq<Byte>): seq<Unit> {
    WithoutMark(DecodeFrom(START, bytes))
  }

  function WithoutMark(units: seq<Unit>): seq<Unit> {
    if units != [] && units[0] == BOM then units[1..] else units
  }

  // ---- Decoding what was encoded -----------------------------------------------------------

  lemma DecodeOne(p: Pending, b: Byte, rest: seq<Byte>)
    ensures DecodeFrom(p, [b] + rest) == StepFrom(p, b).units + DecodeFrom(StepFrom(p, b).next, rest)
  {
    assert ([b] + rest)[1..] == rest;
  }

  /** The decoder's state after k bytes of a scalar's encoding. */
  function After(c: Scalar, k: nat): Pending
    requires k < |Utf8(c)|
  {
    if k == 0 then START
    else if k == 1 then Lead(Utf8(c)[0])
    else Pending(if k == |Utf8(c)| - 1 then c / 0x40 else c / 0x40 / 0x40, |Utf8(c)| - k, 0x80, 0xBF)
  }

  /** An accepted continuation byte carries six more bits. */
  lemma Continue(p: Pending, t: nat)
    requires p.needed > 0 && t < 0x40 && p.lower <= 0x80 + t <= p.upper
    ensures StepFrom(p, 0x80 + t)
         == if p.needed == 1 then Step(Utf16(AsScalar(p.point * 0x40 + t)), START)
            else Step([], Pending(p.point * 0x40 + t, p.needed - 1, 0x80, 0xBF))
  {
    assert (0x80 + t) % 0x40 == t;
  }

  lemma DecodeTwo(c: Scalar)
    requires 0x80 <= c < 0x800
    ensures StepFrom(START, Utf8(c)[0]) == Step([], Pending(c / 0x40, 1, 0x80, 0xBF))
    ensures StepFrom(Pending(c / 0x40, 1, 0x80, 0xBF), Utf8(c)[1]) == Step(Utf16(c), START)
  {
    Continue(Pending(c / 0x40, 1, 0x80, 0xBF), c % 0x40);
  }

  lemma DecodeThree(c: Scalar)
    requires 0x800 <= c < 0x10000
    ensures StepFrom(START, Utf8(c)[0]) == Step([], Lead(Utf8(c)[0]))
    ensures StepFrom(Lead(Utf8(c)[0]), Utf8(c)[1]) == Step([], Pending(c / 0x40, 1, 0x80, 0xBF))
    ensures StepFrom(Pending(c / 0x40, 1, 0x80, 0xBF), Utf8(c)[2]) == Step(Utf16(c), START)
  {
    var q := c / 0x40;
    Continue(Lead(0xE0 + q / 0x40), q % 0x40);
    Continue(Pending(q, 1, 0x80, 0xBF), c % 0x40);
  }

  lemma DecodeFour(c: Scalar)
    requires 0x10000 <= c
    ensures StepFrom(START, Utf8(c)[0]) == Step([], Lead(Utf8(c)[0]))
    ensures StepFrom(Lead(Utf8(c)[0]), Utf8(c)[1]) == Step([], Pending(c / 0x40 / 0x40, 2, 0x80, 0xBF))
    ensures StepFrom(Pending(c / 0x40 / 0x40, 2, 0x80, 0xBF), Utf8(c)[2]) == Step([], Pending(c / 0x40, 1, 0x80, 0xBF))
    ensures StepFrom(Pending(c / 0x40, 1, 0x80, 0xBF), Utf8(c)[3]) == Step(Utf16(c), START)
  {
    var q := c / 0x40;
    var r := q / 0x40;
    Continue(Lead(0xF0 + r / 0x40), r % 0x40);
    Continue(Pending(r, 2, 0x80, 0xBF), q % 0x40);
    Continue(Pending(q, 1, 0x80, 0xBF), c % 0x40);
  }

  /** Only the last byte of a scalar's encoding gives anything: the scalar. */
  lemma StepsOfScalar(c: Scalar, k: nat)
    requires k < |Utf8(c)|
    ensures k < |Utf8(c)| - 1 ==> StepFrom(After(c, k), Utf8(c)[k]) == Step([], After(c, k + 1))
    ensures k == |Utf8(c)| - 1 ==> StepFrom(After(c, k), Utf8(c)[k]) == Step(Utf16(c), START)
  {
    if 0x80 <= c < 0x800 { DecodeTwo(c); }
    if 0x800 <= c < 0x10000 { DecodeThree(c); }
    if 0x10000 <= c { DecodeFour(c); }
  }

  /** What the decoder does with the bytes of a scalar from the k-th on. */
  lemma {:induction false} DecodeRest(c: Scalar, k: nat, rest: seq<Byte>)
    requires k < |Utf8(c)|
    ensures DecodeFrom(After(c, k), Utf8(c)[k..] + rest) == Utf16(c) + DecodeFrom(START, rest)
    decreases |Utf8(c)| - k
  {
    var e := Utf8(c);
    StepsOfScalar(c, k);
    assert e[k..] + rest == [e[k]] + (e[k + 1..] + rest);
    DecodeOne(After(c, k), e[k], e[k + 1..] + rest);
    if k == |e| - 1 {
      assert e[k + 1..] + rest == rest;
    } else {
      DecodeRest(c, k + 1, rest);
    }
  }

  lemma DecodeScalar(c: Scalar, rest: seq<Byte>)
    ensures DecodeFrom(START, Utf8(c) + rest) == Utf16(c) + DecodeFrom(START, rest)
  {
    DecodeRest(c, 0, rest);
    assert Utf8(c)[0..] == Utf8(c);
  }

  lemma {:induction false} DecodeCutRest(c: Scalar, k: nat, n: nat)
    requires k <= n < |Utf8(c)|
    ensures DecodeFrom(After(c, k), Utf8(c)[k..n]) == []
    decreases n - k
  {
    var e := Utf8(c);
    if k < n {
      StepsOfScalar(c, k);
      assert e[k..n] == [e[k]] + e[k + 1..n];
      DecodeOne(After(c, k), e[k], e[k + 1..n]);
      DecodeCutRest(c, k + 1, n);
    }
  }

  /** A sequence that is cut short gives nothing: its bytes stay pending. */
  lemma DecodeCutScalar(c: Scalar, n: nat)
    requires n < |Utf8(c)|
    ensures DecodeFrom(START, Utf8(c)[..n]) == []
  {
    DecodeCutRest(c, 0, n);
    assert Utf8(c)[0..n] == Utf8(c)[..n];
  }

  lemma EncodeScalar(c: Scalar, rest: seq<Unit>)
    ensures Encode(Utf16(c) + rest) == Utf8(c) + Encode(rest)
  {
    var all := Utf16(c) + rest;
    if c >= 0x10000 {
      assert all[0] == Utf16(c)[0] && all[1] == Utf16(c)[1];
      assert Paired(all[0], all[1]) == c;
      assert all[2..] == rest;
    } else {
      assert all[0] == c && all[1..] == rest;
    }
  }

  /** Encoding the string value of a text gives the UTF-8 bytes of its scalars. */
  lemma {:induction false} EncodeIsUtf8(text: seq<Scalar>)
    ensures Encode(Units(text)) == Utf8Bytes(text)
    ensures |Encode(Units(text))| == Utf8Length(text)
  {
    if text != [] {
      EncodeIsUtf8(text[1..]);
      EncodeScalar(text[0], Units(text[1..]));
    }
  }

  /** Decoding what was encoded gives the text back, a byte order mark included. */
  lemma {:induction false} DecodeOfEncode(text: seq<Scalar>)
    ensures DecodeFrom(START, Encode(Units(text))) == Units(text)
  {
    EncodeIsUtf8(text);
    if text != [] {
      DecodeOfEncode(text[1..]);
      EncodeIsUtf8(text[1..]);
      DecodeScalar(text[0], Utf8Bytes(text[1..]));
    }
  }

  /** No code unit takes less than one byte. */
  lemma {:induction false} EncodeGrows(units: seq<Unit>)
    ensures |Encode(units)| >= |units|
    decreases |units|
  {
    if units != [] {
      if IsHigh(units[0]) && |units| > 1 && IsLow(units[1]) { EncodeGrows(units[2..]); } else { EncodeGrows(units[1..]); }
    }
  }
}
