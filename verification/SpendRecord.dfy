/** The body bound of the spend log: `boundedBody`. */
module SpendRecord {
  import opened Options
  import opened Utf8Text

  const MAX_SAFE_INTEGER: int := 0x1F_FFFF_FFFF_FFFF
  const DEFAULT_LIMIT: nat := 10240

  function ByteBudget(limit: int): nat {
    if 0 <= limit <= MAX_SAFE_INTEGER then limit else DEFAULT_LIMIT
  }

  function BoundedBody(value: Option<seq<Unit>>, limit: int): Option<seq<Unit>> {
    if value.None? then None
    else
      var bytes := ByteBudget(limit);
      var prefix := if |value.value| <= bytes then value.value else value.value[..bytes];
      if |Encode(prefix)| <= bytes then Some(prefix) else Some(Decode(Encode(prefix)[..bytes]))
  }

  // ---- The longest prefix that fits -----------------------------------------------------

  /** The number of leading code points whose UTF-8 form fits in n bytes. */
  function Fit(text: seq<Scalar>, n: nat): (k: nat)
    ensures k <= |text|
  {
    if text == [] || |Utf8(text[0])| > n then 0 else 1 + Fit(text[1..], n - |Utf8(text[0])|)
  }

  lemma {:induction false} FitIsLongest(text: seq<Scalar>, n: nat)
    ensures Utf8Length(text[..Fit(text, n)]) <= n
    ensures forall k :: Fit(text, n) < k <= |text| ==> Utf8Length(text[..k]) > n
  {
    forall k | 0 < k <= |text| ensures Utf8Length(text[..k]) == |Utf8(text[0])| + Utf8Length(text[1..][..k - 1]) {
      assert text[..k][1..] == text[1..][..k - 1];
    }
    if text != [] && |Utf8(text[0])| <= n {
      FitIsLongest(text[1..], n - |Utf8(text[0])|);
    }
  }

  /** Taking m code units of a text whose first code point is whole in them. */
  lemma CutAfter(text: seq<Scalar>, m: nat)
    requires text != [] && |Utf16(text[0])| <= m <= |Units(text)|
    ensures m - |Utf16(text[0])| <= |Units(text[1..])|
    ensures Encode(Units(text)[..m]) == Utf8(text[0]) + Encode(Units(text[1..])[..m - |Utf16(text[0])|])
  {
    var cut := Units(text[1..])[..m - |Utf16(text[0])|];
    assert Units(text)[..m] == Utf16(text[0]) + cut;
    EncodeScalar(text[0], cut);
  }

  lemma FirstBytes(c: Scalar, tail: seq<Byte>, n: nat)
    requires |Utf8(c)| <= n <= |Utf8(c)| + |tail|
    ensures DecodeFrom(START, (Utf8(c) + tail)[..n]) == Utf16(c) + DecodeFrom(START, tail[..n - |Utf8(c)|])
  {
    assert (Utf8(c) + tail)[..n] == Utf8(c) + tail[..n - |Utf8(c)|];
    DecodeScalar(c, tail[..n - |Utf8(c)|]);
  }

  lemma FitSnoc(text: seq<Scalar>, n: nat)
    requires text != [] && |Utf8(text[0])| <= n
    ensures Units(text[..Fit(text, n)]) == Utf16(text[0]) + Units(text[1..][..Fit(text[1..], n - |Utf8(text[0])|)])
  {
    var k := Fit(text, n);
    assert text[..k][1..] == text[1..][..k - 1];
  }

  /** A cut inside a surrogate pair leaves an unpaired half, encoded as U+FFFD. */
  lemma CutInside(text: seq<Scalar>)
    requires text != [] && |Utf16(text[0])| == 2
    ensures Encode(Units(text)[..1]) == Utf8(REPLACEMENT)
  {
    var cut := Units(text)[..1];
    assert cut == [Utf16(text[0])[0]];
    assert cut[1..] == [];
  }

  /**
   Decoding the first n bytes of a cut string: the whole code points that fit
   come back and nothing else, even when the cut split a surrogate pair.
   */
  lemma {:induction false} DecodeOfCut(text: seq<Scalar>, m: nat, n: nat)
    requires m <= |Units(text)| && n <= |Encode(Units(text)[..m])|
    requires n <= m || m == |Units(text)|
    ensures DecodeFrom(START, Encode(Units(text)[..m])[..n]) == Units(text[..Fit(text, n)])
  {
    if text != [] && |Utf16(text[0])| <= m {
      var c, rest := text[0], text[1..];
      var u, b := |Utf16(c)|, |Utf8(c)|;
      CutAfter(text, m);
      var tail := Encode(Units(rest)[..m - u]);
      if b <= n {
        DecodeOfCut(rest, m - u, n - b);
        FirstBytes(c, tail, n);
        FitSnoc(text, n);
      } else {
        assert (Utf8(c) + tail)[..n] == Utf8(c)[..n];
        DecodeCutScalar(c, n);
      }
    } else if m == 1 {
      CutInside(text);
      DecodeCutScalar(REPLACEMENT, n);
    }
  }

  /** A slice of n code units that needs no more than n bytes is plain ASCII. */
  lemma {:induction false} FittingSlice(text: seq<Scalar>, n: nat)
    requires n < |Units(text)| && |Encode(Units(text)[..n])| <= n
    ensures Units(text)[..n] == Units(text[..Fit(text, n)])
    ensures text != [] && (n > 0 ==> text[0] < 0x80)
  {
    if n == 1 && |Utf16(text[0])| == 2 {
      CutInside(text);
    } else if n > 0 {
      var c, rest := text[0], text[1..];
      CutAfter(text, n);
      EncodeGrows(Units(rest)[..n - |Utf16(c)|]);
      FittingSlice(rest, n - 1);
      assert Units(text)[..n] == [c] + Units(rest)[..n - 1];
      FitSnoc(text, n);
    }
  }

  /** The decoder swallows a byte order mark that is decoded at all. */
  predicate LosesMark(text: seq<Scalar>, n: nat) {
    Utf8Length(text) > n && text[0] == BOM && n >= 3
  }

  /** A limit that is a safe integer and not negative is taken as it is, any other is 10240 bytes. */
  predicate Allows(limit: int, n: nat) {
    n == limit <= 9_007_199_254_740_991 || (n == 10240 && !(0 <= limit <= 9_007_199_254_740_991))
  }

  /** What the log keeps of a text under a budget of n bytes. */
  function Kept(text: seq<Scalar>, n: nat): seq<Scalar> {
    FirstFits(text, n);
    text[if LosesMark(text, n) then 1 else 0..Fit(text, n)]
  }

  lemma FirstFits(text: seq<Scalar>, n: nat)
    ensures LosesMark(text, n) ==> Fit(text, n) >= 1
  {
    assert |Utf8(BOM)| == 3;
  }

  /**
   The whole behaviour on well-formed text: the longest prefix that fits, less a
   leading byte order mark when the text had to be cut behind it.
   */
  lemma BoundedBodyOfText(text: seq<Scalar>, limit: int)
    ensures BoundedBody(Some(Units(text)), limit) == Some(Units(Kept(text, ByteBudget(limit))))
  {
    var n := ByteBudget(limit);
    var value := Units(text);
    EncodeIsUtf8(text);
    FitIsLongest(text, n);
    if |value| <= n && |Encode(value)| <= n {
      assert text[..|text|] == text;
      assert Fit(text, n) == |text|;
    } else if |value| > n && |Encode(value[..n])| <= n {
      EncodeGrows(value);
      FittingSlice(text, n);
    } else {
      var m := if |value| <= n then |value| else n;
      assert value[..|value|] == value;
      DecodeOfCut(text, m, n);
      EncodeGrows(value);
      MarkFirst(text, n);
    }
  }

  lemma MarkFirst(text: seq<Scalar>, n: nat)
    requires Utf8Length(text) > n
    ensures WithoutMark(Units(text[..Fit(text, n)])) == Units(Kept(text, n))
  {
    var k := Fit(text, n);
    if k > 0 {
      assert text[..k][0] == text[0];
      assert text[..k][1..] == text[1..k];
    }
  }

  /**
   The log keeps exactly the longest whole-code-point prefix that fits, unless a
   byte order mark starts a text that had to be cut.
   */
  lemma BoundedBodyIsLongestPrefix(text: seq<Scalar>, limit: int, n: nat)
    requires Allows(limit, n)
    ensures BoundedBody(Some(Units(text)), limit) == Some(Units(text[..Fit(text, n)])) <==> !LosesMark(text, n)
  {
    BoundedBodyOfText(text, limit);
    if LosesMark(text, n) {
      assert |Utf8(BOM)| == 3;
      var k := Fit(text, n);
      assert k >= 1;
      assert text[..k][1..] == text[1..k];
      assert Units(text[..k]) == Utf16(BOM) + Units(text[1..k]);
    }
  }

  /** The bound itself holds for every well-formed text. */
  lemma BoundedBodyFits(text: seq<Scalar>, limit: int, n: nat)
    requires Allows(limit, n)
    ensures BoundedBody(Some(Units(text)), limit).Some? && |Encode(BoundedBody(Some(Units(text)), limit).value)| <= n
    ensures BoundedBody(None, limit) == None
  {
    var k := Fit(text, n);
    BoundedBodyOfText(text, limit);
    FitIsLongest(text, n);
    EncodeIsUtf8(Kept(text, n));
    if LosesMark(text, n) {
      assert |Utf8(BOM)| == 3;
      assert text[..k][1..] == text[1..k];
    }
  }
}
