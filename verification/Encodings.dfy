/** What number and text encodings mean, apart from how they are computed:
    digits count by their position, and UTF-8 is the encoding of scalar values. */
module Encodings {
  import opened Common
  import opened Text

  // ---------- positional notation ----------

  function Power(base: nat, k: nat): nat {
    if k == 0 then 1 else base * Power(base, k - 1)
  }

  /** The value of digits in a base, the first digit weighing most. */
  function Positional(base: nat, digits: seq<nat>): nat {
    if digits == [] then 0
    else digits[0] * Power(base, |digits| - 1) + Positional(base, digits[1..])
  }

  lemma Shifted(base: nat, d: nat, p: nat, rest: nat)
    ensures base * (d * p + rest) == d * (base * p) + base * rest
  {
    assert d * (base * p) == base * (d * p);
  }

  lemma {:induction false} PositionalLast(base: nat, digits: seq<nat>)
    requires digits != []
    ensures Positional(base, digits) == base * Positional(base, digits[..|digits| - 1]) + digits[|digits| - 1]
  {
    var n := |digits| - 1;
    if n == 0 {
      assert digits[..n] == [] && digits[1..] == [];
      assert Power(base, 0) == 1;
    } else {
      PositionalLast(base, digits[1..]);
      assert digits[1..][..n - 1] == digits[..n][1..];
      Shifted(base, digits[0], Power(base, n - 1), Positional(base, digits[..n][1..]));
    }
  }

  /** Big-endian: the first byte weighs most. */
  lemma {:induction false} BigEndian(s: seq<byte>)
    ensures FromBE(s) == Positional(256, s)
  {
    if s != [] {
      BigEndian(s[..|s| - 1]);
      PositionalLast(256, s);
    }
  }

  /** What is written is the big-endian representation in so many bytes. */
  lemma WrittenBigEndian(n: nat, width: nat)
    requires n < Power(256, width)
    ensures |ToBE(n, width)| == width && Positional(256, ToBE(n, width)) == n
  {
    PowersAgree(width);
    BERoundTrip(n, width);
    BigEndian(ToBE(n, width));
  }

  lemma {:induction false} PowersAgree(width: nat)
    ensures Power(256, width) == Pow256(width)
  {
    if width > 0 {
      PowersAgree(width - 1);
    }
  }

  /** The characters '0' to '9'. */
  predicate DigitChars(s: seq<byte>) {
    forall i :: 0 <= i < |s| ==> '0' as int <= s[i] <= '9' as int
  }

  function DigitsOf(s: seq<byte>): (d: seq<nat>)
    requires DigitChars(s)
    ensures |d| == |s|
  {
    seq(|s|, i requires 0 <= i < |s| => s[i] - '0' as int)
  }

  /** A decimal numeral: digit characters that stand for `n`. */
  predicate Numeral(s: seq<byte>, n: int) {
    s != [] && DigitChars(s) && Positional(10, DigitsOf(s)) == n
  }

  lemma {:induction false} DecimalIsPositional(s: seq<byte>)
    ensures AllDigits(s) <==> DigitChars(s)
    ensures DigitChars(s) ==> DecValue(s) == Positional(10, DigitsOf(s))
  {
    if s != [] && DigitChars(s) {
      var init := s[..|s| - 1];
      DecimalIsPositional(init);
      PositionalLast(10, DigitsOf(s));
      assert DigitsOf(s)[..|s| - 1] == DigitsOf(init);
    }
  }

  /** Printing yields the numeral without leading zeros. */
  lemma PrintedNumeral(n: nat)
    ensures Numeral(PrintDec(n), n)
    ensures |PrintDec(n)| > 1 ==> PrintDec(n)[0] != '0' as int
  {
    DecRoundTrip(n);
    DecimalIsPositional(PrintDec(n));
  }

  // ---------- UTF-8 ----------

  /** A Unicode scalar value: a code point that is not a surrogate. */
  predicate IsScalar(c: nat) {
    c < 0xD800 || 0xE000 <= c <= 0x10FFFF
  }

  /** Section 3 of RFC 3629. */
  function EncodeScalar(c: nat): seq<byte>
    requires IsScalar(c)
  {
    if c < 0x80 then [c]
    else if c < 0x800 then [0xC0 + c / 64, 0x80 + c % 64]
    else if c < 0x1_0000 then [0xE0 + c / 4096, 0x80 + c / 64 % 64, 0x80 + c % 64]
    else [0xF0 + c / 262144, 0x80 + c / 4096 % 64, 0x80 + c / 64 % 64, 0x80 + c % 64]
  }

  predicate Scalars(cs: seq<nat>) {
    forall i :: 0 <= i < |cs| ==> IsScalar(cs[i])
  }

  function EncodeText(cs: seq<nat>): seq<byte>
    requires Scalars(cs)
  {
    if cs == [] then [] else EncodeScalar(cs[0]) + EncodeText(cs[1..])
  }

  lemma ScalarIsValid(c: nat, rest: seq<byte>)
    requires IsScalar(c) && ValidUtf8(rest)
    ensures ValidUtf8(EncodeScalar(c) + rest)
  {
    var e := EncodeScalar(c);
    var s := e + rest;
    assert s[|e|..] == rest;
    if |e| == 1 {
      assert s[0] == e[0];
    } else if |e| == 2 {
      assert s[0] == e[0] && s[1] == e[1];
    } else if |e| == 3 {
      assert s[0] == e[0] && s[1] == e[1] && s[2] == e[2];
    } else {
      assert s[0] == e[0] && s[1] == e[1] && s[2] == e[2] && s[3] == e[3];
    }
  }

  lemma {:induction false} EncodedIsValid(cs: seq<nat>)
    requires Scalars(cs)
    ensures ValidUtf8(EncodeText(cs))
  {
    if cs != [] {
      EncodedIsValid(cs[1..]);
      ScalarIsValid(cs[0], EncodeText(cs[1..]));
    }
  }

  lemma TwoBytes(a: int, b: int)
    requires 0xC2 <= a <= 0xDF && 0x80 <= b <= 0xBF
    ensures IsScalar(64 * (a - 0xC0) + (b - 0x80)) && EncodeScalar(64 * (a - 0xC0) + (b - 0x80)) == [a, b]
  {
  }

  lemma ThreeBytes(a: int, b: int, c: int)
    requires 0xE0 <= a <= 0xEF && 0x80 <= b <= 0xBF && 0x80 <= c <= 0xBF
    requires (a == 0xE0 ==> b >= 0xA0) && (a == 0xED ==> b <= 0x9F)
    ensures var x := 4096 * (a - 0xE0) + 64 * (b - 0x80) + (c - 0x80); IsScalar(x) && EncodeScalar(x) == [a, b, c]
  {
    var x := 4096 * (a - 0xE0) + 64 * (b - 0x80) + (c - 0x80);
    assert x / 64 == 64 * (a - 0xE0) + (b - 0x80);
  }

  lemma FourBytes(a: int, b: int, c: int, d: int)
    requires 0xF0 <= a <= 0xF4 && 0x80 <= b <= 0xBF && 0x80 <= c <= 0xBF && 0x80 <= d <= 0xBF
    requires (a == 0xF0 ==> b >= 0x90) && (a == 0xF4 ==> b <= 0x8F)
    ensures var x := 262144 * (a - 0xF0) + 4096 * (b - 0x80) + 64 * (c - 0x80) + (d - 0x80);
            IsScalar(x) && EncodeScalar(x) == [a, b, c, d]
  {
    var x := 262144 * (a - 0xF0) + 4096 * (b - 0x80) + 64 * (c - 0x80) + (d - 0x80);
    assert x / 64 == 4096 * (a - 0xF0) + 64 * (b - 0x80) + (c - 0x80);
    assert x / 4096 == 64 * (a - 0xF0) + (b - 0x80);
  }

  /** The scalar value at the head of valid text. */
  lemma FirstScalar(s: seq<byte>) returns (c: nat, n: nat)
    requires s != [] && ValidUtf8(s)
    ensures IsScalar(c) && 0 < n <= |s| && EncodeScalar(c) == s[..n] && ValidUtf8(s[n..])
  {
    var x: int := s[0];
    if x < 0x80 {
      c, n := x, 1;
    } else if x <= 0xDF {
      var y: int := s[1];
      TwoBytes(x, y);
      c, n := 64 * (x - 0xC0) + (y - 0x80), 2;
    } else if x <= 0xEF {
      var y: int, z: int := s[1], s[2];
      ThreeBytes(x, y, z);
      c, n := 4096 * (x - 0xE0) + 64 * (y - 0x80) + (z - 0x80), 3;
    } else {
      var y: int, z: int, w: int := s[1], s[2], s[3];
      FourBytes(x, y, z, w);
      c, n := 262144 * (x - 0xF0) + 4096 * (y - 0x80) + 64 * (z - 0x80) + (w - 0x80), 4;
    }
  }

  lemma {:induction false} ValidIsEncoded(s: seq<byte>) returns (cs: seq<nat>)
    requires ValidUtf8(s)
    ensures Scalars(cs) && EncodeText(cs) == s
    decreases |s|
  {
    if s == [] {
      cs := [];
    } else {
      var c, n := FirstScalar(s);
      var rest := ValidIsEncoded(s[n..]);
      cs := [c] + rest;
      assert cs[1..] == rest && s == s[..n] + s[n..];
    }
  }

  /** The byte strings accepted as text are exactly the encodings of sequences
      of scalar values. */
  lemma Utf8Iff(s: seq<byte>)
    ensures ValidUtf8(s) <==> exists cs: seq<nat> :: Scalars(cs) && EncodeText(cs) == s
  {
    if ValidUtf8(s) {
      var cs := ValidIsEncoded(s);
    }
    forall cs: seq<nat> | Scalars(cs) && EncodeText(cs) == s
      ensures ValidUtf8(s)
    {
      EncodedIsValid(cs);
    }
  }
}
