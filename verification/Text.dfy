/** The text conversions that address parsing rests on: splitting at a
    separator and decimal numbers. */
module Text {
  import opened Common

  // ---------- splitting ----------

  /** The pieces of `s` between occurrences of `sep`; always at least one. */
  function Split(s: seq<byte>, sep: byte): (parts: seq<seq<byte>>)
    ensures |parts| >= 1
  {
    if s == [] then [[]]
    else
      var rest := Split(s[1..], sep);
      if s[0] == sep then [[]] + rest else [[s[0]] + rest[0]] + rest[1..]
  }

  function Join(parts: seq<seq<byte>>, sep: byte): seq<byte>
    requires |parts| >= 1
  {
    if |parts| == 1 then parts[0] else parts[0] + [sep] + Join(parts[1..], sep)
  }

  lemma {:induction false} SplitAtFirst(piece: seq<byte>, sep: byte, rest: seq<byte>)
    requires sep !in piece
    ensures Split(piece + [sep] + rest, sep) == [piece] + Split(rest, sep)
  {
    var s := piece + [sep] + rest;
    if piece == [] {
      assert s[1..] == rest;
    } else {
      SplitAtFirst(piece[1..], sep, rest);
      assert s[1..] == piece[1..] + [sep] + rest;
      assert piece == [piece[0]] + piece[1..];
    }
  }

  lemma {:induction false} SplitWhole(piece: seq<byte>, sep: byte)
    requires sep !in piece
    ensures Split(piece, sep) == [piece]
  {
    if piece != [] {
      SplitWhole(piece[1..], sep);
      assert piece == [piece[0]] + piece[1..];
    }
  }

  /** Splitting undoes joining, for pieces that do not contain the separator. */
  lemma {:induction false} SplitJoin(parts: seq<seq<byte>>, sep: byte)
    requires |parts| >= 1
    requires forall i :: 0 <= i < |parts| ==> sep !in parts[i]
    ensures Split(Join(parts, sep), sep) == parts
  {
    if |parts| == 1 {
      SplitWhole(parts[0], sep);
    } else {
      SplitJoin(parts[1..], sep);
      SplitAtFirst(parts[0], sep, Join(parts[1..], sep));
      assert parts == [parts[0]] + parts[1..];
    }
  }

  /** Joining undoes splitting, and no piece contains the separator. */
  lemma {:induction false} JoinSplit(s: seq<byte>, sep: byte)
    ensures Join(Split(s, sep), sep) == s
    ensures forall i :: 0 <= i < |Split(s, sep)| ==> sep !in Split(s, sep)[i]
  {
    if s != [] {
      JoinSplit(s[1..], sep);
      var rest := Split(s[1..], sep);
      assert s == [s[0]] + s[1..];
      var parts := Split(s, sep);
      if s[0] == sep {
        assert parts[1..] == rest;
      } else {
        assert parts[1..] == rest[1..];
        if |rest| > 1 {
          assert Join(parts, sep) == [s[0]] + (rest[0] + [sep] + Join(rest[1..], sep));
        }
      }
    }
  }

  // ---------- decimal numbers ----------

  const ZERO: byte := 48

  predicate IsDigit(b: byte) {
    ZERO <= b <= ZERO + 9
  }

  predicate AllDigits(s: seq<byte>) {
    forall i :: 0 <= i < |s| ==> IsDigit(s[i])
  }

  function PrintDec(n: nat): (s: seq<byte>)
    ensures |s| >= 1
  {
    if n < 10 then [ZERO + n] else PrintDec(n / 10) + [ZERO + n % 10]
  }

  function DecValue(s: seq<byte>): nat
    requires AllDigits(s)
  {
    if s == [] then 0 else 10 * DecValue(s[..|s| - 1]) + (s[|s| - 1] - ZERO)
  }

  function Pow10(k: nat): nat {
    if k == 0 then 1 else 10 * Pow10(k - 1)
  }

  /** Printed numbers are digits without leading zeros that read back. */
  lemma {:induction false} DecRoundTrip(n: nat)
    ensures AllDigits(PrintDec(n)) && DecValue(PrintDec(n)) == n
    ensures |PrintDec(n)| > 1 ==> PrintDec(n)[0] != ZERO
    ensures n > 0 ==> PrintDec(n)[0] != ZERO
  {
    if n < 10 {
      assert PrintDec(n)[..0] == [];
    } else {
      DecRoundTrip(n / 10);
      assert PrintDec(n)[..|PrintDec(n)| - 1] == PrintDec(n / 10);
    }
  }

  lemma {:induction false} DecLength(n: nat, k: nat)
    requires n < Pow10(k) && k >= 1
    ensures |PrintDec(n)| <= k
  {
    if n >= 10 {
      assert k > 1;
      DecLength(n / 10, k - 1);
    }
  }
}
