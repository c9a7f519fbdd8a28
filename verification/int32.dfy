/**
 C# `int` arithmetic and decimal formatting.

 C# evaluates `int * int` unchecked by default: the exact product is reduced
 to 32 bits in two's complement. Decimal formatting is what string
 interpolation does with an `int` under the invariant culture; the current
 culture is taken to format integers the same way.
 */
module Int32 {

  const Modulus: int := 0x1_0000_0000
  const MinValue: int := -0x8000_0000
  const MaxValue: int := 0x7fff_ffff

  /** A value of C#'s 32-bit `int`. */
  type Int32 = x: int | MinValue <= x <= MaxValue

  /** Two's-complement reduction of an exact integer to 32 bits. */
  function Wrap(x: int): (r: Int32)
    ensures (r - x) % Modulus == 0
    ensures MinValue <= x <= MaxValue ==> r == x
  {
    var m := x % Modulus;
    if m <= MaxValue then m else m - Modulus
  }

  /** C#'s unchecked `a * b` on `int`. */
  function Mul(a: Int32, b: Int32): Int32 {
    Wrap(a * b)
  }

  function DigitChar(d: int): char
    requires 0 <= d < 10
  {
    "0123456789"[d]
  }

  predicate IsDigit(c: char) {
    '0' <= c <= '9'
  }

  function DigitValue(c: char): int
    requires IsDigit(c)
  {
    c as int - '0' as int
  }

  /** Decimal digits of a natural number, most significant first, no leading zeros. */
  function NatToString(n: nat): (s: string)
    ensures |s| >= 1
    ensures forall i :: 0 <= i < |s| ==> IsDigit(s[i])
    ensures n > 0 ==> s[0] != '0'
    decreases n
  {
    if n < 10 then [DigitChar(n)] else NatToString(n / 10) + [DigitChar(n % 10)]
  }

  /** Reads a string of decimal digits back as a number. */
  function ParseNat(s: string): nat
    requires forall i :: 0 <= i < |s| ==> IsDigit(s[i])
  {
    if |s| == 0 then 0 else ParseNat(s[..|s| - 1]) * 10 + DigitValue(s[|s| - 1])
  }

  /** An optional minus sign followed by at least one decimal digit. */
  predicate IsIntText(s: string) {
    && |s| >= 1
    && (s[0] == '-' ==> |s| >= 2 && forall i :: 1 <= i < |s| ==> IsDigit(s[i]))
    && (s[0] != '-' ==> forall i :: 0 <= i < |s| ==> IsDigit(s[i]))
  }

  /** `{n}` in an interpolated string. */
  function IntToString(n: int): (s: string)
    ensures IsIntText(s)
    ensures n < 0 <==> s[0] == '-'
  {
    if n < 0 then "-" + NatToString(-n) else NatToString(n)
  }

  function ParseInt(s: string): int
    requires IsIntText(s)
  {
    if s[0] == '-' then -(ParseNat(s[1..]) as int) else ParseNat(s) as int
  }

  /** Formatting a natural number loses nothing: parsing it gives it back. */
  lemma {:induction false} NatToStringRoundTrip(n: nat)
    ensures ParseNat(NatToString(n)) == n
    decreases n
  {
    if n >= 10 {
      var s := NatToString(n);
      var p := NatToString(n / 10);
      assert s == p + [DigitChar(n % 10)];
      assert s[..|s| - 1] == p;
      NatToStringRoundTrip(n / 10);
    }
  }

  /** The same for every `int`, negative values included. */
  lemma IntToStringRoundTrip(n: int)
    ensures ParseInt(IntToString(n)) == n
  {
    var s := IntToString(n);
    if n < 0 {
      var digits := NatToString(-n);
      assert s == "-" + digits;
      assert s[1..] == digits;
      NatToStringRoundTrip(-n);
      assert ParseInt(s) == -(ParseNat(digits) as int);
    } else {
      NatToStringRoundTrip(n);
    }
  }

  /** Distinct numbers are printed differently. */
  lemma NatToStringInjective(m: nat, n: nat)
    requires NatToString(m) == NatToString(n)
    ensures m == n
  {
    NatToStringRoundTrip(m);
    NatToStringRoundTrip(n);
  }
}
