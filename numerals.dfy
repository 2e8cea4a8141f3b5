/** Java `int` arithmetic and the two decimal conversions the duration reports use:
    `Integer.toString` (what `StringBuilder.append` writes for an `Integer`) and
    `Integer.parseInt` (applied to the app-level OnCreate string). */
module Numerals {

  datatype Option<T> = None | Some(value: T)

  const Int32Min: int := -0x8000_0000
  const Int32Max: int := 0x7FFF_FFFF
  const TwoTo32: int := 0x1_0000_0000

  predicate IsInt32(x: int) {
    Int32Min <= x <= Int32Max
  }

  /** A Java `int`. */
  type Int32 = x: int | IsInt32(x)

  /** Java's `int + int`: the mathematical sum reduced into the 32-bit two's-complement range. */
  function WrapInt32(x: int): (r: Int32)
    ensures (r - x) % TwoTo32 == 0
    ensures IsInt32(x) ==> r == x
  {
    (x - Int32Min) % TwoTo32 + Int32Min
  }

  predicate IsDigit(c: char) {
    '0' <= c <= '9'
  }

  predicate AllDigits(s: string) {
    forall i :: 0 <= i < |s| ==> IsDigit(s[i])
  }

  function DigitChar(d: nat): (c: char)
    requires d < 10
    ensures IsDigit(c) && (c as int) - ('0' as int) == d
  {
    ('0' as int + d) as char
  }

  function DigitValue(c: char): (d: nat)
    requires IsDigit(c)
    ensures d < 10 && DigitChar(d) == c
  {
    (c as int) - ('0' as int)
  }

  /** The decimal digits of `n`, most significant first, without leading zeros. */
  function NatToString(n: nat): (s: string)
    ensures 0 < |s| && AllDigits(s)
    ensures |s| > 1 ==> s[0] != '0'
    decreases n
  {
    if n < 10 then [DigitChar(n)] else NatToString(n / 10) + [DigitChar(n % 10)]
  }

  /** `Integer.toString(x)`: a minus sign for negative values, then the digits of |x|. */
  function IntToString(x: int): (s: string)
    ensures 0 < |s|
    ensures s[0] == '-' <==> x < 0
    ensures forall i :: 0 <= i < |s| ==> IsDigit(s[i]) || (i == 0 && s[i] == '-')
  {
    if x < 0 then "-" + NatToString(-x) else NatToString(x)
  }

  /** The value of a string of decimal digits (leading zeros allowed). */
  function DigitsValue(s: string): nat
    requires AllDigits(s)
  {
    if s == [] then 0 else DigitsValue(s[..|s| - 1]) * 10 + DigitValue(s[|s| - 1])
  }

  function Pow10(k: nat): (p: nat)
    ensures p >= 1
  {
    if k == 0 then 1 else 10 * Pow10(k - 1)
  }

  /** An optional '+' or '-' followed by at least one decimal digit. */
  predicate IsDecimalNumeral(s: string) {
    if 0 < |s| && (s[0] == '-' || s[0] == '+') then 1 < |s| && AllDigits(s[1..])
    else 0 < |s| && AllDigits(s)
  }

  /** `Integer.parseInt(s)` with radix 10: `None` stands for the `NumberFormatException` it
      throws on an empty string, a lone sign, a non-digit character, or a value outside the
      `int` range. */
  function ParseInt(s: string): (r: Option<Int32>)
    ensures r.Some? ==> IsDecimalNumeral(s)
    ensures 0 < |s| <= 9 && AllDigits(s) ==> r.Some?
  {
    if |s| == 0 then None
    else
      var digits := if s[0] == '-' || s[0] == '+' then s[1..] else s;
      if |digits| == 0 || !AllDigits(digits) then None
      else
        var magnitude := DigitsValue(digits);
        var v: int := if s[0] == '-' then -(magnitude as int) else magnitude;
        DigitsValueBound(digits);
        assert Pow10(9) == 1_000_000_000;
        if IsInt32(v) then Some(v) else None
  }

  lemma {:induction false} DigitsValueBound(s: string)
    requires AllDigits(s)
    ensures DigitsValue(s) < Pow10(|s|)
  {
    if s != [] {
      DigitsValueBound(s[..|s| - 1]);
    }
  }

  /** Reading back the digits `NatToString` writes gives the number. */
  lemma {:induction false} DigitsValueOfNatToString(n: nat)
    ensures DigitsValue(NatToString(n)) == n
    decreases n
  {
    var s := NatToString(n);
    if n >= 10 {
      DigitsValueOfNatToString(n / 10);
      assert s[..|s| - 1] == NatToString(n / 10);
    }
  }

  /** `Integer.parseInt(Integer.toString(x)) == x` for every Java `int`. */
  lemma ParseIntOfIntToString(x: Int32)
    ensures ParseInt(IntToString(x)) == Some(x)
  {
    var s := IntToString(x);
    if x < 0 {
      var m: nat := -(x as int);
      assert s[1..] == NatToString(m);
      DigitsValueOfNatToString(m);
    } else {
      DigitsValueOfNatToString(x);
    }
  }

  predicate AllZeros(z: string) {
    forall i :: 0 <= i < |z| ==> z[i] == '0'
  }

  lemma {:induction false} DigitsValueOfZeros(z: string)
    requires AllZeros(z)
    ensures AllDigits(z) && DigitsValue(z) == 0
  {
    if z != [] {
      DigitsValueOfZeros(z[..|z| - 1]);
    }
  }

  /** Leading zeros do not change the value of a digit string. */
  lemma {:induction false} DigitsValueLeadingZeros(zeros: string, s: string)
    requires AllZeros(zeros) && AllDigits(s)
    ensures AllDigits(zeros + s) && DigitsValue(zeros + s) == DigitsValue(s)
    decreases |s|
  {
    DigitsValueOfZeros(zeros);
    if s == [] {
      assert zeros + s == zeros;
    } else {
      assert (zeros + s)[..|zeros + s| - 1] == zeros + s[..|s| - 1];
      DigitsValueLeadingZeros(zeros, s[..|s| - 1]);
    }
  }

  /** `Integer.parseInt` on an optional sign followed by digits: the signed value of the
      digits, whenever that fits in an `int`. */
  lemma ParseIntOfSignedDigits(sign: string, digits: string)
    requires sign == "" || sign == "+" || sign == "-"
    requires 0 < |digits| && AllDigits(digits)
    requires IsInt32(if sign == "-" then -(DigitsValue(digits) as int) else DigitsValue(digits) as int)
    ensures ParseInt(sign + digits) == Some(if sign == "-" then -(DigitsValue(digits) as int) else DigitsValue(digits) as int)
  {
    var s := sign + digits;
    if sign == "" {
      assert s == digits;
      assert IsDigit(s[0]);
    } else {
      assert s[1..] == digits;
    }
  }

  /** `Integer.parseInt` accepts every in-range numeral written with an optional sign and any
      number of leading zeros, and reads it as the signed value of its digits. */
  lemma ParseIntOfNumeral(sign: string, zeros: string, m: nat)
    requires sign == "" || sign == "+" || sign == "-"
    requires AllZeros(zeros)
    requires if sign == "-" then m <= -Int32Min else m <= Int32Max
    ensures ParseInt(sign + zeros + NatToString(m)) == Some(if sign == "-" then -(m as int) else m as int)
  {
    var digits := zeros + NatToString(m);
    assert sign + zeros + NatToString(m) == sign + digits;
    DigitsValueLeadingZeros(zeros, NatToString(m));
    DigitsValueOfNatToString(m);
    assert DigitsValue(digits) == m;
    ParseIntOfSignedDigits(sign, digits);
  }

  /** Every string `Integer.toString` produces is one that `Integer.parseInt` accepts. */
  lemma IntToStringIsNumeral(x: int)
    ensures IsDecimalNumeral(IntToString(x))
  {
    var s := IntToString(x);
    if x < 0 {
      var m: nat := -(x as int);
      assert s[1..] == NatToString(m);
    }
  }
}
