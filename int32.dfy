/**
 * C#'s 32-bit `int`: the unchecked (wrap-around) arithmetic the counters use,
 * Int32.ToString() as written into XML attributes, and Convert.ToInt32(string)
 * as used to read them back.
 */
module Int32 {
  import opened Wrappers
  import opened Text

  const Min: int := -0x8000_0000
  const Max: int := 0x7FFF_FFFF

  predicate InRange(x: int) {
    Min <= x <= Max
  }

  /** The values of a C# int. */
  type Int = x: int | -0x8000_0000 <= x <= 0x7FFF_FFFF

  /** C#'s unchecked `a + b` on ints. */
  function Add(a: Int, b: Int): Int
  {
    if a + b > Max then a + b - 0x1_0000_0000
    else if a + b < Min then a + b + 0x1_0000_0000
    else a + b
  }

  /** The sum is exact when it fits, and otherwise the mathematical sum moved by 2^32 back into range. */
  lemma AddWraps(a: Int, b: Int)
    ensures InRange(a + b) ==> Add(a, b) == a + b
    ensures Add(a, b) == a + b || Add(a, b) == a + b - 0x1_0000_0000 || Add(a, b) == a + b + 0x1_0000_0000
    ensures (Add(a, b) - (a + b)) % 0x1_0000_0000 == 0
  {
  }

  /** C#'s unchecked `a - b` on ints. */
  function Sub(a: Int, b: Int): Int
  {
    if a - b > Max then a - b - 0x1_0000_0000
    else if a - b < Min then a - b + 0x1_0000_0000
    else a - b
  }

  /** The difference is exact when it fits, and otherwise moved by 2^32 back into range. */
  lemma SubWraps(a: Int, b: Int)
    ensures InRange(a - b) ==> Sub(a, b) == a - b
    ensures Sub(a, b) == a - b || Sub(a, b) == a - b - 0x1_0000_0000 || Sub(a, b) == a - b + 0x1_0000_0000
    ensures (Sub(a, b) - (a - b)) % 0x1_0000_0000 == 0
  {
  }

  /** Accumulating with `+=` does not depend on how the additions are grouped. */
  lemma AddAssociative(a: Int, b: Int, c: Int)
    ensures Add(Add(a, b), c) == Add(a, Add(b, c))
  {
  }

  /** Subtracting and adding back the same int gives the original, overflow or not. */
  lemma SubAddCancel(a: Int, b: Int)
    ensures Add(Sub(a, b), b) == a
  {
  }

  predicate IsDigit(c: char) {
    '0' <= c <= '9'
  }

  predicate AllDigits(s: string) {
    forall i :: 0 <= i < |s| ==> IsDigit(s[i])
  }

  function DigitValue(c: char): nat
    requires IsDigit(c)
  {
    (c as int) - ('0' as int)
  }

  function DigitChar(d: nat): (c: char)
    requires d < 10
    ensures IsDigit(c) && DigitValue(c) == d
  {
    (('0' as int) + d) as char
  }

  /** The decimal digits of n, most significant first, without leading zeros. */
  function NatToString(n: nat): (s: string)
    ensures |s| > 0 && AllDigits(s)
    decreases n
  {
    if n < 10 then [DigitChar(n)] else NatToString(n / 10) + [DigitChar(n % 10)]
  }

  /** The value of a string of decimal digits. */
  function DigitsValue(s: string): nat
    requires AllDigits(s)
    decreases |s|
  {
    if s == [] then 0 else DigitsValue(s[..|s| - 1]) * 10 + DigitValue(s[|s| - 1])
  }

  lemma {:induction false} DigitsValueOfNatToString(n: nat)
    ensures DigitsValue(NatToString(n)) == n
    decreases n
  {
    var s := NatToString(n);
    if n >= 10 {
      DigitsValueOfNatToString(n / 10);
      assert s[..|s| - 1] == NatToString(n / 10);
    }
  }

  /** Int32.ToString() with the invariant culture's minus sign. */
  function IntToString(i: int): (s: string)
  {
    if i < 0 then "-" + NatToString(-i) else NatToString(i)
  }

  /** The characters NumberStyles.Integer lets surround a number. */
  const NumberWhite: set<char> := {'\t', '\n', '\U{B}', '\U{C}', '\r', ' '}

  /**
   * Convert.ToInt32(string) with NumberStyles.Integer: surrounding white space,
   * an optional sign and at least one decimal digit; None where .NET throws
   * a FormatException or an OverflowException.
   */
  function ParseInt32(s: string): Option<Int>
  {
    var t := Trim(s, NumberWhite);
    var signed := |t| > 0 && (t[0] == '-' || t[0] == '+');
    var digits := if signed then t[1..] else t;
    if |digits| == 0 || !AllDigits(digits) then None
    else
      var magnitude: int := DigitsValue(digits);
      var v: int := if signed && t[0] == '-' then -magnitude else magnitude;
      if InRange(v) then Some(v) else None
  }

  /** A string without a decimal digit is never a number. */
  lemma ParseNeedsDigit(s: string)
    requires forall k :: 0 <= k < |s| ==> !IsDigit(s[k])
    ensures ParseInt32(s) == None
  {
    var t := Trim(s, NumberWhite);
    TrimIsInfix(s, NumberWhite);
    var signed := |t| > 0 && (t[0] == '-' || t[0] == '+');
    var digits := if signed then t[1..] else t;
    if |digits| > 0 {
      var a := |s| - |TrimStart(s, NumberWhite)|;
      var k := if signed then a + 1 else a;
      assert s[k] == digits[0];
    }
  }

  /** What the synthetic report writes, the aggregator reads back unchanged. */
  lemma ParseIntToString(i: int)
    requires InRange(i)
    ensures ParseInt32(IntToString(i)) == Some(i)
  {
    var s := IntToString(i);
    var n: nat := if i < 0 then -i else i;
    var digits := NatToString(n);
    DigitsValueOfNatToString(n);
    assert IsDigit(digits[|digits| - 1]);
    assert s[|s| - 1] == digits[|digits| - 1];
    assert s[0] == '-' || IsDigit(s[0]);
    TrimUnchanged(s, NumberWhite);
    if i < 0 {
      assert s[1..] == digits;
    }
  }
}
