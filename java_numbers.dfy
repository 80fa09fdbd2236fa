/**
 * Java's fixed-width integers and the decimal text forms produced by
 * `Integer.toString` and read by `Integer.parseInt`.
 */
module JavaNumbers {
  import opened Wrappers

  const LONG_MIN: int := -0x8000_0000_0000_0000
  const LONG_MAX: int := 0x7fff_ffff_ffff_ffff
  const INT_MIN: int := -0x8000_0000
  const INT_MAX: int := 0x7fff_ffff

  /** A Java `long`. */
  type Long = x: int | LONG_MIN <= x <= LONG_MAX

  /** A Java `int`. */
  type Int32 = x: int | INT_MIN <= x <= INT_MAX

  /** The value a Java `long` expression whose exact value is `x` evaluates to (two's-complement wrap-around). */
  function WrapLong(x: int): (r: Long)
    ensures LONG_MIN <= x <= LONG_MAX ==> r == x
    ensures (x - r) % LONG_RANGE == 0
  {
    (x - LONG_MIN) % LONG_RANGE + LONG_MIN
  }

  /** 2^64, the number of distinct `long` values. */
  const LONG_RANGE: int := 0x1_0000_0000_0000_0000

  lemma ModShift(y: int, q: int)
    ensures (y + q * LONG_RANGE) % LONG_RANGE == y % LONG_RANGE
  {
  }

  /** Wrapping an intermediate result does not change the wrapped final one. */
  lemma WrapLongAdd(x: int, t: int)
    ensures WrapLong(WrapLong(x) + t) == WrapLong(x + t)
  {
    var a := x - LONG_MIN;
    ModShift(a % LONG_RANGE + t, a / LONG_RANGE);
  }

  predicate IsDigit(c: char) {
    '0' <= c <= '9'
  }

  predicate AllDigits(s: string) {
    forall i :: 0 <= i < |s| ==> IsDigit(s[i])
  }

  function DigitChar(d: nat): (c: char)
    requires d < 10
    ensures IsDigit(c) && c as int - '0' as int == d
  {
    ('0' as int + d) as char
  }

  /** Decimal digits of `n`, most significant first, without leading zeros. */
  function NatToDecimal(n: nat): (s: string)
    ensures |s| >= 1 && AllDigits(s)
  {
    if n < 10 then [DigitChar(n)] else NatToDecimal(n / 10) + [DigitChar(n % 10)]
  }

  /** The number a string of decimal digits denotes (leading zeros allowed). */
  function DecimalValue(s: string): nat
    requires AllDigits(s)
  {
    if |s| == 0 then 0 else DecimalValue(s[..|s| - 1]) * 10 + (s[|s| - 1] as int - '0' as int)
  }

  /** `Integer.toString(n)`: a minus sign for negative values, then the digits of the magnitude. */
  function IntegerToString(n: int): (s: string)
    ensures |s| >= 1 && (s[0] == '-' <==> n < 0)
    ensures n >= 0 ==> AllDigits(s)
    ensures n < 0 ==> |s| >= 2 && AllDigits(s[1..])
  {
    if n < 0 then "-" + NatToDecimal(-n) else NatToDecimal(n)
  }

  /**
   * `Integer.parseInt(s)`: an optional sign, at least one decimal digit, and a
   * value inside the `int` range; `None` is a `NumberFormatException`.
   */
  function ParseInt(s: string): (r: Option<Int32>)
    ensures r.Some? ==> |s| >= 1 && (s[0] == '-' || s[0] == '+' || IsDigit(s[0]))
    ensures r.Some? && r.value < 0 ==> s[0] == '-'
    ensures IsBlank(s) ==> r.None?
    ensures |s| >= 1 && AllDigits(s) && DecimalValue(s) <= INT_MAX ==> r == Some(DecimalValue(s))
  {
    if |s| == 0 then None
    else
      var digits := if s[0] == '-' || s[0] == '+' then s[1..] else s;
      if |digits| == 0 || !AllDigits(digits) then None
      else
        var v: int := if s[0] == '-' then 0 - DecimalValue(digits) as int else DecimalValue(digits);
        if INT_MIN <= v <= INT_MAX then Some(v) else None
  }

  /** `String.trim().length() == 0`: every character is a space or a control character. */
  predicate IsBlank(s: string): (b: bool)
    ensures |s| == 0 ==> b
    ensures b ==> forall i :: 0 <= i < |s| ==> !IsDigit(s[i]) && s[i] != '-' && s[i] != '+'
  {
    forall i :: 0 <= i < |s| ==> s[i] <= ' '
  }

  lemma {:induction false} DecimalRoundTrip(n: nat)
    ensures DecimalValue(NatToDecimal(n)) == n
  {
    if n >= 10 {
      var s := NatToDecimal(n);
      assert s[..|s| - 1] == NatToDecimal(n / 10);
      DecimalRoundTrip(n / 10);
    }
  }

  /** `Integer.parseInt(Integer.toString(n)) == n` for every `int`. */
  lemma ParseIntToString(n: Int32)
    ensures ParseInt(IntegerToString(n)) == Some(n)
  {
    var s := IntegerToString(n);
    if n < 0 {
      var m: nat := 0 - n as int;
      var d := NatToDecimal(m);
      assert s == "-" + d && s[0] == '-' && s[1..] == d;
      DecimalRoundTrip(m);
      assert DecimalValue(d) == m;
    } else {
      var d := NatToDecimal(n);
      assert s == d && IsDigit(s[0]);
      DecimalRoundTrip(n);
      assert DecimalValue(d) == n;
    }
  }

  /** The text `Integer.toString` writes is never blank. */
  lemma IntegerToStringNotBlank(n: int)
    ensures !IsBlank(IntegerToString(n))
  {
    var s := IntegerToString(n);
    if n < 0 {
      assert s[0] == '-';
    } else {
      assert IsDigit(s[0]);
    }
  }
}
