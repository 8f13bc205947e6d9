/**
 * Decimal integer text. Python's `str(n)` writes an int this way, SQLite's
 * INTEGER affinity recognises such text as an integer literal, and Python's
 * `int(s)` parses it back.
 */
module Numerals {
  import opened Wrappers

  /** The range of SQLite's signed 64-bit INTEGER storage class. */
  const MinInt64: int := -0x8000_0000_0000_0000
  const MaxInt64: int := 0x7FFF_FFFF_FFFF_FFFF

  predicate InInt64(n: int) {
    MinInt64 <= n <= MaxInt64
  }

  predicate IsDigit(c: char) {
    '0' <= c <= '9'
  }

  predicate AllDigits(s: string) {
    forall i :: 0 <= i < |s| ==> IsDigit(s[i])
  }

  function DigitValue(c: char): (d: nat)
    requires IsDigit(c)
    ensures d < 10
  {
    c as int - '0' as int
  }

  function DigitChar(d: nat): (c: char)
    requires d < 10
    ensures IsDigit(c) && DigitValue(c) == d
  {
    ('0' as int + d) as char
  }

  /** The value of a string of decimal digits, most significant digit first. */
  function DigitsValue(s: string): nat
    requires AllDigits(s)
  {
    if s == [] then 0 else DigitsValue(s[..|s| - 1]) * 10 + DigitValue(s[|s| - 1])
  }

  /** Python's `str(n)` for a non-negative `n`: its digits, without leading zeros. */
  function NatToDecimal(n: nat): (s: string)
    ensures |s| > 0 && AllDigits(s)
    ensures s[0] == '0' ==> n == 0 && s == "0"
  {
    if n < 10 then [DigitChar(n)] else NatToDecimal(n / 10) + [DigitChar(n % 10)]
  }

  /**
   * The text Python's `str(n)` writes: a minus sign exactly for a negative `n`,
   * never a plus sign, then the digits of `|n|`.
   */
  function IntToDecimal(n: int): (s: string)
    ensures IsIntegerLiteral(s) && s[0] != '+'
    ensures s[0] == '-' <==> n < 0
  {
    if n < 0 then "-" + NatToDecimal(-n) else NatToDecimal(n)
  }

  function Abs(n: int): nat {
    if n < 0 then -n else n
  }

  function Pow10(k: nat): (p: nat)
    ensures p > 0
  {
    if k == 0 then 1 else 10 * Pow10(k - 1)
  }

  /**
   * CPython's default `sys.get_int_max_str_digits()`: `str(n)` raises
   * `ValueError` when `|n|` has more decimal digits than this.
   */
  const MaxStrDigits: nat := 4300

  /** Why Python's `str(n)` gives no text: the `ValueError` for too many digits. */
  datatype StrError = DigitLimitExceeded

  /**
   * Python's `str(n)` on an int under the default digit limit: the decimal text,
   * or `ValueError` exactly when `|n|` is at least `10 ** 4300`.
   */
  function PyStr(n: int): (r: Result<string, StrError>)
    ensures r.Ok? <==> Abs(n) < Pow10(MaxStrDigits)
    ensures r.Ok? ==> IsIntegerLiteral(r.value) && LiteralValue(r.value) == n
  {
    DecimalLength(Abs(n), MaxStrDigits);
    DecimalRoundTrip(n);
    if |NatToDecimal(Abs(n))| <= MaxStrDigits then Ok(IntToDecimal(n)) else Err(DigitLimitExceeded)
  }

  /** An optional sign followed by at least one decimal digit. */
  predicate IsIntegerLiteral(s: string) {
    if |s| > 0 && (s[0] == '-' || s[0] == '+') then |s| > 1 && AllDigits(s[1..])
    else |s| > 0 && AllDigits(s)
  }

  /** The integer an integer literal denotes. */
  function LiteralValue(s: string): int
    requires IsIntegerLiteral(s)
  {
    if s[0] == '-' then -(DigitsValue(s[1..]) as int)
    else if s[0] == '+' then DigitsValue(s[1..])
    else DigitsValue(s)
  }

  lemma {:induction false} NatToDecimalValue(n: nat)
    ensures DigitsValue(NatToDecimal(n)) == n
  {
    if n >= 10 {
      var s := NatToDecimal(n);
      NatToDecimalValue(n / 10);
      assert s[..|s| - 1] == NatToDecimal(n / 10);
    }
  }

  /** `int(str(n)) == n`: the text Python writes for an int is a literal denoting it. */
  lemma DecimalRoundTrip(n: int)
    ensures IsIntegerLiteral(IntToDecimal(n)) && LiteralValue(IntToDecimal(n)) == n
  {
    if n < 0 {
      NatToDecimalValue(-n);
      assert IntToDecimal(n)[1..] == NatToDecimal(-n);
    } else {
      NatToDecimalValue(n);
    }
  }

  /** `str` is injective: distinct ints are written as distinct texts. */
  lemma DecimalInjective(m: int, n: int)
    ensures IntToDecimal(m) == IntToDecimal(n) ==> m == n
  {
    DecimalRoundTrip(m);
    DecimalRoundTrip(n);
  }

  /** `n` has at most `k` decimal digits exactly when it is below `10 ** k`. */
  lemma {:induction false} DecimalLength(n: nat, k: nat)
    requires k >= 1
    ensures |NatToDecimal(n)| <= k <==> n < Pow10(k)
  {
    Pow10Monotone(1, k);
    if n >= 10 && k > 1 {
      DecimalLength(n / 10, k - 1);
      assert n / 10 < Pow10(k - 1) <==> n < 10 * Pow10(k - 1);
    }
  }

  lemma {:induction false} Pow10Monotone(i: nat, j: nat)
    requires i <= j
    ensures Pow10(i) <= Pow10(j)
  {
    if i < j {
      Pow10Monotone(i, j - 1);
    }
  }

  /** Every 64-bit integer has few enough digits for `str`, so writing it never raises. */
  lemma Int64WithinStrDigits(n: int)
    requires InInt64(n)
    ensures PyStr(n).Ok?
  {
    assert Pow10(6) == 1_000_000;
    assert Pow10(12) == 1_000_000_000_000;
    assert Pow10(19) == 10_000_000_000_000_000_000;
    Pow10Monotone(19, MaxStrDigits);
  }
}
