/** Fixed-width integers and their decimal text, as Rust's `to_string` and `str::parse` treat them. */
module Decimal {
  import opened Text
  import opened Wrappers

  const U64_LIMIT: nat := 0x1_0000_0000_0000_0000
  const I64_LIMIT: nat := 0x8000_0000_0000_0000

  newtype u64 = x: int | 0 <= x < 0x1_0000_0000_0000_0000
  newtype i64 = x: int | -0x8000_0000_0000_0000 <= x < 0x8000_0000_0000_0000

  predicate AllDigits(s: string) { forall i :: 0 <= i < |s| ==> IsDigit(s[i]) }

  function DigitValue(c: char): (d: nat)
    requires IsDigit(c)
    ensures d < 10
  {
    c as int - '0' as int
  }

  function DigitChar(d: nat): (c: char)
    requires d < 10
    ensures IsDigit(c) && DigitValue(c) == d
  {
    ('0' as int + d) as char
  }

  /** The number a string of decimal digits denotes (most significant digit first). */
  function Value(s: string): nat
    requires AllDigits(s)
  {
    if s == [] then 0 else 10 * Value(s[..|s| - 1]) + DigitValue(s[|s| - 1])
  }

  /** Decimal rendering of a natural number without leading zeros (Rust's `to_string`). */
  function Render(n: nat): (r: string)
    ensures |r| > 0 && AllDigits(r)
    ensures r[0] == '0' <==> n == 0
  {
    if n < 10 then [DigitChar(n)] else Render(n / 10) + [DigitChar(n % 10)]
  }

  lemma {:induction false} ValueOfRender(n: nat)
    ensures Value(Render(n)) == n
  {
    if n >= 10 {
      var r := Render(n);
      assert r[..|r| - 1] == Render(n / 10);
      ValueOfRender(n / 10);
    }
  }

  /** Rendering is one-to-one: distinct numbers have distinct decimal texts. */
  lemma RenderInjective(m: nat, n: nat)
    requires Render(m) == Render(n)
    ensures m == n
  {
    ValueOfRender(m);
    ValueOfRender(n);
  }

  /** Rust's `i64` Display: a minus sign in front of the magnitude of a negative number. */
  function RenderI64(i: i64): (r: string)
    ensures |r| > 0
    ensures r[0] == '-' <==> i < 0
  {
    if i < 0 then "-" + Render(-(i as int)) else Render(i as int)
  }

  /** Rust's `u64::from_str`: an optional '+', then one or more ASCII digits denoting a value below 2^64. */
  function ParseU64(s: string): (r: Option<u64>)
    ensures r.Some? ==> |s| > 0
  {
    var digits := if "+" <= s then s[1..] else s;
    if |digits| > 0 && AllDigits(digits) && Value(digits) < U64_LIMIT then Some(Value(digits) as u64) else None
  }

  /** Rust's `i64::from_str`: an optional sign, then one or more ASCII digits, within the 64-bit signed range. */
  function ParseI64(s: string): (r: Option<i64>)
    ensures r.Some? ==> |s| > 0
  {
    if "-" <= s then
      var digits := s[1..];
      if |digits| > 0 && AllDigits(digits) && Value(digits) <= I64_LIMIT then Some((0 - Value(digits) as int) as i64) else None
    else
      var digits := if "+" <= s then s[1..] else s;
      if |digits| > 0 && AllDigits(digits) && Value(digits) < I64_LIMIT then Some(Value(digits) as i64) else None
  }

  /** On a string of digits, `u64` parsing succeeds exactly when the value fits, and yields that value. */
  lemma ParseU64Digits(s: string)
    requires |s| > 0 && AllDigits(s)
    ensures ParseU64(s) == if Value(s) < U64_LIMIT then Some(Value(s) as u64) else None
  {
    assert !("+" <= s) by { assert IsDigit(s[0]); }
  }

  /** Parsing the decimal text of a 64-bit unsigned number gives the number back. */
  lemma ParseU64Render(n: u64)
    ensures ParseU64(Render(n as int)) == Some(n)
  {
    ValueOfRender(n as int);
    ParseU64Digits(Render(n as int));
  }
}
