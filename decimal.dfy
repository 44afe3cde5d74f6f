/**
 * Decimal text of 32-bit integers, as Kotlin's `Int.toString()` renders it
 * and as `String.toInt()` reads it back (ASCII digits only).
 */
module Decimal {

  const INT_MIN: int := -0x8000_0000
  const INT_MAX: int := 0x7FFF_FFFF

  /** A value that fits Kotlin's `Int`. */
  predicate IsInt32(n: int) {
    INT_MIN <= n <= INT_MAX
  }

  predicate IsDigit(c: char) {
    '0' <= c <= '9'
  }

  predicate AllDigits(s: string) {
    forall i :: 0 <= i < |s| ==> IsDigit(s[i])
  }

  function DigitChar(d: nat): (c: char)
    requires d < 10
    ensures IsDigit(c) && c as int - '0' as int == d
  {
    ('0' as int + d) as char
  }

  function DigitValue(c: char): nat
    requires IsDigit(c)
  {
    c as int - '0' as int
  }

  /**
   * Decimal rendering of a natural number, most significant digit first: a
   * non-empty run of digits that reads back as `n`, with no leading zero.
   */
  function NatToString(n: nat): (s: string)
    ensures |s| > 0 && AllDigits(s)
    ensures ParseDigits(s) == n
    ensures s[0] == '0' ==> s == "0"
    decreases n
  {
    if n < 10 then [DigitChar(n)]
    else
      var prefix := NatToString(n / 10);
      var s := prefix + [DigitChar(n % 10)];
      assert s[..|s| - 1] == prefix;
      s
  }

  /** `Int.toString()`: a minus sign for negative values, then the digits. */
  function IntToString(n: int): string {
    if n < 0 then "-" + NatToString(-n) else NatToString(n)
  }

  /** Value of a run of ASCII digits, read left to right. */
  function ParseDigits(s: string): nat
    requires AllDigits(s)
  {
    if s == [] then 0 else ParseDigits(s[..|s| - 1]) * 10 + DigitValue(s[|s| - 1])
  }

  predicate HasSign(s: string) {
    |s| > 0 && (s[0] == '-' || s[0] == '+')
  }

  /** The digits of a literal once an optional leading sign is dropped. */
  function Magnitude(s: string): string {
    if HasSign(s) then s[1..] else s
  }

  predicate IsWellFormed(s: string) {
    |Magnitude(s)| > 0 && AllDigits(Magnitude(s))
  }

  function SignedValue(s: string): int
    requires IsWellFormed(s)
  {
    if HasSign(s) && s[0] == '-' then -(ParseDigits(Magnitude(s)) as int) else ParseDigits(Magnitude(s))
  }

  /** The strings `String.toInt()` accepts without throwing. */
  predicate IsIntLiteral(s: string) {
    IsWellFormed(s) && IsInt32(SignedValue(s))
  }

  /** `String.toInt()` on an accepted string. */
  function ParseInt(s: string): (n: int)
    requires IsIntLiteral(s)
    ensures IsInt32(n)
    ensures s[0] == '-' ==> n <= 0
    ensures AllDigits(s) ==> n == ParseDigits(s)
  {
    SignedValue(s)
  }

  /** Rendering a 32-bit value and reading it back gives the value again. */
  lemma IntStringRoundTrip(n: int)
    requires IsInt32(n)
    ensures IsIntLiteral(IntToString(n))
    ensures ParseInt(IntToString(n)) == n
  {
  }
}
