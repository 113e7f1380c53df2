/**
 * Kotlin's 32-bit `Int`, its decimal rendering `Int.toString()` and its parser
 * `String.toIntOrNull()` (radix 10), which the controller uses for the
 * person-count field and for seeding that field from the store.
 */
module KotlinInt {
  import opened Wrappers

  const INT_MIN: int := -0x8000_0000
  const INT_MAX: int := 0x7FFF_FFFF

  /** Values of Kotlin's `Int`. */
  type Int32 = x: int | -0x8000_0000 <= x <= 0x7FFF_FFFF

  predicate IsDigit(c: char) { '0' <= c <= '9' }

  predicate AllDigits(s: string) { forall i :: 0 <= i < |s| ==> IsDigit(s[i]) }

  function DigitValue(c: char): nat
    requires IsDigit(c)
  {
    c as int - '0' as int
  }

  function DigitChar(d: nat): (c: char)
    requires d < 10
  {
    (('0' as int) + d) as char
  }

  /** The number a string of decimal digits denotes, read most significant digit first. */
  function DigitsValue(s: string): nat
    requires AllDigits(s)
  {
    if |s| == 0 then 0 else DigitsValue(s[..|s| - 1]) * 10 + DigitValue(s[|s| - 1])
  }

  /** An optional leading '-' or '+' followed by at least one decimal digit. */
  predicate WellFormedInt(s: string)
  {
    |s| > 0 &&
    if s[0] == '-' || s[0] == '+' then |s| >= 2 && AllDigits(s[1..]) else AllDigits(s)
  }

  /** The integer a well-formed text denotes, before any range check. */
  function SignedValue(s: string): int
    requires WellFormedInt(s)
  {
    if s[0] == '-' then -(DigitsValue(s[1..]) as int)
    else if s[0] == '+' then DigitsValue(s[1..])
    else DigitsValue(s)
  }

  /**
   * `String.toIntOrNull()`: an optional leading '-' or '+' followed by at least one
   * decimal digit, whose value fits in an `Int`; anything else is null.
   * As in the library, a first character below '0' is the only place a sign may stand.
   */
  function ParseInt(s: string): (r: Option<Int32>)
    ensures r.Some? <==> WellFormedInt(s) && INT_MIN <= SignedValue(s) <= INT_MAX
    ensures r.Some? ==> WellFormedInt(s) && r.value == SignedValue(s)
    ensures r.Some? ==> |s| > 0
    ensures r.Some? ==> forall i :: 0 < i < |s| ==> IsDigit(s[i])
    ensures r.Some? && r.value < 0 ==> s[0] == '-'
  {
    if |s| == 0 then None
    else if s[0] < '0' then
      if |s| == 1 then None
      else if s[0] == '-' then
        if AllDigits(s[1..]) && DigitsValue(s[1..]) <= -INT_MIN then Some(-(DigitsValue(s[1..]) as int)) else None
      else if s[0] == '+' then
        if AllDigits(s[1..]) && DigitsValue(s[1..]) <= INT_MAX then Some(DigitsValue(s[1..])) else None
      else None
    else if AllDigits(s) && DigitsValue(s) <= INT_MAX then Some(DigitsValue(s))
    else None
  }

  /** Decimal digits of a natural number, without leading zeros. */
  function NatDigits(k: nat): string
  {
    if k < 10 then [DigitChar(k)] else NatDigits(k / 10) + [DigitChar(k % 10)]
  }

  /**
   * `Int.toString()`: a '-' for negative values, then the digits of the magnitude.
   * The text denotes `n`, and starts with '0' only for 0 itself.
   */
  function IntToString(n: Int32): (r: string)
    ensures WellFormedInt(r) && SignedValue(r) == n
    ensures r[0] != '+'
    ensures r[0] == '0' ==> r == "0"
  {
    if n < 0 then
      NatDigitsDenote(-(n as int));
      var r := "-" + NatDigits(-(n as int));
      assert r[1..] == NatDigits(-(n as int));
      r
    else
      NatDigitsDenote(n);
      NatDigits(n)
  }

  lemma {:induction false} NatDigitsDenote(k: nat)
    ensures |NatDigits(k)| > 0 && AllDigits(NatDigits(k))
    ensures DigitsValue(NatDigits(k)) == k
    ensures NatDigits(k)[0] == '0' <==> k == 0
  {
    if k >= 10 {
      NatDigitsDenote(k / 10);
      var s := NatDigits(k);
      assert s[..|s| - 1] == NatDigits(k / 10);
    }
  }

  /** Parsing the rendering of any `Int` gives that `Int` back. */
  lemma ParseIntToString(n: Int32)
    ensures ParseInt(IntToString(n)) == Some(n)
  {
  }
}
