/** Resource versions as the decimal strings that objects carry. */
module Decimal {

  const UINT64_LIMIT: nat := 0x1_0000_0000_0000_0000

  function DigitChar(d: nat): char
    requires d < 10
  {
    '0' + d as char
  }

  predicate IsDigit(c: char) { '0' <= c <= '9' }

  function DigitValue(c: char): nat
    requires IsDigit(c)
  {
    (c - '0') as nat
  }

  /** strconv.FormatUint(n, 10) */
  function FormatUint(n: nat): (s: string)
    ensures |s| > 0
  {
    if n < 10 then [DigitChar(n)] else FormatUint(n / 10) + [DigitChar(n % 10)]
  }

  predicate AllDigits(s: string) { forall i | 0 <= i < |s| :: IsDigit(s[i]) }

  function DigitsValue(s: string): nat
    requires AllDigits(s)
  {
    if s == "" then 0 else DigitsValue(s[..|s| - 1]) * 10 + DigitValue(s[|s| - 1])
  }

  /** parseRV: empty, malformed and out-of-range text all read as 0. */
  function ParseRV(s: string): nat {
    if s == "" || !AllDigits(s) then 0
    else if DigitsValue(s) >= UINT64_LIMIT then 0
    else DigitsValue(s)
  }

  lemma {:induction false} FormatUintValue(n: nat)
    ensures AllDigits(FormatUint(n)) && DigitsValue(FormatUint(n)) == n
  {
    if n >= 10 {
      FormatUintValue(n / 10);
      var s := FormatUint(n);
      assert s[..|s| - 1] == FormatUint(n / 10);
    } else {
      var s := FormatUint(n);
      assert s[..|s| - 1] == "";
    }
  }

  /** Every 64-bit resource version survives being written as text and read back. */
  lemma ParseFormat(n: nat)
    requires n < UINT64_LIMIT
    ensures ParseRV(FormatUint(n)) == n
  {
    FormatUintValue(n);
  }

  /** Comparing resource versions as text is comparing them as numbers. */
  lemma FormatInjective(m: nat, n: nat)
    ensures FormatUint(m) == FormatUint(n) <==> m == n
  {
    FormatUintValue(m);
    FormatUintValue(n);
  }
}
