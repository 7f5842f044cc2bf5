/** Decimal rendering of naturals, as strconv and big.Int print them. */
module Decimal {
  import opened FixedPoint

  function Pow10(e: nat): (p: nat)
    ensures p > 0
  {
    if e == 0 then 1 else 10 * Pow10(e - 1)
  }

  predicate IsDigit(c: char) {
    '0' <= c <= '9'
  }

  function DigitChar(d: nat): (c: char)
    requires d < 10
    ensures IsDigit(c)
  {
    ['0', '1', '2', '3', '4', '5', '6', '7', '8', '9'][d]
  }

  function DigitValue(c: char): nat
    requires IsDigit(c)
  {
    c as nat - '0' as nat
  }

  function Format(n: nat): (s: string)
    ensures |s| > 0 && forall i :: 0 <= i < |s| ==> IsDigit(s[i])
  {
    if n < 10 then [DigitChar(n)] else Format(n / 10) + [DigitChar(n % 10)]
  }

  function ParseDigits(s: string): Option<nat> {
    if s == [] || !IsDigit(s[|s| - 1]) then None
    else if |s| == 1 then Some(DigitValue(s[0]))
    else
      var rest := ParseDigits(s[..|s| - 1]);
      if rest.None? then None else Some(10 * rest.value + DigitValue(s[|s| - 1]))
  }

  lemma {:induction false} ParseUndoesFormat(n: nat)
    ensures ParseDigits(Format(n)) == Some(n)
  {
    if n >= 10 {
      ParseUndoesFormat(n / 10);
      assert Format(n)[..|Format(n)| - 1] == Format(n / 10);
    }
  }

  /** A positive number has as many digits as the power of ten it lies under. */
  lemma {:induction false} FormatLength(n: nat)
    requires n > 0
    ensures Pow10(|Format(n)| - 1) <= n < Pow10(|Format(n)|)
  {
    if n >= 10 { FormatLength(n / 10); }
  }

  lemma {:induction false} Pow10Sum(a: nat, b: nat)
    ensures Pow10(a + b) == Pow10(a) * Pow10(b)
  {
    if a > 0 { Pow10Sum(a - 1, b); }
  }

  lemma Pow10Mono(a: nat, b: nat)
    requires a <= b
    ensures Pow10(a) <= Pow10(b)
  {}
}
