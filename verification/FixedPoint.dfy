/** The floor-division base of every money rule (finance.go).

    `math/big`'s Div is Euclidean, as Dafny's `/` is, so `MulDiv` is written with `/` directly.
    A nil *big.Int is read as zero by every caller modelled here except where an Option says
    otherwise. */
module FixedPoint {

  datatype Option<+T> = None | Some(value: T) {
    function GetOr(fallback: T): T {
      if Some? then value else fallback
    }
  }

  const WAD: nat := 1_000_000_000_000_000_000
  const RAY: nat := 1_000_000_000_000_000_000_000_000_000

  function MulDiv(a: nat, b: nat, denominator: nat): (q: nat) {
    if denominator == 0 then 0 else Quotient(a * b, denominator)
  }

  /** Floor division of naturals; named so that proofs can talk about one division at a time. */
  function Quotient(n: nat, d: nat): (q: nat)
    requires d > 0
    ensures q * d <= n < (q + 1) * d
  {
    DivisionBounds(n, d);
    n / d
  }

  function MinOpt(a: nat, b: Option<nat>): nat {
    if b.Some? && b.value < a then b.value else a
  }

  lemma DivisionBounds(n: nat, d: nat)
    requires d > 0
    ensures n / d >= 0
    ensures (n / d) * d <= n < (n / d + 1) * d
  {
    assert n == (n / d) * d + n % d;
  }

  lemma MulMono(x: int, y: int, k: nat)
    requires x <= y
    ensures x * k <= y * k
  {}

  lemma MulCancel(x: int, y: int, k: nat)
    requires x * k < y * k
    ensures x < y
  {}

  /** The quotient is the largest q with q*d <= n. */
  lemma QuotientAtLeast(x: int, n: nat, d: nat)
    requires d > 0
    requires x * d <= n
    ensures x <= Quotient(n, d)
  {}

  lemma QuotientBelow(x: int, n: nat, d: nat)
    requires d > 0
    requires n < x * d
    ensures Quotient(n, d) < x
  {}

  lemma QuotientMono(m: nat, n: nat, d: nat)
    requires d > 0
    requires m <= n
    ensures Quotient(m, d) <= Quotient(n, d)
  {
    QuotientAtLeast(Quotient(m, d), n, d);
  }

  /** Flooring a sum loses at most one more unit than flooring its two parts. */
  lemma QuotientSplit(m: nat, n: nat, d: nat)
    requires d > 0
    ensures Quotient(m, d) + Quotient(n, d) <= Quotient(m + n, d) <= Quotient(m, d) + Quotient(n, d) + 1
  {
    var x, y := Quotient(m, d), Quotient(n, d);
    assert (x + y) * d == x * d + y * d;
    assert (x + y + 2) * d == (x + 1) * d + (y + 1) * d;
    QuotientAtLeast(x + y, m + n, d);
    QuotientBelow(x + y + 2, m + n, d);
  }

  lemma MulDivMono(a: nat, a': nat, b: nat, b': nat, d: nat)
    requires a <= a' && b <= b'
    ensures MulDiv(a, b, d) <= MulDiv(a', b', d)
  {
    MulMono(a, a', b);
    MulMono(b, b', a');
    if d > 0 { QuotientMono(a * b, a' * b', d); }
  }

  lemma MulDivExact(a: nat, d: nat)
    requires d > 0
    ensures MulDiv(a, d, d) == a
  {}
}
