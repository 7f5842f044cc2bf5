/** Choosing the level a round asks about (keeper/strike.go): rounding a spot price to a step that
    depends on the price's own number of digits. */
module Strike {
  import opened FixedPoint
  import opened Decimal

  function Digits(whole: nat): nat {
    if whole == 0 then 0 else |Format(whole)|
  }

  function Exponent(spot: nat): nat {
    var e := 18 + Digits(spot / WAD) - 3;
    if e < 16 then 16 else e
  }

  function StrikeStep(spot: nat): (step: nat)
    ensures step > 0
  {
    Pow10(Exponent(spot))
  }

  /** Round half up to a multiple of `step`. */
  function RoundTo(n: nat, step: nat): nat
    requires step > 0
  {
    Quotient(n + step / 2, step) * step
  }

  function StrikeFor(spot: int): Option<nat> {
    if spot <= 0 then None
    else
      var step := StrikeStep(spot);
      var strike := RoundTo(spot, step);
      Some(if strike == 0 then step else strike)
  }

  ghost predicate MultipleOf(n: nat, step: nat) {
    exists k: nat :: n == k * step
  }

  lemma RoundToNear(n: nat, step: nat)
    requires step > 0
    ensures RoundTo(n, step) <= n + step / 2
    ensures n <= RoundTo(n, step) + step / 2
    ensures MultipleOf(RoundTo(n, step), step)
  {}

  /** A multiple of the step bounds the rounding from whichever side it bounds the price. */
  lemma RoundToAround(n: nat, m: nat, step: nat)
    requires step > 0 && MultipleOf(m, step)
    ensures n <= m ==> RoundTo(n, step) <= m
    ensures m <= n ==> m <= RoundTo(n, step)
  {
    var k: nat :| m == k * step;
    if n <= m {
      assert (k + 1) * step == m + step;
      QuotientBelow(k + 1, n + step / 2, step);
      MulMono(Quotient(n + step / 2, step), k, step);
    }
    if m <= n {
      QuotientAtLeast(k, n + step / 2, step);
      MulMono(k, Quotient(n + step / 2, step), step);
    }
  }

  lemma RoundToMono(a: nat, b: nat, step: nat)
    requires step > 0 && a <= b
    ensures RoundTo(a, step) <= RoundTo(b, step)
  {
    QuotientMono(a + step / 2, b + step / 2, step);
    MulMono(Quotient(a + step / 2, step), Quotient(b + step / 2, step), step);
  }

  lemma Pow10Multiple(e: nat, k: nat)
    requires k <= e
    ensures MultipleOf(Pow10(e), Pow10(k))
  {
    Pow10Sum(e - k, k);
  }

  lemma WadIsPow10()
    ensures WAD == Pow10(18)
  {
    assert Pow10(6) == 1_000_000;
    Pow10Sum(6, 6);
    Pow10Sum(12, 6);
  }

  /** A price lies in the decade its digit count names. */
  lemma Decade(spot: nat)
    ensures spot < Pow10(18 + Digits(spot / WAD))
    ensures Digits(spot / WAD) > 0 ==> Pow10(17 + Digits(spot / WAD)) <= spot
  {
    WadIsPow10();
    var whole, d := spot / WAD, Digits(spot / WAD);
    if whole > 0 {
      FormatLength(whole);
      Pow10Sum(18, d);
      Pow10Sum(18, d - 1);
      assert whole * WAD <= spot;
      MulMono(Pow10(d - 1), whole, WAD);
      MulMono(whole + 1, Pow10(d), WAD);
    }
  }

  /** Nothing above the price's own decade has more digits than it, and conversely. */
  lemma DigitsFromDecade(spot: nat, d: nat)
    requires d > 0 && Pow10(17 + d) <= spot < Pow10(18 + d)
    ensures Digits(spot / WAD) == d
  {
    var d' := Digits(spot / WAD);
    Decade(spot);
    if d' < d { Pow10Mono(18 + d', 17 + d); }
    if d < d' { Pow10Mono(18 + d, 17 + d'); }
    if d' == 0 { Pow10Mono(18, 17 + d); }
  }

  lemma DigitsMono(a: nat, b: nat)
    requires a <= b
    ensures Digits(a / WAD) <= Digits(b / WAD)
  {
    Decade(a);
    Decade(b);
    if Digits(b / WAD) < Digits(a / WAD) {
      Pow10Mono(18 + Digits(b / WAD), 17 + Digits(a / WAD));
    }
  }

  /** The strike is positive, a multiple of its step, and within half a step of spot except when
      spot is below half a step, where it is one step. For a spot of at least one whole unit it
      is within a two-hundredth of it. */
  lemma StrikeIsNearSpot(spot: nat)
    requires spot > 0
    ensures StrikeFor(spot).Some?
    ensures
      var strike, step := StrikeFor(spot).value, StrikeStep(spot);
      && strike > 0 && MultipleOf(strike, step)
      && (2 * spot >= step ==> strike <= spot + step / 2 && spot <= strike + step / 2)
      && (2 * spot < step ==> strike == step)
      && (spot >= WAD ==> 200 * strike <= 201 * spot && 199 * spot <= 200 * strike)
  {
    var strike, step := StrikeFor(spot).value, StrikeStep(spot);
    RoundToNear(spot, step);
    assert step == 1 * step;
    StepIsEven(spot);
    if 2 * spot >= step {
      QuotientAtLeast(1, spot + step / 2, step);
      MulMono(1, Quotient(spot + step / 2, step), step);
    } else {
      QuotientBelow(1, spot + step / 2, step);
    }
    if spot >= WAD { StepIsAHundredth(spot); }
  }

  /** The step keeps the first three digits of a price of one unit or more, and is a hundredth of a unit below
      that; only a price that is not positive has no strike. */
  lemma TheStepKeepsThreeDigits(spot: int)
    ensures StrikeFor(spot).None? <==> spot <= 0
    ensures spot >= WAD ==> 100 * StrikeStep(spot) <= spot < 1000 * StrikeStep(spot)
    ensures 0 <= spot < WAD ==> StrikeStep(spot) == 10_000_000_000_000_000
  {
    if spot >= WAD {
      StepIsAHundredth(spot);
    } else if spot >= 0 {
      StepBelowOne(spot);
    }
  }

  lemma StepBelowOne(spot: nat)
    requires spot < WAD
    ensures StrikeStep(spot) == 10_000_000_000_000_000
  {
    assert spot / WAD == 0;
    assert Pow10(4) == 10_000;
    Pow10Sum(4, 4);
    Pow10Sum(8, 8);
  }

  lemma StepIsEven(spot: nat)
    ensures StrikeStep(spot) % 2 == 0
  {
    assert StrikeStep(spot) == 10 * Pow10(Exponent(spot) - 1);
  }

  lemma StepIsAHundredth(spot: nat)
    requires spot >= WAD
    ensures 100 * StrikeStep(spot) <= spot < 1000 * StrikeStep(spot)
  {
    Decade(spot);
    assert Digits(spot / WAD) > 0;
    var e := Exponent(spot);
    assert Pow10(e + 2) == 10 * (10 * Pow10(e));
    assert Pow10(e + 3) == 10 * Pow10(e + 2);
    assert e + 2 == 17 + Digits(spot / WAD);
  }

  /** The decade's upper edge is a multiple of the decade's step. */
  lemma StrikeWithinDecade(spot: nat)
    requires spot > 0
    ensures StrikeFor(spot).value <= Pow10(18 + Digits(spot / WAD))
    ensures Digits(spot / WAD) > 0 ==> Pow10(17 + Digits(spot / WAD)) <= StrikeFor(spot).value
  {
    var d, step := Digits(spot / WAD), StrikeStep(spot);
    Decade(spot);
    Pow10Multiple(18 + d, Exponent(spot));
    RoundToAround(spot, Pow10(18 + d), step);
    Pow10Mono(Exponent(spot), 18 + d);
    if d > 0 {
      Pow10Multiple(17 + d, Exponent(spot));
      RoundToAround(spot, Pow10(17 + d), step);
    }
  }

  /** Higher prices never get lower strikes, whatever digit-count boundary lies between them. */
  lemma StrikeIsMonotone(a: nat, b: nat)
    requires 0 < a <= b
    ensures StrikeFor(a).value <= StrikeFor(b).value
  {
    var da, db := Digits(a / WAD), Digits(b / WAD);
    DigitsMono(a, b);
    if da == db {
      RoundToMono(a, b, StrikeStep(a));
      StrikeIsNearSpot(b);
      var k: nat :| StrikeFor(b).value == k * StrikeStep(b);
      MulMono(1, k, StrikeStep(b));
    } else {
      StrikeWithinDecade(a);
      StrikeWithinDecade(b);
      Pow10Mono(18 + da, 17 + db);
    }
  }

  /** A strike is its own strike, also when rounding carried it into the next decade. */
  lemma StrikeIsIdempotent(spot: nat)
    requires spot > 0
    ensures StrikeFor(StrikeFor(spot).value) == StrikeFor(spot)
  {
    hide RoundTo, Pow10, Digits;
    var r, d := StrikeFor(spot).value, Digits(spot / WAD);
    StrikeIsNearSpot(spot);
    StrikeWithinDecade(spot);
    if r == Pow10(18 + d) {
      DecadeEdgeIsAStrike(d);
    } else {
      if d > 0 { DigitsFromDecade(r, d); } else { DigitsBelowOne(r); }
      RoundToAround(r, r, StrikeStep(r));
    }
  }

  lemma DecadeEdgeIsAStrike(d: nat)
    ensures StrikeFor(Pow10(18 + d)) == Some(Pow10(18 + d))
  {
    hide RoundTo, Digits;
    var r := Pow10(18 + d);
    Pow10Mono(18 + d, 19 + d);
    assert Pow10(19 + d) == 10 * r;
    DigitsFromDecade(r, d + 1);
    Pow10Multiple(18 + d, Exponent(r));
    RoundToAround(r, r, StrikeStep(r));
  }

  lemma DigitsBelowOne(r: nat)
    requires r < Pow10(18)
    ensures Digits(r / WAD) == 0
  {
    WadIsPow10();
  }
}
