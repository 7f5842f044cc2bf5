/** What each figure of a vault position stands for before it is rounded: rates over seconds, ratios, and the
    parameters a liquidation is quoted under (finance/lending.go, src/lib/accrual.ts). */
module LendingFigures {
  import opened FixedPoint
  import opened Lending
  import opened LendingLaws
  import opened AccrualMargin

  /** q is n/d, rounded down. */
  predicate Floors(q: nat, n: nat, d: nat) {
    q * d <= n < (q + 1) * d
  }

  lemma MulDivFloors(a: nat, b: nat, d: nat)
    requires d > 0
    ensures Floors(MulDiv(a, b, d), a * b, d)
  {}

  /** Yield is the principal times the rate per second times the seconds since the last settlement; the index
      grows by its own rate times the seconds since the last accrual; and debt is scaled debt at the index. Time
      that runs backwards counts as none. */
  lemma FiguresAreTheRates(s: VaultState, now: int)
    ensures
      var held := if now > s.startTime then now - s.startTime else 0;
      var idle := if now > s.lastAccrualTime then now - s.lastAccrualTime else 0;
      && Floors(AccruedYield(s, now), s.principal * (s.ratePerSecond * held), 1_000_000_000_000_000_000)
      && AccruedBorrowIndex(s, now) >= s.borrowIndex
      && Floors(AccruedBorrowIndex(s, now) - s.borrowIndex, s.borrowIndex * (s.borrowRatePerSecond * idle),
                1_000_000_000_000_000_000)
      && Floors(Debt(s, now), s.scaledDebt * AccruedBorrowIndex(s, now), 1_000_000_000_000_000_000_000_000_000)
      && Floors(StoredDebt(s), s.scaledDebt * s.borrowIndex, 1_000_000_000_000_000_000_000_000_000)
  {
    hide Quotient;
    MulDivFloors(s.scaledDebt, s.borrowIndex, RAY);
    MulDivFloors(s.scaledDebt, AccruedBorrowIndex(s, now), RAY);
    if now > s.startTime { MulDivFloors(s.principal, s.ratePerSecond * (now - s.startTime), WAD); }
    if now > s.lastAccrualTime {
      MulDivFloors(s.borrowIndex, s.borrowRatePerSecond * (now - s.lastAccrualTime), WAD);
      AccruedIndexFormula(s, now);
    }
  }

  /** What backs a position is its ledger value, capped by what its shares redeem for when that is known. */
  lemma CollateralIsTheLesser(s: VaultState, p: VaultParams, now: int)
    ensures
      var h := Describe(s, p, now);
      && h.ledgerValue == s.principal + s.settledYield + AccruedYield(s, now)
      && h.collateral <= h.ledgerValue
      && (s.sharesValue.Some? ==> h.collateral <= s.sharesValue.value)
      && (h.collateral == h.ledgerValue || s.sharesValue == Some(h.collateral))
      && (s.sharesValue.Some? ==> h.sharesValue == s.sharesValue.value)
      && h.pendingInterest == h.debt - h.debtAtStoredIndex && h.debt == Debt(s, now)
        && h.debtAtStoredIndex == StoredDebt(s)
  {}

  lemma RatioOfHealth(collateral: nat, threshold: nat, debt: nat)
    requires debt > 0
    ensures
      var hf, backing := HealthFactor(collateral, threshold, debt), collateral * threshold;
      && hf.Some? && Floors(hf.value, backing, debt)
      && (Liquidatable(hf) <==> backing < WAD * debt)
      && !BandOf(hf).BandNone?
      && (BandOf(hf).BandDanger? <==> 10 * backing < 12 * WAD * debt)
      && (BandOf(hf).BandSafe? <==> 10 * backing >= 15 * WAD * debt)
  {
    BandEdges();
    MulDivFloors(collateral, threshold, debt);
    hide MulDiv;
    var backing, hf := collateral * threshold, HealthFactor(collateral, threshold, debt).value;
    UnderExactly(hf, backing, debt, WAD);
    UnderExactly(hf, backing, debt, 1_200_000_000_000_000_000);
    UnderExactly(hf, backing, debt, 1_500_000_000_000_000_000);
  }

  lemma RatioOfLoan(debt: nat, collateral: nat, maxLTV: nat)
    requires collateral > 0
    ensures
      && LTV(debt, collateral).Some? && Floors(LTV(debt, collateral).value, debt * WAD, collateral)
      && (debt * WAD <= collateral * maxLTV ==> LTV(debt, collateral).value <= maxLTV)
  {
    MulDivFloors(debt, WAD, collateral);
    hide MulDiv;
    UnderExactly(LTV(debt, collateral).value, debt * WAD, collateral, maxLTV + 1);
    assert (maxLTV + 1) * collateral == collateral * maxLTV + collateral;
  }

  /** The health factor is collateral at the threshold over debt; under one the position can be liquidated,
      which is when it owes more than that; the bands are cut at 1.2 and 1.5; loan to value is debt over
      collateral, and does not pass maxLTV while the debt is within it. */
  lemma HealthIsTheRatio(s: VaultState, p: VaultParams, now: int)
    ensures
      var h := Describe(s, p, now);
      var backing := h.collateral * p.liquidationThreshold;
      && (h.healthFactor.None? <==> h.debt == 0)
      && (h.debt > 0 ==> Floors(h.healthFactor.value, backing, h.debt))
      && (h.liquidatable <==> backing < WAD * h.debt)
      && (h.band.BandNone? <==> h.debt == 0)
      && (h.band.BandDanger? <==> 10 * backing < 12 * WAD * h.debt)
      && (h.band.BandSafe? <==> h.debt > 0 && 10 * backing >= 15 * WAD * h.debt)
      && (h.ltv.None? <==> h.collateral == 0)
      && (h.collateral > 0 ==> Floors(h.ltv.value, h.debt * WAD, h.collateral))
      && (h.collateral > 0 && h.debt * WAD <= h.collateral * p.maxLTV ==> h.ltv.value <= p.maxLTV)
      && h.maxBorrowable == MaxBorrowable(h.collateral, p.maxLTV, h.debt)
  {
    hide MulDiv, Floors, Debt, CollateralValue, TotalLedgerValue, StoredDebt, MaxBorrowable;
    var h := Describe(s, p, now);
    if h.debt > 0 { RatioOfHealth(h.collateral, p.liquidationThreshold, h.debt); }
    if h.collateral > 0 { RatioOfLoan(h.debt, h.collateral, p.maxLTV); }
  }

  lemma BandEdges()
    ensures MulDiv(WAD, 12, 10) == 1_200_000_000_000_000_000 && MulDiv(WAD, 15, 10) == 1_500_000_000_000_000_000
  {
    QuotientIs(1_200_000_000_000_000_000, WAD * 12, 10);
    QuotientIs(1_500_000_000_000_000_000, WAD * 15, 10);
  }

  /** A floor is under a line exactly when the fraction is. */
  lemma UnderExactly(q: nat, n: nat, d: nat, line: nat)
    requires d > 0 && Floors(q, n, d)
    ensures q < line <==> n < line * d
  {
    if q < line { MulMono(q + 1, line, d); } else { MulMono(line, q, d); }
  }

  /** A quote is empty unless the position is liquidatable and the vault has its terms; the whole debt may be
      repaid exactly when the health factor is under the threshold grossed up by the bonus, and otherwise the
      close factor's share of it; what is seized is that repayment and its bonus, or all the shares redeem for
      when that is less; and it pays exactly when more is seized than repaid. */
  lemma AQuoteFollowsTheTerms(seizable: nat, debt: nat, healthFactor: Option<nat>, p: VaultParams)
    ensures
      var q := LiquidationQuote(seizable, debt, healthFactor, p);
      if healthFactor.None? || p.closeFactor.None? || p.liquidationBonus.None? || healthFactor.value >= WAD
      then q.maxRepay == 0 && q.seized == 0 && q.bonus == 0 && !q.profitable && !q.fullLiquidation
      else
        var bonus := p.liquidationBonus.value;
        && (q.fullLiquidation <==> (healthFactor.value + 1) * WAD <= p.liquidationThreshold * (WAD + bonus))
        && (q.fullLiquidation ==> q.maxRepay == debt)
        && (!q.fullLiquidation ==> Floors(q.maxRepay, debt * p.closeFactor.value, WAD))
        && q.seized <= seizable
        && (q.seized < seizable ==> q.seized >= q.maxRepay && Floors(q.seized - q.maxRepay, q.maxRepay * bonus, WAD))
        && (q.seized == seizable ==> seizable * WAD <= q.maxRepay * (WAD + bonus))
        && (q.profitable <==> q.seized > q.maxRepay)
        && q.bonus == (if q.profitable then q.seized - q.maxRepay else 0)
  {
    hide Quotient;
    if healthFactor.Some? && p.closeFactor.Some? && p.liquidationBonus.Some? && healthFactor.value < WAD {
      var q, bonus := LiquidationQuote(seizable, debt, healthFactor, p), p.liquidationBonus.value;
      MulDivFloors(p.liquidationThreshold, WAD + bonus, WAD);
      UnderExactly(FullLine(p), p.liquidationThreshold * (WAD + bonus), WAD, healthFactor.value + 1);
      MulDivExact(debt, WAD);
      MulDivFloors(debt, p.closeFactor.value, WAD);
      MulDivFloors(q.maxRepay, bonus, WAD);
      SeizedWithinBonus(q.maxRepay, bonus, q.seized);
    }
  }

  /** The allowances of the screens are no larger than they need be: a thousandth of the debt and one unit, so
      that a payment overpays by no more than that, and a borrow gives up no more room than that. */
  lemma AllowancesAreTight(debt: nat, wallet: nat, ceiling: nat)
    ensures Margin(0) == 0 && 1000 * Margin(debt) <= debt + 1000
    ensures PayOffAmount(debt, wallet) <= wallet && PayOffAmount(debt, wallet) <= debt + Margin(debt)
    ensures wallet >= debt + Margin(debt) ==> PayOffAmount(debt, wallet) == debt + Margin(debt)
    ensures BorrowHeadroom(ceiling, debt) > 0 <==> ceiling > Margin(debt)
    ensures ceiling > Margin(debt) ==> BorrowHeadroom(ceiling, debt) + Margin(debt) == ceiling
  {}
}
