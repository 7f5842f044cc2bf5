/** The lending rules of finance/lending.go: yield, debt, health and liquidation quotes, as
    functions of one snapshot of raw chain state.

    A nil *big.Int is an Option only where the source tells it apart from zero. */
module Lending {
  import opened FixedPoint

  datatype VaultParams = VaultParams(
    maxLTV: nat,
    liquidationThreshold: nat,
    liquidationBonus: Option<nat>,
    closeFactor: Option<nat>)

  datatype VaultState = VaultState(
    principal: nat,
    settledYield: nat,
    ratePerSecond: nat,
    startTime: int,
    sharesValue: Option<nat>,
    scaledDebt: nat,
    borrowIndex: nat,
    borrowRatePerSecond: nat,
    lastAccrualTime: int)

  function AccruedYield(s: VaultState, now: int): nat {
    if now - s.startTime <= 0 || s.principal == 0 then 0
    else MulDiv(s.principal, s.ratePerSecond * (now - s.startTime), WAD)
  }

  function TotalLedgerValue(s: VaultState, now: int): nat {
    s.principal + s.settledYield + AccruedYield(s, now)
  }

  function CollateralValue(s: VaultState, now: int): nat {
    MinOpt(TotalLedgerValue(s, now), s.sharesValue)
  }

  function StoredDebt(s: VaultState): nat {
    MulDiv(s.scaledDebt, s.borrowIndex, RAY)
  }

  function AccruedBorrowIndex(s: VaultState, now: int): nat {
    if now - s.lastAccrualTime <= 0 || s.borrowIndex == 0 then s.borrowIndex
    else
      var growth := s.borrowRatePerSecond * (now - s.lastAccrualTime);
      if growth == 0 then s.borrowIndex
      else s.borrowIndex + MulDiv(s.borrowIndex, growth, WAD)
  }

  function Debt(s: VaultState, now: int): nat {
    MulDiv(s.scaledDebt, AccruedBorrowIndex(s, now), RAY)
  }

  function HealthFactor(collateral: nat, threshold: nat, debt: nat): Option<nat> {
    if debt == 0 then None else Some(MulDiv(collateral, threshold, debt))
  }

  predicate Liquidatable(healthFactor: Option<nat>) {
    healthFactor.Some? && healthFactor.value < WAD
  }

  function MaxBorrowable(collateral: nat, maxLTV: nat, debt: nat): nat {
    var ceiling := MulDiv(collateral, maxLTV, WAD);
    if ceiling <= debt then 0 else ceiling - debt
  }

  function LTV(debt: nat, collateral: nat): Option<nat> {
    if collateral == 0 then None else Some(MulDiv(debt, WAD, collateral))
  }

  datatype Band = BandNone | BandSafe | BandCaution | BandDanger

  function BandOf(healthFactor: Option<nat>): Band {
    if healthFactor.None? then BandNone
    else if healthFactor.value < MulDiv(WAD, 12, 10) then BandDanger
    else if healthFactor.value < MulDiv(WAD, 15, 10) then BandCaution
    else BandSafe
  }

  datatype Health = Health(
    ledgerValue: nat,
    sharesValue: nat,
    collateral: nat,
    debt: nat,
    debtAtStoredIndex: nat,
    pendingInterest: int,
    maxBorrowable: nat,
    healthFactor: Option<nat>,
    ltv: Option<nat>,
    liquidatable: bool,
    band: Band)

  function Describe(s: VaultState, p: VaultParams, now: int): Health {
    var collateral := CollateralValue(s, now);
    var debt := Debt(s, now);
    var hf := HealthFactor(collateral, p.liquidationThreshold, debt);
    Health(
      TotalLedgerValue(s, now), s.sharesValue.GetOr(0), collateral,
      debt, StoredDebt(s), debt - StoredDebt(s),
      MaxBorrowable(collateral, p.maxLTV, debt),
      hf, LTV(debt, collateral), Liquidatable(hf), BandOf(hf))
  }

  datatype Quote = Quote(maxRepay: nat, seized: nat, bonus: nat, profitable: bool, fullLiquidation: bool)

  const EMPTY_QUOTE := Quote(0, 0, 0, false, false)

  /** The line below which the close factor lifts to the whole debt. */
  function FullLine(p: VaultParams): nat
    requires p.liquidationBonus.Some?
  {
    MulDiv(p.liquidationThreshold, WAD + p.liquidationBonus.value, WAD)
  }

  function QuoteFor(h: Health, p: VaultParams): Quote {
    LiquidationQuote(h.sharesValue, h.debt, h.healthFactor, p)
  }

  function LiquidationQuote(seizable: nat, debt: nat, healthFactor: Option<nat>, p: VaultParams): Quote {
    if healthFactor.None? || p.closeFactor.None? || p.liquidationBonus.None? then EMPTY_QUOTE
    else if healthFactor.value >= WAD then EMPTY_QUOTE
    else
      var full := healthFactor.value < FullLine(p);
      var closeFactor := if full then WAD else p.closeFactor.value;
      var repay := MulDiv(debt, closeFactor, WAD);
      var wanted := repay + MulDiv(repay, p.liquidationBonus.value, WAD);
      var seized := if seizable < wanted then seizable else wanted;
      Quote(repay, seized, if seized > repay then seized - repay else 0, seized > repay, full)
  }
}
