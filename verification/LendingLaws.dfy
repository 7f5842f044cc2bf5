/** What the lending rules promise, through every floor: time can be split, interest only grows,
    a borrow at the ceiling is safe, and a liquidation does not make a position worse. */
module LendingLaws {
  import opened FixedPoint
  import opened Lending

  // ---- Splitting time ----------------------------------------------------------------------

  /** One yield checkpoint: bank what accrued, restart the clock. */
  function Settle(s: VaultState, t: int): VaultState {
    s.(settledYield := s.settledYield + AccruedYield(s, t), startTime := t)
  }

  function SettleAll(s: VaultState, ts: seq<int>): VaultState
    decreases |ts|
  {
    if ts == [] then s else SettleAll(Settle(s, ts[0]), ts[1..])
  }

  /** One index checkpoint, as the pool's `accrue` writes it. */
  function Accrue(s: VaultState, t: int): VaultState {
    s.(borrowIndex := AccruedBorrowIndex(s, t), lastAccrualTime := t)
  }

  function AccrueAll(s: VaultState, ts: seq<int>): VaultState
    decreases |ts|
  {
    if ts == [] then s else AccrueAll(Accrue(s, ts[0]), ts[1..])
  }

  /** Checkpoints run forward from `start`. */
  predicate Forward(start: int, ts: seq<int>)
    decreases |ts|
  {
    ts != [] ==> start <= ts[0] && Forward(ts[0], ts[1..])
  }

  /** Yield over [start, b] against yield over [start, a] and [a, b]. */
  lemma YieldSplit(s: VaultState, a: int, b: int)
    requires s.startTime <= a <= b
    ensures AccruedYield(s, a) + AccruedYield(Settle(s, a), b) <= AccruedYield(s, b)
    ensures AccruedYield(s, b) <= AccruedYield(s, a) + AccruedYield(Settle(s, a), b) + 1
  {}

  lemma Distribute(p: nat, r: nat, x: nat, y: nat)
    ensures p * (r * (x + y)) == p * (r * x) + p * (r * y)
  {}

  /** Settling at n checkpoints instead of waiting never gains yield and loses at most n units,
      as seen by the ledger value at any later time. */
  lemma {:induction false} SettlingOftenNeverPays(s: VaultState, ts: seq<int>, now: int)
    requires Forward(s.startTime, ts + [now])
    ensures TotalLedgerValue(s, now) - |ts| <= TotalLedgerValue(SettleAll(s, ts), now) <= TotalLedgerValue(s, now)
    decreases |ts|
  {
    if ts != [] {
      assert (ts + [now])[1..] == ts[1..] + [now];
      SettlingOftenNeverPays(Settle(s, ts[0]), ts[1..], now);
      ForwardReaches(ts[0], ts[1..], now);
      YieldSplit(s, ts[0], now);
    }
  }

  lemma {:induction false} ForwardReaches(start: int, ts: seq<int>, now: int)
    requires Forward(start, ts + [now])
    ensures start <= now
    decreases |ts|
  {
    if ts != [] {
      assert (ts + [now])[1..] == ts[1..] + [now];
      ForwardReaches(ts[0], ts[1..], now);
    }
  }

  /** Everything banked at n >= 1 checkpoints, the last one at `end`, against one settlement at
      `end`: short by at most n-1. */
  lemma {:induction false} CheckpointedYield(s: VaultState, ts: seq<int>, end: int)
    requires Forward(s.startTime, ts + [end])
    ensures
      var banked := SettleAll(s, ts + [end]).settledYield - s.settledYield;
      AccruedYield(s, end) - |ts| <= banked <= AccruedYield(s, end)
  {
    SettlingOftenNeverPays(s, ts, end);
    SettleAllAppend(s, ts, end);
    SettleKeepsPrincipal(s, ts);
  }

  lemma {:induction false} SettleAllAppend(s: VaultState, ts: seq<int>, end: int)
    ensures SettleAll(s, ts + [end]) == Settle(SettleAll(s, ts), end)
    decreases |ts|
  {
    if ts != [] {
      assert (ts + [end])[1..] == ts[1..] + [end];
      SettleAllAppend(Settle(s, ts[0]), ts[1..], end);
    }
  }

  lemma {:induction false} SettleKeepsPrincipal(s: VaultState, ts: seq<int>)
    ensures SettleAll(s, ts).principal == s.principal
    decreases |ts|
  {
    if ts != [] { SettleKeepsPrincipal(Settle(s, ts[0]), ts[1..]); }
  }

  /** The index after `growth`, which is what AccruedBorrowIndex computes in all its branches. */
  lemma AccruedIndexFormula(s: VaultState, now: int)
    requires s.lastAccrualTime <= now
    ensures AccruedBorrowIndex(s, now)
         == s.borrowIndex + MulDiv(s.borrowIndex, s.borrowRatePerSecond * (now - s.lastAccrualTime), WAD)
  {}

  /** Accruing twice compounds: never less than accruing once, up to one unit of flooring. */
  lemma IndexSplit(s: VaultState, a: int, b: int)
    requires s.lastAccrualTime <= a <= b
    ensures AccruedBorrowIndex(Accrue(s, a), b) + 1 >= AccruedBorrowIndex(s, b)
  {
    AccruedIndexFormula(s, a);
    AccruedIndexFormula(s, b);
    AccruedIndexFormula(Accrue(s, a), b);
    var i, r, e1, e2 := s.borrowIndex, s.borrowRatePerSecond, a - s.lastAccrualTime, b - a;
    Distribute(i, r, e1, e2);
    QuotientSplit(i * (r * e1), i * (r * e2), WAD);
    MulDivMono(i, AccruedBorrowIndex(s, a), r * e2, r * e2, WAD);
  }

  /** Accruing at n checkpoints before `end` leaves the index at `end` at least the
      single-accrual index less n. */
  lemma {:induction false} AccruingOftenNeverLosesInterest(s: VaultState, ts: seq<int>, end: int)
    requires Forward(s.lastAccrualTime, ts + [end])
    ensures AccruedBorrowIndex(AccrueAll(s, ts), end) >= AccruedBorrowIndex(s, end) - |ts|
    decreases |ts|
  {
    if ts != [] {
      assert (ts + [end])[1..] == ts[1..] + [end];
      AccruingOftenNeverLosesInterest(Accrue(s, ts[0]), ts[1..], end);
      ForwardReaches(ts[0], ts[1..], end);
      IndexSplit(s, ts[0], end);
    }
  }

  lemma IndexMonoInTime(s: VaultState, t: int, later: int)
    requires t <= later
    ensures s.borrowIndex <= AccruedBorrowIndex(s, t) <= AccruedBorrowIndex(s, later)
  {
    if s.lastAccrualTime <= t {
      AccruedIndexFormula(s, t);
      AccruedIndexFormula(s, later);
      var r, e, e' := s.borrowRatePerSecond, t - s.lastAccrualTime, later - s.lastAccrualTime;
      MulMono(e, e', r);
      assert r * e <= r * e';
      MulDivMono(s.borrowIndex, s.borrowIndex, r * e, r * e', WAD);
    }
  }

  /** Debt never falls with time, and the interest reported as pending is never negative. */
  lemma DebtOnlyGrows(s: VaultState, p: VaultParams, t: int, later: int)
    requires t <= later
    ensures StoredDebt(s) <= Debt(s, t) <= Debt(s, later)
    ensures 0 <= Describe(s, p, t).pendingInterest <= Describe(s, p, later).pendingInterest
  {
    IndexMonoInTime(s, t, later);
    MulDivMono(s.scaledDebt, s.scaledDebt, s.borrowIndex, AccruedBorrowIndex(s, t), RAY);
    MulDivMono(s.scaledDebt, s.scaledDebt, AccruedBorrowIndex(s, t), AccruedBorrowIndex(s, later), RAY);
  }

  // ---- Borrowing room ----------------------------------------------------------------------

  /** MaxBorrowable is exact: a further borrow fits under maxLTV precisely when it does not
      exceed it. */
  lemma MaxBorrowableIsExact(collateral: nat, maxLTV: nat, debt: nat, extra: nat)
    requires extra > 0
    ensures (debt + extra) * WAD <= collateral * maxLTV <==> extra <= MaxBorrowable(collateral, maxLTV, debt)
  {}

  /** Borrowing the whole of a positive MaxBorrowable leaves the position on the safe side of the
      liquidation line, whenever the borrow ceiling is not above it. */
  lemma BorrowingTheMaximumIsSafe(collateral: nat, p: VaultParams, debt: nat)
    requires p.maxLTV <= p.liquidationThreshold
    requires MaxBorrowable(collateral, p.maxLTV, debt) > 0
    ensures
      var hf := HealthFactor(collateral, p.liquidationThreshold,
                             debt + MaxBorrowable(collateral, p.maxLTV, debt));
      hf.Some? && hf.value >= WAD && !Liquidatable(hf)
  {
    var after := debt + MaxBorrowable(collateral, p.maxLTV, debt);
    MulMono(p.maxLTV, p.liquidationThreshold, collateral);
    assert after * WAD <= collateral * p.maxLTV <= collateral * p.liquidationThreshold;
    QuotientAtLeast(WAD, collateral * p.liquidationThreshold, after);
  }

  // ---- Liquidation -------------------------------------------------------------------------

  lemma HealthBelowThreshold(collateral: nat, threshold: nat, debt: nat)
    requires 0 < threshold && collateral < debt
    ensures MulDiv(collateral, threshold, debt) < threshold
  {
    MulMono(collateral, debt - 1, threshold);
    assert (debt - 1) * threshold == threshold * debt - threshold;
    QuotientBelow(threshold, collateral * threshold, debt);
  }

  /** A position owing more than its shares redeem for is quoted as a full, unprofitable
      liquidation that takes everything. This is the handler's write-off test. */
  lemma UnderwaterIsAWriteOff(s: VaultState, p: VaultParams, now: int)
    requires 0 < p.liquidationThreshold <= WAD
    requires p.liquidationBonus.Some? && p.closeFactor.Some?
    requires s.sharesValue.Some?
    requires Debt(s, now) > s.sharesValue.value
    ensures QuoteFor(Describe(s, p, now), p) == Quote(Debt(s, now), s.sharesValue.value, 0, false, true)
  {
    var debt, threshold := Debt(s, now), p.liquidationThreshold;
    HealthBelowThreshold(CollateralValue(s, now), threshold, debt);
    MulMono(WAD, WAD + p.liquidationBonus.value, threshold);
    assert threshold * WAD <= threshold * (WAD + p.liquidationBonus.value);
    QuotientAtLeast(threshold, threshold * (WAD + p.liquidationBonus.value), WAD);
    MulDivExact(debt, WAD);
  }

  /** Why that asks for the shares value: the write-off test compares the debt with it alone, and it caps both
      collateral and seizure. Every snapshot the services build has it; of one without, the quote is the
      write-off exactly when the health factor is under both the liquidation line and the full one, whatever
      the comparison says. */
  lemma WriteOffNeedsTheSharesRead(s: VaultState, p: VaultParams, now: int)
    requires p.liquidationBonus.Some? && p.closeFactor.Some?
    requires s.sharesValue.None? && Debt(s, now) > 0
    ensures
      var h := Describe(s, p, now);
      && h.debt > h.sharesValue
      && (QuoteFor(h, p) == Quote(h.debt, h.sharesValue, 0, false, true)
          <==> h.healthFactor.value < WAD && h.healthFactor.value < FullLine(p))
  {
    MulDivExact(Debt(s, now), WAD);
  }

  /** Collateral per unit of debt strictly clears 1 + bonus. */
  lemma AboveTheLineCoversTheBonus(collateral: nat, debt: nat, p: VaultParams)
    requires debt > 0 && p.liquidationBonus.Some?
    requires
      var hf := MulDiv(collateral, p.liquidationThreshold, debt);
      || hf > FullLine(p)
      || (hf == FullLine(p) && FullLine(p) * WAD == p.liquidationThreshold * (WAD + p.liquidationBonus.value))
    requires p.liquidationThreshold > 0
    ensures debt * (WAD + p.liquidationBonus.value) <= collateral * WAD
  {
    var t, b := p.liquidationThreshold, p.liquidationBonus.value;
    var hf := MulDiv(collateral, t, debt);
    // hf * WAD >= t * (WAD + b) in either case
    assert hf * WAD >= t * (WAD + b) by {
      if hf > FullLine(p) { MulMono(FullLine(p) + 1, hf, WAD); }
    }
    // and hf * debt <= collateral * t
    if collateral * WAD < debt * (WAD + b) {
      calc {
        t * (collateral * WAD);
      < { StrictMul(collateral * WAD, debt * (WAD + b), t); }
        t * (debt * (WAD + b));
      == { Swap(t, debt, WAD + b); }
        debt * (t * (WAD + b));
      <= { MulMono(t * (WAD + b), hf * WAD, debt); }
        debt * (hf * WAD);
      == { Swap(debt, hf, WAD); }
        WAD * (hf * debt);
      <= { MulMono(hf * debt, collateral * t, WAD); }
        WAD * (collateral * t);
      == { Swap(WAD, collateral, t); }
        t * (collateral * WAD);
      }
      assert false;
    }
  }

  lemma StrictMul(x: int, y: int, k: nat)
    requires x < y && k > 0
    ensures k * x < k * y
  {
  }

  lemma Swap(x: int, y: int, z: int)
    ensures x * (y * z) == y * (x * z) == z * (y * x)
  {
  }

  /** What a partial liquidation takes, against what it repays. */
  lemma SeizedWithinBonus(repay: nat, bonus: nat, seized: nat)
    requires seized <= repay + MulDiv(repay, bonus, WAD)
    ensures seized * WAD <= repay * (WAD + bonus)
  {}

  lemma RepayWithinDebt(debt: nat, closeFactor: nat)
    requires closeFactor <= WAD
    ensures MulDiv(debt, closeFactor, WAD) <= debt
  {}

  /** The collateral covers the debt and the bonus on it: something a caller can check before the call. */
  predicate CoversTheBonus(h: Health, p: VaultParams)
    requires p.liquidationBonus.Some?
  {
    h.debt * (WAD + p.liquidationBonus.value) <= h.collateral * WAD
  }

  /** The liquidation leaves the position no worse: (collateral - seized) / (debt - repaid) is at least
      collateral / debt, stated by cross-multiplying. */
  predicate NoWorse(h: Health, q: Quote) {
    && q.maxRepay <= h.debt && q.seized <= h.collateral
    && (h.collateral - q.seized) * h.debt >= h.collateral * (h.debt - q.maxRepay)
  }

  /** After a capped liquidation collateral over debt is no worse if the collateral covers the bonus, through
      every floor of the quote; and, where the shares do not limit the seizure and the bonus on what is repaid
      is a whole number of units, only if it does. */
  lemma CappedLiquidationExactly(s: VaultState, p: VaultParams, now: int)
    requires p.liquidationBonus.Some? && p.closeFactor.Some? && p.closeFactor.value <= WAD
    requires Debt(s, now) > 0 && !QuoteFor(Describe(s, p, now), p).fullLiquidation
    ensures
      var h, bonus := Describe(s, p, now), p.liquidationBonus.value;
      var q := QuoteFor(h, p);
      && (CoversTheBonus(h, p) ==> NoWorse(h, q))
      && (q.maxRepay > 0 && q.seized * WAD == q.maxRepay * (WAD + bonus) ==> (NoWorse(h, q) <==> CoversTheBonus(h, p)))
  {
    var h := Describe(s, p, now);
    var q := QuoteFor(h, p);
    var c, d, r, z, grossed := h.collateral, h.debt, q.maxRepay, q.seized, WAD + p.liquidationBonus.value;
    RepayWithinDebt(d, p.closeFactor.value);
    SeizedWithinBonus(r, p.liquidationBonus.value, z);
    if CoversTheBonus(h, p) {
      SeizureIsProportionate(c, d, r, z, grossed);
    } else if r > 0 && z * WAD == r * grossed && NoWorse(h, q) {
      WorseWhenUncovered(c, d, r, z, grossed);
    }
  }

  lemma WorseWhenUncovered(c: nat, d: nat, r: nat, z: nat, grossed: nat)
    requires 0 < r <= d && z <= c && z * WAD == r * grossed
    requires (c - z) * d >= c * (d - r)
    ensures d * grossed <= c * WAD
  {
    assert z * d <= c * r by {
      assert (c - z) * d == c * d - z * d && c * (d - r) == c * d - c * r;
    }
    MulMono(z * d, c * r, WAD);
    calc {
      r * (d * grossed);
      d * (r * grossed);
      d * (z * WAD);
      WAD * (z * d);
      <= WAD * (c * r);
      r * (c * WAD);
    }
    if c * WAD < d * grossed { StrictMul(c * WAD, d * grossed, r); }
  }

  /** Above the full-liquidation line a capped liquidation never leaves the position worse. Exactly on the
      line it does not when the line itself lost nothing to flooring. */
  lemma CappedLiquidationDoesNotHurt(s: VaultState, p: VaultParams, now: int)
    requires p.liquidationThreshold > 0
    requires p.liquidationBonus.Some? && p.closeFactor.Some? && p.closeFactor.value <= WAD
    requires
      var hf := Describe(s, p, now).healthFactor;
      hf.Some? && (|| hf.value > FullLine(p)
                   || (hf.value == FullLine(p)
                       && FullLine(p) * WAD == p.liquidationThreshold * (WAD + p.liquidationBonus.value)))
    ensures
      var h := Describe(s, p, now);
      var q := QuoteFor(h, p);
      !q.fullLiquidation && CoversTheBonus(h, p) && NoWorse(h, q)
  {
    var h := Describe(s, p, now);
    AboveTheLineCoversTheBonus(h.collateral, h.debt, p);
    CappedLiquidationExactly(s, p, now);
  }

  lemma SeizureIsProportionate(c: nat, d: nat, r: nat, z: nat, grossed: nat)
    requires r <= d && d > 0
    requires z * WAD <= r * grossed && d * grossed <= c * WAD
    ensures z <= c
    ensures (c - z) * d >= c * (d - r)
  {}

  /** What the vault's constructor lets through. */
  predicate Deployable(p: VaultParams) {
    && p.maxLTV < p.liquidationThreshold < WAD
    && p.liquidationBonus.Some? && p.liquidationBonus.value < WAD
    && p.closeFactor.Some? && 0 < p.closeFactor.value <= WAD
  }

  const UNITS_20: nat := 20_000_000_000_000_000_000
  const SHORT_OF_21: nat := 20_999_999_999_999_999_999
  const ROUNDED: VaultParams :=
    VaultParams(750_000_000_000_000_000, 800_000_000_000_000_001, Some(50_000_000_000_000_000),
                Some(500_000_000_000_000_000))
  const ON_THE_LINE: VaultState := VaultState(SHORT_OF_21, 0, 0, 0, Some(SHORT_OF_21), UNITS_20, RAY, 0, 0)

  lemma TheNumbers()
    ensures MulDiv(UNITS_20, RAY, RAY) == UNITS_20
    ensures MulDiv(SHORT_OF_21, 800_000_000_000_000_001, UNITS_20) == 840_000_000_000_000_001
    ensures MulDiv(800_000_000_000_000_001, WAD + 50_000_000_000_000_000, WAD) == 840_000_000_000_000_001
    ensures MulDiv(UNITS_20, 500_000_000_000_000_000, WAD) == 10_000_000_000_000_000_000
    ensures MulDiv(10_000_000_000_000_000_000, 50_000_000_000_000_000, WAD) == 500_000_000_000_000_000
  {
    MulDivExact(UNITS_20, RAY);
    hide Quotient;
    QuotientIs(840_000_000_000_000_001, SHORT_OF_21 * 800_000_000_000_000_001, UNITS_20);
    QuotientIs(840_000_000_000_000_001, 800_000_000_000_000_001 * (WAD + 50_000_000_000_000_000), WAD);
    QuotientIs(10_000_000_000_000_000_000, UNITS_20 * 500_000_000_000_000_000, WAD);
    QuotientIs(500_000_000_000_000_000, 10_000_000_000_000_000_000 * 50_000_000_000_000_000, WAD);
  }

  /** Exactly on a line that was rounded down it can: a deployable market, half a debt of twenty units
      repayable at a bonus of one twentieth, and a collateral one wei short of covering it. */
  lemma OnARoundedLineItCanHurt()
    ensures
      var h := Describe(ON_THE_LINE, ROUNDED, 0);
      && Deployable(ROUNDED)
      && h.healthFactor == Some(FullLine(ROUNDED)) && !QuoteFor(h, ROUNDED).fullLiquidation
      && h.collateral == SHORT_OF_21 && h.debt == UNITS_20
      && !CoversTheBonus(h, ROUNDED) && !NoWorse(h, QuoteFor(h, ROUNDED))
  {
    TheSnapshot();
    TheQuote();
    TheNumbers();
    hide MulDiv, BandOf, LTV, MaxBorrowable, CoversTheBonus, NoWorse, Debt, CollateralValue, StoredDebt,
         TotalLedgerValue, LiquidationQuote, FullLine;
    OneWeiShort(Describe(ON_THE_LINE, ROUNDED, 0));
  }

  lemma TheSnapshot()
    ensures Debt(ON_THE_LINE, 0) == UNITS_20 && CollateralValue(ON_THE_LINE, 0) == SHORT_OF_21
  {
    TheNumbers();
    hide MulDiv;
  }

  lemma TheQuote()
    ensures FullLine(ROUNDED) == 840_000_000_000_000_001
    ensures
      LiquidationQuote(SHORT_OF_21, UNITS_20, Some(840_000_000_000_000_001), ROUNDED)
      == Quote(10_000_000_000_000_000_000, 10_500_000_000_000_000_000, 500_000_000_000_000_000, true, false)
  {
    TheNumbers();
    hide MulDiv;
  }

  lemma OneWeiShort(h: Health)
    requires h.collateral == SHORT_OF_21 && h.debt == UNITS_20
    ensures !CoversTheBonus(h, ROUNDED)
    ensures !NoWorse(h, Quote(10_000_000_000_000_000_000, 10_500_000_000_000_000_000, 500_000_000_000_000_000,
                              true, false))
  {}

  lemma QuotientIs(q: nat, n: nat, d: nat)
    requires d > 0 && q * d <= n < (q + 1) * d
    ensures Quotient(n, d) == q
  {
    QuotientAtLeast(q, n, d);
    QuotientBelow(q + 1, n, d);
  }
}
