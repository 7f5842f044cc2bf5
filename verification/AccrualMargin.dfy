/** The allowance the screens make for interest not yet accrued (src/lib/accrual.ts), joined to
    the debt the pool will actually compute (finance/lending.go). */
module AccrualMargin {
  import opened FixedPoint
  import opened Lending
  import opened LendingLaws

  function Margin(debt: nat): nat {
    if debt > 0 then debt / 1000 + 1 else 0
  }

  function PayOffAmount(debt: nat, wallet: nat): nat {
    var buffered := debt + Margin(debt);
    if buffered < wallet then buffered else wallet
  }

  function BorrowHeadroom(ceiling: nat, debt: nat): nat {
    if ceiling > Margin(debt) then ceiling - Margin(debt) else 0
  }

  /** At most a thousandth of interest has built up since the pool last accrued. */
  predicate WithinAllowance(s: VaultState, now: int) {
    s.lastAccrualTime <= now && s.borrowRatePerSecond * (now - s.lastAccrualTime) <= WAD / 1000
  }

  lemma GainWithinAllowance(index: nat, g: nat, gain: nat)
    requires g <= WAD / 1000 && gain * WAD <= index * g
    ensures 1000 * gain <= index
  {
    var k := WAD / 1000;
    MulMono(g, k, index);
    assert (1000 * gain) * k == gain * WAD;
    MulCancel(1000 * gain, index + 1, k);
  }

  lemma IndexWithinAllowance(s: VaultState, now: int)
    requires WithinAllowance(s, now)
    ensures 1000 * AccruedBorrowIndex(s, now) <= 1001 * s.borrowIndex
  {
    AccruedIndexFormula(s, now);
    var g := s.borrowRatePerSecond * (now - s.lastAccrualTime);
    GainWithinAllowance(s.borrowIndex, g, MulDiv(s.borrowIndex, g, WAD));
  }

  lemma NoDebtNoScaledDebt(scaled: nat, index: nat)
    requires index >= RAY && MulDiv(scaled, index, RAY) == 0
    ensures scaled == 0
  {}

  /** The margin covers everything that accrues, through both floors. A debt that reads as zero
      has no margin; that is enough as long as the index never fell below its starting RAY,
      because then only a position with no scaled debt reads as zero. */
  lemma MarginIsSufficient(s: VaultState, now: int)
    requires WithinAllowance(s, now)
    requires StoredDebt(s) > 0 || s.borrowIndex >= RAY
    ensures Debt(s, now) <= StoredDebt(s) + Margin(StoredDebt(s))
  {
    var d, d', x := StoredDebt(s), Debt(s, now), s.scaledDebt;
    var i, i' := s.borrowIndex, AccruedBorrowIndex(s, now);
    IndexWithinAllowance(s, now);
    if d == 0 {
      NoDebtNoScaledDebt(x, i);
    } else {
      assert 1000 * (d' * RAY) <= 1001 * (x * i) by {
        MulMono(1000 * i', 1001 * i, x);
        assert x * (1000 * i') == 1000 * (x * i') && x * (1001 * i) == 1001 * (x * i);
      }
      assert 1001 * (x * i) < (1001 * (d + 1)) * RAY;
      MulCancel(1000 * d', 1001 * (d + 1), RAY);
      assert 1000 * d' < 1001 * (d + 1);
    }
  }

  /**
   * Why `MarginIsSufficient` asks for an index of at least RAY: a debt that reads as zero under a lower
   * one would escape the margin. The pool's own index starts at RAY and only grows.
   */
  lemma MarginNeedsAnIndex()
    ensures exists s: VaultState, now ::
      WithinAllowance(s, now) && StoredDebt(s) == 0 && Debt(s, now) > Margin(StoredDebt(s))
  {
    var s := VaultState(0, 0, 0, 0, None, 1001, RAY / 1001, 1_000_000_000_000_000, 0);
    var i := s.borrowIndex;
    QuotientBelow(1, 1001 * i, RAY);
    assert WithinAllowance(s, 1);
    AccruedIndexFormula(s, 1);
    QuotientAtLeast(i / 1000, i * 1_000_000_000_000_000, WAD);
    assert AccruedBorrowIndex(s, 1) >= i + i / 1000;
    QuotientAtLeast(1, 1001 * (i + i / 1000), RAY);
    MulDivMono(1001, 1001, i + i / 1000, AccruedBorrowIndex(s, 1), RAY);
  }

  /** "Repay all" clears the debt found when the transaction lands exactly when the wallet holds
      that much. */
  lemma PayOffClears(s: VaultState, now: int, wallet: nat)
    requires WithinAllowance(s, now)
    requires StoredDebt(s) > 0 || s.borrowIndex >= RAY
    ensures PayOffAmount(StoredDebt(s), wallet) >= Debt(s, now) <==> wallet >= Debt(s, now)
  {
    MarginIsSufficient(s, now);
  }

  /** `later` is `s` with nothing having fallen that backs the position, and no borrow since. */
  predicate NotFallen(s: VaultState, later: VaultState) {
    && s.principal <= later.principal
    && s.sharesValue.Some? && later.sharesValue.Some? && s.sharesValue.value <= later.sharesValue.value
    && later == s.(principal := later.principal, sharesValue := later.sharesValue)
  }

  lemma CollateralHolds(s: VaultState, later: VaultState, t: int, now: int)
    requires NotFallen(s, later) && t <= now
    ensures CollateralValue(s, t) <= CollateralValue(later, now)
  {
    var e, e' := t - s.startTime, now - s.startTime;
    if e > 0 && s.principal > 0 {
      MulMono(e, e', s.ratePerSecond);
      assert s.ratePerSecond * e <= s.ratePerSecond * e';
      MulDivMono(s.principal, later.principal, s.ratePerSecond * e, s.ratePerSecond * e', WAD);
    }
  }

  /** Borrowing the whole positive headroom read at `t` still fits at `now`, after the pool has
      accrued: under maxLTV, and within the ceiling the pool recomputes. */
  lemma HeadroomStillFits(s: VaultState, later: VaultState, p: VaultParams, t: int, now: int)
    requires NotFallen(s, later) && t <= now && WithinAllowance(s, now)
    requires StoredDebt(s) > 0 || s.borrowIndex >= RAY
    requires BorrowHeadroom(MaxBorrowable(CollateralValue(s, t), p.maxLTV, StoredDebt(s)), StoredDebt(s)) > 0
    ensures
      var headroom := BorrowHeadroom(MaxBorrowable(CollateralValue(s, t), p.maxLTV, StoredDebt(s)), StoredDebt(s));
      && (Debt(later, now) + headroom) * WAD <= CollateralValue(later, now) * p.maxLTV
      && headroom <= MaxBorrowable(CollateralValue(later, now), p.maxLTV, Debt(later, now))
  {
    var c, c' := CollateralValue(s, t), CollateralValue(later, now);
    var headroom := BorrowHeadroom(MaxBorrowable(c, p.maxLTV, StoredDebt(s)), StoredDebt(s));
    MarginIsSufficient(s, now);
    CollateralHolds(s, later, t, now);
    assert Debt(later, now) == Debt(s, now);
    assert Debt(s, now) + headroom <= MulDiv(c, p.maxLTV, WAD);
    MulMono(Debt(s, now) + headroom, MulDiv(c, p.maxLTV, WAD), WAD);
    MulMono(c, c', p.maxLTV);
    MaxBorrowableIsExact(c', p.maxLTV, Debt(later, now), headroom);
  }
}
