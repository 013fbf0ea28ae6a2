// What each of the program's checked divisions returns, multiplied back out, and exactly when it errs instead.
module Meaning {
  import opened Arithmetic
  import opened Outcomes
  import Guard
  import Scope

  /** `q` is `n` over `d` rounded down, or rounded up. */
  predicate IsFloor(q: int, n: int, d: int) {
    q * d <= n < (q + 1) * d
  }

  predicate IsCeiling(q: int, n: int, d: int) {
    (q - 1) * d < n <= q * d
  }

  /** A power of ten the program can raise. */
  predicate UnitFits(power: u64) {
    power <= 0xFFFF_FFFF && Pow10(power) < TWO_TO_THE_128
  }

  lemma TheCeilingIsChecked(n: u128, d: u128, q: u128)
    ensures Scope.DivideRoundingUp(n, d) == Ok(q) <==> d > 0 && IsCeiling(q, n, d)
    ensures d > 0 ==> Scope.DivideRoundingUp(n, d).Ok?
  {
    if d > 0 {
      CeilIs(n, d, q);
      FloorBounds(n, d);
      FloorNonNegative(n, d);
    }
  }

  lemma TheFloorIsChecked(n: u128, d: u128, q: u128)
    ensures CheckedDiv(n, d) == Ok(q) <==> d > 0 && IsFloor(q, n, d)
    ensures d > 0 ==> CheckedDiv(n, d).Ok?
  {
    if d > 0 {
      FloorIs(n, d, q);
    }
  }

  // ----- prices and amounts

  lemma ThePriceExactly(price: Scope.ScopePrice, scaled: u128)
    ensures Scope.UsdPerWholeTokenScaled(price) == Ok(scaled) <==>
      && price.value > 0 && UnitFits(price.exponent)
      && IsFloor(scaled, price.value * SCALED_FRACTION_ONE, Pow10(price.exponent))
    ensures price.value == 0 ==> Scope.UsdPerWholeTokenScaled(price) == Err(OraclePriceIsZero)
  {
    if UnitFits(price.exponent) {
      TheFloorIsChecked(price.value * SCALED_FRACTION_ONE, Pow10(price.exponent), scaled);
    }
  }

  lemma TheValueExactly(rawAmount: u64, decimals: u8, priceScaled: u128, value: u128)
    ensures Scope.UsdValueOfScaled(rawAmount, decimals, priceScaled) == Ok(value) <==>
      && rawAmount * priceScaled < TWO_TO_THE_128 && UnitFits(decimals)
      && IsFloor(value, rawAmount * priceScaled, Pow10(decimals))
  {
    MulMono(0, rawAmount, priceScaled);
    if rawAmount * priceScaled < TWO_TO_THE_128 && UnitFits(decimals) {
      TheFloorIsChecked(rawAmount * priceScaled, Pow10(decimals), value);
    }
  }

  lemma TheAmountWorthExactly(value: u128, decimals: u8, priceScaled: u128, raw: u64)
    ensures Scope.RawAmountWorthRoundingUp(value, decimals, priceScaled) == Ok(raw) <==>
      && UnitFits(decimals) && value * Pow10(decimals) < TWO_TO_THE_128 && priceScaled > 0
      && IsCeiling(raw, value * Pow10(decimals), priceScaled)
    ensures Scope.RawAmountWorthRoundingDown(value, decimals, priceScaled) == Ok(raw) <==>
      && UnitFits(decimals) && value * Pow10(decimals) < TWO_TO_THE_128 && priceScaled > 0
      && IsFloor(raw, value * Pow10(decimals), priceScaled)
  {
    MulMono(0, value, Pow10(decimals));
    if UnitFits(decimals) && value * Pow10(decimals) < TWO_TO_THE_128 {
      TheCeilingIsChecked(value * Pow10(decimals), priceScaled, raw);
      TheFloorIsChecked(value * Pow10(decimals), priceScaled, raw);
    }
  }

  lemma TheBufferExactly(raw: u64, maxSlippageBps: u16, buffered: u64)
    ensures Scope.AddTheSlippageBuffer(raw, maxSlippageBps) == Ok(buffered) <==>
      maxSlippageBps < 10_000 && IsCeiling(buffered, raw * 10_000, 10_000 - maxSlippageBps)
  {
    if maxSlippageBps < BASIS_POINTS {
      TheCeilingIsChecked(raw * BASIS_POINTS, BASIS_POINTS - maxSlippageBps, buffered);
    }
  }

  /** The oracle's floor: what the sold side is worth in the bought token, less the slippage, each step rounded down. */
  lemma TheOracleFloorExactly(selling: Scope.SwapSide, decimals: u8, priceScaled: u128, maxSlippageBps: u16, least: u64)
    ensures Scope.MinimumOutputTheOracleAllows(selling, decimals, priceScaled, maxSlippageBps) == Ok(least) <==>
      && maxSlippageBps <= 10_000
      && exists worth: u128, fair: u64 {:trigger TradesFairly(selling, worth, fair, decimals, priceScaled)} ::
           && TradesFairly(selling, worth, fair, decimals, priceScaled)
           && IsFloor(least, fair * (10_000 - maxSlippageBps), 10_000)
  {
    var worth := Scope.UsdValueOfScaled(selling.rawAmount, selling.decimals, selling.priceScaled);
    if worth.Ok? && maxSlippageBps <= BASIS_POINTS {
      TheValueExactly(selling.rawAmount, selling.decimals, selling.priceScaled, worth.value);
      var fair := Scope.RawAmountWorthRoundingDown(worth.value, decimals, priceScaled);
      if fair.Ok? {
        TheAmountWorthExactly(worth.value, decimals, priceScaled, fair.value);
        assert TradesFairly(selling, worth.value, fair.value, decimals, priceScaled);
        TheShareKept(fair.value, BASIS_POINTS - maxSlippageBps, least);
      }
    }
    forall value: u128, fair: u64 | TradesFairly(selling, value, fair, decimals, priceScaled)
      ensures worth == Ok(value) && Scope.RawAmountWorthRoundingDown(value, decimals, priceScaled) == Ok(fair)
    {
      TheValueExactly(selling.rawAmount, selling.decimals, selling.priceScaled, value);
      TheAmountWorthExactly(value, decimals, priceScaled, fair);
    }
  }

  ghost predicate TradesFairly(selling: Scope.SwapSide, worth: u128, fair: u64, decimals: u8, priceScaled: u128) {
    && UnitFits(selling.decimals) && selling.rawAmount * selling.priceScaled < TWO_TO_THE_128
    && IsFloor(worth, selling.rawAmount * selling.priceScaled, Pow10(selling.decimals))
    && UnitFits(decimals) && worth * Pow10(decimals) < TWO_TO_THE_128 && priceScaled > 0
    && IsFloor(fair, worth * Pow10(decimals), priceScaled)
  }

  lemma TheShareKept(fair: u64, keptBps: nat, least: u64)
    requires keptBps <= BASIS_POINTS
    ensures 0 <= fair * keptBps < TWO_TO_THE_128
    ensures var minimum := CheckedDiv(fair * keptBps, BASIS_POINTS);
      && minimum.Ok? && minimum.value < TWO_TO_THE_64
      && (minimum.value == least <==> IsFloor(least, fair * keptBps, 10_000))
  {
    MulMono(0, keptBps, fair);
    MulMono(keptBps, BASIS_POINTS, fair);
    TheFloorIsChecked(fair * keptBps, BASIS_POINTS, least);
    FloorIs(fair * keptBps, BASIS_POINTS, least);
    FloorAtLeast(fair * keptBps, BASIS_POINTS, fair + 1);
  }

  // ----- the guard's amounts

  lemma TheAllowanceExactly(deposited: u128, targetLtvBps: u16, allowed: u128)
    ensures Guard.ValueAllowedAtTarget(deposited, targetLtvBps) == Ok(allowed) <==>
      deposited * targetLtvBps < TWO_TO_THE_128 && IsFloor(allowed, deposited * targetLtvBps, 10_000)
  {
    MulMono(0, deposited, targetLtvBps);
    if deposited * targetLtvBps < TWO_TO_THE_128 {
      TheFloorIsChecked(deposited * targetLtvBps, BASIS_POINTS, allowed);
    }
  }

  lemma TheRealValueExactly(weighted: u128, borrowFactorPct: u64, real_: u128)
    ensures Guard.WeightedValueAsRealValue(weighted, borrowFactorPct, true) == Ok(real_) <==>
      weighted * 100 < TWO_TO_THE_128 && borrowFactorPct > 0 && IsCeiling(real_, weighted * 100, borrowFactorPct)
    ensures Guard.WeightedValueAsRealValue(weighted, borrowFactorPct, false) == Ok(real_) <==>
      weighted * 100 < TWO_TO_THE_128 && borrowFactorPct > 0 && IsFloor(real_, weighted * 100, borrowFactorPct)
    ensures forall roundUp :: weighted * 100 < TWO_TO_THE_128 && borrowFactorPct == 0 ==>
      Guard.WeightedValueAsRealValue(weighted, borrowFactorPct, roundUp) == Err(ReserveHasNoBorrowFactor)
  {
    if weighted * PERCENT < TWO_TO_THE_128 {
      TheCeilingIsChecked(weighted * PERCENT, borrowFactorPct, real_);
      TheFloorIsChecked(weighted * PERCENT, borrowFactorPct, real_);
    }
  }

  /** What is over the allowance, or short of it, turned back into a real value: up to repay, down to borrow. */
  lemma TheRepaymentAndTheBorrowExactly(debt: u128, deposited: u128, targetLtvBps: u16, borrowFactorPct: u64,
                                        allowed: u128, real_: u128)
    requires Guard.ValueAllowedAtTarget(deposited, targetLtvBps) == Ok(allowed)
    ensures var over := if debt > allowed then debt - allowed else 0;
      Guard.RepayToReachTarget(debt, deposited, targetLtvBps, borrowFactorPct) == Ok(real_) <==>
      over * 100 < TWO_TO_THE_128 && borrowFactorPct > 0 && IsCeiling(real_, over * 100, borrowFactorPct)
    ensures var short := if allowed > debt then allowed - debt else 0;
      Guard.BorrowToReachTarget(debt, deposited, targetLtvBps, borrowFactorPct) == Ok(real_) <==>
      short * 100 < TWO_TO_THE_128 && borrowFactorPct > 0 && IsFloor(real_, short * 100, borrowFactorPct)
  {
    TheRealValueExactly(SaturatingSub(debt, allowed), borrowFactorPct, real_);
    TheRealValueExactly(SaturatingSub(allowed, debt), borrowFactorPct, real_);
  }

  /** A protect's two amounts: the repayment to target, and the keeper's floored share of it. */
  lemma TheGuardAmountsExactly(debt: u128, deposited: u128, targetLtvBps: u16, bountyBps: u16, borrowFactorPct: u64,
                               amounts: Guard.ProtectAmounts)
    ensures Guard.GuardAmounts(debt, deposited, targetLtvBps, bountyBps, borrowFactorPct) == Ok(amounts) <==>
      && Guard.RepayToReachTarget(debt, deposited, targetLtvBps, borrowFactorPct) == Ok(amounts.repayUsdScaled)
      && amounts.repayUsdScaled * bountyBps < TWO_TO_THE_128
      && IsFloor(amounts.bountyUsdScaled, amounts.repayUsdScaled * bountyBps, 10_000)
  {
    MulMono(0, amounts.repayUsdScaled, bountyBps);
    if amounts.repayUsdScaled * bountyBps < TWO_TO_THE_128 {
      TheFloorIsChecked(amounts.repayUsdScaled * bountyBps, BASIS_POINTS, amounts.bountyUsdScaled);
    }
  }

  /** The fee is the floored share of what the sales brought over the repayments, and nothing at a loss. */
  lemma TheFeeExactly(sales: u64, repaid: u64, feeBps: u16, fee: u64)
    ensures var profit := if sales > repaid then sales - repaid else 0;
      Guard.PerformanceFeeOnRealisedProfit(sales, repaid, feeBps) == Ok(fee) <==> IsFloor(fee, profit * feeBps, 10_000)
  {
    var profit := SaturatingSub(sales, repaid);
    MulMono(0, profit, feeBps);
    MulMono(profit, TWO_TO_THE_64, feeBps);
    TheFloorIsChecked(profit * feeBps, BASIS_POINTS, fee);
  }
}
