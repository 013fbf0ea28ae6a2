// What each rounding direction means: every rounding up is the exact adjoint of a rounding down.
module Rounding {
  import opened Arithmetic
  import opened Outcomes
  import CoreGuard
  import Money

  /** `a` raw units are enough to be worth `value` exactly when `a` reaches the amount rounded up. */
  lemma RawAmountIsTheLeastWorthTheValue(value: nat, decimals: nat, priceScaled: nat, a: u64)
    requires priceScaled > 0
    ensures var raw := Money.RawAmountWorthRoundingUp(value, decimals, priceScaled);
      (raw.Ok? && raw.value <= a) <==> value <= Money.UsdValueOfScaled(a, decimals, priceScaled)
  {
    var unit := Pow10(decimals);
    MulMono(0, value, unit);
    MulMono(0, a, priceScaled);
    CeilNonNegative(value * unit, priceScaled);
    CeilAtMost(value * unit, priceScaled, a);
    FloorAtLeast(a * priceScaled, unit, value);
    RoundedUp(value * unit, priceScaled);
  }

  /** `a` is enough to lose the slippage allowance and still be `n` exactly when it reaches the buffered amount. */
  lemma BufferIsTheLeastThatSurvivesSlippage(n: nat, maxSlippageBps: nat, a: u64)
    requires maxSlippageBps < BASIS_POINTS
    ensures var buffered := Money.AddTheSlippageBuffer(n, maxSlippageBps);
      (buffered.Ok? && buffered.value <= a) <==> n <= a * (BASIS_POINTS - maxSlippageBps) / BASIS_POINTS
  {
    var remaining := BASIS_POINTS - maxSlippageBps;
    CeilNonNegative(n * BASIS_POINTS, remaining);
    CeilAtMost(n * BASIS_POINTS, remaining, a);
    FloorAtLeast(a * remaining, BASIS_POINTS, n);
    RoundedUp(n * BASIS_POINTS, remaining);
  }

  /** No smaller repayment, weighted and floored, closes the gap to target, and every larger one does. */
  lemma RepaymentIsTheLeastThatClosesTheGap(debt: nat, deposited: nat, targetLtvBps: nat, borrowFactorPct: nat, x: nat)
    requires borrowFactorPct > 0
    ensures var repay := CoreGuard.RepayToReachTarget(debt, deposited, targetLtvBps, borrowFactorPct);
      repay.Ok? &&
      (repay.value <= x <==>
       SaturatingSub(debt, x * borrowFactorPct / PERCENT) <= CoreGuard.ValueAllowedAtTarget(deposited, targetLtvBps))
  {
    var allowed := CoreGuard.ValueAllowedAtTarget(deposited, targetLtvBps);
    MulMono(0, deposited, targetLtvBps);
    FloorNonNegative(deposited * targetLtvBps, BASIS_POINTS);
    var gap := SaturatingSub(debt, allowed);
    RoundedUp(gap * PERCENT, borrowFactorPct);
    CeilAtMost(gap * PERCENT, borrowFactorPct, x);
    MulMono(0, x, borrowFactorPct);
    FloorNonNegative(x * borrowFactorPct, PERCENT);
    FloorAtLeast(x * borrowFactorPct, PERCENT, gap);
  }

  /** No larger borrow, weighted and rounded up, fits under the target, and every smaller one does. */
  lemma BorrowIsTheGreatestThatFits(debt: nat, deposited: nat, targetLtvBps: nat, borrowFactorPct: nat, x: nat)
    requires borrowFactorPct > 0
    requires debt <= CoreGuard.ValueAllowedAtTarget(deposited, targetLtvBps)
    ensures var borrow := CoreGuard.BorrowToReachTarget(debt, deposited, targetLtvBps, borrowFactorPct);
      borrow.Ok? &&
      (x <= borrow.value <==>
       debt + CeilDiv(x * borrowFactorPct, PERCENT) <= CoreGuard.ValueAllowedAtTarget(deposited, targetLtvBps))
  {
    var room := CoreGuard.ValueAllowedAtTarget(deposited, targetLtvBps) - debt;
    FloorAtLeast(room * PERCENT, borrowFactorPct, x);
    CeilAtMost(x * borrowFactorPct, PERCENT, room);
  }

  /** The app's rounding up of two non-negative numbers is the ceiling. */
  lemma RoundedUp(numerator: nat, denominator: nat)
    requires denominator > 0
    ensures Money.DivideRoundingUp(numerator, denominator) == Ok(CeilDiv(numerator, denominator))
    ensures TruncatedRemainder(numerator, denominator) == numerator % denominator
  {
    assert numerator == numerator / denominator * denominator + numerator % denominator;
  }
}
