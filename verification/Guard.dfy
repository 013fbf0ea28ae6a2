// The program's guard arithmetic: what to repay, what may be borrowed, when to leave, when to wait.
module Guard {
  import opened Outcomes
  import Arithmetic
  import Scope

  datatype ProtectAmounts = ProtectAmounts(repayUsdScaled: u128, bountyUsdScaled: u128)

  function ValueAllowedAtTarget(depositedValueScaled: u128, targetLtvBps: u16): Checked<u128> {
    var product :- CheckedMul(depositedValueScaled, targetLtvBps);
    CheckedDiv(product, BASIS_POINTS)
  }

  function WeightedValueAsRealValue(weightedValueScaled: u128, borrowFactorPct: u64, roundUp: bool): Checked<u128> {
    var numerator :- CheckedMul(weightedValueScaled, PERCENT);
    :- Need(borrowFactorPct > 0, ReserveHasNoBorrowFactor);
    if roundUp then Scope.DivideRoundingUp(numerator, borrowFactorPct)
    else CheckedDiv(numerator, borrowFactorPct)
  }

  function RepayToReachTarget(adjustedDebtValueScaled: u128, depositedValueScaled: u128, targetLtvBps: u16,
                              borrowFactorPct: u64): Checked<u128> {
    var allowed :- ValueAllowedAtTarget(depositedValueScaled, targetLtvBps);
    WeightedValueAsRealValue(SaturatingSub(adjustedDebtValueScaled, allowed), borrowFactorPct, true)
  }

  function BorrowToReachTarget(adjustedDebtValueScaled: u128, depositedValueScaled: u128, targetLtvBps: u16,
                               borrowFactorPct: u64): Checked<u128> {
    var allowed :- ValueAllowedAtTarget(depositedValueScaled, targetLtvBps);
    WeightedValueAsRealValue(SaturatingSub(allowed, adjustedDebtValueScaled), borrowFactorPct, false)
  }

  function GuardAmounts(adjustedDebtValueScaled: u128, depositedValueScaled: u128, targetLtvBps: u16,
                        keeperBountyBps: u16, borrowFactorPct: u64): Checked<ProtectAmounts> {
    var repay :- RepayToReachTarget(adjustedDebtValueScaled, depositedValueScaled, targetLtvBps, borrowFactorPct);
    var share :- CheckedMul(repay, keeperBountyBps);
    var bounty :- CheckedDiv(share, BASIS_POINTS);
    Ok(ProtectAmounts(repay, bounty))
  }

  function PerformanceFeeOnRealisedProfit(usdcFromSalesTotal: u64, usdcRepaidTotal: u64,
                                          feeBpsAtOpen: u16): Checked<u64> {
    var share :- CheckedMul(SaturatingSub(usdcFromSalesTotal, usdcRepaidTotal), feeBpsAtOpen);
    var fee :- CheckedDiv(share, BASIS_POINTS);
    ToU64(fee)
  }

  /** The obligation's own reading of its loan to value, capped at the largest u16. */
  function LoanToValueBps(adjustedDebtValueScaled: u128, depositedValueScaled: u128): Checked<u16> {
    if depositedValueScaled == 0 then Ok(0)
    else
      var numerator :- CheckedMul(adjustedDebtValueScaled, BASIS_POINTS);
      Arithmetic.FloorNonNegative(numerator, depositedValueScaled);
      var ratio := numerator / depositedValueScaled;
      Ok(if ratio < 0xFFFF then ratio else 0xFFFF)
  }

  datatype DeleverageSignals = DeleverageSignals(
    reserveStatusObsolete: bool,
    programIsRetiring: bool,
    obligationMarginCallStartedAt: u64,
    marketAutodeleverageEnabled: bool,
    reserveAutodeleverageEnabled: bool,
    depositLimitCrossedAt: u64,
    borrowLimitCrossedAt: u64,
    marginCallPeriodSeconds: u64)

  predicate AMarginCallPeriodHasElapsed(startedAt: u64, periodSeconds: u64, now: i64) {
    if startedAt == 0 then false
    else
      match CheckedAdd64(startedAt, periodSeconds)
      case Err(_) => false
      case Ok(endsAt) => 0 <= now && now >= endsAt
  }

  predicate ThereIsAReasonToLeave(signals: DeleverageSignals, now: i64) {
    if signals.reserveStatusObsolete || signals.programIsRetiring then true
    else if signals.obligationMarginCallStartedAt != 0 then true
    else if !signals.marketAutodeleverageEnabled || !signals.reserveAutodeleverageEnabled then false
    else
      || AMarginCallPeriodHasElapsed(signals.depositLimitCrossedAt, signals.marginCallPeriodSeconds, now)
      || AMarginCallPeriodHasElapsed(signals.borrowLimitCrossedAt, signals.marginCallPeriodSeconds, now)
  }

  function RequireTheIntervalHasElapsed(lastAt: i64, now: i64, intervalSeconds: u64): Outcome<AccrueError> {
    if lastAt == 0 then Pass
    else if intervalSeconds > LARGEST_I64 then Fail(MathOverflow)
    else if lastAt + intervalSeconds > LARGEST_I64 then Fail(MathOverflow)
    else Need(now >= lastAt + intervalSeconds, IntervalHasNotElapsed)
  }

  function RequireBorrowWithinAvailableShare(borrowAmount: u64, availableAmount: u64, maxShareBps: u16): Checked<()> {
    var product :- CheckedMul(availableAmount, maxShareBps);
    var ceiling :- CheckedDiv(product, BASIS_POINTS);
    :- Need(borrowAmount <= ceiling, BorrowTooLargeAShareOfLiquidity);
    Ok(())
  }

  datatype ProtectSale = ProtectSale(
    adjustedDebtValueScaled: u128,
    depositedValueScaled: u128,
    targetLtvBps: u16,
    borrowFactorPct: u64,
    keeperBountyBps: u16,
    keeperBountyCapUsdc: u64,
    maxSlippageBps: u16,
    usdcDecimals: u8,
    usdcPriceScaled: u128,
    destinationDecimals: u8,
    destinationPriceScaled: u128,
    destinationBalance: u64)

  /** What protect sells: the sizing steps of the instruction, from the guard amounts to the capped sale. */
  function DestinationToSell(sale: ProtectSale): Checked<u64> {
    var amounts :- GuardAmounts(sale.adjustedDebtValueScaled, sale.depositedValueScaled, sale.targetLtvBps,
                                sale.keeperBountyBps, sale.borrowFactorPct);
    var repayNeeded :- Scope.RawAmountWorthRoundingUp(amounts.repayUsdScaled, sale.usdcDecimals, sale.usdcPriceScaled);
    var bounty :- Scope.RawAmountWorthRoundingDown(amounts.bountyUsdScaled, sale.usdcDecimals, sale.usdcPriceScaled);
    var usdcToRaise :- CheckedAdd64(repayNeeded, Smaller(bounty, sale.keeperBountyCapUsdc));
    var value :- Scope.UsdValueOfScaled(usdcToRaise, sale.usdcDecimals, sale.usdcPriceScaled);
    var atTheOraclePrice :- Scope.RawAmountWorthRoundingUp(value, sale.destinationDecimals,
                                                           sale.destinationPriceScaled);
    var buffered :- Scope.AddTheSlippageBuffer(atTheOraclePrice, sale.maxSlippageBps);
    Ok(Smaller(buffered, sale.destinationBalance))
  }
}
