// The TypeScript guard arithmetic, the unbounded twin of the program's.
module CoreGuard {
  import opened Arithmetic
  import opened Outcomes
  import opened Money

  datatype ProtectAmounts = ProtectAmounts(repayUsdScaled: int, bountyUsdScaled: int)

  function ValueAllowedAtTarget(depositedValueScaled: int, targetLtvBps: int): int {
    TruncatedQuotient(depositedValueScaled * targetLtvBps, BASIS_POINTS)
  }

  function WeightedValueAsRealValue(weightedValueScaled: int, borrowFactorPct: int, roundUp: bool): Throws<int> {
    if borrowFactorPct <= 0 then Err(Thrown)
    else
      var numerator := weightedValueScaled * PERCENT;
      var quotient := TruncatedQuotient(numerator, borrowFactorPct);
      Ok(if !roundUp || TruncatedRemainder(numerator, borrowFactorPct) == 0 then quotient else quotient + 1)
  }

  function RepayToReachTarget(adjustedDebtValueScaled: int, depositedValueScaled: int, targetLtvBps: int,
                              borrowFactorPct: int): Throws<int> {
    var allowed := ValueAllowedAtTarget(depositedValueScaled, targetLtvBps);
    var gap := if adjustedDebtValueScaled > allowed then adjustedDebtValueScaled - allowed else 0;
    WeightedValueAsRealValue(gap, borrowFactorPct, true)
  }

  function BorrowToReachTarget(adjustedDebtValueScaled: int, depositedValueScaled: int, targetLtvBps: int,
                               borrowFactorPct: int): Throws<int> {
    var allowed := ValueAllowedAtTarget(depositedValueScaled, targetLtvBps);
    var room := if allowed > adjustedDebtValueScaled then allowed - adjustedDebtValueScaled else 0;
    WeightedValueAsRealValue(room, borrowFactorPct, false)
  }

  function GuardAmounts(adjustedDebtValueScaled: int, depositedValueScaled: int, targetLtvBps: int,
                        keeperBountyBps: int, borrowFactorPct: int): Throws<ProtectAmounts> {
    var repay :- RepayToReachTarget(adjustedDebtValueScaled, depositedValueScaled, targetLtvBps, borrowFactorPct);
    Ok(ProtectAmounts(repay, TruncatedQuotient(repay * keeperBountyBps, BASIS_POINTS)))
  }

  function LoanToValueBps(adjustedDebtValueScaled: int, depositedValueScaled: int): int {
    if depositedValueScaled == 0 then 0
    else TruncatedQuotient(adjustedDebtValueScaled * BASIS_POINTS, depositedValueScaled)
  }

  function PerformanceFeeOnRealisedProfit(usdcFromSalesTotal: int, usdcRepaidTotal: int, feeBpsAtOpen: int): int {
    var profit := if usdcFromSalesTotal > usdcRepaidTotal then usdcFromSalesTotal - usdcRepaidTotal else 0;
    TruncatedQuotient(profit * feeBpsAtOpen, BASIS_POINTS)
  }

  datatype DeleverageSignals = DeleverageSignals(
    reserveStatusObsolete: bool,
    programIsRetiring: bool,
    obligationMarginCallStartedAt: int,
    marketAutodeleverageEnabled: bool,
    reserveAutodeleverageEnabled: bool,
    depositLimitCrossedAt: int,
    borrowLimitCrossedAt: int,
    marginCallPeriodSeconds: int)

  predicate AMarginCallPeriodHasElapsed(startedAt: int, periodSeconds: int, now: int) {
    startedAt != 0 && now >= startedAt + periodSeconds
  }

  predicate ThereIsAReasonToLeave(signals: DeleverageSignals, now: int) {
    if signals.reserveStatusObsolete || signals.programIsRetiring then true
    else if signals.obligationMarginCallStartedAt != 0 then true
    else if !signals.marketAutodeleverageEnabled || !signals.reserveAutodeleverageEnabled then false
    else
      || AMarginCallPeriodHasElapsed(signals.depositLimitCrossedAt, signals.marginCallPeriodSeconds, now)
      || AMarginCallPeriodHasElapsed(signals.borrowLimitCrossedAt, signals.marginCallPeriodSeconds, now)
  }

  datatype ProtectSale = ProtectSale(
    adjustedDebtValueScaled: int,
    depositedValueScaled: int,
    targetLtvBps: int,
    borrowFactorPct: int,
    keeperBountyBps: int,
    keeperBountyCapUsdc: int,
    maxSlippageBps: int,
    usdcDecimals: nat,
    usdcPriceScaled: int,
    destinationDecimals: nat,
    destinationPriceScaled: int,
    destinationBalance: int)

  /** The repayment and the bounty the guard wants to raise, in raw USDC. */
  function UsdcToRaise(sale: ProtectSale): Throws<int> {
    var amounts :- GuardAmounts(sale.adjustedDebtValueScaled, sale.depositedValueScaled, sale.targetLtvBps,
                                sale.keeperBountyBps, sale.borrowFactorPct);
    var repayNeeded :- RawAmountWorthRoundingUp(amounts.repayUsdScaled, sale.usdcDecimals, sale.usdcPriceScaled);
    var bounty :- RawAmountWorthRoundingDown(amounts.bountyUsdScaled, sale.usdcDecimals, sale.usdcPriceScaled);
    Ok(repayNeeded + Smaller(bounty, sale.keeperBountyCapUsdc))
  }

  /** The sale that raises it at the worst fill allowed, before it is capped at what is held. */
  function UncappedSale(sale: ProtectSale): Throws<int> {
    var usdcToRaise :- UsdcToRaise(sale);
    var atTheOraclePrice :- RawAmountWorthRoundingUp(
      UsdValueOfScaled(usdcToRaise, sale.usdcDecimals, sale.usdcPriceScaled),
      sale.destinationDecimals, sale.destinationPriceScaled);
    AddTheSlippageBuffer(atTheOraclePrice, sale.maxSlippageBps)
  }

  function DestinationToSellForProtect(sale: ProtectSale): Throws<int> {
    var uncapped :- UncappedSale(sale);
    Ok(Smaller(uncapped, sale.destinationBalance))
  }
}
