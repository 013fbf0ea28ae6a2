// The unbounded TypeScript arithmetic refines the program's checked arithmetic.
module Refinement {
  import opened Arithmetic
  import opened Outcomes
  import CoreGuard
  import Guard
  import Money
  import Scope

  /** Where the program returns a value the app computes the same one; so where the app throws, the program errs. */
  predicate Refines<T(==)>(program: Checked<T>, app: Money.Throws<T>) {
    program.Ok? ==> app.Ok? && app.value == program.value
  }

  // ----- the price arithmetic

  lemma CeilingsAgree(numerator: u128, denominator: u128)
    ensures Refines(Scope.DivideRoundingUp(numerator, denominator), Money.DivideRoundingUp(numerator, denominator))
    ensures denominator > 0 ==> Money.DivideRoundingUp(numerator, denominator) == Ok(CeilDiv(numerator, denominator))
  {
    if denominator > 0 {
      assert numerator == numerator / denominator * denominator + numerator % denominator;
    }
  }

  lemma PricesAgree(price: Scope.ScopePrice)
    ensures Refines(Scope.UsdPerWholeTokenScaled(price),
                    Money.UsdPerWholeTokenScaled(Money.OraclePrice(price.value, price.exponent)))
  {
  }

  lemma ValuesAgree(rawAmount: u64, decimals: u8, priceScaled: u128)
    ensures Refines(Scope.UsdValueOfScaled(rawAmount, decimals, priceScaled),
                    Ok(Money.UsdValueOfScaled(rawAmount, decimals, priceScaled)))
  {
    MulMono(0, rawAmount, priceScaled);
  }

  lemma RawAmountsAgree(usdValueScaled: u128, decimals: u8, priceScaled: u128)
    ensures Refines(Scope.RawAmountWorthRoundingUp(usdValueScaled, decimals, priceScaled),
                    Money.RawAmountWorthRoundingUp(usdValueScaled, decimals, priceScaled))
    ensures Refines(Scope.RawAmountWorthRoundingDown(usdValueScaled, decimals, priceScaled),
                    Money.RawAmountWorthRoundingDown(usdValueScaled, decimals, priceScaled))
  {
    MulMono(0, usdValueScaled, Pow10(decimals));
    if usdValueScaled * Pow10(decimals) < TWO_TO_THE_128 {
      CeilingsAgree(usdValueScaled * Pow10(decimals), priceScaled);
    }
  }

  lemma BuffersAgree(rawAmount: u64, maxSlippageBps: u16)
    ensures Refines(Scope.AddTheSlippageBuffer(rawAmount, maxSlippageBps),
                    Money.AddTheSlippageBuffer(rawAmount, maxSlippageBps))
  {
    if maxSlippageBps < BASIS_POINTS {
      CeilingsAgree(rawAmount * BASIS_POINTS, BASIS_POINTS - maxSlippageBps);
    }
  }

  function Side(side: Scope.SwapSide): Money.SwapSide {
    Money.SwapSide(side.rawAmount, side.decimals, side.priceScaled)
  }

  lemma FloorsAgree(selling: Scope.SwapSide, buyingDecimals: u8, buyingPriceScaled: u128, maxSlippageBps: u16)
    ensures Refines(
      Scope.MinimumOutputTheOracleAllows(selling, buyingDecimals, buyingPriceScaled, maxSlippageBps),
      Money.MinimumOutputTheOracleAllows(Side(selling), buyingDecimals, buyingPriceScaled, maxSlippageBps))
  {
    ValuesAgree(selling.rawAmount, selling.decimals, selling.priceScaled);
    var value := Scope.UsdValueOfScaled(selling.rawAmount, selling.decimals, selling.priceScaled);
    if value.Ok? {
      RawAmountsAgree(value.value, buyingDecimals, buyingPriceScaled);
    }
  }

  // ----- the guard arithmetic

  lemma WeightingsAgree(weighted: u128, borrowFactorPct: u64, roundUp: bool)
    ensures Refines(Guard.WeightedValueAsRealValue(weighted, borrowFactorPct, roundUp),
                    CoreGuard.WeightedValueAsRealValue(weighted, borrowFactorPct, roundUp))
  {
    if borrowFactorPct > 0 && weighted * PERCENT < TWO_TO_THE_128 {
      CeilingsAgree(weighted * PERCENT, borrowFactorPct);
    }
  }

  lemma AllowancesAgree(deposited: u128, targetLtvBps: u16)
    ensures Refines(Guard.ValueAllowedAtTarget(deposited, targetLtvBps),
                    Ok(CoreGuard.ValueAllowedAtTarget(deposited, targetLtvBps)))
  {
    MulMono(0, deposited, targetLtvBps);
  }

  lemma RepaymentsAndBorrowsAgree(debt: u128, deposited: u128, targetLtvBps: u16, borrowFactorPct: u64)
    ensures Refines(Guard.RepayToReachTarget(debt, deposited, targetLtvBps, borrowFactorPct),
                    CoreGuard.RepayToReachTarget(debt, deposited, targetLtvBps, borrowFactorPct))
    ensures Refines(Guard.BorrowToReachTarget(debt, deposited, targetLtvBps, borrowFactorPct),
                    CoreGuard.BorrowToReachTarget(debt, deposited, targetLtvBps, borrowFactorPct))
  {
    AllowancesAgree(deposited, targetLtvBps);
    var allowed := Guard.ValueAllowedAtTarget(deposited, targetLtvBps);
    if allowed.Ok? {
      WeightingsAgree(SaturatingSub(debt, allowed.value), borrowFactorPct, true);
      WeightingsAgree(SaturatingSub(allowed.value, debt), borrowFactorPct, false);
    }
  }

  function Amounts(amounts: Guard.ProtectAmounts): CoreGuard.ProtectAmounts {
    CoreGuard.ProtectAmounts(amounts.repayUsdScaled, amounts.bountyUsdScaled)
  }

  lemma ProtectAmountsAgree(debt: u128, deposited: u128, targetLtvBps: u16, bountyBps: u16, borrowFactorPct: u64)
    ensures var program := Guard.GuardAmounts(debt, deposited, targetLtvBps, bountyBps, borrowFactorPct);
      program.Ok? ==>
        CoreGuard.GuardAmounts(debt, deposited, targetLtvBps, bountyBps, borrowFactorPct) == Ok(Amounts(program.value))
  {
    RepaymentsAndBorrowsAgree(debt, deposited, targetLtvBps, borrowFactorPct);
    var repay := Guard.RepayToReachTarget(debt, deposited, targetLtvBps, borrowFactorPct);
    if repay.Ok? {
      MulMono(0, repay.value, bountyBps);
    }
  }

  lemma FeesAgree(sales: u64, repaid: u64, feeBps: u16)
    ensures Refines(Guard.PerformanceFeeOnRealisedProfit(sales, repaid, feeBps),
                    Ok(CoreGuard.PerformanceFeeOnRealisedProfit(sales, repaid, feeBps)))
  {
    MulMono(0, SaturatingSub(sales, repaid), feeBps);
  }

  /** The program's reading is the app's, capped at the largest sixteen bit number. */
  lemma LoanToValuesAgree(debt: u128, deposited: u128)
    ensures var program := Guard.LoanToValueBps(debt, deposited);
      program.Ok? ==> program.value == Smaller(CoreGuard.LoanToValueBps(debt, deposited), 0xFFFF)
  {
  }

  function Signals(signals: Guard.DeleverageSignals): CoreGuard.DeleverageSignals {
    CoreGuard.DeleverageSignals(
      signals.reserveStatusObsolete, signals.programIsRetiring, signals.obligationMarginCallStartedAt,
      signals.marketAutodeleverageEnabled, signals.reserveAutodeleverageEnabled,
      signals.depositLimitCrossedAt, signals.borrowLimitCrossedAt, signals.marginCallPeriodSeconds)
  }

  /** A start plus a period past the largest u64, or a clock before 1970, is no reason on either side. */
  lemma ReasonsToLeaveAgree(signals: Guard.DeleverageSignals, now: i64)
    ensures Guard.ThereIsAReasonToLeave(signals, now) <==> CoreGuard.ThereIsAReasonToLeave(Signals(signals), now)
  {
  }

  function Sale(sale: Guard.ProtectSale): CoreGuard.ProtectSale {
    CoreGuard.ProtectSale(
      sale.adjustedDebtValueScaled, sale.depositedValueScaled, sale.targetLtvBps, sale.borrowFactorPct,
      sale.keeperBountyBps, sale.keeperBountyCapUsdc, sale.maxSlippageBps, sale.usdcDecimals, sale.usdcPriceScaled,
      sale.destinationDecimals, sale.destinationPriceScaled, sale.destinationBalance)
  }

  /** The keeper quotes a route for exactly the amount the program will sell. */
  lemma ProtectSalesAgree(sale: Guard.ProtectSale)
    ensures Refines(Guard.DestinationToSell(sale), CoreGuard.DestinationToSellForProtect(Sale(sale)))
  {
    if Guard.DestinationToSell(sale).Ok? {
      ProtectAmountsAgree(sale.adjustedDebtValueScaled, sale.depositedValueScaled, sale.targetLtvBps,
                          sale.keeperBountyBps, sale.borrowFactorPct);
      var amounts := Guard.GuardAmounts(sale.adjustedDebtValueScaled, sale.depositedValueScaled, sale.targetLtvBps,
                                        sale.keeperBountyBps, sale.borrowFactorPct).value;
      RawAmountsAgree(amounts.repayUsdScaled, sale.usdcDecimals, sale.usdcPriceScaled);
      RawAmountsAgree(amounts.bountyUsdScaled, sale.usdcDecimals, sale.usdcPriceScaled);
      var repay := Scope.RawAmountWorthRoundingUp(amounts.repayUsdScaled, sale.usdcDecimals,
                                                  sale.usdcPriceScaled).value;
      var bounty := Scope.RawAmountWorthRoundingDown(amounts.bountyUsdScaled, sale.usdcDecimals,
          sale.usdcPriceScaled).value;
      var raise := CheckedAdd64(repay, Smaller(bounty, sale.keeperBountyCapUsdc)).value;
      ValuesAgree(raise, sale.usdcDecimals, sale.usdcPriceScaled);
      var value := Scope.UsdValueOfScaled(raise, sale.usdcDecimals, sale.usdcPriceScaled).value;
      RawAmountsAgree(value, sale.destinationDecimals, sale.destinationPriceScaled);
      BuffersAgree(Scope.RawAmountWorthRoundingUp(value, sale.destinationDecimals, sale.destinationPriceScaled).value,
                   sale.maxSlippageBps);
    }
  }

  // ----- the keeper's grow amount

  /** What the keeper routes a grow for, from its reading of the obligation and the reserve. */
  function UsdcToBorrowForGrow(debt: int, deposited: int, targetLtvBps: int, borrowFactorPct: int,
                               usdcDecimals: nat, usdcPriceScaled: int): Money.Throws<int> {
    var room :- CoreGuard.BorrowToReachTarget(debt, deposited, targetLtvBps, borrowFactorPct);
    Money.RawAmountWorthRoundingDown(room, usdcDecimals, usdcPriceScaled)
  }

  /** What the grow instruction borrows. */
  function UsdcTheProgramBorrows(debt: u128, deposited: u128, targetLtvBps: u16, borrowFactorPct: u64,
                                 usdcDecimals: u8, usdcPriceScaled: u128): Checked<u64> {
    var room :- Guard.BorrowToReachTarget(debt, deposited, targetLtvBps, borrowFactorPct);
    Scope.RawAmountWorthRoundingDown(room, usdcDecimals, usdcPriceScaled)
  }

  lemma GrowAmountsAgree(debt: u128, deposited: u128, targetLtvBps: u16, borrowFactorPct: u64,
                         usdcDecimals: u8, usdcPriceScaled: u128)
    ensures Refines(UsdcTheProgramBorrows(debt, deposited, targetLtvBps, borrowFactorPct, usdcDecimals,
                                          usdcPriceScaled),
                    UsdcToBorrowForGrow(debt, deposited, targetLtvBps, borrowFactorPct, usdcDecimals, usdcPriceScaled))
  {
    RepaymentsAndBorrowsAgree(debt, deposited, targetLtvBps, borrowFactorPct);
    var room := Guard.BorrowToReachTarget(debt, deposited, targetLtvBps, borrowFactorPct);
    if room.Ok? {
      RawAmountsAgree(room.value, usdcDecimals, usdcPriceScaled);
    }
  }
}
