// How far the amount protect sells can fall short of what it has to raise, and how it moves with the position.
module ProtectSale {
  import opened Arithmetic
  import opened Outcomes
  import opened CoreGuard
  import Money
  import Rounding

  /** The numbers a snapshot of the chain can hold: nothing is negative. */
  ghost predicate Readable(sale: ProtectSale) {
    && sale.adjustedDebtValueScaled >= 0 && sale.depositedValueScaled >= 0 && sale.targetLtvBps >= 0
    && sale.keeperBountyBps >= 0 && sale.keeperBountyCapUsdc >= 0 && sale.maxSlippageBps >= 0
    && sale.usdcPriceScaled >= 0 && sale.destinationPriceScaled >= 0 && sale.destinationBalance >= 0
  }

  /** The least the program accepts for selling `amount` of the yield token. */
  function WorstFill(sale: ProtectSale, amount: int): Money.Throws<int> {
    Money.MinimumOutputTheOracleAllows(
      Money.SwapSide(amount, sale.destinationDecimals, sale.destinationPriceScaled),
      sale.usdcDecimals, sale.usdcPriceScaled, sale.maxSlippageBps)
  }

  // ----- the six roundings, two at a time

  /** From raw USDC to a value, up to the yield token that is worth it, and up again for the slippage. */
  lemma TheSaleCoversTheValue(value: nat, unit: nat, price: nat, kept: nat, atPrice: nat, sold: nat, worth: int)
    requires unit > 0 && kept > 0
    requires value * unit <= atPrice * price
    requires atPrice * BASIS_POINTS <= sold * kept
    requires sold * price < (worth + 1) * unit
    ensures value * BASIS_POINTS < worth * kept + kept
  {
    Through(value, unit, atPrice, price, BASIS_POINTS, sold, kept);
    MulMonoStrict(sold * price, (worth + 1) * unit, kept);
    Regroup(worth + 1, unit, kept);
    CancelMulStrict(value * BASIS_POINTS, (worth + 1) * kept, unit);
    assert (worth + 1) * kept == worth * kept + kept;
  }

  /** From that value back down to raw USDC, against a price of at least one scaled unit a raw one. */
  lemma TheFillIsCloseToTheAmount(amount: nat, unit: nat, price: nat, kept: nat, value: nat, worth: nat, fair: nat)
    requires 0 < unit <= price && 0 < kept <= BASIS_POINTS
    requires amount * price < (value + 1) * unit
    requires value * BASIS_POINTS < worth * kept + kept
    requires worth * unit < (fair + 1) * price
    ensures amount * BASIS_POINTS < fair * kept + BASIS_POINTS + 2 * kept
  {
    // In units of unit * price, with one more kept for the first floor and one more for the second.
    MulMono(value * BASIS_POINTS, worth * kept + kept, unit);
    MulMonoStrict(amount * price, (value + 1) * unit, BASIS_POINTS);
    MulMonoStrict(worth * unit, (fair + 1) * price, kept);
    Regroup(amount, price, BASIS_POINTS);
    Regroup(value + 1, unit, BASIS_POINTS);
    Regroup(worth, unit, kept);
    Regroup(fair + 1, price, kept);
    MulMono(unit, price, BASIS_POINTS + kept);
    var right := (fair + 1) * kept + BASIS_POINTS + kept;
    assert amount * BASIS_POINTS * price < right * price by {
      assert (value + 1) * BASIS_POINTS * unit == value * BASIS_POINTS * unit + BASIS_POINTS * unit by {
        assert (value + 1) * BASIS_POINTS == value * BASIS_POINTS + BASIS_POINTS;
        Distribute(value * BASIS_POINTS, BASIS_POINTS, unit);
      }
      Distribute(worth * kept, kept, unit);
      Distribute((fair + 1) * kept, BASIS_POINTS + kept, price);
      Distribute(BASIS_POINTS, kept, unit);
      assert unit * (BASIS_POINTS + kept) == (BASIS_POINTS + kept) * unit;
      assert price * (BASIS_POINTS + kept) == (BASIS_POINTS + kept) * price;
    }
    CancelMulStrict(amount * BASIS_POINTS, right, price);
    Distribute(fair, 1, kept);
  }

  /** The app's chain of functions, on readable inputs, as plain floors and ceilings. */
  lemma Unfolded(sale: ProtectSale)
    requires Readable(sale) && UncappedSale(sale).Ok?
    ensures UsdcToRaise(sale).Ok? && UsdcToRaise(sale).value >= 0
    ensures sale.usdcPriceScaled > 0 && sale.destinationPriceScaled > 0 && sale.maxSlippageBps < BASIS_POINTS
    ensures var value := UsdcToRaise(sale).value * sale.usdcPriceScaled / Pow10(sale.usdcDecimals);
      var atPrice := CeilDiv(value * Pow10(sale.destinationDecimals), sale.destinationPriceScaled);
      && value >= 0 && atPrice >= 0 && UncappedSale(sale).value >= 0
      && UncappedSale(sale).value == CeilDiv(atPrice * BASIS_POINTS, BASIS_POINTS - sale.maxSlippageBps)
  {
    var unit := Pow10(sale.destinationDecimals);
    var raise := UsdcToRaise(sale).value;
    MulMono(0, raise, sale.usdcPriceScaled);
    FloorNonNegative(raise * sale.usdcPriceScaled, Pow10(sale.usdcDecimals));
    var value := raise * sale.usdcPriceScaled / Pow10(sale.usdcDecimals);
    MulMono(0, value, unit);
    Rounding.RoundedUp(value * unit, sale.destinationPriceScaled);
    var atPrice := CeilDiv(value * unit, sale.destinationPriceScaled);
    Rounding.RoundedUp(atPrice * BASIS_POINTS, BASIS_POINTS - sale.maxSlippageBps);
  }

  lemma WorstFillUnfolded(sale: ProtectSale, amount: nat)
    requires Readable(sale) && WorstFill(sale, amount).Ok?
    ensures sale.usdcPriceScaled > 0 && sale.maxSlippageBps <= BASIS_POINTS
    ensures var worth := amount * sale.destinationPriceScaled / Pow10(sale.destinationDecimals);
      var fair := worth * Pow10(sale.usdcDecimals) / sale.usdcPriceScaled;
      && worth >= 0 && fair >= 0
      && WorstFill(sale, amount).value == fair * (BASIS_POINTS - sale.maxSlippageBps) / BASIS_POINTS
  {
    MulMono(0, amount, sale.destinationPriceScaled);
    FloorNonNegative(amount * sale.destinationPriceScaled, Pow10(sale.destinationDecimals));
    var worth := amount * sale.destinationPriceScaled / Pow10(sale.destinationDecimals);
    MulMono(0, worth, Pow10(sale.usdcDecimals));
    FloorNonNegative(worth * Pow10(sale.usdcDecimals), sale.usdcPriceScaled);
    var fair := worth * Pow10(sale.usdcDecimals) / sale.usdcPriceScaled;
    MulMono(0, fair, BASIS_POINTS - sale.maxSlippageBps);
  }

  /**
   * Through all six roundings, the worst fill the program allows on the uncapped sale is at most three raw
   * units of USDC short of the repayment and the bounty together.
   */
  lemma TheWorstFillIsAtMostThreeUnitsShort(sale: ProtectSale)
    requires Readable(sale) && UncappedSale(sale).Ok? && WorstFill(sale, UncappedSale(sale).value).Ok?
    requires sale.usdcPriceScaled >= Pow10(sale.usdcDecimals)
    ensures WorstFill(sale, UncappedSale(sale).value).value >= UsdcToRaise(sale).value - 3
  {
    Unfolded(sale);
    var amount, sold, kept := UsdcToRaise(sale).value, UncappedSale(sale).value, BASIS_POINTS - sale.maxSlippageBps;
    WorstFillUnfolded(sale, sold);
    var unit, price := Pow10(sale.usdcDecimals), sale.usdcPriceScaled;
    var value := amount * price / unit;
    var atPrice := CeilDiv(value * Pow10(sale.destinationDecimals), sale.destinationPriceScaled);
    var worth := sold * sale.destinationPriceScaled / Pow10(sale.destinationDecimals);
    var fair := worth * unit / price;
    FloorBounds(amount * price, unit);
    CeilBounds(value * Pow10(sale.destinationDecimals), sale.destinationPriceScaled);
    CeilBounds(atPrice * BASIS_POINTS, kept);
    FloorBounds(sold * sale.destinationPriceScaled, Pow10(sale.destinationDecimals));
    FloorBounds(worth * unit, price);
    TheSaleCoversTheValue(value, Pow10(sale.destinationDecimals), sale.destinationPriceScaled, kept, atPrice, sold,
                          worth);
    TheFillIsCloseToTheAmount(amount, unit, price, kept, value, worth, fair);
    FloorBounds(fair * kept, BASIS_POINTS);
  }

  const THREE_SHORT: ProtectSale :=
    ProtectSale(135_008, 0, 4_000, 100, 10, 0, 396, 6, 1_001_364, 2, 19, 1_000_000)

  /** Three is the exact bound: this sale raises 134,822 of the 134,825 units it needs. */
  lemma ThreeUnitsShortHappens()
    ensures Readable(THREE_SHORT) && THREE_SHORT.usdcPriceScaled >= Pow10(THREE_SHORT.usdcDecimals)
    ensures DestinationToSellForProtect(THREE_SHORT) == UncappedSale(THREE_SHORT) == Ok(739_868)
    ensures UsdcToRaise(THREE_SHORT) == Ok(134_825)
    ensures WorstFill(THREE_SHORT, 739_868) == Ok(134_822)
  {
    assert Pow10(2) == 100;
    assert Pow10(6) == 1_000_000 by {
      assert Pow10(4) == 10_000;
    }
    assert RepayToReachTarget(135_008, 0, 4_000, 100) == Ok(135_008);
    assert UsdcToRaise(THREE_SHORT) == Ok(134_825);
  }

  // ----- monotonicity

  /** A larger input that does not throw means a smaller one does not either, and asks for no more. */
  ghost predicate NoMore(less: Money.Throws<int>, more: Money.Throws<int>) {
    more.Ok? ==> less.Ok? && 0 <= less.value <= more.value
  }

  lemma RawAmountsGrow(a: nat, b: nat, decimals: nat, price: nat)
    requires a <= b
    ensures NoMore(Money.RawAmountWorthRoundingUp(a, decimals, price),
                   Money.RawAmountWorthRoundingUp(b, decimals, price))
    ensures NoMore(Money.RawAmountWorthRoundingDown(a, decimals, price),
        Money.RawAmountWorthRoundingDown(b, decimals, price))
  {
    if price > 0 {
      var unit := Pow10(decimals);
      MulMono(0, a, unit);
      MulMono(a, b, unit);
      Rounding.RoundedUp(a * unit, price);
      Rounding.RoundedUp(b * unit, price);
      CeilNonNegative(a * unit, price);
      FloorNonNegative(a * unit, price);
      CeilMono(a * unit, b * unit, price);
      FloorMono(a * unit, b * unit, price);
    }
  }

  lemma BuffersGrow(a: nat, b: nat, slippage: nat)
    requires a <= b
    ensures NoMore(Money.AddTheSlippageBuffer(a, slippage), Money.AddTheSlippageBuffer(b, slippage))
  {
    if slippage < BASIS_POINTS {
      Rounding.RoundedUp(a * BASIS_POINTS, BASIS_POINTS - slippage);
      Rounding.RoundedUp(b * BASIS_POINTS, BASIS_POINTS - slippage);
      CeilNonNegative(a * BASIS_POINTS, BASIS_POINTS - slippage);
      CeilMono(a * BASIS_POINTS, b * BASIS_POINTS, BASIS_POINTS - slippage);
    }
  }

  lemma ValuesGrow(a: nat, b: nat, decimals: nat, price: nat)
    requires a <= b
    ensures 0 <= Money.UsdValueOfScaled(a, decimals, price) <= Money.UsdValueOfScaled(b, decimals, price)
  {
    MulMono(0, a, price);
    MulMono(a, b, price);
    FloorNonNegative(a * price, Pow10(decimals));
    FloorMono(a * price, b * price, Pow10(decimals));
  }

  lemma RepaymentsGrow(debt: nat, debt': nat, deposited: nat, deposited': nat, target: nat, factor: int)
    requires debt <= debt' && deposited >= deposited'
    ensures NoMore(RepayToReachTarget(debt, deposited, target, factor),
        RepayToReachTarget(debt', deposited', target, factor))
  {
    if factor > 0 {
      MulMono(0, deposited', target);
      MulMono(deposited', deposited, target);
      FloorMono(deposited' * target, deposited * target, BASIS_POINTS);
      var gap := SaturatingSub(debt, deposited * target / BASIS_POINTS);
      var gap' := SaturatingSub(debt', deposited' * target / BASIS_POINTS);
      Rounding.RoundedUp(gap * PERCENT, factor);
      Rounding.RoundedUp(gap' * PERCENT, factor);
      CeilNonNegative(gap * PERCENT, factor);
      CeilMono(gap * PERCENT, gap' * PERCENT, factor);
    }
  }

  /** A deeper debt or a smaller collateral never makes the guard sell less. */
  lemma TheSaleGrowsAsThePositionWorsens(sale: ProtectSale, worse: ProtectSale)
    requires Readable(sale) && Readable(worse)
    requires worse == sale.(adjustedDebtValueScaled := worse.adjustedDebtValueScaled,
                            depositedValueScaled := worse.depositedValueScaled)
    requires sale.adjustedDebtValueScaled <= worse.adjustedDebtValueScaled
    requires sale.depositedValueScaled >= worse.depositedValueScaled
    ensures NoMore(UncappedSale(sale), UncappedSale(worse))
    ensures NoMore(DestinationToSellForProtect(sale), DestinationToSellForProtect(worse))
  {
    RepaymentsGrow(sale.adjustedDebtValueScaled, worse.adjustedDebtValueScaled, sale.depositedValueScaled,
                   worse.depositedValueScaled, sale.targetLtvBps, sale.borrowFactorPct);
    if UncappedSale(worse).Ok? {
      var repay := RepayToReachTarget(sale.adjustedDebtValueScaled, sale.depositedValueScaled,
                                      sale.targetLtvBps, sale.borrowFactorPct).value;
      var repay' := RepayToReachTarget(worse.adjustedDebtValueScaled, worse.depositedValueScaled,
                                       worse.targetLtvBps, worse.borrowFactorPct).value;
      var bounty, bounty' := repay * sale.keeperBountyBps / BASIS_POINTS, repay' * sale.keeperBountyBps / BASIS_POINTS;
      MulMono(0, repay, sale.keeperBountyBps);
      MulMono(repay, repay', sale.keeperBountyBps);
      FloorMono(repay * sale.keeperBountyBps, repay' * sale.keeperBountyBps, BASIS_POINTS);
      RawAmountsGrow(repay, repay', sale.usdcDecimals, sale.usdcPriceScaled);
      RawAmountsGrow(bounty, bounty', sale.usdcDecimals, sale.usdcPriceScaled);
      assert NoMore(UsdcToRaise(sale), UsdcToRaise(worse));
      var raise, raise' := UsdcToRaise(sale).value, UsdcToRaise(worse).value;
      ValuesGrow(raise, raise', sale.usdcDecimals, sale.usdcPriceScaled);
      RawAmountsGrow(Money.UsdValueOfScaled(raise, sale.usdcDecimals, sale.usdcPriceScaled),
                     Money.UsdValueOfScaled(raise', sale.usdcDecimals, sale.usdcPriceScaled),
                     sale.destinationDecimals, sale.destinationPriceScaled);
      BuffersGrow(
        Money.RawAmountWorthRoundingUp(Money.UsdValueOfScaled(raise, sale.usdcDecimals, sale.usdcPriceScaled),
                                       sale.destinationDecimals, sale.destinationPriceScaled).value,
        Money.RawAmountWorthRoundingUp(Money.UsdValueOfScaled(raise', sale.usdcDecimals, sale.usdcPriceScaled),
                                       sale.destinationDecimals, sale.destinationPriceScaled).value,
        sale.maxSlippageBps);
    }
  }
}
