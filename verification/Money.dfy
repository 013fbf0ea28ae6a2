// The TypeScript money arithmetic, on unbounded integers that throw where the source throws.
module Money {
  import opened Arithmetic
  import opened Outcomes

  type Throws<T> = Result<T, Thrown>

  function ThrowUnless(condition: bool): Outcome<Thrown> {
    if condition then Pass else Fail(Thrown)
  }

  function RequireInRange(value: int): Throws<int> {
    if value < 0 || value > TWO_TO_THE_64 - 1 then Err(Thrown) else Ok(value)
  }

  function DivideRoundingUp(numerator: int, denominator: int): Throws<int> {
    if denominator <= 0 then Err(Thrown)
    else
      var quotient := TruncatedQuotient(numerator, denominator);
      Ok(if TruncatedRemainder(numerator, denominator) == 0 then quotient else quotient + 1)
  }

  datatype OraclePrice = OraclePrice(value: int, exponent: nat)

  function UsdPerWholeTokenScaled(price: OraclePrice): Throws<int> {
    if price.value <= 0 then Err(Thrown)
    else
      Ok(TruncatedQuotient(price.value * SCALED_FRACTION_ONE, Pow10(price.exponent)))
  }

  function UsdValueOfScaled(rawAmount: int, decimals: nat, priceScaled: int): int {
    TruncatedQuotient(rawAmount * priceScaled, Pow10(decimals))
  }

  function RawAmountWorthRoundingUp(usdValueScaled: int, decimals: nat, priceScaled: int): Throws<int> {
    var raw :- DivideRoundingUp(usdValueScaled * Pow10(decimals), priceScaled);
    RequireInRange(raw)
  }

  function RawAmountWorthRoundingDown(usdValueScaled: int, decimals: nat, priceScaled: int): Throws<int> {
    if priceScaled <= 0 then Err(Thrown)
    else
      RequireInRange(TruncatedQuotient(usdValueScaled * Pow10(decimals), priceScaled))
  }

  function AddTheSlippageBuffer(rawAmount: int, maxSlippageBps: int): Throws<int> {
    var remainingBps := BASIS_POINTS - maxSlippageBps;
    :- ThrowUnless(remainingBps > 0);
    var buffered :- DivideRoundingUp(rawAmount * BASIS_POINTS, remainingBps);
    RequireInRange(buffered)
  }

  datatype SwapSide = SwapSide(rawAmount: int, decimals: nat, priceScaled: int)

  function MinimumOutputTheOracleAllows(selling: SwapSide, buyingDecimals: nat, buyingPriceScaled: int,
                                        maxSlippageBps: int): Throws<int> {
    var valueScaled := UsdValueOfScaled(selling.rawAmount, selling.decimals, selling.priceScaled);
    var fairOutput :- RawAmountWorthRoundingDown(valueScaled, buyingDecimals, buyingPriceScaled);
    var remainingBps := BASIS_POINTS - maxSlippageBps;
    :- ThrowUnless(remainingBps >= 0);
    Ok(TruncatedQuotient(fairOutput * remainingBps, BASIS_POINTS))
  }
}
