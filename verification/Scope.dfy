// The program's price arithmetic, in checked u64 and u128.
module Scope {
  import opened Arithmetic
  import opened Outcomes

  datatype ScopePrice = ScopePrice(value: u64, exponent: u64, lastUpdatedSlot: u64)

  const LARGEST_U32: nat := 0xFFFF_FFFF

  function TenToThe(power: u64): Checked<u128> {
    if power > LARGEST_U32 then Err(MathOverflow)
    else if Pow10(power) < TWO_TO_THE_128 then Ok(Pow10(power))
    else Err(MathOverflow)
  }

  function DivideRoundingUp(numerator: u128, denominator: u128): Checked<u128> {
    if denominator == 0 then Err(MathOverflow)
    else
      FloorNonNegative(numerator, denominator);
      var quotient := numerator / denominator;
      if numerator % denominator == 0 then Ok(quotient)
      else if quotient + 1 < TWO_TO_THE_128 then Ok(quotient + 1)
      else Err(MathOverflow)
  }

  function UsdPerWholeTokenScaled(price: ScopePrice): Checked<u128> {
    if price.value == 0 then Err(OraclePriceIsZero)
    else
      var divisor :- TenToThe(price.exponent);
      var scaled :- CheckedMul(price.value, SCALED_FRACTION_ONE);
      CheckedDiv(scaled, divisor)
  }

  function AgeInSlots(price: ScopePrice, currentSlot: u64): u64 {
    SaturatingSub(currentSlot, price.lastUpdatedSlot)
  }

  function RequirePriceIsFresh(price: ScopePrice, currentSlot: u64, maxAgeSlots: u64): Outcome<AccrueError> {
    Need(AgeInSlots(price, currentSlot) <= maxAgeSlots, OraclePriceIsStale)
  }

  function UsdValueOfScaled(rawAmount: u64, decimals: u8, priceScaled: u128): Checked<u128> {
    var product :- CheckedMul(rawAmount, priceScaled);
    var unit :- TenToThe(decimals);
    CheckedDiv(product, unit)
  }

  function RawAmountWorthRoundingUp(usdValueScaled: u128, decimals: u8, priceScaled: u128): Checked<u64> {
    var unit :- TenToThe(decimals);
    var numerator :- CheckedMul(usdValueScaled, unit);
    var raw :- DivideRoundingUp(numerator, priceScaled);
    ToU64(raw)
  }

  function RawAmountWorthRoundingDown(usdValueScaled: u128, decimals: u8, priceScaled: u128): Checked<u64> {
    var unit :- TenToThe(decimals);
    var numerator :- CheckedMul(usdValueScaled, unit);
    var raw :- CheckedDiv(numerator, priceScaled);
    ToU64(raw)
  }

  function AddTheSlippageBuffer(rawAmount: u64, maxSlippageBps: u16): Checked<u64> {
    if maxSlippageBps > BASIS_POINTS then Err(SlippageAboveCeiling)
    else
      var remainingBps := BASIS_POINTS - maxSlippageBps;
      :- Need(remainingBps > 0, SlippageAboveCeiling);
      var numerator :- CheckedMul(rawAmount, BASIS_POINTS);
      var buffered :- DivideRoundingUp(numerator, remainingBps);
      ToU64(buffered)
  }

  datatype SwapSide = SwapSide(rawAmount: u64, decimals: u8, priceScaled: u128)

  /** The least a permissionless swap may return, from the oracle's own prices. */
  function MinimumOutputTheOracleAllows(selling: SwapSide, buyingDecimals: u8, buyingPriceScaled: u128,
                                        maxSlippageBps: u16): Checked<u64> {
    var valueScaled :- UsdValueOfScaled(selling.rawAmount, selling.decimals, selling.priceScaled);
    var fairOutput :- RawAmountWorthRoundingDown(valueScaled, buyingDecimals, buyingPriceScaled);
    :- Need(maxSlippageBps <= BASIS_POINTS, SlippageAboveCeiling);
    var kept :- CheckedMul(fairOutput, BASIS_POINTS - maxSlippageBps);
    var minimum :- CheckedDiv(kept, BASIS_POINTS);
    ToU64(minimum)
  }
}
