// The sandbox router quotes from the pool rate; the program floors a swap from the oracle. Both come from one price
// book.
module Sandbox {
  import opened Arithmetic
  import opened Outcomes
  import Money
  import Scope

  const PRICE_SCALE: nat := 1_000_000

  /** A token as the sandbox lists it, with its price in the book already rounded to millionths of a dollar. */
  datatype SandboxToken = SandboxToken(decimals: u8, priceExponent: u64, microPrice: nat)

  datatype Pool = Pool(numerator: nat, denominator: nat)

  function RateBetween(input: SandboxToken, output: SandboxToken): Pool {
    Pool(input.microPrice, output.microPrice)
  }

  function ScopeValueFor(token: SandboxToken): Money.Throws<nat> {
    if token.priceExponent < 6 then Err(Thrown)
    else
      MulMono(0, token.microPrice, Pow10(token.priceExponent - 6));
      Ok(token.microPrice * Pow10(token.priceExponent - 6))
  }

  function FillAtTheSandboxRate(amountIn: nat, pool: Pool, inputDecimals: nat, outputDecimals: nat): Money.Throws<nat> {
    if pool.denominator == 0 then Err(Thrown)
    else
      Ok(Floored(amountIn * pool.numerator * Pow10(outputDecimals), pool.denominator * Pow10(inputDecimals)))
  }

  function Floored(n: int, d: int): (q: nat) {
    if d <= 0 || n < 0 then 0 else FloorNonNegative(n, d); n / d
  }

  /** The route the router returns for an amount, or none when it would fill it at nothing. */
  function Quote(amountIn: nat, input: SandboxToken, output: SandboxToken): Money.Throws<nat> {
    var amountOut :- FillAtTheSandboxRate(amountIn, RateBetween(input, output), input.decimals, output.decimals);
    if amountOut == 0 then Err(Thrown) else Ok(amountOut)
  }

  /** The price the oracle account carries for a token once the book has been written to it. */
  function OraclePriceOf(token: SandboxToken): Checked<u128> {
    match ScopeValueFor(token)
    case Err(_) => Err(MathOverflow)
    case Ok(value) =>
      if value < TWO_TO_THE_64 then Scope.UsdPerWholeTokenScaled(Scope.ScopePrice(value, token.priceExponent, 0))
      else Err(MathOverflow)
  }

  /** The program's floor under a swap of `amountIn`, at those prices. */
  function OracleFloor(amountIn: u64, input: SandboxToken, output: SandboxToken, maxSlippageBps: u16): Checked<u64> {
    var priceIn :- OraclePriceOf(input);
    var priceOut :- OraclePriceOf(output);
    Scope.MinimumOutputTheOracleAllows(Scope.SwapSide(amountIn, input.decimals, priceIn), output.decimals, priceOut,
        maxSlippageBps)
  }

  /** Wherever the program puts a floor under the swap, the pool's fill reaches it. */
  ghost predicate TheFillMeetsTheFloor(amountIn: u64, input: SandboxToken, output: SandboxToken, maxSlippageBps: u16) {
    var floor := OracleFloor(amountIn, input, output, maxSlippageBps);
    floor.Ok? ==>
      var fill := FillAtTheSandboxRate(amountIn, RateBetween(input, output), input.decimals, output.decimals);
      fill.Ok? && fill.value >= floor.value
  }

  /** The fill is the floored product of the amount and the rate; a route is quoted exactly when that is anything. */
  lemma TheFillExactly(amountIn: nat, input: SandboxToken, output: SandboxToken, fill: nat)
    ensures var n := amountIn * input.microPrice * Pow10(output.decimals);
      var d := output.microPrice * Pow10(input.decimals);
      && (FillAtTheSandboxRate(amountIn, RateBetween(input, output), input.decimals, output.decimals) == Ok(fill) <==>
          output.microPrice > 0 && fill * d <= n < (fill + 1) * d)
      && (Quote(amountIn, input, output) == Ok(fill) <==>
          output.microPrice > 0 && fill > 0 && fill * d <= n < (fill + 1) * d)
  {
    if output.microPrice > 0 {
      MulMonoStrict(0, output.microPrice, Pow10(input.decimals));
      MulMono(0, amountIn, input.microPrice);
      MulMono(0, amountIn * input.microPrice, Pow10(output.decimals));
      FloorIs(amountIn * input.microPrice * Pow10(output.decimals), output.microPrice * Pow10(input.decimals), fill);
    }
  }

  /** A book price is written to the feed exactly when the feed keeps millionths, and then without loss. */
  lemma TheValueWrittenExactly(token: SandboxToken)
    ensures ScopeValueFor(token).Ok? <==> token.priceExponent >= 6
    ensures ScopeValueFor(token).Ok? ==>
      ScopeValueFor(token).value * PRICE_SCALE == token.microPrice * Pow10(token.priceExponent)
  {
    if token.priceExponent >= 6 {
      PowersMultiply(6, token.priceExponent - 6);
      assert Pow10(6) == PRICE_SCALE by {
        assert Pow10(4) == 10_000;
      }
      Regroup(token.microPrice, Pow10(token.priceExponent - 6), PRICE_SCALE);
      assert token.microPrice * (PRICE_SCALE * Pow10(token.priceExponent - 6))
          == token.microPrice * PRICE_SCALE * Pow10(token.priceExponent - 6);
    }
  }

  /** The exponent a feed is written with cancels out of the price read back. */
  lemma TheExponentCancels(token: SandboxToken)
    requires OraclePriceOf(token).Ok?
    ensures token.microPrice > 0
    ensures OraclePriceOf(token).value == token.microPrice * SCALED_FRACTION_ONE / PRICE_SCALE
  {
    var shift := Pow10(token.priceExponent - 6);
    var n := token.microPrice * SCALED_FRACTION_ONE;
    assert Pow10(token.priceExponent) == PRICE_SCALE * shift by {
      PowersMultiply(6, token.priceExponent - 6);
      assert Pow10(6) == PRICE_SCALE by {
        assert Pow10(4) == 10_000;
      }
    }
    Regroup(token.microPrice, shift, SCALED_FRACTION_ONE);
    CancelFactor(n, PRICE_SCALE, shift);
  }

  lemma PowersMultiply(a: nat, b: nat)
    ensures Pow10(a + b) == Pow10(a) * Pow10(b)
  {
    if a > 0 {
      PowersMultiply(a - 1, b);
      Regroup(10, Pow10(a - 1), Pow10(b));
      assert 10 * Pow10(a - 1) * Pow10(b) == 10 * (Pow10(a - 1) * Pow10(b));
    }
  }

  lemma CancelFactor(n: int, d: int, k: int)
    requires d > 0 && k > 0
    ensures d * k > 0 && n * k / (d * k) == n / d
  {
    MulMonoStrict(0, d, k);
    var q, r := n / d, n * k / (d * k);
    FloorBounds(n, d);
    FloorBounds(n * k, d * k);
    MulMono(q * d, n, k);
    assert q * d * k == q * (d * k);
    FloorAtLeast(n * k, d * k, q);
    assert r * (d * k) == r * d * k;
    CancelMul(r * d, n, k);
    FloorAtLeast(n, d, r);
  }

  /** Losing a basis point outweighs what the two oracle prices lose to flooring. */
  lemma OneBasisPointCoversTheFlooring(microOut: nat, priceOut: int)
    requires microOut > 0 && priceOut == microOut * SCALED_FRACTION_ONE / PRICE_SCALE
    ensures (BASIS_POINTS - 1) * (microOut * SCALED_FRACTION_ONE) <= BASIS_POINTS * (priceOut * PRICE_SCALE)
  {
    FloorBounds(microOut * SCALED_FRACTION_ONE, PRICE_SCALE);
  }

  lemma Chain(a: nat, b: nat, c: nat, k: nat, l: nat, m: nat)
    requires a * l <= b * k && k * c <= l * m && l > 0
    ensures a * c <= b * m
  {
    MulMono(a * l, b * k, c);
    MulMono(k * c, l * m, b);
    Regroup(a, l, c);
    assert b * k * c == k * c * b;
    assert l * m * b == b * m * l;
    CancelMul(a * c, b * m, l);
  }

  /**
   * The floor's three divisions and the fill's one, multiplied out; `one` and `scale` are what the prices are scaled
   * by.
   */
  lemma TheFloorMultipliedOut(x: nat, microIn: nat, microOut: nat, unitIn: nat, unitOut: nat, one: nat, scale: nat,
                              priceIn: nat, priceOut: nat, worth: nat, fair: nat, floor: nat)
    requires one > 0
    requires priceIn * scale <= microIn * one
    requires worth * unitIn <= x * priceIn
    requires fair * priceOut <= worth * unitOut
    requires floor * (microOut * one) <= fair * (priceOut * scale)
    ensures floor * microOut * unitIn <= x * unitOut * microIn
  {
    Through(fair, priceOut, worth, unitOut, unitIn, x, priceIn);
    MulMono(fair * unitIn * priceOut, x * unitOut * priceIn, scale);
    MulMono(0, x, unitOut);
    MulMono(priceIn * scale, microIn * one, x * unitOut);
    assert x * unitOut * priceIn * scale == priceIn * scale * (x * unitOut);
    assert microIn * one * (x * unitOut) == x * unitOut * microIn * one;
    MulMono(floor * (microOut * one), fair * (priceOut * scale), unitIn);
    assert floor * (microOut * one) * unitIn == floor * microOut * unitIn * one;
    assert fair * (priceOut * scale) * unitIn == fair * unitIn * priceOut * scale;
    CancelMul(floor * microOut * unitIn, x * unitOut * microIn, one);
  }

  lemma TheFillReachesTheFloor(x: nat, microIn: nat, microOut: nat, unitIn: nat, unitOut: nat, kept: nat,
                               priceIn: nat, priceOut: nat, worth: nat, fair: nat, floor: nat)
    requires unitIn > 0 && microOut > 0 && priceOut > 0 && kept < BASIS_POINTS
    requires priceIn == microIn * SCALED_FRACTION_ONE / PRICE_SCALE
    requires priceOut == microOut * SCALED_FRACTION_ONE / PRICE_SCALE
    requires worth == x * priceIn / unitIn
    requires fair == worth * unitOut / priceOut
    requires floor == fair * kept / BASIS_POINTS
    ensures floor * (microOut * unitIn) <= x * microIn * unitOut
  {
    FloorBounds(microIn * SCALED_FRACTION_ONE, PRICE_SCALE);
    OneBasisPointCoversTheFlooring(microOut, priceOut);
    FloorBounds(x * priceIn, unitIn);
    FloorBounds(worth * unitOut, priceOut);
    FloorBounds(fair * kept, BASIS_POINTS);
    MulMono(kept, BASIS_POINTS - 1, fair);
    Chain(floor, fair, microOut * SCALED_FRACTION_ONE, BASIS_POINTS - 1, BASIS_POINTS, priceOut * PRICE_SCALE);
    TheFloorMultipliedOut(x, microIn, microOut, unitIn, unitOut, SCALED_FRACTION_ONE, PRICE_SCALE,
                          priceIn, priceOut, worth, fair, floor);
    Regroup(x, microIn, unitOut);
    assert floor * microOut * unitIn == floor * (microOut * unitIn);
  }

  lemma SomeSlippageIsEnough(amountIn: u64, input: SandboxToken, output: SandboxToken, maxSlippageBps: u16)
    requires maxSlippageBps >= 1
    ensures TheFillMeetsTheFloor(amountIn, input, output, maxSlippageBps)
  {
    var floor := OracleFloor(amountIn, input, output, maxSlippageBps);
    if floor.Ok? {
      TheExponentCancels(input);
      TheExponentCancels(output);
      var priceIn, priceOut := OraclePriceOf(input).value, OraclePriceOf(output).value;
      var unitIn, unitOut := Pow10(input.decimals), Pow10(output.decimals);
      var worth := Scope.UsdValueOfScaled(amountIn, input.decimals, priceIn).value;
      var fair := Scope.RawAmountWorthRoundingDown(worth, output.decimals, priceOut).value;
      TheFillReachesTheFloor(amountIn, input.microPrice, output.microPrice, unitIn, unitOut,
                             BASIS_POINTS - maxSlippageBps,
                             priceIn, priceOut, worth, fair, floor.value);
      MulMonoStrict(0, output.microPrice, unitIn);
      MulMono(0, amountIn, input.microPrice);
      MulMono(0, amountIn * input.microPrice, unitOut);
      FloorAtLeast(amountIn * input.microPrice * unitOut, output.microPrice * unitIn, floor.value);
    }
  }

  /** So the router finds a route, at or above the floor, whenever the floor asks for anything at all. */
  lemma ARouteIsQuotedForEveryPositiveFloor(amountIn: u64, input: SandboxToken, output: SandboxToken,
                                            maxSlippageBps: u16)
    requires maxSlippageBps >= 1
    requires OracleFloor(amountIn, input, output, maxSlippageBps).Ok?
    requires OracleFloor(amountIn, input, output, maxSlippageBps).value > 0
    ensures Quote(amountIn, input, output).Ok?
    ensures Quote(amountIn, input, output).value >= OracleFloor(amountIn, input, output, maxSlippageBps).value
  {
    SomeSlippageIsEnough(amountIn, input, output, maxSlippageBps);
  }

  // ----- the pair the sandbox lists

  function Usdc(microPrice: nat): SandboxToken {
    SandboxToken(6, 8, microPrice)
  }

  function Onyc(microPrice: nat): SandboxToken {
    SandboxToken(9, 17, microPrice)
  }

  lemma PowersOfTheListedPair()
    ensures Pow10(2) == 100 && Pow10(6) == PRICE_SCALE && Pow10(8) == 100_000_000 && Pow10(9) == 1_000_000_000
    ensures Pow10(11) == 100_000_000_000 && Pow10(17) == 100_000_000_000_000_000
  {
    assert Pow10(4) == 10_000;
    PowersMultiply(2, 4);
    PowersMultiply(4, 4);
    PowersMultiply(8, 1);
    PowersMultiply(9, 2);
    PowersMultiply(9, 8);
  }

  lemma ThePricesOfTheListedPair()
    ensures OraclePriceOf(Usdc(1_000_000)) == Ok(SCALED_FRACTION_ONE)
    ensures OraclePriceOf(Onyc(1_000_183)) == Ok(1_153_132_489_242_190_028)
  {
    PowersOfTheListedPair();
    assert ScopeValueFor(Usdc(1_000_000)) == Ok(100_000_000);
    assert ScopeValueFor(Onyc(1_000_183)) == Ok(100_018_300_000_000_000);
  }

  /**
   * At no slippage at all the floor can sit above the fill: here by one raw unit, with the yield token at 1.000183
   * dollars.
   */
  lemma NoSlippageIsNotEnough()
    ensures OracleFloor(1_160_847_112, Usdc(1_000_000), Onyc(1_000_183), 0) == Ok(1_160_634_715_847)
    ensures FillAtTheSandboxRate(1_160_847_112, RateBetween(Usdc(1_000_000), Onyc(1_000_183)), 6, 9)
         == Ok(1_160_634_715_846)
    ensures !TheFillMeetsTheFloor(1_160_847_112, Usdc(1_000_000), Onyc(1_000_183), 0)
  {
    PowersOfTheListedPair();
    ThePricesOfTheListedPair();
    var price := 1_153_132_489_242_190_028;
    assert Scope.UsdValueOfScaled(1_160_847_112, 6, SCALED_FRACTION_ONE) == Ok(1_338_365_598_985_553_007_515);
    assert Scope.RawAmountWorthRoundingDown(1_338_365_598_985_553_007_515, 9, price) == Ok(1_160_634_715_847);
  }

  /** The fill meets the floor for every amount, every pair and every price exactly when some slippage is allowed. */
  lemma EveryFillMeetsTheFloorExactlyWithSomeSlippage(maxSlippageBps: u16)
    ensures (forall amountIn: u64, input, output :: TheFillMeetsTheFloor(amountIn, input, output, maxSlippageBps))
       <==> maxSlippageBps >= 1
  {
    if maxSlippageBps >= 1 {
      forall amountIn: u64, input, output ensures TheFillMeetsTheFloor(amountIn, input, output, maxSlippageBps) {
        SomeSlippageIsEnough(amountIn, input, output, maxSlippageBps);
      }
    } else {
      NoSlippageIsNotEnough();
    }
  }

  /** And so it is for the one pair the sandbox lists, both ways, at whatever prices its book holds. */
  lemma TheListedPairMeetsTheFloorExactlyWithSomeSlippage(maxSlippageBps: u16)
    ensures (forall amountIn: u64, usdc: nat, onyc: nat ::
               && TheFillMeetsTheFloor(amountIn, Usdc(usdc), Onyc(onyc), maxSlippageBps)
               && TheFillMeetsTheFloor(amountIn, Onyc(onyc), Usdc(usdc), maxSlippageBps))
       <==> maxSlippageBps >= 1
  {
    if maxSlippageBps >= 1 {
      forall amountIn: u64, usdc: nat, onyc: nat
        ensures TheFillMeetsTheFloor(amountIn, Usdc(usdc), Onyc(onyc), maxSlippageBps)
        ensures TheFillMeetsTheFloor(amountIn, Onyc(onyc), Usdc(usdc), maxSlippageBps)
      {
        SomeSlippageIsEnough(amountIn, Usdc(usdc), Onyc(onyc), maxSlippageBps);
        SomeSlippageIsEnough(amountIn, Onyc(onyc), Usdc(usdc), maxSlippageBps);
      }
    } else {
      NoSlippageIsNotEnough();
    }
  }

  /** Swapping there and back at reciprocal rates never gains. */
  lemma ThereAndBackNeverGains(amountIn: nat, pool: Pool, inputDecimals: nat, outputDecimals: nat)
    requires pool.numerator > 0 && pool.denominator > 0
    ensures var out := FillAtTheSandboxRate(amountIn, pool, inputDecimals, outputDecimals);
      && out.Ok?
      && var back := FillAtTheSandboxRate(out.value, Pool(pool.denominator, pool.numerator), outputDecimals,
                                          inputDecimals);
      && back.Ok? && back.value <= amountIn
  {
    var unitIn, unitOut := Pow10(inputDecimals), Pow10(outputDecimals);
    var sold, bought := pool.numerator * unitOut, pool.denominator * unitIn;
    MulMonoStrict(0, pool.numerator, unitOut);
    MulMonoStrict(0, pool.denominator, unitIn);
    MulMono(0, amountIn, pool.numerator);
    MulMono(0, amountIn * pool.numerator, unitOut);
    var out := amountIn * pool.numerator * unitOut / bought;
    FloorBounds(amountIn * pool.numerator * unitOut, bought);
    FloorNonNegative(amountIn * pool.numerator * unitOut, bought);
    MulMono(0, out, pool.denominator);
    MulMono(0, out * pool.denominator, unitIn);
    assert out * pool.denominator * unitIn == out * bought;
    assert amountIn * pool.numerator * unitOut == amountIn * sold;
    FloorAtLeast(out * pool.denominator * unitIn, sold, amountIn + 1);
    assert (amountIn + 1) * sold == amountIn * sold + sold;
  }
}
