// What has to hold before each act, in plain comparisons, and the refusal each closed gate is met with.
module Gates {
  import opened Arithmetic
  import opened Outcomes
  import opened Positions
  import opened Runtime
  import opened Invariants
  import opened Market
  import opened Instructions
  import Guard
  import Refinement
  import Scope

  // ----- the comparisons

  /** Neither price was last updated more than the allowed number of slots before this one. */
  predicate BothPricesAreYoung(env: Environment) {
    && env.market.slot - env.usdcPrice.lastUpdatedSlot <= env.config.maxPriceAgeSlots
    && env.market.slot - env.destinationPrice.lastUpdatedSlot <= env.config.maxPriceAgeSlots
  }

  /** It has never happened, or happened at least the interval ago. */
  predicate WaitedOut(lastAt: int, now: int, intervalSeconds: int) {
    lastAt == 0 || now - lastAt >= intervalSeconds
  }

  /** No loan to value reads above the largest sixteen bit number, and one of nothing reads as zero. */
  predicate ReadsAtMost(o: Obligation, levelBps: u16) {
    || o.depositedValueScaled == 0 || levelBps == 0xFFFF
    || o.adjustedDebtValueScaled * 10_000 < (levelBps + 1) * o.depositedValueScaled
  }

  predicate ReadsAtLeast(o: Obligation, levelBps: u16) {
    if o.depositedValueScaled == 0 then levelBps == 0
    else o.adjustedDebtValueScaled * 10_000 >= levelBps * o.depositedValueScaled
  }

  /** The program's multiplication takes the debt. */
  predicate IsReadable(o: Obligation) {
    o.depositedValueScaled == 0 || o.adjustedDebtValueScaled * 10_000 < TWO_TO_THE_128
  }

  /** A limit that was crossed long enough ago. */
  predicate CrossedLongAgo(crossedAt: int, periodSeconds: int, now: int) {
    0 < crossedAt <= now - periodSeconds
  }

  /** The reserve or the program is done, the loan is called, or deleveraging is on both ways and its period is over. */
  predicate AReasonStands(signals: Guard.DeleverageSignals, sunset: bool, now: int) {
    || sunset || signals.reserveStatusObsolete || signals.obligationMarginCallStartedAt > 0
    || (&& signals.marketAutodeleverageEnabled && signals.reserveAutodeleverageEnabled
        && (|| CrossedLongAgo(signals.depositLimitCrossedAt, signals.marginCallPeriodSeconds, now)
            || CrossedLongAgo(signals.borrowLimitCrossedAt, signals.marginCallPeriodSeconds, now)))
  }

  /** The interval fits the program's signed clock. */
  predicate IntervalFits(lastAt: i64, intervalSeconds: u64) {
    lastAt == 0 || intervalSeconds <= LARGEST_I64
  }

  // ----- what the program's checks mean

  lemma FreshMeansYoung(env: Environment, p: Position)
    ensures RequireFreshUnlessOwner(env, p).Ok? <==> env.caller == p.owner || BothPricesAreYoung(env)
    ensures RequireFreshUnlessOwner(env, p).Err? ==> RequireFreshUnlessOwner(env, p).error == OraclePriceIsStale
  {
  }

  lemma ElapsedMeansWaitedOut(lastAt: i64, now: i64, intervalSeconds: u64)
    ensures Guard.RequireTheIntervalHasElapsed(lastAt, now, intervalSeconds).Pass?
       <==> IntervalFits(lastAt, intervalSeconds) && WaitedOut(lastAt, now, intervalSeconds)
    ensures var r := Guard.RequireTheIntervalHasElapsed(lastAt, now, intervalSeconds);
      r.Fail? ==> r.error == if IntervalFits(lastAt, intervalSeconds) && lastAt + intervalSeconds <= LARGEST_I64
                             then IntervalHasNotElapsed else MathOverflow
  {
  }

  lemma ReadingsMeanLevels(l: Layout, accounts: Accounts, level: u16)
    requires ReadLoan(accounts, l.obligation).Ok?
    ensures var o := ReadLoan(accounts, l.obligation).value;
      var ltv := LoanToValue(l, accounts);
      && (ltv.Ok? <==> IsReadable(o))
      && (ltv.Ok? ==> (ltv.value <= level <==> ReadsAtMost(o, level)))
      && (ltv.Ok? ==> (ltv.value >= level <==> ReadsAtLeast(o, level)))
      && (ltv.Err? ==> ltv.error == MathOverflow)
  {
    var o := ReadLoan(accounts, l.obligation).value;
    if o.depositedValueScaled > 0 {
      FloorAtLeast(o.adjustedDebtValueScaled * 10_000, o.depositedValueScaled, level);
      FloorAtLeast(o.adjustedDebtValueScaled * 10_000, o.depositedValueScaled, level + 1);
    }
  }

  lemma ReasonsStand(signals: Guard.DeleverageSignals, sunset: bool, now: i64)
    ensures Guard.ThereIsAReasonToLeave(signals.(programIsRetiring := sunset), now)
       <==> AReasonStands(signals, sunset, now)
  {
  }

  // ----- the gates of each act, and why a closed one refuses

  /** Every gate of a grow, at refreshed values. */
  predicate GrowIsOpen(env: Environment, p: Position, refreshed: Obligation) {
    && p.state == Open && !env.config.growPaused && p.strategy.growEnabled && env.config.destinationIsEnabled
    && IsReadable(refreshed) && ReadsAtMost(refreshed, p.strategy.growBelowLtvBps)
    && IntervalFits(p.lastGrowAt, env.config.minGrowIntervalSeconds)
    && WaitedOut(p.lastGrowAt, env.now, env.config.minGrowIntervalSeconds)
    && (env.caller == p.owner || BothPricesAreYoung(env))
  }

  /** Every gate of a protect: past the liquidation threshold nobody waits, and the owner never does. */
  predicate ProtectIsOpen(env: Environment, p: Position, refreshed: Obligation) {
    && p.state == Open && env.config.destinationIsListed
    && IsReadable(refreshed) && ReadsAtLeast(refreshed, p.strategy.protectLtvBps)
    && (|| env.caller == p.owner || ReadsAtLeast(refreshed, env.liquidationThresholdBps)
        || (&& IntervalFits(p.lastProtectAt, env.config.minProtectIntervalSeconds)
            && WaitedOut(p.lastProtectAt, env.now, env.config.minProtectIntervalSeconds)))
    && (env.caller == p.owner || BothPricesAreYoung(env))
  }

  /** Every gate of a leave; prices matter only where there is something to sell, and only to a stranger. */
  predicate LeaveIsOpen(env: Environment, p: Position, destinationHeld: nat) {
    && p.state != Closed && (env.config.sunset || p.strategy.exitOnFlagEnabled)
    && AReasonStands(env.signals, env.config.sunset, env.now)
    && env.config.destinationIsListed
    && (env.caller == p.owner || destinationHeld == 0 || BothPricesAreYoung(env))
  }

  function WhyItMustWait(lastAt: i64, now: i64, intervalSeconds: u64): Option<AccrueError> {
    if WaitedOut(lastAt, now, intervalSeconds) && IntervalFits(lastAt, intervalSeconds) then None
    else if intervalSeconds <= LARGEST_I64 && lastAt + intervalSeconds <= LARGEST_I64 then Some(IntervalHasNotElapsed)
    else Some(MathOverflow)
  }

  /** The first closed gate of a grow, as the error it is refused with. */
  function WhyAGrowIsRefused(env: Environment, p: Position, refreshed: Obligation): (why: Option<AccrueError>)
    ensures why.None? <==> GrowIsOpen(env, p, refreshed)
  {
    var wait := WhyItMustWait(p.lastGrowAt, env.now, env.config.minGrowIntervalSeconds);
    if p.state != Open then Some(WrongPositionState)
    else if env.config.growPaused then Some(GrowsArePaused)
    else if !p.strategy.growEnabled then Some(GrowNotEnabled)
    else if !env.config.destinationIsEnabled then Some(DestinationNotAllowed)
    else if !IsReadable(refreshed) then Some(MathOverflow)
    else if !ReadsAtMost(refreshed, p.strategy.growBelowLtvBps) then Some(GrowLevelExceeded)
    else if wait.Some? then wait
    else if env.caller != p.owner && !BothPricesAreYoung(env) then Some(OraclePriceIsStale)
    else None
  }

  function WhyAProtectIsRefused(env: Environment, p: Position, refreshed: Obligation): (why: Option<AccrueError>)
    ensures why.None? <==> ProtectIsOpen(env, p, refreshed)
  {
    var wait := WhyItMustWait(p.lastProtectAt, env.now, env.config.minProtectIntervalSeconds);
    if p.state != Open then Some(WrongPositionState)
    else if !env.config.destinationIsListed then Some(DestinationNotAllowed)
    else if !IsReadable(refreshed) then Some(MathOverflow)
    else if !ReadsAtLeast(refreshed, p.strategy.protectLtvBps) then Some(GuardLevelNotReached)
    else if env.caller == p.owner then None
    else if !ReadsAtLeast(refreshed, env.liquidationThresholdBps) && wait.Some? then wait
    else if !BothPricesAreYoung(env) then Some(OraclePriceIsStale)
    else None
  }

  function WhyALeaveIsRefused(env: Environment, p: Position, destinationHeld: nat): (why: Option<AccrueError>)
    ensures why.None? <==> LeaveIsOpen(env, p, destinationHeld)
  {
    if p.state == Closed then Some(WrongPositionState)
    else if !env.config.sunset && !p.strategy.exitOnFlagEnabled then Some(ExitOnFlagNotEnabled)
    else if !AReasonStands(env.signals, env.config.sunset, env.now) then Some(NoReasonToLeave)
    else if !env.config.destinationIsListed then Some(DestinationNotAllowed)
    else if env.caller != p.owner && destinationHeld > 0 && !BothPricesAreYoung(env) then Some(OraclePriceIsStale)
    else None
  }

  /** The error a check fails with, if it does. */
  function WhyNot<T>(r: Checked<T>): Option<AccrueError> {
    if r.Ok? then None else Some(r.error)
  }

  /** On the refreshed loan the program's own gates refuse exactly what these do, each with the same error. */
  lemma TheGrowGatesAgree(l: Layout, env: Environment, p: Position, refreshed: Accounts)
    requires ReadLoan(refreshed, l.obligation).Ok?
    requires p.state == Open && !env.config.growPaused && p.strategy.growEnabled && env.config.destinationIsEnabled
    ensures WhyNot(GrowGates(l, env, p, refreshed))
         == WhyAGrowIsRefused(env, p, ReadLoan(refreshed, l.obligation).value)
  {
    ReadingsMeanLevels(l, refreshed, p.strategy.growBelowLtvBps);
    ElapsedMeansWaitedOut(p.lastGrowAt, env.now, env.config.minGrowIntervalSeconds);
    FreshMeansYoung(env, p);
  }

  lemma TheProtectGatesAgree(l: Layout, env: Environment, p: Position, refreshed: Accounts)
    requires ReadLoan(refreshed, l.obligation).Ok?
    requires p.state == Open && env.config.destinationIsListed
    ensures WhyNot(ProtectGates(l, env, p, refreshed))
         == WhyAProtectIsRefused(env, p, ReadLoan(refreshed, l.obligation).value)
  {
    ReadingsMeanLevels(l, refreshed, p.strategy.protectLtvBps);
    ReadingsMeanLevels(l, refreshed, env.liquidationThresholdBps);
    ElapsedMeansWaitedOut(p.lastProtectAt, env.now, env.config.minProtectIntervalSeconds);
    FreshMeansYoung(env, p);
  }

  lemma TheLeaveGatesAgree(env: Environment, p: Position, destinationHeld: nat)
    requires env.caller == p.owner || destinationHeld == 0 || BothPricesAreYoung(env)
    ensures WhyNot(LeaveGates(env, p)) == WhyALeaveIsRefused(env, p, destinationHeld)
  {
    ReasonsStand(env.signals, env.config.sunset, env.now);
  }

  // ----- the floors a stranger trades at

  /** The least of the yield token the oracle lets so much USDC buy, at that call's prices and slippage. */
  function OracleFloorOnBuying(env: Environment, usdc: u64): Checked<u64> {
    var usdcPriceScaled :- Scope.UsdPerWholeTokenScaled(env.usdcPrice);
    var destinationPriceScaled :- Scope.UsdPerWholeTokenScaled(env.destinationPrice);
    Scope.MinimumOutputTheOracleAllows(
      Scope.SwapSide(usdc, env.usdcDecimals, usdcPriceScaled), env.destinationDecimals, destinationPriceScaled,
      env.config.maxSlippageBps)
  }

  /** The least USDC it lets so much of the yield token return. */
  function OracleFloorOnSelling(env: Environment, destination: u64): Checked<u64> {
    var usdcPriceScaled :- Scope.UsdPerWholeTokenScaled(env.usdcPrice);
    var destinationPriceScaled :- Scope.UsdPerWholeTokenScaled(env.destinationPrice);
    Scope.MinimumOutputTheOracleAllows(
      Scope.SwapSide(destination, env.destinationDecimals, destinationPriceScaled), env.usdcDecimals, usdcPriceScaled,
      env.config.maxSlippageBps)
  }

  /** The owner's own minimum, or the oracle's for anyone else. */
  function LeastBought(env: Environment, p: Position, ownerMinimum: u64, usdc: u64): Checked<u64> {
    if env.caller == p.owner then Ok(ownerMinimum) else OracleFloorOnBuying(env, usdc)
  }

  function LeastRaised(env: Environment, p: Position, ownerMinimum: u64, destination: u64): Checked<u64> {
    if env.caller == p.owner then Ok(ownerMinimum) else OracleFloorOnSelling(env, destination)
  }

  // ----- the sizes

  predicate BothPricesAreRead(env: Environment) {
    Scope.UsdPerWholeTokenScaled(env.usdcPrice).Ok? && Scope.UsdPerWholeTokenScaled(env.destinationPrice).Ok?
  }

  /** The borrow that brings the loan up to its target, no more of what the reserve has than the share allows. */
  ghost predicate BorrowIsSized(env: Environment, p: Position, refreshed: Obligation, borrowing: u64) {
    var usdcPrice := Scope.UsdPerWholeTokenScaled(env.usdcPrice);
    && usdcPrice.Ok? && env.borrowFactorPct > 0
    && borrowing > 0
    && Refinement.UsdcTheProgramBorrows(
         refreshed.adjustedDebtValueScaled, refreshed.depositedValueScaled, p.strategy.targetLtvBps,
         env.borrowFactorPct, env.usdcDecimals, usdcPrice.value) == Ok(borrowing)
    && borrowing * 10_000 <= env.liquidityAvailable * env.config.maxShareOfAvailableBps
  }

  /** A grow's sizing goes through exactly on a sized borrow and its minimum, both prices read. */
  lemma AGrowIsSizedExactly(env: Environment, p: Position, o: Obligation, ownerMinimum: u64, borrowing: u64,
                            minimumOut: u64)
    ensures GrowAmounts(env, p, o, ownerMinimum) == Ok((borrowing, minimumOut)) <==>
      && BorrowIsSized(env, p, o, borrowing) && LeastBought(env, p, ownerMinimum, borrowing) == Ok(minimumOut)
      && Scope.UsdPerWholeTokenScaled(env.destinationPrice).Ok?
    ensures BothPricesAreRead(env) && env.borrowFactorPct == 0 ==>
      GrowAmounts(env, p, o, ownerMinimum) == Err(ReserveHasNoBorrowFactor)
  {
    MulMono(0, env.liquidityAvailable, env.config.maxShareOfAvailableBps);
    MulMono(env.liquidityAvailable, TWO_TO_THE_64, env.config.maxShareOfAvailableBps);
    FloorAtLeast(env.liquidityAvailable * env.config.maxShareOfAvailableBps, BASIS_POINTS, borrowing);
  }

  /**
   * What a protect plans: the repayment that reaches the target, a bounty of its share of that up to the cap, and a
   * sale that raises both at the worst fill allowed, or of everything held.
   */
  ghost predicate ProtectIsSized(env: Environment, p: Position, refreshed: Obligation, destinationHeld: u64,
                                 plan: ProtectPlan) {
    var usdcPrice := Scope.UsdPerWholeTokenScaled(env.usdcPrice);
    var destinationPrice := Scope.UsdPerWholeTokenScaled(env.destinationPrice);
    var repay := Guard.RepayToReachTarget(refreshed.adjustedDebtValueScaled, refreshed.depositedValueScaled,
                                          p.strategy.targetLtvBps, env.borrowFactorPct);
    && usdcPrice.Ok? && destinationPrice.Ok? && env.borrowFactorPct > 0 && repay.Ok?
    && Scope.RawAmountWorthRoundingUp(repay.value, env.usdcDecimals, usdcPrice.value) == Ok(plan.repayNeeded)
    && BountyIsSized(env, repay.value, usdcPrice.value, plan.bountyWanted)
    && 0 < plan.selling <= destinationHeld
    && var raising := plan.repayNeeded + plan.bountyWanted;
    && raising < TWO_TO_THE_64
    && var enough := EnoughToRaise(env, raising, usdcPrice.value, destinationPrice.value);
    && enough.Ok? && (if enough.value <= destinationHeld then plan.selling == enough.value
                      else plan.selling == destinationHeld)
  }

  /** The keeper's share of the repayment, floored twice, up to the cap. */
  ghost predicate BountyIsSized(env: Environment, repayUsdScaled: u128, usdcPriceScaled: u128, bounty: u64) {
    && repayUsdScaled * env.config.keeperBountyBps < TWO_TO_THE_128
    && exists share: u128 {:trigger BountyIsWorth(env, share, usdcPriceScaled, bounty)} ::
      && share * 10_000 <= repayUsdScaled * env.config.keeperBountyBps < (share + 1) * 10_000
      && BountyIsWorth(env, share, usdcPriceScaled, bounty)
  }

  ghost predicate BountyIsWorth(env: Environment, shareScaled: u128, usdcPriceScaled: u128, bounty: u64) {
    var uncapped := Scope.RawAmountWorthRoundingDown(shareScaled, env.usdcDecimals, usdcPriceScaled);
    && uncapped.Ok? && bounty <= uncapped.value && bounty <= env.config.keeperBountyCapUsdc
    && (bounty == uncapped.value || bounty == env.config.keeperBountyCapUsdc)
  }

  /** The yield token that raises so much USDC after the slippage, every step rounded up. */
  function EnoughToRaise(env: Environment, usdc: u64, usdcPriceScaled: u128, destinationPriceScaled: u128):
    Checked<u64>
  {
    var value :- Scope.UsdValueOfScaled(usdc, env.usdcDecimals, usdcPriceScaled);
    var atTheOraclePrice :- Scope.RawAmountWorthRoundingUp(value, env.destinationDecimals, destinationPriceScaled);
    Scope.AddTheSlippageBuffer(atTheOraclePrice, env.config.maxSlippageBps)
  }

  lemma TheBountyOfAPlan(env: Environment, repay: u128, usdcPriceScaled: u128, bounty: u64)
    ensures BountyIsSized(env, repay, usdcPriceScaled, bounty) <==>
      && repay * env.config.keeperBountyBps < TWO_TO_THE_128
      && repay * env.config.keeperBountyBps / BASIS_POINTS < TWO_TO_THE_128
      && repay * env.config.keeperBountyBps / BASIS_POINTS >= 0
      && BountyIsWorth(env, repay * env.config.keeperBountyBps / BASIS_POINTS, usdcPriceScaled, bounty)
  {
    MulMono(0, repay, env.config.keeperBountyBps);
    var n := repay * env.config.keeperBountyBps;
    FloorNonNegative(n, BASIS_POINTS);
    FloorBounds(n, BASIS_POINTS);
  }

  /** A protect's plan goes through exactly on those sizes, with the owner's minimum or the oracle's floor. */
  lemma AProtectIsPlannedExactly(env: Environment, p: Position, o: Obligation, destinationHeld: u64, ownerMinimum: u64,
                                 plan: ProtectPlan)
    ensures PlanProtect(env, p, o, destinationHeld, ownerMinimum) == Ok(plan) <==>
      && ProtectIsSized(env, p, o, destinationHeld, plan)
      && LeastRaised(env, p, ownerMinimum, plan.selling) == Ok(plan.minimumOut)
    ensures BothPricesAreRead(env) && env.borrowFactorPct == 0 ==>
      PlanProtect(env, p, o, destinationHeld, ownerMinimum) == Err(ReserveHasNoBorrowFactor)
  {
    var usdcPrice := Scope.UsdPerWholeTokenScaled(env.usdcPrice);
    var repay := Guard.RepayToReachTarget(o.adjustedDebtValueScaled, o.depositedValueScaled, p.strategy.targetLtvBps,
                                          env.borrowFactorPct);
    if usdcPrice.Ok? && repay.Ok? {
      TheBountyOfAPlan(env, repay.value, usdcPrice.value, plan.bountyWanted);
    }
  }

  /** A leave sells everything held exactly at the oracle's floor, for a stranger only on young prices. */
  lemma ALeaveIsSizedExactly(l: Layout, env: Environment, p: Position, destinationHeld: u64, swap: JupiterSwap)
    ensures LeaveSwap(l, env, p, destinationHeld) == Ok(swap) <==>
      && (env.caller == p.owner || BothPricesAreYoung(env))
      && swap == JupiterSwap(l.destinationAccount, l.usdcAccount, destinationHeld, swap.minimumOut)
      && OracleFloorOnSelling(env, destinationHeld) == Ok(swap.minimumOut)
  {
    FreshMeansYoung(env, p);
  }

  /** A first purchase spends all the USDC there is, for at least the owner's minimum. */
  lemma ABuyIsSizedExactly(l: Layout, accounts: Accounts, minimumDestination: u64, swap: JupiterSwap)
    ensures BuySwap(l, accounts, minimumDestination) == Ok(swap) <==>
      && IsTokenAccount(At(accounts, l.usdcAccount)) && minimumDestination > 0
      && 0 < swap.amountIn == Amount(accounts, l.usdcAccount)
      && swap == JupiterSwap(l.usdcAccount, l.destinationAccount, swap.amountIn, minimumDestination)
  {
  }
}
