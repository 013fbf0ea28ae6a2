// What the keeper decides from one reading of the chain, against the gates the program puts in front of each act.
module Decide {
  import opened Outcomes
  import opened Positions
  import CoreGuard
  import Guard
  import Refinement
  import Scope

  // ----- the keeper's decision

  datatype Act = Protect | Grow | Leave

  datatype WaitingReason =
    | NotOpen
    | BetweenTheLevels
    | ProtectIntervalHasNotElapsed
    | GrowIntervalHasNotElapsed
    | NothingLeftToSell
    | GrowingIsPaused
    | GrowingIsSwitchedOff
    | OraclePriceStale

  datatype Decision = Do(act: Act) | Wait(reason: WaitingReason)

  datatype GuardLimits = GuardLimits(
    minProtectIntervalSeconds: int, minGrowIntervalSeconds: int, maxPriceAgeSlots: int, growPaused: bool, sunset: bool)

  datatype PositionUnderWatch = PositionUnderWatch(
    isOpen: bool,
    protectLtvBps: int,
    growBelowLtvBps: int,
    growEnabled: bool,
    exitOnFlagEnabled: bool,
    lastProtectAt: int,
    lastGrowAt: int,
    loanToValueBps: int,
    destinationBalance: int,
    deleverage: CoreGuard.DeleverageSignals,
    oldestPriceAgeSlots: int)

  predicate TheIntervalHasElapsed(lastAt: int, now: int, intervalSeconds: int) {
    lastAt == 0 || now >= lastAt + intervalSeconds
  }

  function DecideWhatToDo(position: PositionUnderWatch, limits: GuardLimits, now: int): Decision {
    if !position.isOpen then Wait(NotOpen)
    else
      var priceIsFresh := position.oldestPriceAgeSlots <= limits.maxPriceAgeSlots;
      if position.loanToValueBps >= position.protectLtvBps then
        if !priceIsFresh then Wait(OraclePriceStale)
        else if position.destinationBalance == 0 then Wait(NothingLeftToSell)
        else if !TheIntervalHasElapsed(position.lastProtectAt, now, limits.minProtectIntervalSeconds) then
          Wait(ProtectIntervalHasNotElapsed)
        else Do(Protect)
      else
        var growing :=
          if position.loanToValueBps <= position.growBelowLtvBps
          then DecideWhetherToGrow(position, limits, now, priceIsFresh) else None;
        if growing.Some? then growing.value
        else
          var handedBack := CoreGuard.ThereIsAReasonToLeave(position.deleverage.(programIsRetiring := limits.sunset),
                                                            now);
          if limits.sunset || (position.exitOnFlagEnabled && handedBack) then
            if !priceIsFresh && position.destinationBalance > 0 then Wait(OraclePriceStale) else Do(Leave)
          else Wait(BetweenTheLevels)
  }

  function DecideWhetherToGrow(position: PositionUnderWatch, limits: GuardLimits, now: int,
                               priceIsFresh: bool): Option<Decision> {
    if limits.growPaused then Some(Wait(GrowingIsPaused))
    else if !position.growEnabled then None
    else if !priceIsFresh then Some(Wait(OraclePriceStale))
    else if !TheIntervalHasElapsed(position.lastGrowAt, now, limits.minGrowIntervalSeconds) then
      Some(Wait(GrowIntervalHasNotElapsed))
    else Some(Do(Grow))
  }

  lemma OnlyAnOpenPositionIsActedOn(position: PositionUnderWatch, limits: GuardLimits, now: int)
    ensures DecideWhatToDo(position, limits, now) == Wait(NotOpen) <==> !position.isOpen
  {
  }

  /** At the guard level the keeper protects or waits for something it protects with, and does nothing else. */
  lemma EveryDecisionAtTheGuardLevel(position: PositionUnderWatch, limits: GuardLimits, now: int)
    requires position.isOpen && position.loanToValueBps >= position.protectLtvBps
    ensures var decision := DecideWhatToDo(position, limits, now);
      var young := position.oldestPriceAgeSlots <= limits.maxPriceAgeSlots;
      var waiting := position.lastProtectAt != 0 && now - position.lastProtectAt < limits.minProtectIntervalSeconds;
      && (decision == Do(Protect) <==> young && position.destinationBalance != 0 && !waiting)
      && (decision == Wait(OraclePriceStale) <==> !young)
      && (decision == Wait(NothingLeftToSell) <==> young && position.destinationBalance == 0)
      && (decision == Wait(ProtectIntervalHasNotElapsed) <==> young && position.destinationBalance != 0 && waiting)
  {
  }

  /** Below it: growing where growing comes first, then leaving, and a reason for every wait. */
  lemma EveryDecisionBelowTheGuardLevel(position: PositionUnderWatch, limits: GuardLimits, now: int)
    requires position.isOpen && position.loanToValueBps < position.protectLtvBps
    ensures var decision := DecideWhatToDo(position, limits, now);
      var young := position.oldestPriceAgeSlots <= limits.maxPriceAgeSlots;
      var low := position.loanToValueBps <= position.growBelowLtvBps;
      var grows := low && !limits.growPaused && position.growEnabled;
      var waiting := position.lastGrowAt != 0 && now - position.lastGrowAt < limits.minGrowIntervalSeconds;
      var leaves := !grows && !(low && limits.growPaused)
        && (limits.sunset || (position.exitOnFlagEnabled && AReasonStands(position.deleverage, now)));
      && (decision == Do(Grow) <==> grows && young && !waiting)
      && (decision == Wait(GrowIntervalHasNotElapsed) <==> grows && young && waiting)
      && (decision == Wait(GrowingIsPaused) <==> low && limits.growPaused)
      && (decision == Do(Leave) <==> leaves && (young || position.destinationBalance <= 0))
      && (decision == Wait(OraclePriceStale) <==> !young && (grows || (leaves && position.destinationBalance > 0)))
      && (decision == Wait(BetweenTheLevels) <==> !grows && !(low && limits.growPaused) && !leaves)
  {
  }

  /** A reserve that is done, a called loan, or deleveraging on both ways and its period over. */
  predicate AReasonStands(signals: CoreGuard.DeleverageSignals, now: int) {
    || signals.reserveStatusObsolete || signals.obligationMarginCallStartedAt != 0
    || (&& signals.marketAutodeleverageEnabled && signals.reserveAutodeleverageEnabled
        && (|| (signals.depositLimitCrossedAt != 0
                && now - signals.depositLimitCrossedAt >= signals.marginCallPeriodSeconds)
            || (signals.borrowLimitCrossedAt != 0
                && now - signals.borrowLimitCrossedAt >= signals.marginCallPeriodSeconds)))
  }

  // ----- one snapshot of the chain, and what the keeper reads from it

  datatype Snapshot = Snapshot(
    position: Position,
    adjustedDebtValueScaled: u128,
    depositedValueScaled: u128,
    destinationBalance: u64,
    signals: Guard.DeleverageSignals,
    usdcPrice: Scope.ScopePrice,
    destinationPrice: Scope.ScopePrice,
    currentSlot: u64,
    now: i64,
    liquidationThresholdBps: u16,
    minProtectIntervalSeconds: u64,
    minGrowIntervalSeconds: u64,
    maxPriceAgeSlots: u64,
    growPaused: bool,
    sunset: bool)

  /** The keeper's own age: zero for a price from the future. */
  function AgeInSlots(price: Scope.ScopePrice, currentSlot: int): int {
    if price.lastUpdatedSlot >= currentSlot then 0 else currentSlot - price.lastUpdatedSlot
  }

  function WatchThePosition(chain: Snapshot): PositionUnderWatch {
    var usdcAge, destinationAge := AgeInSlots(chain.usdcPrice, chain.currentSlot),
        AgeInSlots(chain.destinationPrice, chain.currentSlot);
    PositionUnderWatch(
      chain.position.state == Open,
      chain.position.strategy.protectLtvBps,
      chain.position.strategy.growBelowLtvBps,
      chain.position.strategy.growEnabled,
      chain.position.strategy.exitOnFlagEnabled,
      chain.position.lastProtectAt,
      chain.position.lastGrowAt,
      CoreGuard.LoanToValueBps(chain.adjustedDebtValueScaled, chain.depositedValueScaled),
      chain.destinationBalance,
      Refinement.Signals(chain.signals.(programIsRetiring := false)),
      if usdcAge > destinationAge then usdcAge else destinationAge)
  }

  function LimitsOf(chain: Snapshot): GuardLimits {
    GuardLimits(chain.minProtectIntervalSeconds, chain.minGrowIntervalSeconds, chain.maxPriceAgeSlots,
        chain.growPaused, chain.sunset)
  }

  function Decided(chain: Snapshot): Decision {
    DecideWhatToDo(WatchThePosition(chain), LimitsOf(chain), chain.now)
  }

  // ----- the program's gates, in its own arithmetic

  predicate BothPricesAreFresh(chain: Snapshot) {
    && Scope.RequirePriceIsFresh(chain.usdcPrice, chain.currentSlot, chain.maxPriceAgeSlots).Pass?
    && Scope.RequirePriceIsFresh(chain.destinationPrice, chain.currentSlot, chain.maxPriceAgeSlots).Pass?
  }

  predicate ProtectGates(chain: Snapshot) {
    var ltv := Guard.LoanToValueBps(chain.adjustedDebtValueScaled, chain.depositedValueScaled);
    && chain.position.state == Open
    && ltv.Ok? && ltv.value >= chain.position.strategy.protectLtvBps
    && (ltv.value >= chain.liquidationThresholdBps
        || Guard.RequireTheIntervalHasElapsed(chain.position.lastProtectAt, chain.now,
            chain.minProtectIntervalSeconds).Pass?)
    && BothPricesAreFresh(chain)
  }

  predicate GrowGates(chain: Snapshot) {
    var ltv := Guard.LoanToValueBps(chain.adjustedDebtValueScaled, chain.depositedValueScaled);
    && chain.position.state == Open
    && !chain.growPaused
    && chain.position.strategy.growEnabled
    && ltv.Ok? && ltv.value <= chain.position.strategy.growBelowLtvBps
    && Guard.RequireTheIntervalHasElapsed(chain.position.lastGrowAt, chain.now, chain.minGrowIntervalSeconds).Pass?
    && BothPricesAreFresh(chain)
  }

  predicate LeaveGates(chain: Snapshot) {
    && chain.position.state != Closed
    && (chain.sunset || chain.position.strategy.exitOnFlagEnabled)
    && Guard.ThereIsAReasonToLeave(chain.signals.(programIsRetiring := chain.sunset), chain.now)
    && (chain.destinationBalance > 0 ==> BothPricesAreFresh(chain))
  }

  /** The market's debt fits the program's multiplication, and the interval its signed clock. */
  predicate Computable(chain: Snapshot, lastAt: i64, intervalSeconds: u64) {
    && (chain.depositedValueScaled == 0 || chain.adjustedDebtValueScaled * BASIS_POINTS < TWO_TO_THE_128)
    && (lastAt == 0 || intervalSeconds <= LARGEST_I64)
  }

  // ----- soundness

  /** The keeper's age of a price is the program's, and neither is ever negative. */
  lemma TheAgesAgree(price: Scope.ScopePrice, currentSlot: u64)
    ensures var age := AgeInSlots(price, currentSlot);
      && age == Scope.AgeInSlots(price, currentSlot)
      && age >= 0 && age >= currentSlot - price.lastUpdatedSlot
      && (age == 0 || age == currentSlot - price.lastUpdatedSlot)
  {
  }

  /** The single oldest age stands for both feeds. */
  lemma TheOldestAgeStandsForBoth(chain: Snapshot)
    ensures WatchThePosition(chain).oldestPriceAgeSlots <= chain.maxPriceAgeSlots <==> BothPricesAreFresh(chain)
  {
  }

  /** A decision to grow passes every gate of the grow instruction exactly when the program can compute them. */
  lemma GrowingIsSound(chain: Snapshot)
    requires Decided(chain) == Do(Grow)
    ensures GrowGates(chain) <==> Computable(chain, chain.position.lastGrowAt, chain.minGrowIntervalSeconds)
  {
    TheOldestAgeStandsForBoth(chain);
    Refinement.LoanToValuesAgree(chain.adjustedDebtValueScaled, chain.depositedValueScaled);
  }

  /** And whenever the gates are open, a position whose levels are in order is decided to grow. */
  lemma GrowingIsComplete(chain: Snapshot)
    requires chain.position.strategy.growBelowLtvBps < chain.position.strategy.protectLtvBps
    requires GrowGates(chain)
    ensures Decided(chain) == Do(Grow)
  {
    TheOldestAgeStandsForBoth(chain);
    Refinement.LoanToValuesAgree(chain.adjustedDebtValueScaled, chain.depositedValueScaled);
  }

  /**
   * A decision to protect passes every gate of the protect instruction exactly when the program can compute them; past
   * the liquidation threshold it does not look at the interval.
   */
  lemma ProtectingIsSound(chain: Snapshot)
    requires Decided(chain) == Do(Protect)
    ensures var past := WatchThePosition(chain).loanToValueBps >= chain.liquidationThresholdBps;
      ProtectGates(chain) <==>
      Computable(chain, if past then 0 else chain.position.lastProtectAt, chain.minProtectIntervalSeconds)
  {
    TheOldestAgeStandsForBoth(chain);
    Refinement.LoanToValuesAgree(chain.adjustedDebtValueScaled, chain.depositedValueScaled);
  }

  /**
   * And whenever the gates of a protect are open it is decided exactly when there is something to sell and the
   * interval is over: past the liquidation threshold the program waives the interval, and the keeper does not.
   */
  lemma ProtectingIsComplete(chain: Snapshot)
    requires ProtectGates(chain)
    ensures Decided(chain) == Do(Protect) <==>
      && chain.destinationBalance > 0
      && (|| chain.position.lastProtectAt == 0
          || chain.now >= chain.position.lastProtectAt + chain.minProtectIntervalSeconds)
  {
    TheOldestAgeStandsForBoth(chain);
    Refinement.LoanToValuesAgree(chain.adjustedDebtValueScaled, chain.depositedValueScaled);
  }

  /** A decision to leave passes every gate of the leave instruction. */
  lemma LeavingIsSound(chain: Snapshot)
    requires Decided(chain) == Do(Leave)
    ensures LeaveGates(chain)
  {
    TheOldestAgeStandsForBoth(chain);
    Refinement.ReasonsToLeaveAgree(chain.signals.(programIsRetiring := chain.sunset), chain.now);
  }

  /**
   * Leaving is not complete. A position the program would let leave is decided to leave exactly when it is open,
   * under its guard level, and growing does not come first: not at the grow level, or neither paused nor enabled.
   */
  lemma LeavingIsHiddenByGrowing(chain: Snapshot)
    requires LeaveGates(chain)
    ensures var watched := WatchThePosition(chain);
      Decided(chain) == Do(Leave) <==>
      && chain.position.state == Open
      && watched.loanToValueBps < watched.protectLtvBps
      && !(watched.loanToValueBps <= watched.growBelowLtvBps && (chain.growPaused || watched.growEnabled))
  {
    TheOldestAgeStandsForBoth(chain);
    Refinement.ReasonsToLeaveAgree(chain.signals.(programIsRetiring := chain.sunset), chain.now);
  }

  /**
   * At a retiring program, on fresh prices: twenty percent borrowed, with growing switched off and paused, in a given
   * state.
   */
  function AtTwentyPercent(state: PositionState): Snapshot {
    Snapshot(
      Position(1, Strategy(4_000, 5_000, 3_000, false, false), state, 0, 0, 0, 0, 0, 0, 0, 0), 2_000, 10_000, 5,
      Guard.DeleverageSignals(false, false, 0, false, false, 0, 0, 0), Scope.ScopePrice(1, 0, 7),
      Scope.ScopePrice(1, 0, 7),
      7, 1, 6_500, 0, 0, 0, true, true)
  }

  /**
   * Three leaves the program would allow and the keeper waits on: behind a paused grow, before the first swap, and
   * part way out.
   */
  lemma SomeLeavesAreHidden()
    ensures LeaveGates(AtTwentyPercent(Open)) && Decided(AtTwentyPercent(Open)) == Wait(GrowingIsPaused)
    ensures LeaveGates(AtTwentyPercent(AwaitingSwap)) && Decided(AtTwentyPercent(AwaitingSwap)) == Wait(NotOpen)
    ensures LeaveGates(AtTwentyPercent(Closing)) && Decided(AtTwentyPercent(Closing)) == Wait(NotOpen)
  {
  }
}
