// The keeper's decisions against the instructions themselves: what is decided is never refused at a gate.
module Anticipation {
  import opened Outcomes
  import opened Positions
  import opened Runtime
  import opened Invariants
  import opened Market
  import opened Instructions
  import opened Gates
  import Decide
  import Growing
  import Guard
  import Scope

  /** What one reading of the refreshed chain holds, for a caller who is not the owner. */
  function SnapshotOf(l: Layout, env: Environment, p: Position, o: Obligation,
                      destinationBalance: u64): Decide.Snapshot {
    Decide.Snapshot(
      p, o.adjustedDebtValueScaled, o.depositedValueScaled, destinationBalance, env.signals,
      env.usdcPrice, env.destinationPrice, env.market.slot, env.now,
      env.liquidationThresholdBps, env.config.minProtectIntervalSeconds,
      env.config.minGrowIntervalSeconds, env.config.maxPriceAgeSlots, env.config.growPaused, env.config.sunset)
  }

  // ----- growing

  predicate RefusedAtAGrowGate(error: AccrueError) {
    || error.WrongPositionState? || error.GrowsArePaused? || error.GrowNotEnabled? || error.GrowLevelExceeded?
    || error.IntervalHasNotElapsed? || error.OraclePriceIsStale?
  }

  /** The gates the keeper answers to are the instruction's own. */
  lemma TheGrowGatesAreTheInstructions(l: Layout, env: Environment, p: Position, refreshed: Accounts,
                                       destinationBalance: u64)
    requires ReadLoan(refreshed, l.obligation).Ok? && env.caller != p.owner
    ensures Decide.GrowGates(SnapshotOf(l, env, p, ReadLoan(refreshed, l.obligation).value, destinationBalance))
       <==> p.state == Open && !env.config.growPaused && p.strategy.growEnabled && GrowGates(l, env, p, refreshed).Ok?
  {
  }

  /** The errors of the gates in front of a trade, and of the target check after one. */
  predicate RefusedAtAGate(error: AccrueError) {
    || RefusedAtAGrowGate(error) || RefusedAtALeaveGate(error) || RefusedAtAProtectGate(error)
    || error.LoanToValueAboveTarget?
  }

  lemma ASwapIsNotRefusedAtAGate(l: Layout, env: Environment, swap: JupiterSwap, accounts: Accounts)
    ensures var r := Swapped(l, env, swap, accounts); r.Err? ==> !RefusedAtAGate(r.error)
  {
  }

  lemma TheReadingsAreNotGates(l: Layout, accounts: Accounts)
    ensures var held := AssertAllStillHeld(l, accounts); held.Err? ==> !RefusedAtAGate(held.error)
    ensures var read := ReadPositionLedger(l, accounts); read.Err? ==> !RefusedAtAGate(read.error)
  {
  }

  lemma TheBoundsAreNotGates(l: Layout, before: PositionLedger, after: PositionLedger, movement: CollateralMovement,
                             swap: SwapCheck)
    ensures var moved := AssertMovement(before, after, movement); moved.Err? ==> !RefusedAtAGate(moved.error)
    ensures var swapped := AssertSwap(l, before, after, swap); swapped.Err? ==> !RefusedAtAGate(swapped.error)
  {
  }

  lemma TheChecksAreNotGates(l: Layout, before: PositionLedger, movement: CollateralMovement, swap: SwapCheck,
                             accounts: Accounts)
    ensures var r := AssertInvariantsHold(l, before, movement, swap, accounts); r.Err? ==> !RefusedAtAGate(r.error)
  {
    TheReadingsAreNotGates(l, accounts);
    var after := ReadPositionLedger(l, accounts);
    if after.Ok? {
      TheBoundsAreNotGates(l, before, after.value, movement, swap);
    }
  }

  lemma TheTradeIsNotRefusedAtAGate(l: Layout, env: Environment, before: PositionLedger, plan: GrowPlan)
    ensures var r := BorrowAndBuy(l, env, before, plan); r.Err? ==> !RefusedAtAGate(r.error)
  {
    var borrowed := Borrow(env.market, l, plan.refreshed, plan.borrowing);
    if borrowed.Ok? {
      var swap := GrowSwap(l, before, borrowed.value, plan.minimumOut);
      if swap.Ok? {
        ASwapIsNotRefusedAtAGate(l, env, swap.value, borrowed.value);
      }
    }
  }

  lemma TheSizingIsNotAGate(env: Environment, p: Position, o: Obligation, ownerMinimum: u64)
    ensures var r := GrowAmounts(env, p, o, ownerMinimum); r.Err? ==> !RefusedAtAGrowGate(r.error)
  {
  }

  /** A grow decided on one reading of the chain, by a stranger to the position, is never refused at a gate. */
  lemma ADecidedGrowPassesEveryGate(l: Layout, env: Environment, ownerMinimum: u64, accounts: Accounts,
                                    destinationBalance: u64)
    requires ReadRecord(l, accounts).Ok? && Refresh(env.market, l, accounts).Ok?
      && env.caller != ReadRecord(l, accounts).value.owner
    requires var chain := SnapshotOf(l, env, ReadRecord(l, accounts).value,
        Refreshed(env.market, ReadLoan(accounts, l.obligation).value), destinationBalance);
      && Decide.Decided(chain) == Decide.Do(Decide.Grow)
      && Decide.Computable(chain, chain.position.lastGrowAt, chain.minGrowIntervalSeconds)
    ensures var r := Grow(l, env, ownerMinimum, accounts); r.Err? ==> !RefusedAtAGrowGate(r.error)
  {
    var p, refreshed := ReadRecord(l, accounts).value, Refresh(env.market, l, accounts).value;
    var o := Refreshed(env.market, ReadLoan(accounts, l.obligation).value);
    Decide.GrowingIsSound(SnapshotOf(l, env, p, o, destinationBalance));
    TheGrowGatesAreTheInstructions(l, env, p, refreshed, destinationBalance);
    TheSizingIsNotAGate(env, p, o, ownerMinimum);
    AnOpenGrowIsNotRefused(l, env, ownerMinimum, accounts, p, refreshed);
  }

  /**
   * A grow on a record and a loan that can be read is refused at its first closed gate, with that gate's error, and
   * with no gate's error when all of them are open.
   */
  lemma AGrowIsRefusedAtItsFirstClosedGate(l: Layout, env: Environment, ownerMinimum: u64, accounts: Accounts)
    requires ReadRecord(l, accounts).Ok? && Refresh(env.market, l, accounts).Ok?
    ensures var why := WhyAGrowIsRefused(env, ReadRecord(l, accounts).value,
                                         Refreshed(env.market, ReadLoan(accounts, l.obligation).value));
      var r := Grow(l, env, ownerMinimum, accounts);
      && (why.Some? ==> r == Err(why.value))
      && (why.None? && r.Err? ==> !RefusedAtAGrowGate(r.error))
  {
    var p, refreshed := ReadRecord(l, accounts).value, Refresh(env.market, l, accounts).value;
    var o := Refreshed(env.market, ReadLoan(accounts, l.obligation).value);
    if p.state == Open && !env.config.growPaused && p.strategy.growEnabled && env.config.destinationIsEnabled {
      TheGrowGatesAgree(l, env, p, refreshed);
      if GrowIsOpen(env, p, o) {
        TheSizingIsNotAGate(env, p, o, ownerMinimum);
        AnOpenGrowIsNotRefused(l, env, ownerMinimum, accounts, p, refreshed);
      } else {
        AShutGrowIsRefused(l, env, ownerMinimum, accounts, p, refreshed);
      }
    }
  }

  lemma AShutGrowIsRefused(l: Layout, env: Environment, ownerMinimum: u64, accounts: Accounts, p: Position,
                           refreshed: Accounts)
    requires ReadRecord(l, accounts) == Ok(p) && Refresh(env.market, l, accounts) == Ok(refreshed)
    requires p.state == Open && !env.config.growPaused && p.strategy.growEnabled && env.config.destinationIsEnabled
    requires GrowGates(l, env, p, refreshed).Err?
    ensures Grow(l, env, ownerMinimum, accounts) == Err(GrowGates(l, env, p, refreshed).error)
  {
    assert PlanGrow(l, env, p, ownerMinimum, accounts) == Err(GrowGates(l, env, p, refreshed).error);
  }

  lemma ThePlanIsNotRefusedAtAGate(l: Layout, env: Environment, p: Position, ownerMinimum: u64, accounts: Accounts,
                                   refreshed: Accounts)
    requires Refresh(env.market, l, accounts) == Ok(refreshed) && GrowGates(l, env, p, refreshed).Ok?
    requires var sized := GrowAmounts(env, p, ReadLoan(refreshed, l.obligation).value, ownerMinimum);
      sized.Err? ==> !RefusedAtAGrowGate(sized.error)
    ensures var r := PlanGrow(l, env, p, ownerMinimum, accounts); r.Err? ==> !RefusedAtAGrowGate(r.error)
  {
  }

  lemma TheGrowChecksAreNotGates(l: Layout, p: Position, before: PositionLedger, settled: Accounts)
    ensures var r := GrowChecks(l, p, before, settled); r.Err? ==> !RefusedAtAGrowGate(r.error)
  {
    TheChecksAreNotGates(l, before, MustNotMove, BoundsCheckedAroundTheCall, settled);
  }

  lemma AnOpenGrowIsNotRefused(l: Layout, env: Environment, ownerMinimum: u64, accounts: Accounts, p: Position,
                               refreshed: Accounts)
    requires ReadRecord(l, accounts) == Ok(p) && Refresh(env.market, l, accounts) == Ok(refreshed)
    requires p.state == Open && !env.config.growPaused && p.strategy.growEnabled && GrowGates(l, env, p, refreshed).Ok?
    requires var sized := GrowAmounts(env, p, ReadLoan(refreshed, l.obligation).value, ownerMinimum);
      sized.Err? ==> !RefusedAtAGrowGate(sized.error)
    ensures var r := Grow(l, env, ownerMinimum, accounts); r.Err? ==> !RefusedAtAGrowGate(r.error)
  {
    ThePlanIsNotRefusedAtAGate(l, env, p, ownerMinimum, accounts, refreshed);
    var plan := PlanGrow(l, env, p, ownerMinimum, accounts);
    if plan.Ok? {
      APlannedGrowIsNotRefused(l, env, ownerMinimum, accounts, p, plan.value);
    }
  }

  lemma APlannedGrowIsNotRefused(l: Layout, env: Environment, ownerMinimum: u64, accounts: Accounts, p: Position,
                                 plan: GrowPlan)
    requires ReadRecord(l, accounts) == Ok(p) && PlanGrow(l, env, p, ownerMinimum, accounts) == Ok(plan)
    requires p.state == Open && !env.config.growPaused && p.strategy.growEnabled
    ensures var r := Grow(l, env, ownerMinimum, accounts); r.Err? ==> !RefusedAtAGrowGate(r.error)
  {
    TheReadingsAreNotGates(l, plan.refreshed);
    var before := ReadPositionLedger(l, plan.refreshed);
    if before.Ok? {
      TheTradeIsNotRefusedAtAGate(l, env, before.value, plan);
      var steps := BorrowAndBuy(l, env, before.value, plan);
      if steps.Ok? {
        TheGrowChecksAreNotGates(l, p, before.value, steps.value.settled);
      }
    }
  }

  // ----- the target check

  lemma ThePlanIsNotTheTargetCheck(l: Layout, env: Environment, p: Position, ownerMinimum: u64, accounts: Accounts)
    ensures var r := PlanGrow(l, env, p, ownerMinimum, accounts); r.Err? ==> !r.error.LoanToValueAboveTarget?
  {
  }

  lemma UnderTheTargetTheChecksAreOthers(l: Layout, p: Position, before: PositionLedger, settled: Accounts)
    requires LoanToValue(l, settled).Ok? && LoanToValue(l, settled).value <= p.strategy.targetLtvBps
    ensures var r := GrowChecks(l, p, before, settled); r.Err? ==> !r.error.LoanToValueAboveTarget?
  {
    TheChecksAreNotGates(l, before, MustNotMove, BoundsCheckedAroundTheCall, settled);
  }

  /** What a market that charges nothing for the planned borrow counts it as, whatever is planned. */
  ghost predicate WeighsThePlanAtMostRoundedUp(l: Layout, env: Environment, p: Position, ownerMinimum: u64,
                                               accounts: Accounts) {
    var plan := PlanGrow(l, env, p, ownerMinimum, accounts);
    plan.Ok? && ReadLoan(accounts, l.obligation).Ok? ==>
      Growing.WeighsTheBorrowAtMostRoundedUp(env, Refreshed(env.market, ReadLoan(accounts, l.obligation).value),
                                             plan.value.borrowing)
  }

  /** A grow is never turned back for ending above its target: its own sizing sees to that, whatever the router does. */
  lemma AGrowNeverEndsAboveTheTarget(l: Layout, env: Environment, ownerMinimum: u64, accounts: Accounts)
    requires l.Distinct()
    requires ReadRecord(l, accounts).Ok? ==>
      WeighsThePlanAtMostRoundedUp(l, env, ReadRecord(l, accounts).value, ownerMinimum, accounts)
    ensures var r := Grow(l, env, ownerMinimum, accounts); r.Err? ==> !r.error.LoanToValueAboveTarget?
  {
    if ReadRecord(l, accounts).Ok? {
      var p := ReadRecord(l, accounts).value;
      ThePlanIsNotTheTargetCheck(l, env, p, ownerMinimum, accounts);
      var plan := PlanGrow(l, env, p, ownerMinimum, accounts);
      if plan.Ok? {
        APlannedGrowIsNotAboveTheTarget(l, env, p, ownerMinimum, accounts, plan.value);
      }
    }
  }

  lemma APlannedGrowIsNotAboveTheTarget(l: Layout, env: Environment, p: Position, ownerMinimum: u64, accounts: Accounts,
                                        plan: GrowPlan)
    requires l.Distinct() && ReadRecord(l, accounts) == Ok(p) && PlanGrow(l, env, p, ownerMinimum, accounts) == Ok(plan)
    requires WeighsThePlanAtMostRoundedUp(l, env, p, ownerMinimum, accounts)
    ensures var r := Grow(l, env, ownerMinimum, accounts); r.Err? ==> !r.error.LoanToValueAboveTarget?
  {
    var before := ReadPositionLedger(l, plan.refreshed);
    if before.Ok? {
      TheTradeIsNotRefusedAtAGate(l, env, before.value, plan);
      var steps := BorrowAndBuy(l, env, before.value, plan);
      if steps.Ok? {
        Growing.ThePlanOfAGrow(l, env, ownerMinimum, accounts, p, plan);
        Growing.TheSizingPassesTheTargetCheck(l, env, p, ownerMinimum, accounts, plan, steps.value);
        UnderTheTargetTheChecksAreOthers(l, p, before.value, steps.value.settled);
      }
      TheReadingsAreNotGates(l, plan.refreshed);
    }
  }

  // ----- protecting

  predicate RefusedAtAProtectGate(error: AccrueError) {
    || error.WrongPositionState? || error.GuardLevelNotReached? || error.IntervalHasNotElapsed?
    || error.OraclePriceIsStale?
  }

  lemma TheArithmeticIsNotAGate(sale: Guard.ProtectSale)
    ensures var amounts := Guard.GuardAmounts(sale.adjustedDebtValueScaled, sale.depositedValueScaled,
                                              sale.targetLtvBps, sale.keeperBountyBps, sale.borrowFactorPct);
      amounts.Err? ==> !RefusedAtAProtectGate(amounts.error)
    ensures var selling := Guard.DestinationToSell(sale); selling.Err? ==> !RefusedAtAProtectGate(selling.error)
  {
  }

  lemma TheSizeOfAProtectIsNotAGate(env: Environment, p: Position, o: Obligation, destinationHeld: u64,
                                    ownerMinimum: u64)
    ensures var r := PlanProtect(env, p, o, destinationHeld, ownerMinimum);
      r.Err? ==> !RefusedAtAProtectGate(r.error)
  {
    var usdcPrice := Scope.UsdPerWholeTokenScaled(env.usdcPrice);
    var destinationPrice := Scope.UsdPerWholeTokenScaled(env.destinationPrice);
    if usdcPrice.Ok? && destinationPrice.Ok? {
      TheArithmeticIsNotAGate(SaleOf(env, p, o, destinationHeld, usdcPrice.value, destinationPrice.value));
    }
  }

  lemma TheRewardIsNotRefusedAtAGate(l: Layout, env: Environment, plan: ProtectPlan, raised: u64, sold: Accounts)
    ensures var r := RepayAndReward(l, env, plan, raised, sold); r.Err? ==> !RefusedAtAProtectGate(r.error)
  {
  }

  lemma TheSaleForTheLoanIsNotRefusedAtAGate(l: Layout, env: Environment, before: PositionLedger, plan: ProtectPlan,
                                             refreshed: Accounts)
    ensures var r := SellAndRepay(l, env, before, plan, refreshed); r.Err? ==> !RefusedAtAProtectGate(r.error)
  {
    ASwapIsNotRefusedAtAGate(l, env, JupiterSwap(l.destinationAccount, l.usdcAccount, plan.selling, plan.minimumOut),
                             refreshed);
    var sale := SellFor(l, env, before.usdcBalance, plan.selling, plan.minimumOut, refreshed);
    if sale.Ok? {
      TheRewardIsNotRefusedAtAGate(l, env, plan, sale.value.1, sale.value.0);
    }
  }

  lemma TheProtectChecksAreNotGates(l: Layout, p: Position, before: PositionLedger, settled: Accounts)
    ensures var r := ProtectChecks(l, p, before, settled); r.Err? ==> !RefusedAtAProtectGate(r.error)
  {
    TheChecksAreNotGates(l, before, MustNotMove, BoundsCheckedAroundTheCall, settled);
  }

  lemma ASoldProtectIsNotRefused(l: Layout, env: Environment, ownerMinimum: u64, accounts: Accounts, p: Position,
                                 refreshed: Accounts, plan: ProtectPlan, before: PositionLedger, steps: ProtectSteps)
    requires ReadRecord(l, accounts) == Ok(p) && p.state == Open && Refresh(env.market, l, accounts) == Ok(refreshed)
    requires PrepareProtect(l, env, p, ownerMinimum, refreshed) == Ok(plan)
      && ReadPositionLedger(l, refreshed) == Ok(before)
    requires SellAndRepay(l, env, before, plan, refreshed) == Ok(steps)
    requires var checked := ProtectChecks(l, p, before, steps.settled);
      checked.Err? ==> !RefusedAtAProtectGate(checked.error)
    ensures var r := Protect(l, env, ownerMinimum, accounts); r.Err? ==> !RefusedAtAProtectGate(r.error)
  {
  }

  lemma APreparedProtectIsNotRefused(l: Layout, env: Environment, ownerMinimum: u64, accounts: Accounts, p: Position,
                                     refreshed: Accounts, plan: ProtectPlan)
    requires ReadRecord(l, accounts) == Ok(p) && p.state == Open && Refresh(env.market, l, accounts) == Ok(refreshed)
    requires PrepareProtect(l, env, p, ownerMinimum, refreshed) == Ok(plan)
    ensures var r := Protect(l, env, ownerMinimum, accounts); r.Err? ==> !RefusedAtAProtectGate(r.error)
  {
    TheReadingsAreNotGates(l, refreshed);
    var before := ReadPositionLedger(l, refreshed);
    if before.Ok? {
      var steps := SellAndRepay(l, env, before.value, plan, refreshed);
      if steps.Ok? {
        TheProtectChecksAreNotGates(l, p, before.value, steps.value.settled);
        ASoldProtectIsNotRefused(l, env, ownerMinimum, accounts, p, refreshed, plan, before.value, steps.value);
      } else {
        TheSaleForTheLoanIsNotRefusedAtAGate(l, env, before.value, plan, refreshed);
      }
    }
  }

  lemma AnOpenProtectIsNotRefused(l: Layout, env: Environment, ownerMinimum: u64, accounts: Accounts, p: Position,
                                  refreshed: Accounts)
    requires ReadRecord(l, accounts) == Ok(p) && p.state == Open && Refresh(env.market, l, accounts) == Ok(refreshed)
    requires ProtectGates(l, env, p, refreshed).Ok?
    ensures var r := Protect(l, env, ownerMinimum, accounts); r.Err? ==> !RefusedAtAProtectGate(r.error)
  {
    ThePreparationIsNotAGate(l, env, p, ownerMinimum, refreshed);
    var plan := PrepareProtect(l, env, p, ownerMinimum, refreshed);
    if plan.Ok? {
      APreparedProtectIsNotRefused(l, env, ownerMinimum, accounts, p, refreshed, plan.value);
    }
  }

  lemma ThePreparationIsNotAGate(l: Layout, env: Environment, p: Position, ownerMinimum: u64, refreshed: Accounts)
    requires ProtectGates(l, env, p, refreshed).Ok?
    ensures var r := PrepareProtect(l, env, p, ownerMinimum, refreshed); r.Err? ==> !RefusedAtAProtectGate(r.error)
  {
    var o, held := ReadLoan(refreshed, l.obligation), TokenAccountAmount(refreshed, l.destinationAccount);
    if o.Ok? && held.Ok? {
      TheSizeOfAProtectIsNotAGate(env, p, o.value, held.value, ownerMinimum);
    }
  }

  lemma AShutProtectIsRefused(l: Layout, env: Environment, ownerMinimum: u64, accounts: Accounts, p: Position,
                              refreshed: Accounts)
    requires ReadRecord(l, accounts) == Ok(p) && Refresh(env.market, l, accounts) == Ok(refreshed)
    requires p.state == Open && env.config.destinationIsListed && ProtectGates(l, env, p, refreshed).Err?
    ensures Protect(l, env, ownerMinimum, accounts) == Err(ProtectGates(l, env, p, refreshed).error)
  {
    assert PrepareProtect(l, env, p, ownerMinimum, refreshed) == Err(ProtectGates(l, env, p, refreshed).error);
  }

  /** The same for a protect. */
  lemma AProtectIsRefusedAtItsFirstClosedGate(l: Layout, env: Environment, ownerMinimum: u64, accounts: Accounts)
    requires ReadRecord(l, accounts).Ok? && Refresh(env.market, l, accounts).Ok?
    ensures var why := WhyAProtectIsRefused(env, ReadRecord(l, accounts).value,
                                            Refreshed(env.market, ReadLoan(accounts, l.obligation).value));
      var r := Protect(l, env, ownerMinimum, accounts);
      && (why.Some? ==> r == Err(why.value))
      && (why.None? && r.Err? ==> !RefusedAtAProtectGate(r.error))
  {
    var p, refreshed := ReadRecord(l, accounts).value, Refresh(env.market, l, accounts).value;
    if p.state == Open && env.config.destinationIsListed {
      TheProtectGatesAgree(l, env, p, refreshed);
      if ProtectGates(l, env, p, refreshed).Ok? {
        AnOpenProtectIsNotRefused(l, env, ownerMinimum, accounts, p, refreshed);
      } else {
        AShutProtectIsRefused(l, env, ownerMinimum, accounts, p, refreshed);
      }
    }
  }

  /** A protect decided on one reading of the chain, by a stranger to the position, is never refused at a gate. */
  lemma ADecidedProtectPassesEveryGate(l: Layout, env: Environment, ownerMinimum: u64, accounts: Accounts,
                                       destinationBalance: u64)
    requires ReadRecord(l, accounts).Ok? && Refresh(env.market, l, accounts).Ok?
      && env.caller != ReadRecord(l, accounts).value.owner
    requires var chain := SnapshotOf(l, env, ReadRecord(l, accounts).value,
        Refreshed(env.market, ReadLoan(accounts, l.obligation).value), destinationBalance);
      && Decide.Decided(chain) == Decide.Do(Decide.Protect)
      && Decide.Computable(chain, chain.position.lastProtectAt, chain.minProtectIntervalSeconds)
    ensures var r := Protect(l, env, ownerMinimum, accounts); r.Err? ==> !RefusedAtAProtectGate(r.error)
  {
    var p, refreshed := ReadRecord(l, accounts).value, Refresh(env.market, l, accounts).value;
    Decide.ProtectingIsSound(SnapshotOf(l, env, p, ReadLoan(refreshed, l.obligation).value, destinationBalance));
    AnOpenProtectIsNotRefused(l, env, ownerMinimum, accounts, p, refreshed);
  }

  // ----- leaving

  predicate RefusedAtALeaveGate(error: AccrueError) {
    || error.WrongPositionState? || error.ExitOnFlagNotEnabled? || error.NoReasonToLeave? || error.OraclePriceIsStale?
  }

  /** The gates the keeper answers to are the instruction's own; freshness is asked only of a leave that sells. */
  lemma TheLeaveGatesAreTheInstructions(l: Layout, env: Environment, p: Position, o: Obligation,
                                        destinationBalance: u64)
    requires env.caller != p.owner && env.config.destinationIsListed
    ensures Decide.LeaveGates(SnapshotOf(l, env, p, o, destinationBalance))
       <==> LeaveGates(env, p).Ok? && (destinationBalance > 0 ==> RequireFreshUnlessOwner(env, p).Ok?)
  {
  }

  lemma TheSaleIsNotRefusedAtAGate(l: Layout, env: Environment, p: Position, accounts: Accounts)
    requires Amount(accounts, l.destinationAccount) > 0 ==> RequireFreshUnlessOwner(env, p).Ok?
    ensures var r := LeaveSale(l, env, p, accounts); r.Err? ==> !RefusedAtALeaveGate(r.error)
  {
    var held := TokenAccountAmount(accounts, l.destinationAccount);
    if held.Ok? && held.value > 0 {
      var swap := LeaveSwap(l, env, p, held.value);
      if swap.Ok? {
        ASwapIsNotRefusedAtAGate(l, env, swap.value, accounts);
      }
    }
  }

  lemma TheSettlementIsNotRefusedAtAGate(l: Layout, env: Environment, p: Position, usdcBefore: u64, accounts: Accounts)
    requires Amount(accounts, l.destinationAccount) > 0 ==> RequireFreshUnlessOwner(env, p).Ok?
    ensures var r := Settle(l, env, p, usdcBefore, accounts); r.Err? ==> !RefusedAtALeaveGate(r.error)
  {
    TheSaleIsNotRefusedAtAGate(l, env, p, accounts);
    var sale := SellAll(l, env, p, usdcBefore, accounts);
    if sale.Ok? {
      TheRepaymentIsNotRefusedAtAGate(l, env, sale.value.1, sale.value.0);
    }
  }

  lemma TheRepaymentIsNotRefusedAtAGate(l: Layout, env: Environment, usdcHeld: u64, sold: Accounts)
    ensures var r := RepayFrom(l, env, usdcHeld, sold); r.Err? ==> !RefusedAtALeaveGate(r.error)
  {
  }

  lemma APartWayEndingIsNotRefusedAtAGate(l: Layout, p: Position, before: PositionLedger, s: Settlement)
    ensures var r := LeavePartWay(l, p, before, s.raised, s.repaying, s.stillOwed, s.settled);
      r.Err? ==> !RefusedAtALeaveGate(r.error)
  {
    TheChecksAreNotGates(l, before, MustNotMove, BoundsCheckedAroundTheCall, s.settled);
  }

  lemma AWholeEndingIsNotRefusedAtAGate(l: Layout, env: Environment, p: Position, before: PositionLedger, s: Settlement)
    ensures var r := LeaveWhole(l, env, p, before, s.raised, s.repaying, s.settled);
      r.Err? ==> !RefusedAtALeaveGate(r.error)
  {
    var collateral := ObligationDepositedAmount(s.settled, l.obligation);
    if collateral.Ok? {
      var withdrawn := WithdrawIfAny(env.market, l, s.settled, collateral.value);
      if withdrawn.Ok? {
        var sent := SendEverythingToTheOwner(l, withdrawn.value);
        if sent.Ok? {
          TheChecksAreNotGates(l, before, ExactlyOut(collateral.value), BoundsCheckedAroundTheCall, sent.value);
        }
      }
    }
  }

  /** A leave decided on one reading of the chain, by a stranger to the position, is never refused at a gate. */
  lemma ADecidedLeavePassesEveryGate(l: Layout, env: Environment, accounts: Accounts, o: Obligation,
                                     destinationBalance: u64)
    requires ReadRecord(l, accounts).Ok? && env.caller != ReadRecord(l, accounts).value.owner
    requires destinationBalance == Amount(accounts, l.destinationAccount)
    requires Decide.Decided(SnapshotOf(l, env, ReadRecord(l, accounts).value, o, destinationBalance))
        == Decide.Do(Decide.Leave)
    ensures var r := Leave(l, env, accounts); r.Err? ==> !RefusedAtALeaveGate(r.error)
  {
    var p := ReadRecord(l, accounts).value;
    Decide.LeavingIsSound(SnapshotOf(l, env, p, o, destinationBalance));
    if env.config.destinationIsListed {
      TheLeaveGatesAreTheInstructions(l, env, p, o, destinationBalance);
      AnOpenLeaveIsNotRefused(l, env, accounts, p);
    }
  }

  lemma AnOpenLeaveIsNotRefused(l: Layout, env: Environment, accounts: Accounts, p: Position)
    requires ReadRecord(l, accounts) == Ok(p) && LeaveGates(env, p).Ok?
    requires Amount(accounts, l.destinationAccount) > 0 ==> RequireFreshUnlessOwner(env, p).Ok?
    ensures var r := Leave(l, env, accounts); r.Err? ==> !RefusedAtALeaveGate(r.error)
  {
    var before := ReadPositionLedger(l, accounts);
    if before.Ok? {
      TheSettlementIsNotRefusedAtAGate(l, env, p, before.value.usdcBalance, accounts);
      var s := Settle(l, env, p, before.value.usdcBalance, accounts);
      if s.Ok? {
        APartWayEndingIsNotRefusedAtAGate(l, p, before.value, s.value);
        AWholeEndingIsNotRefusedAtAGate(l, env, p, before.value, s.value);
      }
    }
  }

  /** And the same for a leave, where freshness counts only once the balances could be read. */
  lemma ALeaveIsRefusedAtItsFirstClosedGate(l: Layout, env: Environment, accounts: Accounts)
    requires ReadRecord(l, accounts).Ok? && l.owner == ReadRecord(l, accounts).value.owner
    requires ReadPositionLedger(l, accounts).Ok?
    ensures var why := WhyALeaveIsRefused(env, ReadRecord(l, accounts).value, Amount(accounts, l.destinationAccount));
      var r := Leave(l, env, accounts);
      && (why.Some? ==> r == Err(why.value))
      && (why.None? && r.Err? ==> !RefusedAtALeaveGate(r.error))
  {
    var p, held := ReadRecord(l, accounts).value, Amount(accounts, l.destinationAccount);
    if env.caller == p.owner || held == 0 || BothPricesAreYoung(env) {
      TheLeaveGatesAgree(env, p, held);
      FreshMeansYoung(env, p);
      if LeaveGates(env, p).Ok? {
        AnOpenLeaveIsNotRefused(l, env, accounts, p);
      }
    } else {
      TheLeaveGatesAgree(env, p, 0);
      FreshMeansYoung(env, p);
      if LeaveGates(env, p).Ok? {
        AStaleSaleIsRefused(l, env, accounts, p);
      }
    }
  }

  lemma AStaleSaleIsRefused(l: Layout, env: Environment, accounts: Accounts, p: Position)
    requires ReadRecord(l, accounts) == Ok(p) && l.owner == p.owner && ReadPositionLedger(l, accounts).Ok?
    requires LeaveGates(env, p).Ok? && Amount(accounts, l.destinationAccount) > 0
    requires RequireFreshUnlessOwner(env, p) == Err(OraclePriceIsStale)
    ensures Leave(l, env, accounts) == Err(OraclePriceIsStale)
  {
    assert LeaveSale(l, env, p, accounts) == Err(OraclePriceIsStale);
    assert Settle(l, env, p, Amount(accounts, l.usdcAccount), accounts) == Err(OraclePriceIsStale);
  }
}
