// What a committed buy and a committed grow come to, for every router and every market.
module Growing {
  import opened Outcomes
  import opened Positions
  import opened Runtime
  import opened Invariants
  import opened Market
  import opened Instructions
  import opened Gates
  import opened Steps
  import Guard
  import GrowSizing
  import Refinement
  import Scope

  // ----- buy_destination

  /** The first purchase: the position opens, no more USDC is spent than it held, and the owner's minimum arrives. */
  ghost predicate BoughtByTheRules(l: Layout, p: Position, before: Accounts, after: Accounts, minimumDestination: u64) {
    && p.state == AwaitingSwap && minimumDestination > 0 && Amount(before, l.usdcAccount) > 0
    && ReadRecord(l, after) == Ok(p.(state := Open))
    && Amount(after, l.destinationAccount) >= Amount(before, l.destinationAccount) + minimumDestination
    && Amount(after, l.usdcAccount) <= Amount(before, l.usdcAccount)
    && At(after, l.obligation) == At(before, l.obligation)
    && KeepsThePosition(l, before, after)
  }

  lemma ACommittedBuy(l: Layout, env: Environment, minimumDestination: u64, before: Accounts)
    requires l.Distinct() && BuyDestination(l, env, minimumDestination, before).Ok?
    ensures var after := BuyDestination(l, env, minimumDestination, before).value;
      var p := ReadRecord(l, before).value;
      && env.caller == p.owner == l.owner && env.config.collateralIsEnabled
      && BoughtByTheRules(l, p, before, after, minimumDestination)
      && (OutOfTheRoutersReach(l, env, before) ==> OwnerLosesNothing(l, before, after))
      && (TheRouterConserves(l, env) ==> Conserves(before, after))
  {
    var p, swap := ReadRecord(l, before).value, BuySwap(l, before, minimumDestination).value;
    var bought := Swapped(l, env, swap, before).value;
    ACommittedSwap(l, env, swap, before, bought);
    PassingTheChecksMeans(l, before, MustNotMove,
        EndsWithAtLeast(swap.source, swap.destination, SwapBounds(swap.amountIn, swap.minimumOut)), bought);
    WritingTheRecord(l, env, p.(state := Open), before, bought);
    if TheRouterConserves(l, env) {
      ASwapConserves(l, env, swap, before, bought);
      ConservesInTurn(before, bought, WriteRecord(l, bought, p.(state := Open)));
    }
  }

  /** Writing the record, on top of anything the position was kept through. */
  lemma WritingTheRecord(l: Layout, env: Environment, p: Position, before: Accounts, accounts: Accounts)
    requires l.Distinct() && At(accounts, l.position).program == ACCRUE_PROGRAM
    requires RuntimeAllows(RouterCall(l, env), before, accounts)
    ensures var after := WriteRecord(l, accounts, p);
      && ReadRecord(l, after) == Ok(p) && UntouchedBut(accounts, after, {l.position}) && Conserves(accounts, after)
      && (KeepsThePosition(l, before, accounts) ==> KeepsThePosition(l, before, after))
      && (OutOfTheRoutersReach(l, env, before) ==> OwnerLosesNothing(l, before, after))
  {
    NoTwoAddressesCollide(l);
    WritingTheRecordConserves(l, accounts, p);
    if OutOfTheRoutersReach(l, env, before) {
      TheRouterTakesNothingFromTheOwner(l, env, before, accounts);
    }
  }

  // ----- grow

  /** The accounts at the end of a grow against those at its start, the record aside. */
  ghost predicate GrewWithinBounds(l: Layout, m: Market, before: Accounts, settled: Accounts, borrowing: u64,
                                   minimumOut: u64) {
    && ReadLoan(before, l.obligation).Ok?
    && var o := Refreshed(m, ReadLoan(before, l.obligation).value);
    // What the swap could not spend of the borrow is still there, and so is every unit held before it.
    && Amount(settled, l.usdcAccount) >= Amount(before, l.usdcAccount)
    && Amount(settled, l.destinationAccount) >= Amount(before, l.destinationAccount) + minimumOut
    // The loan is exactly what the borrow made it: nothing the router did reached it.
    && ReadLoan(settled, l.obligation) == Ok(Refreshed(m, o.(debtScaled := m.debtAfterBorrow(o.debtScaled, borrowing))))
    && KeepsThePosition(l, before, settled)
  }

  /** A borrow takes exactly what it pays out and its fee from the vault, and changes only the debt of the loan. */
  ghost predicate BorrowedFrom(l: Layout, m: Market, before: Accounts, borrowed: Accounts, borrowing: u64) {
    && ReadLoan(before, l.obligation).Ok?
    && var o := Refreshed(m, ReadLoan(before, l.obligation).value);
    && UntouchedBut(before, borrowed, {l.usdcVault, l.usdcAccount, l.obligation, l.feeReceiver})
    && Amount(borrowed, l.usdcAccount) == Amount(before, l.usdcAccount) + m.received(borrowing)
    && Amount(borrowed, l.feeReceiver) == Amount(before, l.feeReceiver) + m.fee(borrowing)
    && Amount(borrowed, l.usdcVault) == Amount(before, l.usdcVault) - m.received(borrowing) - m.fee(borrowing)
    && ReadLoan(borrowed, l.obligation) == Ok(o.(debtScaled := m.debtAfterBorrow(o.debtScaled, borrowing)))
    && At(borrowed, l.usdcAccount).lamports == At(before, l.usdcAccount).lamports
    && Conserves(before, borrowed)
  }

  lemma Borrowing(l: Layout, m: Market, before: Accounts, refreshed: Accounts, borrowed: Accounts, borrowing: u64)
    requires l.Distinct() && Refresh(m, l, before) == Ok(refreshed)
      && Borrow(m, l, refreshed, borrowing) == Ok(borrowed)
    ensures BorrowedFrom(l, m, before, borrowed, borrowing)
  {
    NoTwoAddressesCollide(l);
    RefreshConserves(m, l, before);
    BorrowConserves(m, l, refreshed, borrowing);
    ConservesInTurn(before, refreshed, borrowed);
  }

  /** The borrow, the swap and the refresh of a grow, on the refreshed market. */
  ghost predicate GrowsThrough(l: Layout, env: Environment, p: Position, before: Accounts, plan: GrowPlan,
                               g: GrowSteps) {
    && ReadRecord(l, before) == Ok(p)
    && Refresh(env.market, l, before) == Ok(plan.refreshed)
    && Borrow(env.market, l, plan.refreshed, plan.borrowing) == Ok(g.borrowed)
    && g.swap == JupiterSwap(l.usdcAccount, l.destinationAccount, g.swap.amountIn, plan.minimumOut)
    && g.swap.amountIn == Amount(g.borrowed, l.usdcAccount) - Amount(plan.refreshed, l.usdcAccount)
    && Swapped(l, env, g.swap, g.borrowed) == Ok(g.bought)
    && Refresh(env.market, l, g.bought) == Ok(g.settled)
  }

  lemma AGrowStaysWithinBounds(l: Layout, env: Environment, p: Position, before: Accounts, plan: GrowPlan, g: GrowSteps)
    requires l.Distinct() && GrowsThrough(l, env, p, before, plan, g) && ReadPositionLedger(l, plan.refreshed).Ok?
    requires GrowChecks(l, p, ReadPositionLedger(l, plan.refreshed).value, g.settled).Ok?
    ensures GrewWithinBounds(l, env.market, before, g.settled, plan.borrowing, plan.minimumOut)
    ensures ReadRecord(l, g.settled) == Ok(p)
    ensures OutOfTheRoutersReach(l, env, before) ==> OwnerLosesNothing(l, before, g.settled)
    ensures TheRouterConserves(l, env) ==> Conserves(before, g.settled)
  {
    Refreshing(l, env.market, before, plan.refreshed);
    Borrowing(l, env.market, before, plan.refreshed, g.borrowed, plan.borrowing);
    TheRecordSurvivesABorrow(l, env.market, p, before, g.borrowed, plan.borrowing);
    ACommittedSwap(l, env, g.swap, g.borrowed, g.bought);
    Refreshing(l, env.market, g.bought, g.settled);
    PassingTheChecksMeans(l, plan.refreshed, MustNotMove, BoundsCheckedAroundTheCall, g.settled);
    GrewFrom(l, env, p, before, plan, g);
    if OutOfTheRoutersReach(l, env, before) {
      TheOwnerThroughASwap(l, env, before, g.borrowed, g.bought, g.settled);
    }
    if TheRouterConserves(l, env) {
      ASwapConserves(l, env, g.swap, g.borrowed, g.bought);
      ConservesInTurn(before, g.borrowed, g.bought);
      ConservesInTurn(before, g.bought, g.settled);
    }
  }

  lemma TheRecordSurvivesABorrow(l: Layout, m: Market, p: Position, before: Accounts, borrowed: Accounts,
                                 borrowing: u64)
    requires l.Distinct() && ReadRecord(l, before) == Ok(p) && BorrowedFrom(l, m, before, borrowed, borrowing)
    ensures ReadRecord(l, borrowed) == Ok(p)
  {
    NoTwoAddressesCollide(l);
  }

  /** The bounds of a grow from those of its steps. */
  lemma GrewFrom(l: Layout, env: Environment, p: Position, before: Accounts, plan: GrowPlan, g: GrowSteps)
    requires l.Distinct() && ReadRecord(l, before) == Ok(p)
    requires RefreshedFrom(l, env.market, before, plan.refreshed)
    requires BorrowedFrom(l, env.market, before, g.borrowed, plan.borrowing)
    requires g.swap == JupiterSwap(l.usdcAccount, l.destinationAccount, g.swap.amountIn, plan.minimumOut)
    requires g.swap.amountIn == Amount(g.borrowed, l.usdcAccount) - Amount(plan.refreshed, l.usdcAccount)
    requires SwappedWithinBounds(l, env, g.swap, g.borrowed, g.bought)
    requires RefreshedFrom(l, env.market, g.bought, g.settled)
    requires Custody(l, g.settled) && NoLamportsTaken(l, plan.refreshed, g.settled)
    requires Amount(g.settled, l.collateralAccount) == Amount(plan.refreshed, l.collateralAccount)
    requires CollateralIn(g.settled, l.obligation) == CollateralIn(plan.refreshed, l.obligation)
    ensures GrewWithinBounds(l, env.market, before, g.settled, plan.borrowing, plan.minimumOut)
    ensures ReadRecord(l, g.settled) == Ok(p)
  {
    NoTwoAddressesCollide(l);
  }

  lemma TheOwnerThroughASwap(l: Layout, env: Environment, before: Accounts, paid: Accounts, swapped: Accounts,
                             after: Accounts)
    requires l.Distinct() && OutOfTheRoutersReach(l, env, before) && RuntimeAllows(RouterCall(l, env), paid, swapped)
    requires UntouchedBut(before, paid, {l.usdcVault, l.usdcAccount, l.obligation, l.feeReceiver})
      && UntouchedBut(swapped, after, {l.obligation})
    ensures OwnerLosesNothing(l, before, after)
  {
    NoTwoAddressesCollide(l);
    TheRouterTakesNothingFromTheOwner(l, env, paid, swapped);
  }

  lemma TheRecordAfterAGrow(l: Layout, env: Environment, p: Position, grown: Position, before: Accounts,
                            settled: Accounts, borrowing: u64, minimumOut: u64)
    requires l.Distinct() && ReadRecord(l, settled) == Ok(p)
    requires GrewWithinBounds(l, env.market, before, settled, borrowing, minimumOut)
    ensures var after := WriteRecord(l, settled, grown);
      && ReadRecord(l, after) == Ok(grown) && Conserves(settled, after)
      && GrewWithinBounds(l, env.market, before, after, borrowing, minimumOut)
      && LoanToValue(l, after) == LoanToValue(l, settled)
      && (OwnerLosesNothing(l, before, settled) ==> OwnerLosesNothing(l, before, after))
  {
    NoTwoAddressesCollide(l);
    WritingTheRecordConserves(l, settled, grown);
  }

  // ----- the theorem

  /**
   * What the chain lets a grow do. Every gate was open; the borrow, which the record counts, is sized for the target
   * and within the share of the reserve; it bought at least the owner's minimum or, for anyone else, the oracle's
   * floor for that very borrow; and the loan to value ends at or under the target.
   */
  ghost predicate GrewByTheRules(l: Layout, env: Environment, ownerMinimum: u64, p: Position, before: Accounts,
                                 after: Accounts) {
    && ReadLoan(before, l.obligation).Ok? && ReadRecord(l, after).Ok?
    && var o := Refreshed(env.market, ReadLoan(before, l.obligation).value);
    && var borrowing := ReadRecord(l, after).value.usdcBorrowedTotal - p.usdcBorrowedTotal;
    && GrowIsOpen(env, p, o)
    && borrowing > 0 && BorrowIsSized(env, p, o, borrowing)
    && LeastBought(env, p, ownerMinimum, borrowing).Ok?
    && GrewWithinBounds(l, env.market, before, after, borrowing, LeastBought(env, p, ownerMinimum, borrowing).value)
    && LoanToValue(l, after).Ok? && LoanToValue(l, after).value <= p.strategy.targetLtvBps
    && p.growCount + 1 <= 0xFFFF_FFFF
    && ReadRecord(l, after).value == p.(lastGrowAt := env.now, growCount := p.growCount + 1,
                                        usdcBorrowedTotal := p.usdcBorrowedTotal + borrowing)
  }

  /** The unfolding of `Grow`. */
  lemma TheStepsOfAGrow(l: Layout, env: Environment, ownerMinimum: u64, before: Accounts)
    returns (p: Position, plan: GrowPlan, g: GrowSteps, grown: Position)
    requires Grow(l, env, ownerMinimum, before).Ok?
    ensures ReadRecord(l, before) == Ok(p) && p.state == Open && !env.config.growPaused && p.strategy.growEnabled
      && env.config.destinationIsEnabled
    ensures PlanGrow(l, env, p, ownerMinimum, before) == Ok(plan) && ReadPositionLedger(l, plan.refreshed).Ok?
    ensures BorrowAndBuy(l, env, ReadPositionLedger(l, plan.refreshed).value, plan) == Ok(g)
    ensures GrowChecks(l, p, ReadPositionLedger(l, plan.refreshed).value, g.settled).Ok?
    ensures GrowRecord(env, p, plan.borrowing) == Ok(grown)
      && Grow(l, env, ownerMinimum, before) == Ok(WriteRecord(l, g.settled, grown))
  {
    p := ReadRecord(l, before).value;
    plan := PlanGrow(l, env, p, ownerMinimum, before).value;
    g := BorrowAndBuy(l, env, ReadPositionLedger(l, plan.refreshed).value, plan).value;
    grown := GrowRecord(env, p, plan.borrowing).value;
  }

  lemma ThePlanOfAGrow(l: Layout, env: Environment, ownerMinimum: u64, before: Accounts, p: Position, plan: GrowPlan)
    requires PlanGrow(l, env, p, ownerMinimum, before) == Ok(plan)
    ensures Refresh(env.market, l, before) == Ok(plan.refreshed) && ReadLoan(before, l.obligation).Ok?
    ensures ReadLoan(plan.refreshed, l.obligation) == Ok(Refreshed(env.market, ReadLoan(before, l.obligation).value))
    ensures GrowGates(l, env, p, plan.refreshed).Ok?
    ensures GrowAmounts(env, p, Refreshed(env.market, ReadLoan(before, l.obligation).value), ownerMinimum)
         == Ok((plan.borrowing, plan.minimumOut))
  {
  }

  /** A plan was made behind open gates, at the sizes the rules name. */
  lemma APlanOfAGrowIsSized(l: Layout, env: Environment, ownerMinimum: u64, before: Accounts, p: Position,
                            plan: GrowPlan)
    requires p.state == Open && !env.config.growPaused && p.strategy.growEnabled && env.config.destinationIsEnabled
    requires PlanGrow(l, env, p, ownerMinimum, before) == Ok(plan)
    ensures ReadLoan(before, l.obligation).Ok?
    ensures var o := Refreshed(env.market, ReadLoan(before, l.obligation).value);
      && GrowIsOpen(env, p, o) && BorrowIsSized(env, p, o, plan.borrowing)
      && LeastBought(env, p, ownerMinimum, plan.borrowing) == Ok(plan.minimumOut)
  {
    ThePlanOfAGrow(l, env, ownerMinimum, before, p, plan);
    TheGrowGatesAgree(l, env, p, plan.refreshed);
    AGrowIsSizedExactly(env, p, Refreshed(env.market, ReadLoan(before, l.obligation).value), ownerMinimum,
                        plan.borrowing, plan.minimumOut);
  }

  lemma TheTradeOfAGrow(l: Layout, env: Environment, plan: GrowPlan, g: GrowSteps)
    requires ReadPositionLedger(l, plan.refreshed).Ok?
    requires BorrowAndBuy(l, env, ReadPositionLedger(l, plan.refreshed).value, plan) == Ok(g)
    ensures Borrow(env.market, l, plan.refreshed, plan.borrowing) == Ok(g.borrowed)
    ensures g.swap == JupiterSwap(l.usdcAccount, l.destinationAccount, g.swap.amountIn, plan.minimumOut)
    ensures g.swap.amountIn == Amount(g.borrowed, l.usdcAccount) - Amount(plan.refreshed, l.usdcAccount)
    ensures Swapped(l, env, g.swap, g.borrowed) == Ok(g.bought) && Refresh(env.market, l, g.bought) == Ok(g.settled)
  {
  }

  /** A committed grow, for every router and every market. */
  lemma ACommittedGrow(l: Layout, env: Environment, ownerMinimum: u64, before: Accounts)
    requires l.Distinct() && Grow(l, env, ownerMinimum, before).Ok?
    ensures var after := Grow(l, env, ownerMinimum, before).value;
      && GrewByTheRules(l, env, ownerMinimum, ReadRecord(l, before).value, before, after)
      && (OutOfTheRoutersReach(l, env, before) ==> OwnerLosesNothing(l, before, after))
      && (TheRouterConserves(l, env) ==> Conserves(before, after))
  {
    var p, plan, g, grown := TheStepsOfAGrow(l, env, ownerMinimum, before);
    ThePlanOfAGrow(l, env, ownerMinimum, before, p, plan);
    APlanOfAGrowIsSized(l, env, ownerMinimum, before, p, plan);
    TheTradeOfAGrow(l, env, plan, g);
    AGrowStaysWithinBounds(l, env, p, before, plan, g);
    GrowingByTheRules(l, env, ownerMinimum, before, p, plan, g.settled, grown);
    if TheRouterConserves(l, env) {
      TheRecordAfterAGrow(l, env, p, grown, before, g.settled, plan.borrowing, plan.minimumOut);
      ConservesInTurn(before, g.settled, WriteRecord(l, g.settled, grown));
    }
  }

  lemma GrowingByTheRules(l: Layout, env: Environment, ownerMinimum: u64, before: Accounts, p: Position, plan: GrowPlan,
                          settled: Accounts, grown: Position)
    requires l.Distinct() && ReadRecord(l, settled) == Ok(p)
    requires ReadLoan(before, l.obligation).Ok?
    requires GrowIsOpen(env, p, Refreshed(env.market, ReadLoan(before, l.obligation).value))
    requires BorrowIsSized(env, p, Refreshed(env.market, ReadLoan(before, l.obligation).value), plan.borrowing)
    requires LeastBought(env, p, ownerMinimum, plan.borrowing) == Ok(plan.minimumOut)
    requires GrewWithinBounds(l, env.market, before, settled, plan.borrowing, plan.minimumOut)
    requires GrowRecord(env, p, plan.borrowing) == Ok(grown)
    requires LoanToValue(l, settled).Ok? && LoanToValue(l, settled).value <= p.strategy.targetLtvBps
    ensures GrewByTheRules(l, env, ownerMinimum, p, before, WriteRecord(l, settled, grown))
    ensures OwnerLosesNothing(l, before, settled) ==> OwnerLosesNothing(l, before, WriteRecord(l, settled, grown))
  {
    TheRecordAfterAGrow(l, env, p, grown, before, settled, plan.borrowing, plan.minimumOut);
  }

  // ----- the sizing and the target check

  /**
   * What a market that adds no fee to the debt may count the borrow as: every rounding of its value and its weight up.
   */
  ghost predicate WeighsTheBorrowAtMostRoundedUp(env: Environment, o: Obligation, borrowing: u64) {
    var price := Scope.UsdPerWholeTokenScaled(env.usdcPrice);
    price.Ok? &&
    env.market.weightedDebtValue(env.market.debtAfterBorrow(o.debtScaled, borrowing))
      <= o.adjustedDebtValueScaled
         + GrowSizing.WeightRoundedUp(borrowing, env.usdcDecimals, price.value, env.borrowFactorPct)
  }

  lemma TheSizingOfAGrow(env: Environment, p: Position, o: Obligation, ownerMinimum: u64, borrowing: u64,
                         minimumOut: u64)
    requires GrowAmounts(env, p, o, ownerMinimum) == Ok((borrowing, minimumOut))
    ensures var price := Scope.UsdPerWholeTokenScaled(env.usdcPrice);
      && price.Ok? && borrowing > 0
      && Refinement.UsdcTheProgramBorrows(o.adjustedDebtValueScaled, o.depositedValueScaled, p.strategy.targetLtvBps,
                                          env.borrowFactorPct, env.usdcDecimals, price.value) == Ok(borrowing)
  {
  }

  /** What the loan reads as after the borrow, when the market values the collateral as it did before it. */
  lemma TheLoanAfterTheBorrow(env: Environment, p: Position, o: Obligation, ownerMinimum: u64, borrowing: u64,
                              minimumOut: u64)
    requires GrowAmounts(env, p, o, ownerMinimum) == Ok((borrowing, minimumOut))
    requires o.depositedValueScaled == env.market.collateralValue(o.collateral) && o.updatedAt == env.market.slot
    requires WeighsTheBorrowAtMostRoundedUp(env, o, borrowing)
    ensures var left := Refreshed(env.market, o.(debtScaled := env.market.debtAfterBorrow(o.debtScaled, borrowing)));
      var ltv := Guard.LoanToValueBps(left.adjustedDebtValueScaled, left.depositedValueScaled);
      ltv.Ok? && ltv.value <= p.strategy.targetLtvBps
  {
    TheSizingOfAGrow(env, p, o, ownerMinimum, borrowing, minimumOut);
    GrowSizing.TheBorrowFitsUnderTheTarget(
      o.adjustedDebtValueScaled, o.depositedValueScaled, p.strategy.targetLtvBps, env.borrowFactorPct, env.usdcDecimals,
      Scope.UsdPerWholeTokenScaled(env.usdcPrice).value,
      env.market.weightedDebtValue(env.market.debtAfterBorrow(o.debtScaled, borrowing)));
  }

  /** The loan at the end of the trade is what the borrow made of it, whatever the router did. */
  lemma TheLoanThroughTheTrade(l: Layout, env: Environment, p: Position, before: Accounts, plan: GrowPlan, g: GrowSteps)
    requires l.Distinct() && GrowsThrough(l, env, p, before, plan, g)
    ensures ReadLoan(before, l.obligation).Ok?
    ensures var o := Refreshed(env.market, ReadLoan(before, l.obligation).value);
      ReadLoan(g.settled, l.obligation)
        == Ok(Refreshed(env.market, o.(debtScaled := env.market.debtAfterBorrow(o.debtScaled, plan.borrowing))))
  {
    Borrowing(l, env.market, before, plan.refreshed, g.borrowed, plan.borrowing);
    TheRecordSurvivesABorrow(l, env.market, p, before, g.borrowed, plan.borrowing);
    ACommittedSwap(l, env, g.swap, g.borrowed, g.bought);
    Refreshing(l, env.market, g.bought, g.settled);
  }

  /**
   * The sizing is safe end to end. Whatever the router does with what was borrowed, the loan to value after the swap
   * can be read and is at or under target, so the check there cannot fail because of the sizing.
   */
  lemma TheSizingPassesTheTargetCheck(l: Layout, env: Environment, p: Position, ownerMinimum: u64, before: Accounts,
                                      plan: GrowPlan, g: GrowSteps)
    requires l.Distinct() && ReadRecord(l, before) == Ok(p)
    requires PlanGrow(l, env, p, ownerMinimum, before) == Ok(plan) && ReadPositionLedger(l, plan.refreshed).Ok?
    requires BorrowAndBuy(l, env, ReadPositionLedger(l, plan.refreshed).value, plan) == Ok(g)
    requires WeighsTheBorrowAtMostRoundedUp(env, Refreshed(env.market, ReadLoan(before, l.obligation).value),
                                            plan.borrowing)
    ensures LoanToValue(l, g.settled).Ok? && LoanToValue(l, g.settled).value <= p.strategy.targetLtvBps
  {
    var o := Refreshed(env.market, ReadLoan(before, l.obligation).value);
    ThePlanOfAGrow(l, env, ownerMinimum, before, p, plan);
    TheTradeOfAGrow(l, env, plan, g);
    TheLoanThroughTheTrade(l, env, p, before, plan, g);
    TheLoanAfterTheBorrow(env, p, o, ownerMinimum, plan.borrowing, plan.minimumOut);
    ReadingTheLoan(l, g.settled);
  }

  lemma ReadingTheLoan(l: Layout, accounts: Accounts)
    requires ReadLoan(accounts, l.obligation).Ok?
    ensures var o := ReadLoan(accounts, l.obligation).value;
      LoanToValue(l, accounts) == Guard.LoanToValueBps(o.adjustedDebtValueScaled, o.depositedValueScaled)
  {
  }
}
