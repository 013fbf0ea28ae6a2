// Exactly when each instruction commits: its gates, its sizes, its trade and its checks, in turn.
module Committing {
  import opened Outcomes
  import opened Positions
  import opened Runtime
  import opened Invariants
  import opened Market
  import opened Instructions
  import opened Gates
  import opened Steps
  import opened Growing
  import opened Leaving
  import opened Protecting
  import Scope

  // ----- buy_destination

  /** Everything a first purchase needs to go through. */
  ghost predicate BuyGoesThrough(l: Layout, env: Environment, minimumDestination: u64, p: Position, before: Accounts,
                                 bought: Accounts) {
    && env.caller == p.owner == l.owner && p.state == AwaitingSwap && env.config.collateralIsEnabled
    && minimumDestination > 0 && Amount(before, l.usdcAccount) > 0 && ReadPositionLedger(l, before).Ok?
    && Swapped(l, env, JupiterSwap(l.usdcAccount, l.destinationAccount, Amount(before, l.usdcAccount),
                                   minimumDestination), before) == Ok(bought)
    && AssertInvariantsHold(l, ReadPositionLedger(l, before).value, MustNotMove,
         EndsWithAtLeast(l.usdcAccount, l.destinationAccount,
                         SwapBounds(Amount(before, l.usdcAccount), minimumDestination)), bought).Ok?
  }

  /** A first purchase commits exactly when it spends all the USDC held through its checks, and opens the position. */
  lemma ABuyCommitsExactly(l: Layout, env: Environment, minimumDestination: u64, p: Position, before: Accounts,
                           after: Accounts)
    requires ReadRecord(l, before) == Ok(p)
    ensures BuyDestination(l, env, minimumDestination, before) == Ok(after) <==>
      exists bought {:trigger BuyGoesThrough(l, env, minimumDestination, p, before, bought)} ::
        BuyGoesThrough(l, env, minimumDestination, p, before, bought)
        && after == WriteRecord(l, bought, p.(state := Open))
  {
    var swap := JupiterSwap(l.usdcAccount, l.destinationAccount, Amount(before, l.usdcAccount), minimumDestination);
    ABuyIsSizedExactly(l, before, minimumDestination, swap);
    var sized := BuySwap(l, before, minimumDestination);
    if sized.Ok? {
      ABuyIsSizedExactly(l, before, minimumDestination, sized.value);
    }
    if BuyDestination(l, env, minimumDestination, before) == Ok(after) {
      assert BuyGoesThrough(l, env, minimumDestination, p, before, Swapped(l, env, swap, before).value);
    }
  }

  // ----- grow

  /** Everything a grow needs to go through: its gates, its sizes, its trade, its checks and room in the record. */
  ghost predicate GrowGoesThrough(l: Layout, env: Environment, ownerMinimum: u64, p: Position, before: Accounts,
                                  plan: GrowPlan, g: GrowSteps) {
    && GrowsThrough(l, env, p, before, plan, g)
    && ReadLoan(before, l.obligation).Ok?
    && var o := Refreshed(env.market, ReadLoan(before, l.obligation).value);
    && GrowIsOpen(env, p, o) && BorrowIsSized(env, p, o, plan.borrowing)
    && LeastBought(env, p, ownerMinimum, plan.borrowing) == Ok(plan.minimumOut)
    && Scope.UsdPerWholeTokenScaled(env.destinationPrice).Ok?
    && GrowEndsWell(l, p, plan, g.settled)
  }

  /** At or under the target, the checks passed, and one more grow and its amount still fit the record. */
  ghost predicate GrowEndsWell(l: Layout, p: Position, plan: GrowPlan, settled: Accounts) {
    && LoanToValue(l, settled).Ok? && LoanToValue(l, settled).value <= p.strategy.targetLtvBps
    && ReadPositionLedger(l, plan.refreshed).Ok?
    && AssertInvariantsHold(l, ReadPositionLedger(l, plan.refreshed).value, MustNotMove, BoundsCheckedAroundTheCall,
                            settled).Ok?
    && p.growCount < 0xFFFF_FFFF && p.usdcBorrowedTotal + plan.borrowing < TWO_TO_THE_64
  }

  lemma AnOpenGrowIsPlanned(l: Layout, env: Environment, ownerMinimum: u64, p: Position, before: Accounts,
                            plan: GrowPlan, g: GrowSteps)
    requires GrowGoesThrough(l, env, ownerMinimum, p, before, plan, g)
    ensures PlanGrow(l, env, p, ownerMinimum, before) == Ok(plan)
  {
    var o := Refreshed(env.market, ReadLoan(before, l.obligation).value);
    TheGrowGatesAgree(l, env, p, plan.refreshed);
    AGrowIsSizedExactly(env, p, o, ownerMinimum, plan.borrowing, plan.minimumOut);
  }

  lemma TheSwapIsOfTheBorrow(l: Layout, before: PositionLedger, borrowed: Accounts, swap: JupiterSwap)
    requires IsTokenAccount(At(borrowed, l.usdcAccount))
    requires swap == JupiterSwap(l.usdcAccount, l.destinationAccount, swap.amountIn, swap.minimumOut)
    requires swap.amountIn == Amount(borrowed, l.usdcAccount) - before.usdcBalance
    ensures GrowSwap(l, before, borrowed, swap.minimumOut) == Ok(swap)
  {
  }

  lemma ATradeInTurn(l: Layout, env: Environment, before: PositionLedger, plan: GrowPlan, g: GrowSteps)
    requires Borrow(env.market, l, plan.refreshed, plan.borrowing) == Ok(g.borrowed)
    requires GrowSwap(l, before, g.borrowed, plan.minimumOut) == Ok(g.swap)
    requires Swapped(l, env, g.swap, g.borrowed) == Ok(g.bought)
    requires Refresh(env.market, l, g.bought) == Ok(g.settled)
    ensures BorrowAndBuy(l, env, before, plan) == Ok(g)
  {
  }

  lemma ATradeGoesThrough(l: Layout, env: Environment, p: Position, before: Accounts, plan: GrowPlan, g: GrowSteps,
                          ledger: PositionLedger)
    requires GrowsThrough(l, env, p, before, plan, g) && ledger.usdcBalance == Amount(plan.refreshed, l.usdcAccount)
    ensures BorrowAndBuy(l, env, ledger, plan) == Ok(g)
  {
    ASwapCommitsExactly(l, env, g.swap, g.borrowed, g.bought);
    TheSwapIsOfTheBorrow(l, ledger, g.borrowed, g.swap);
    ATradeInTurn(l, env, ledger, plan, g);
  }

  lemma TheEndOfAGrow(l: Layout, env: Environment, p: Position, plan: GrowPlan, settled: Accounts)
    requires GrowEndsWell(l, p, plan, settled)
    ensures GrowChecks(l, p, ReadPositionLedger(l, plan.refreshed).value, settled).Ok?
    ensures GrowRecord(env, p, plan.borrowing) == Ok(Grown(env, p, plan.borrowing))
  {
  }

  /** What the record says after a grow. */
  function Grown(env: Environment, p: Position, borrowing: u64): Position
    requires p.growCount < 0xFFFF_FFFF && p.usdcBorrowedTotal + borrowing < TWO_TO_THE_64
  {
    p.(lastGrowAt := env.now, growCount := p.growCount + 1, usdcBorrowedTotal := p.usdcBorrowedTotal + borrowing)
  }

  lemma AGrowInTurn(l: Layout, env: Environment, ownerMinimum: u64, p: Position, before: Accounts, plan: GrowPlan,
                    g: GrowSteps, grown: Position)
    requires ReadRecord(l, before) == Ok(p) && p.state == Open && p.strategy.growEnabled
    requires !env.config.growPaused && env.config.destinationIsEnabled
    requires PlanGrow(l, env, p, ownerMinimum, before) == Ok(plan) && ReadPositionLedger(l, plan.refreshed).Ok?
    requires BorrowAndBuy(l, env, ReadPositionLedger(l, plan.refreshed).value, plan) == Ok(g)
    requires GrowChecks(l, p, ReadPositionLedger(l, plan.refreshed).value, g.settled).Ok?
    requires GrowRecord(env, p, plan.borrowing) == Ok(grown)
    ensures Grow(l, env, ownerMinimum, before) == Ok(WriteRecord(l, g.settled, grown))
  {
  }

  lemma AGrowCommits(l: Layout, env: Environment, ownerMinimum: u64, p: Position, before: Accounts, plan: GrowPlan,
                     g: GrowSteps)
    requires GrowGoesThrough(l, env, ownerMinimum, p, before, plan, g)
    ensures Grow(l, env, ownerMinimum, before) == Ok(WriteRecord(l, g.settled, Grown(env, p, plan.borrowing)))
  {
    AnOpenGrowIsPlanned(l, env, ownerMinimum, p, before, plan, g);
    ATradeGoesThrough(l, env, p, before, plan, g, ReadPositionLedger(l, plan.refreshed).value);
    TheEndOfAGrow(l, env, p, plan, g.settled);
    AGrowInTurn(l, env, ownerMinimum, p, before, plan, g, Grown(env, p, plan.borrowing));
  }

  /** A grow commits exactly when some plan and trade go through, and to exactly what the record then says of them. */
  lemma AGrowCommitsExactly(l: Layout, env: Environment, ownerMinimum: u64, p: Position, before: Accounts,
                            after: Accounts)
    requires ReadRecord(l, before) == Ok(p)
    ensures Grow(l, env, ownerMinimum, before) == Ok(after) <==>
      exists plan, g {:trigger GrowGoesThrough(l, env, ownerMinimum, p, before, plan, g)} ::
        && GrowGoesThrough(l, env, ownerMinimum, p, before, plan, g)
        && after == WriteRecord(l, g.settled, Grown(env, p, plan.borrowing))
  {
    if Grow(l, env, ownerMinimum, before) == Ok(after) {
      var _, plan, g, _ := TheStepsOfAGrow(l, env, ownerMinimum, before);
      ACommittedGrowWentThrough(l, env, ownerMinimum, p, before, plan, g);
    }
    forall plan, g | GrowGoesThrough(l, env, ownerMinimum, p, before, plan, g)
      ensures Grow(l, env, ownerMinimum, before) == Ok(WriteRecord(l, g.settled, Grown(env, p, plan.borrowing)))
    {
      AGrowCommits(l, env, ownerMinimum, p, before, plan, g);
    }
  }

  lemma ACommittedGrowWentThrough(l: Layout, env: Environment, ownerMinimum: u64, p: Position, before: Accounts,
                                  plan: GrowPlan, g: GrowSteps)
    requires ReadRecord(l, before) == Ok(p) && p.state == Open && p.strategy.growEnabled
    requires !env.config.growPaused && env.config.destinationIsEnabled
    requires PlanGrow(l, env, p, ownerMinimum, before) == Ok(plan) && ReadPositionLedger(l, plan.refreshed).Ok?
    requires BorrowAndBuy(l, env, ReadPositionLedger(l, plan.refreshed).value, plan) == Ok(g)
    requires GrowChecks(l, p, ReadPositionLedger(l, plan.refreshed).value, g.settled).Ok?
    requires GrowRecord(env, p, plan.borrowing).Ok?
    ensures GrowGoesThrough(l, env, ownerMinimum, p, before, plan, g)
  {
    ThePlanOfAGrow(l, env, ownerMinimum, before, p, plan);
    APlanOfAGrowIsSized(l, env, ownerMinimum, before, p, plan);
    TheTradeOfAGrow(l, env, plan, g);
    AGrowIsSizedExactly(env, p, Refreshed(env.market, ReadLoan(before, l.obligation).value), ownerMinimum,
                        plan.borrowing, plan.minimumOut);
  }

  // ----- protect

  /** Everything a protect needs to go through: its gates, its sizes, its trade, its checks and room in the record. */
  ghost predicate ProtectGoesThrough(l: Layout, env: Environment, ownerMinimum: u64, p: Position, before: Accounts,
                                     refreshed: Accounts, plan: ProtectPlan, g: ProtectSteps) {
    && Refresh(env.market, l, before) == Ok(refreshed) && ReadLoan(before, l.obligation).Ok?
    && var o := Refreshed(env.market, ReadLoan(before, l.obligation).value);
    && Amount(refreshed, l.destinationAccount) < TWO_TO_THE_64
    && ProtectIsOpen(env, p, o) && ProtectIsSized(env, p, o, Amount(refreshed, l.destinationAccount), plan)
    && LeastRaised(env, p, ownerMinimum, plan.selling) == Ok(plan.minimumOut)
    && ProtectsThrough(l, env, refreshed, plan, g)
    && ProtectEndsWell(l, p, refreshed, g)
  }

  /** At or under the target or with nothing left to sell, the checks passed, and the record has room. */
  ghost predicate ProtectEndsWell(l: Layout, p: Position, refreshed: Accounts, g: ProtectSteps) {
    && LoanToValue(l, g.settled).Ok? && ReadPositionLedger(l, refreshed).Ok?
    && (LoanToValue(l, g.settled).value <= p.strategy.targetLtvBps || Amount(g.settled, l.destinationAccount) == 0)
    && AssertInvariantsHold(l, ReadPositionLedger(l, refreshed).value, MustNotMove, BoundsCheckedAroundTheCall,
                            g.settled).Ok?
    && p.protectCount < 0xFFFF_FFFF && p.usdcFromSalesTotal + g.raised < TWO_TO_THE_64
    && p.usdcRepaidTotal + g.repaying < TWO_TO_THE_64
  }

  /** What the record says after a protect. */
  function Protected(env: Environment, p: Position, raised: u64, repaying: u64): Position
    requires p.protectCount < 0xFFFF_FFFF
    requires p.usdcFromSalesTotal + raised < TWO_TO_THE_64 && p.usdcRepaidTotal + repaying < TWO_TO_THE_64
  {
    p.(lastProtectAt := env.now, protectCount := p.protectCount + 1,
       usdcFromSalesTotal := p.usdcFromSalesTotal + raised, usdcRepaidTotal := p.usdcRepaidTotal + repaying,
       usdcOwedAtLeave := SaturatingSub(p.usdcOwedAtLeave, repaying))
  }

  lemma AnOpenProtectIsPlanned(l: Layout, env: Environment, ownerMinimum: u64, p: Position, before: Accounts,
                               refreshed: Accounts, plan: ProtectPlan, g: ProtectSteps)
    requires ProtectGoesThrough(l, env, ownerMinimum, p, before, refreshed, plan, g)
    ensures PrepareProtect(l, env, p, ownerMinimum, refreshed) == Ok(plan)
  {
    var o := Refreshed(env.market, ReadLoan(before, l.obligation).value);
    TheProtectGatesAgree(l, env, p, refreshed);
    AProtectIsPlannedExactly(env, p, o, Amount(refreshed, l.destinationAccount), ownerMinimum, plan);
  }

  lemma AProtectsSaleInTurn(l: Layout, env: Environment, ledger: PositionLedger, plan: ProtectPlan, refreshed: Accounts,
                    sold: Accounts)
    requires Swapped(l, env, JupiterSwap(l.destinationAccount, l.usdcAccount, plan.selling, plan.minimumOut), refreshed)
        == Ok(sold)
    requires ledger.usdcBalance == Amount(refreshed, l.usdcAccount)
    ensures SellFor(l, env, ledger.usdcBalance, plan.selling, plan.minimumOut, refreshed)
         == Ok((sold, Amount(sold, l.usdcAccount) - Amount(refreshed, l.usdcAccount)))
  {
    ASwapCommitsExactly(l, env, JupiterSwap(l.destinationAccount, l.usdcAccount, plan.selling, plan.minimumOut),
                        refreshed, sold);
  }

  lemma ARepaymentInTurn(l: Layout, env: Environment, refreshed: Accounts, plan: ProtectPlan, g: ProtectSteps)
    requires ProtectsThrough(l, env, refreshed, plan, g)
    ensures RepayAndReward(l, env, plan, g.raised, g.sold) == Ok(g)
  {
    assert RepayAndReward(l, env, plan, g.raised, g.sold)
        == Ok(ProtectSteps(g.sold, g.raised, g.repaying, g.repaid, g.bounty, g.paid, g.settled));
  }

  lemma SellingThenRepaying(l: Layout, env: Environment, ledger: PositionLedger, plan: ProtectPlan, refreshed: Accounts,
                            g: ProtectSteps)
    requires SellFor(l, env, ledger.usdcBalance, plan.selling, plan.minimumOut, refreshed) == Ok((g.sold, g.raised))
    requires RepayAndReward(l, env, plan, g.raised, g.sold) == Ok(g)
    ensures SellAndRepay(l, env, ledger, plan, refreshed) == Ok(g)
  {
  }

  lemma AProtectsTradeGoesThrough(l: Layout, env: Environment, refreshed: Accounts, plan: ProtectPlan, g: ProtectSteps,
                                  ledger: PositionLedger)
    requires ProtectsThrough(l, env, refreshed, plan, g) && ledger.usdcBalance == Amount(refreshed, l.usdcAccount)
    ensures SellAndRepay(l, env, ledger, plan, refreshed) == Ok(g)
  {
    AProtectsSaleInTurn(l, env, ledger, plan, refreshed, g.sold);
    ARepaymentInTurn(l, env, refreshed, plan, g);
    SellingThenRepaying(l, env, ledger, plan, refreshed, g);
  }

  lemma TheEndOfAProtect(l: Layout, env: Environment, p: Position, refreshed: Accounts, g: ProtectSteps)
    requires ProtectEndsWell(l, p, refreshed, g)
    ensures ProtectChecks(l, p, ReadPositionLedger(l, refreshed).value, g.settled).Ok?
    ensures ProtectRecord(env, p, g.raised, g.repaying) == Ok(Protected(env, p, g.raised, g.repaying))
  {
  }

  lemma AProtectInTurn(l: Layout, env: Environment, ownerMinimum: u64, p: Position, before: Accounts,
                       refreshed: Accounts, plan: ProtectPlan, g: ProtectSteps, protected: Position)
    requires ReadRecord(l, before) == Ok(p) && p.state == Open && env.config.destinationIsListed
    requires Refresh(env.market, l, before) == Ok(refreshed) && ReadPositionLedger(l, refreshed).Ok?
    requires PrepareProtect(l, env, p, ownerMinimum, refreshed) == Ok(plan)
    requires SellAndRepay(l, env, ReadPositionLedger(l, refreshed).value, plan, refreshed) == Ok(g)
    requires ProtectChecks(l, p, ReadPositionLedger(l, refreshed).value, g.settled).Ok?
    requires ProtectRecord(env, p, g.raised, g.repaying) == Ok(protected)
    ensures Protect(l, env, ownerMinimum, before) == Ok(WriteRecord(l, g.settled, protected))
  {
  }

  lemma AProtectCommits(l: Layout, env: Environment, ownerMinimum: u64, p: Position, before: Accounts,
                        refreshed: Accounts, plan: ProtectPlan, g: ProtectSteps)
    requires ReadRecord(l, before) == Ok(p)
      && ProtectGoesThrough(l, env, ownerMinimum, p, before, refreshed, plan, g)
    ensures Protect(l, env, ownerMinimum, before)
         == Ok(WriteRecord(l, g.settled, Protected(env, p, g.raised, g.repaying)))
  {
    AnOpenProtectIsPlanned(l, env, ownerMinimum, p, before, refreshed, plan, g);
    AProtectsTradeGoesThrough(l, env, refreshed, plan, g, ReadPositionLedger(l, refreshed).value);
    TheEndOfAProtect(l, env, p, refreshed, g);
    AProtectInTurn(l, env, ownerMinimum, p, before, refreshed, plan, g, Protected(env, p, g.raised, g.repaying));
  }

  lemma ARefreshKeepsTheTokens(l: Layout, m: Market, before: Accounts, refreshed: Accounts)
    requires l.Distinct() && Refresh(m, l, before) == Ok(refreshed)
    ensures Amount(refreshed, l.destinationAccount) == Amount(before, l.destinationAccount)
  {
    NoTwoAddressesCollide(l);
  }

  lemma AProtectEndedWell(l: Layout, env: Environment, p: Position, refreshed: Accounts, g: ProtectSteps)
    requires ReadPositionLedger(l, refreshed).Ok?
    requires ProtectChecks(l, p, ReadPositionLedger(l, refreshed).value, g.settled).Ok?
    requires ProtectRecord(env, p, g.raised, g.repaying).Ok?
    ensures ProtectEndsWell(l, p, refreshed, g)
  {
  }

  lemma ACommittedProtectWentThrough(l: Layout, env: Environment, ownerMinimum: u64, p: Position, before: Accounts,
                                     refreshed: Accounts, plan: ProtectPlan, g: ProtectSteps)
    requires l.Distinct() && ReadRecord(l, before) == Ok(p) && p.state == Open && env.config.destinationIsListed
    requires Refresh(env.market, l, before) == Ok(refreshed) && ReadPositionLedger(l, refreshed).Ok?
    requires PrepareProtect(l, env, p, ownerMinimum, refreshed) == Ok(plan)
    requires SellAndRepay(l, env, ReadPositionLedger(l, refreshed).value, plan, refreshed) == Ok(g)
    requires ProtectChecks(l, p, ReadPositionLedger(l, refreshed).value, g.settled).Ok?
    requires ProtectRecord(env, p, g.raised, g.repaying).Ok?
    ensures ProtectGoesThrough(l, env, ownerMinimum, p, before, refreshed, plan, g)
  {
    APlanOfAProtectIsSized(l, env, p, ownerMinimum, before, refreshed, plan);
    TheTradeOfAProtect(l, env, refreshed, plan, g);
    ARefreshKeepsTheTokens(l, env.market, before, refreshed);
    AProtectEndedWell(l, env, p, refreshed, g);
  }

  /** A protect commits exactly when some plan and trade go through, and to exactly what the record then says. */
  lemma AProtectCommitsExactly(l: Layout, env: Environment, ownerMinimum: u64, p: Position, before: Accounts,
                               after: Accounts)
    requires l.Distinct() && ReadRecord(l, before) == Ok(p)
    ensures Protect(l, env, ownerMinimum, before) == Ok(after) <==>
      exists refreshed, plan, g
        {:trigger ProtectGoesThrough(l, env, ownerMinimum, p, before, refreshed, plan, g)} ::
        && ProtectGoesThrough(l, env, ownerMinimum, p, before, refreshed, plan, g)
        && after == WriteRecord(l, g.settled, Protected(env, p, g.raised, g.repaying))
  {
    if Protect(l, env, ownerMinimum, before) == Ok(after) {
      var _, refreshed, plan, g, _ := TheStepsOfAProtect(l, env, ownerMinimum, before);
      ACommittedProtectWentThrough(l, env, ownerMinimum, p, before, refreshed, plan, g);
      AProtectCommits(l, env, ownerMinimum, p, before, refreshed, plan, g);
    }
    forall refreshed, plan, g | ProtectGoesThrough(l, env, ownerMinimum, p, before, refreshed, plan, g)
      ensures Protect(l, env, ownerMinimum, before)
           == Ok(WriteRecord(l, g.settled, Protected(env, p, g.raised, g.repaying)))
    {
      AProtectCommits(l, env, ownerMinimum, p, before, refreshed, plan, g);
    }
  }

  // ----- leave

  /** What the record says once so much was raised and so much repaid. */
  function Left(p: Position, raised: u64, repaid: u64, owed: u64, state: PositionState): Position
    requires p.usdcFromSalesTotal + raised < TWO_TO_THE_64 && p.usdcRepaidTotal + repaid < TWO_TO_THE_64
  {
    p.(usdcFromSalesTotal := p.usdcFromSalesTotal + raised, usdcRepaidTotal := p.usdcRepaidTotal + repaid,
       usdcOwedAtLeave := owed, state := state)
  }

  /** Everything is sold at the floor, or there was nothing to sell. */
  ghost predicate SellsThrough(l: Layout, env: Environment, before: Accounts, sold: Accounts) {
    var held := Amount(before, l.destinationAccount);
    && IsTokenAccount(At(before, l.destinationAccount))
    && if held == 0 then sold == before
       else
         && held < TWO_TO_THE_64 && OracleFloorOnSelling(env, held).Ok?
         && Swapped(l, env, JupiterSwap(l.destinationAccount, l.usdcAccount, held,
                                        OracleFloorOnSelling(env, held).value), before) == Ok(sold)
  }

  /** As much of the debt as the USDC covers is repaid between two refreshes. */
  ghost predicate RepaysThrough(l: Layout, env: Environment, sold: Accounts, refreshed: Accounts, repaid: Accounts,
                                s: Settlement) {
    && Refresh(env.market, l, sold) == Ok(refreshed) && DebtInWholeUnits(l, refreshed).Ok?
    && (var debt, held := DebtInWholeUnits(l, refreshed).value, Amount(sold, l.usdcAccount);
        s.repaying == if debt <= held then debt else held)
    && RepayIfAny(env.market, l, refreshed, s.repaying) == Ok(repaid)
    && Refresh(env.market, l, repaid) == Ok(s.settled)
    && DebtInWholeUnits(l, s.settled) == Ok(s.stillOwed)
  }

  /** Every step of a leave up to its ending. */
  ghost predicate SettlesThrough(l: Layout, env: Environment, before: Accounts, refreshed: Accounts, repaid: Accounts,
                                 s: Settlement) {
    && SellsThrough(l, env, before, s.sold)
    && IsTokenAccount(At(s.sold, l.usdcAccount))
    && s.raised == Amount(s.sold, l.usdcAccount) - Amount(before, l.usdcAccount)
    && RepaysThrough(l, env, s.sold, refreshed, repaid, s)
  }

  lemma TheSaleGoesThrough(l: Layout, env: Environment, p: Position, before: Accounts, sold: Accounts)
    requires LeaveIsOpen(env, p, Amount(before, l.destinationAccount))
    ensures LeaveSale(l, env, p, before) == Ok(sold) <==> SellsThrough(l, env, before, sold)
  {
    var held := Amount(before, l.destinationAccount);
    if 0 < held < TWO_TO_THE_64 {
      var floor := OracleFloorOnSelling(env, held);
      var swap := LeaveSwap(l, env, p, held);
      if swap.Ok? {
        ALeaveIsSizedExactly(l, env, p, held, swap.value);
      }
      if floor.Ok? {
        ALeaveIsSizedExactly(l, env, p, held,
                             JupiterSwap(l.destinationAccount, l.usdcAccount, held, floor.value));
      }
    }
  }

  lemma TheRepaymentGoesThrough(l: Layout, env: Environment, usdcHeld: u64, s: Settlement)
    requires usdcHeld == Amount(s.sold, l.usdcAccount)
    ensures RepayFrom(l, env, usdcHeld, s.sold) == Ok((s.settled, s.repaying, s.stillOwed)) <==>
      exists refreshed, repaid :: RepaysThrough(l, env, s.sold, refreshed, repaid, s)
  {
    if RepayFrom(l, env, usdcHeld, s.sold) == Ok((s.settled, s.repaying, s.stillOwed)) {
      var refreshed := Refresh(env.market, l, s.sold).value;
      var repaid := RepayIfAny(env.market, l, refreshed, s.repaying).value;
      assert RepaysThrough(l, env, s.sold, refreshed, repaid, s);
    }
  }

  lemma TheSettlementGoesThrough(l: Layout, env: Environment, p: Position, before: Accounts, s: Settlement)
    requires LeaveIsOpen(env, p, Amount(before, l.destinationAccount)) && ReadPositionLedger(l, before).Ok?
    ensures Settle(l, env, p, Amount(before, l.usdcAccount), before) == Ok(s) <==>
      exists refreshed, repaid :: SettlesThrough(l, env, before, refreshed, repaid, s)
  {
    var usdcBefore, usdcHeld := Amount(before, l.usdcAccount), Amount(s.sold, l.usdcAccount);
    TheSaleGoesThrough(l, env, p, before, s.sold);
    TheRepaymentGoesThrough(l, env, usdcHeld, s);
    if Settle(l, env, p, usdcBefore, before) == Ok(s) {
      var held := TheStepsOfASettlement(l, env, p, usdcBefore, before, s);
      ASaleInTurn(l, env, p, usdcBefore, before, s.sold, held);
      var refreshed, repaid :| RepaysThrough(l, env, s.sold, refreshed, repaid, s);
      assert SettlesThrough(l, env, before, refreshed, repaid, s);
    }
    forall refreshed, repaid | SettlesThrough(l, env, before, refreshed, repaid, s)
      ensures Settle(l, env, p, usdcBefore, before) == Ok(s)
    {
      assert RepaysThrough(l, env, s.sold, refreshed, repaid, s);
      ASaleInTurn(l, env, p, usdcBefore, before, s.sold, usdcHeld);
      ASettlementInTurn(l, env, p, usdcBefore, before, s, usdcHeld);
    }
  }

  lemma ASaleInTurn(l: Layout, env: Environment, p: Position, usdcBefore: u64, before: Accounts, sold: Accounts,
                    usdcHeld: u64)
    ensures SellAll(l, env, p, usdcBefore, before) == Ok((sold, usdcHeld)) <==>
      && LeaveSale(l, env, p, before) == Ok(sold) && IsTokenAccount(At(sold, l.usdcAccount))
      && usdcHeld == Amount(sold, l.usdcAccount) >= usdcBefore
  {
  }

  lemma ASettlementInTurn(l: Layout, env: Environment, p: Position, usdcBefore: u64, before: Accounts, s: Settlement,
                          usdcHeld: u64)
    requires SellAll(l, env, p, usdcBefore, before) == Ok((s.sold, usdcHeld)) && s.raised == usdcHeld - usdcBefore
    requires RepayFrom(l, env, usdcHeld, s.sold) == Ok((s.settled, s.repaying, s.stillOwed))
    ensures Settle(l, env, p, usdcBefore, before) == Ok(s)
  {
    var sale, settled := SellAll(l, env, p, usdcBefore, before).value, RepayFrom(l, env, usdcHeld, s.sold).value;
    assert sale.0 == s.sold && sale.1 == usdcHeld;
    assert Settle(l, env, p, usdcBefore, before)
        == Ok(Settlement(sale.0, settled.0, sale.1 - usdcBefore, settled.1, settled.2));
  }

  lemma TheStepsOfASettlement(l: Layout, env: Environment, p: Position, usdcBefore: u64, before: Accounts,
                              s: Settlement)
    returns (usdcHeld: u64)
    requires Settle(l, env, p, usdcBefore, before) == Ok(s)
    ensures SellAll(l, env, p, usdcBefore, before) == Ok((s.sold, usdcHeld)) && s.raised == usdcHeld - usdcBefore
    ensures RepayFrom(l, env, usdcHeld, s.sold) == Ok((s.settled, s.repaying, s.stillOwed))
  {
    usdcHeld := SellAll(l, env, p, usdcBefore, before).value.1;
  }

  /** Part way: the checks pass with nothing moved, and the record takes what was raised, repaid and is still owed. */
  ghost predicate EndsPartWay(l: Layout, p: Position, before: Accounts, s: Settlement, after: Accounts) {
    && ReadPositionLedger(l, before).Ok? && s.stillOwed > 0
    && p.usdcFromSalesTotal + s.raised < TWO_TO_THE_64 && p.usdcRepaidTotal + s.repaying < TWO_TO_THE_64
    && AssertInvariantsHold(l, ReadPositionLedger(l, before).value, MustNotMove, BoundsCheckedAroundTheCall,
                            s.settled).Ok?
    && after == WriteRecord(l, s.settled, Left(p, s.raised, s.repaying, s.stillOwed, Closing))
  }

  /** Whole: the collateral withdrawn and everything sent, and the checks pass with exactly the collateral gone. */
  ghost predicate EndsWhole(l: Layout, env: Environment, p: Position, before: Accounts, s: Settlement,
                            withdrawn: Accounts, sent: Accounts, after: Accounts) {
    && ReadPositionLedger(l, before).Ok? && s.stillOwed == 0
    && p.usdcFromSalesTotal + s.raised < TWO_TO_THE_64 && p.usdcRepaidTotal + s.repaying < TWO_TO_THE_64
    && ObligationDepositedAmount(s.settled, l.obligation).Ok?
    && var collateral := ObligationDepositedAmount(s.settled, l.obligation).value;
    && WithdrawIfAny(env.market, l, s.settled, collateral) == Ok(withdrawn)
    && SendEverythingToTheOwner(l, withdrawn) == Ok(sent)
    && AssertInvariantsHold(l, ReadPositionLedger(l, before).value, ExactlyOut(collateral),
                            BoundsCheckedAroundTheCall, sent).Ok?
    && after == WriteRecord(l, sent, Left(p, s.raised, s.repaying, SaturatingSub(p.usdcOwedAtLeave, s.repaying),
                                          Closed))
  }

  lemma AnEndingPartWay(l: Layout, p: Position, before: Accounts, s: Settlement, after: Accounts)
    requires ReadPositionLedger(l, before).Ok? && s.stillOwed > 0
    ensures var ledger := ReadPositionLedger(l, before).value;
      LeavePartWay(l, p, ledger, s.raised, s.repaying, s.stillOwed, s.settled) == Ok(after)
      <==> EndsPartWay(l, p, before, s, after)
  {
  }

  lemma AWholeEndingInTurn(l: Layout, env: Environment, p: Position, ledger: PositionLedger, s: Settlement,
                           collateral: u64, withdrawn: Accounts, sent: Accounts)
    requires ObligationDepositedAmount(s.settled, l.obligation) == Ok(collateral)
    requires WithdrawIfAny(env.market, l, s.settled, collateral) == Ok(withdrawn)
    requires SendEverythingToTheOwner(l, withdrawn) == Ok(sent)
    requires AssertInvariantsHold(l, ledger, ExactlyOut(collateral), BoundsCheckedAroundTheCall, sent).Ok?
    requires LeaveRecord(p, s.raised, s.repaying).Ok?
    ensures LeaveWhole(l, env, p, ledger, s.raised, s.repaying, s.settled)
         == Ok(WriteRecord(l, sent, LeaveRecord(p, s.raised, s.repaying).value.(state := Closed)))
  {
  }

  lemma TheStepsOfAWholeEnding(l: Layout, env: Environment, p: Position, ledger: PositionLedger, s: Settlement)
    returns (collateral: u64, withdrawn: Accounts, sent: Accounts)
    requires LeaveWhole(l, env, p, ledger, s.raised, s.repaying, s.settled).Ok?
    ensures ObligationDepositedAmount(s.settled, l.obligation) == Ok(collateral)
    ensures WithdrawIfAny(env.market, l, s.settled, collateral) == Ok(withdrawn)
    ensures SendEverythingToTheOwner(l, withdrawn) == Ok(sent)
    ensures AssertInvariantsHold(l, ledger, ExactlyOut(collateral), BoundsCheckedAroundTheCall, sent).Ok?
    ensures LeaveRecord(p, s.raised, s.repaying).Ok?
  {
    collateral := ObligationDepositedAmount(s.settled, l.obligation).value;
    withdrawn := WithdrawIfAny(env.market, l, s.settled, collateral).value;
    sent := SendEverythingToTheOwner(l, withdrawn).value;
  }

  lemma TheRecordOfALeave(p: Position, raised: u64, repaid: u64)
    ensures LeaveRecord(p, raised, repaid).Ok? <==>
      p.usdcFromSalesTotal + raised < TWO_TO_THE_64 && p.usdcRepaidTotal + repaid < TWO_TO_THE_64
    ensures LeaveRecord(p, raised, repaid).Ok? ==>
      LeaveRecord(p, raised, repaid).value
        == Left(p, raised, repaid, SaturatingSub(p.usdcOwedAtLeave, repaid), p.state)
  {
  }

  lemma AWholeEnding(l: Layout, env: Environment, p: Position, before: Accounts, s: Settlement, after: Accounts)
    requires ReadPositionLedger(l, before).Ok? && s.stillOwed == 0
    ensures LeaveWhole(l, env, p, ReadPositionLedger(l, before).value, s.raised, s.repaying, s.settled) == Ok(after)
       <==> exists withdrawn, sent :: EndsWhole(l, env, p, before, s, withdrawn, sent, after)
  {
    var ledger := ReadPositionLedger(l, before).value;
    TheRecordOfALeave(p, s.raised, s.repaying);
    if LeaveWhole(l, env, p, ledger, s.raised, s.repaying, s.settled) == Ok(after) {
      var collateral, withdrawn, sent := TheStepsOfAWholeEnding(l, env, p, ledger, s);
      AWholeEndingInTurn(l, env, p, ledger, s, collateral, withdrawn, sent);
      assert EndsWhole(l, env, p, before, s, withdrawn, sent, after);
    }
    forall withdrawn, sent | EndsWhole(l, env, p, before, s, withdrawn, sent, after)
      ensures LeaveWhole(l, env, p, ledger, s.raised, s.repaying, s.settled) == Ok(after)
    {
      AWholeEndingInTurn(l, env, p, ledger, s, ObligationDepositedAmount(s.settled, l.obligation).value, withdrawn,
                         sent);
    }
  }

  /** Everything a leave needs to go through to `after`. */
  ghost predicate LeaveGoesThrough(l: Layout, env: Environment, p: Position, before: Accounts, s: Settlement,
                                   after: Accounts) {
    && l.owner == p.owner && LeaveIsOpen(env, p, Amount(before, l.destinationAccount))
    && ReadPositionLedger(l, before).Ok?
    && (exists refreshed, repaid :: SettlesThrough(l, env, before, refreshed, repaid, s))
    && (if s.stillOwed > 0 then EndsPartWay(l, p, before, s, after)
        else exists withdrawn, sent :: EndsWhole(l, env, p, before, s, withdrawn, sent, after))
  }

  lemma ALeaveInTurn(l: Layout, env: Environment, p: Position, before: Accounts, s: Settlement, after: Accounts)
    requires ReadRecord(l, before) == Ok(p) && l.owner == p.owner && LeaveGates(env, p).Ok?
    requires ReadPositionLedger(l, before).Ok?
    requires Settle(l, env, p, Amount(before, l.usdcAccount), before) == Ok(s)
    requires var ledger := ReadPositionLedger(l, before).value;
      if s.stillOwed > 0 then LeavePartWay(l, p, ledger, s.raised, s.repaying, s.stillOwed, s.settled) == Ok(after)
      else LeaveWhole(l, env, p, ledger, s.raised, s.repaying, s.settled) == Ok(after)
    ensures Leave(l, env, before) == Ok(after)
  {
  }

  lemma ALeaveCommits(l: Layout, env: Environment, p: Position, before: Accounts, s: Settlement, after: Accounts)
    requires ReadRecord(l, before) == Ok(p) && LeaveGoesThrough(l, env, p, before, s, after)
    ensures Leave(l, env, before) == Ok(after)
  {
    TheLeaveGatesAgree(env, p, Amount(before, l.destinationAccount));
    TheSettlementGoesThrough(l, env, p, before, s);
    if s.stillOwed > 0 {
      AnEndingPartWay(l, p, before, s, after);
    } else {
      AWholeEnding(l, env, p, before, s, after);
    }
    ALeaveInTurn(l, env, p, before, s, after);
  }

  lemma ACommittedLeaveWentThrough(l: Layout, env: Environment, p: Position, before: Accounts, s: Settlement,
                                   after: Accounts)
    requires l.owner == p.owner && LeaveIsOpen(env, p, Amount(before, l.destinationAccount))
    requires ReadPositionLedger(l, before).Ok?
    requires Settle(l, env, p, Amount(before, l.usdcAccount), before) == Ok(s)
    requires var ledger := ReadPositionLedger(l, before).value;
      if s.stillOwed > 0 then LeavePartWay(l, p, ledger, s.raised, s.repaying, s.stillOwed, s.settled) == Ok(after)
      else LeaveWhole(l, env, p, ledger, s.raised, s.repaying, s.settled) == Ok(after)
    ensures LeaveGoesThrough(l, env, p, before, s, after)
  {
    TheSettlementGoesThrough(l, env, p, before, s);
    if s.stillOwed > 0 {
      AnEndingPartWay(l, p, before, s, after);
    } else {
      AWholeEnding(l, env, p, before, s, after);
    }
  }

  /** A leave commits exactly when its sale, its repayment and one of its endings go through, and to that ending. */
  lemma ALeaveCommitsExactly(l: Layout, env: Environment, p: Position, before: Accounts, after: Accounts)
    requires l.Distinct() && ReadRecord(l, before) == Ok(p)
    ensures Leave(l, env, before) == Ok(after) <==> exists s :: LeaveGoesThrough(l, env, p, before, s, after)
  {
    if Leave(l, env, before) == Ok(after) {
      var _, s, _ := TheStepsOfALeave(l, env, before);
      TheSale(l, env, p, before);
      TheLeaveGatesAgree(env, p, Amount(before, l.destinationAccount));
      ACommittedLeaveWentThrough(l, env, p, before, s, after);
    }
    forall s | LeaveGoesThrough(l, env, p, before, s, after) ensures Leave(l, env, before) == Ok(after) {
      ALeaveCommits(l, env, p, before, s, after);
    }
  }

  // ----- add_collateral

  /** Everything an addition needs to go through. */
  ghost predicate AdditionGoesThrough(l: Layout, env: Environment, amount: u64, p: Position, before: Accounts,
                                      moved: Accounts, refreshed: Accounts, after: Accounts) {
    && env.caller == p.owner == l.owner && p.state != Closed && amount > 0 && ReadPositionLedger(l, before).Ok?
    && Transfer(before, l.ownerCollateralAccount, l.collateralAccount, l.owner, amount) == Ok(moved)
    && Refresh(env.market, l, moved) == Ok(refreshed) && Deposit(env.market, l, refreshed, amount) == Ok(after)
    && CollateralIn(after, l.obligation) >= CollateralIn(before, l.obligation)
    && AssertInvariantsHold(l, ReadPositionLedger(l, before).value,
         ExactlyIn(CollateralIn(after, l.obligation) - CollateralIn(before, l.obligation)), NoSwapInThisInstruction,
         after).Ok?
  }

  lemma ACommittedAdditionWentThrough(l: Layout, env: Environment, amount: u64, p: Position, before: Accounts,
                                      after: Accounts)
    returns (moved: Accounts, refreshed: Accounts)
    requires ReadRecord(l, before) == Ok(p) && AddCollateral(l, env, amount, before) == Ok(after)
    ensures AdditionGoesThrough(l, env, amount, p, before, moved, refreshed, after)
  {
    moved := Transfer(before, l.ownerCollateralAccount, l.collateralAccount, l.owner, amount).value;
    refreshed := Refresh(env.market, l, moved).value;
  }

  lemma AnAdditionCommits(l: Layout, env: Environment, amount: u64, p: Position, before: Accounts, moved: Accounts,
                          refreshed: Accounts, after: Accounts)
    requires ReadRecord(l, before) == Ok(p)
    requires AdditionGoesThrough(l, env, amount, p, before, moved, refreshed, after)
    ensures AddCollateral(l, env, amount, before) == Ok(after)
  {
  }

  lemma AnAdditionCommitsExactly(l: Layout, env: Environment, amount: u64, p: Position, before: Accounts,
                                 after: Accounts)
    requires ReadRecord(l, before) == Ok(p)
    ensures AddCollateral(l, env, amount, before) == Ok(after) <==>
      exists moved, refreshed :: AdditionGoesThrough(l, env, amount, p, before, moved, refreshed, after)
  {
    if AddCollateral(l, env, amount, before) == Ok(after) {
      var moved, refreshed := ACommittedAdditionWentThrough(l, env, amount, p, before, after);
    }
    forall moved, refreshed | AdditionGoesThrough(l, env, amount, p, before, moved, refreshed, after)
      ensures AddCollateral(l, env, amount, before) == Ok(after)
    {
      AnAdditionCommits(l, env, amount, p, before, moved, refreshed, after);
    }
  }

  // ----- close_position

  /** The owner closes exactly a position that owes, lends and holds nothing and whose accounts are its alone. */
  lemma ACloseCommitsExactly(l: Layout, env: Environment, p: Position, before: Accounts)
    requires l.Distinct() && ReadRecord(l, before) == Ok(p)
    ensures ClosePosition(l, env, before).Ok? <==>
      && env.caller == p.owner == l.owner && Custody(l, before)
      && ObligationBorrowedAmountScaled(before, l.obligation) == Ok(0)
      && ObligationDepositedAmount(before, l.obligation) == Ok(0)
      && Amount(before, l.collateralAccount) == Amount(before, l.usdcAccount) == Amount(before, l.destinationAccount)
         == 0
  {
    NoTwoAddressesCollide(l);
  }
}
