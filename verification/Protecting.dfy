// What a committed protect comes to, for every router and every market.
module Protecting {
  import opened Arithmetic
  import opened Outcomes
  import opened Positions
  import opened Runtime
  import opened Invariants
  import opened Market
  import opened Instructions
  import opened Gates
  import opened Steps
  import CoreGuard
  import Guard
  import ProtectSale
  import Refinement
  import Scope

  /** What leaves the position is the repayment and the bounty, and the loan is down by exactly the repayment. */
  ghost predicate ProtectedWithinBounds(l: Layout, m: Market, before: Accounts, settled: Accounts, plan: ProtectPlan,
                                        g: ProtectSteps) {
    && ReadLoan(before, l.obligation).Ok?
    && var o := Refreshed(m, ReadLoan(before, l.obligation).value);
    && g.raised >= plan.minimumOut
    && 0 < g.repaying == Smaller(Smaller(plan.repayNeeded, g.raised), WholeUnitsRoundingUp(o.debtScaled))
    && g.bounty == Smaller(plan.bountyWanted, g.raised - g.repaying)
    && Amount(settled, l.usdcAccount) == Amount(before, l.usdcAccount) + g.raised - g.repaying - g.bounty
    && Amount(settled, l.destinationAccount) >= Amount(before, l.destinationAccount) - plan.selling
    && ReadLoan(settled, l.obligation)
        == Ok(Refreshed(m, o.(debtScaled := SaturatingSub(o.debtScaled, g.repaying * SCALED_FRACTION_ONE))))
    && KeepsThePosition(l, before, settled)
  }

  // ----- the repayment and the bounty

  ghost predicate PaidFrom(l: Layout, env: Environment, sold: Accounts, paid: Accounts, repaying: u64, bounty: u64) {
    && ReadLoan(sold, l.obligation).Ok?
    && var o := ReadLoan(sold, l.obligation).value;
    && UntouchedBut(sold, paid, {l.usdcAccount, l.usdcVault, l.obligation, env.callerUsdcAccount})
    && (forall key :: Amount(paid, key) >= Amount(sold, key) - if key == l.usdcAccount then repaying + bounty else 0)
    && Amount(paid, l.usdcAccount) == Amount(sold, l.usdcAccount) - repaying - bounty
    && ReadLoan(paid, l.obligation) == Ok(o.(debtScaled := SaturatingSub(o.debtScaled, repaying * SCALED_FRACTION_ONE)))
    && At(paid, l.position) == At(sold, l.position)
    && Conserves(sold, paid)
  }

  /** A repayment of no more than the debt rounded up takes exactly what was asked. */
  ghost predicate RepaidOnly(l: Layout, sold: Accounts, repaid: Accounts, repaying: u64) {
    && ReadLoan(sold, l.obligation).Ok?
    && var o := ReadLoan(sold, l.obligation).value;
    && UntouchedBut(sold, repaid, {l.usdcAccount, l.usdcVault, l.obligation})
    && Amount(repaid, l.usdcAccount) == Amount(sold, l.usdcAccount) - repaying
    && Amount(repaid, l.usdcVault) == Amount(sold, l.usdcVault) + repaying
    && Amount(repaid, l.obligation) == Amount(sold, l.obligation)
    && ReadLoan(repaid, l.obligation)
         == Ok(o.(debtScaled := SaturatingSub(o.debtScaled, repaying * SCALED_FRACTION_ONE)))
    && Conserves(sold, repaid)
  }

  lemma RepayingOnly(l: Layout, m: Market, sold: Accounts, repaid: Accounts, repaying: u64)
    requires l.Distinct() && Repay(m, l, sold, repaying) == Ok(repaid)
    requires repaying <= WholeUnitsRoundingUp(ReadLoan(sold, l.obligation).value.debtScaled)
    ensures RepaidOnly(l, sold, repaid, repaying)
  {
    NoTwoAddressesCollide(l);
    RepayingAll(ReadLoan(sold, l.obligation).value.debtScaled, repaying);
    CeilAtMost(ReadLoan(sold, l.obligation).value.debtScaled, SCALED_FRACTION_ONE, repaying);
    RepayConserves(m, l, sold, repaying);
  }

  lemma PayingTheBounty(l: Layout, env: Environment, repaid: Accounts, paid: Accounts, bounty: u64)
    requires PayBounty(l, env, repaid, bounty) == Ok(paid)
    ensures UntouchedBut(repaid, paid, {l.usdcAccount, env.callerUsdcAccount})
    ensures Amount(paid, l.usdcAccount) == Amount(repaid, l.usdcAccount) - bounty
    ensures forall key :: key != l.usdcAccount ==> Amount(paid, key) >= Amount(repaid, key)
    ensures forall key :: !IsTokenAccount(At(repaid, key)) ==> At(paid, key) == At(repaid, key)
    ensures Conserves(repaid, paid)
  {
    if bounty > 0 {
      TransferConserves(repaid, l.usdcAccount, env.callerUsdcAccount, l.position, bounty);
    }
  }

  lemma Paying(l: Layout, env: Environment, sold: Accounts, repaid: Accounts, paid: Accounts, repaying: u64,
               bounty: u64)
    requires l.Distinct() && RepaidOnly(l, sold, repaid, repaying) && PayBounty(l, env, repaid, bounty) == Ok(paid)
    requires At(sold, l.position).program == ACCRUE_PROGRAM
    ensures PaidFrom(l, env, sold, paid, repaying, bounty)
  {
    NoTwoAddressesCollide(l);
    PayingTheBounty(l, env, repaid, paid, bounty);
    UntouchedInTurn(sold, repaid, paid, {l.usdcAccount, l.usdcVault, l.obligation},
                    {l.usdcAccount, env.callerUsdcAccount},
                    {l.usdcAccount, l.usdcVault, l.obligation, env.callerUsdcAccount});
    ConservesInTurn(sold, repaid, paid);
  }

  // ----- the steps together

  /** The swap, the payments and the refresh of a protect. */
  ghost predicate ProtectsThrough(l: Layout, env: Environment, refreshed: Accounts, plan: ProtectPlan,
                                  g: ProtectSteps) {
    && Swapped(l, env, JupiterSwap(l.destinationAccount, l.usdcAccount, plan.selling, plan.minimumOut), refreshed)
        == Ok(g.sold)
    && g.raised == Amount(g.sold, l.usdcAccount) - Amount(refreshed, l.usdcAccount)
    && DebtInWholeUnits(l, g.sold).Ok?
    && 0 < g.repaying == Smaller(Smaller(plan.repayNeeded, g.raised), DebtInWholeUnits(l, g.sold).value)
    && g.bounty == Smaller(plan.bountyWanted, g.raised - g.repaying)
    && Repay(env.market, l, g.sold, g.repaying) == Ok(g.repaid)
    && PayBounty(l, env, g.repaid, g.bounty) == Ok(g.paid)
    && Refresh(env.market, l, g.paid) == Ok(g.settled)
  }

  lemma TheTradeOfAProtect(l: Layout, env: Environment, refreshed: Accounts, plan: ProtectPlan, g: ProtectSteps)
    requires ReadPositionLedger(l, refreshed).Ok?
    requires SellAndRepay(l, env, ReadPositionLedger(l, refreshed).value, plan, refreshed) == Ok(g)
    ensures ProtectsThrough(l, env, refreshed, plan, g)
  {
    var sale := SellFor(l, env, ReadPositionLedger(l, refreshed).value.usdcBalance, plan.selling, plan.minimumOut,
        refreshed).value;
    TheSaleOfAProtect(l, env, Amount(refreshed, l.usdcAccount), plan, refreshed, sale.0, sale.1);
    TheRepaymentOfAProtect(l, env, plan, sale.1, sale.0, g);
  }

  lemma TheSaleOfAProtect(l: Layout, env: Environment, usdcBefore: u64, plan: ProtectPlan, refreshed: Accounts,
                          sold: Accounts, raised: u64)
    requires SellFor(l, env, usdcBefore, plan.selling, plan.minimumOut, refreshed) == Ok((sold, raised))
    ensures Swapped(l, env, JupiterSwap(l.destinationAccount, l.usdcAccount, plan.selling, plan.minimumOut),
        refreshed) == Ok(sold)
    ensures raised == Amount(sold, l.usdcAccount) - usdcBefore
  {
  }

  lemma TheRepaymentOfAProtect(l: Layout, env: Environment, plan: ProtectPlan, raised: u64, sold: Accounts,
                               g: ProtectSteps)
    requires RepayAndReward(l, env, plan, raised, sold) == Ok(g)
    ensures g.sold == sold && g.raised == raised && DebtInWholeUnits(l, g.sold).Ok?
    ensures 0 < g.repaying == Smaller(Smaller(plan.repayNeeded, g.raised), DebtInWholeUnits(l, g.sold).value)
    ensures g.bounty == Smaller(plan.bountyWanted, g.raised - g.repaying)
    ensures Repay(env.market, l, g.sold, g.repaying) == Ok(g.repaid)
    ensures PayBounty(l, env, g.repaid, g.bounty) == Ok(g.paid)
    ensures Refresh(env.market, l, g.paid) == Ok(g.settled)
  {
  }

  /** The sale of a protect, and the payments out of it. */
  lemma AProtectSellsAndPays(l: Layout, env: Environment, p: Position, before: Accounts, refreshed: Accounts,
                             plan: ProtectPlan, g: ProtectSteps, swap: JupiterSwap)
    requires l.Distinct() && ReadRecord(l, before) == Ok(p) && RefreshedFrom(l, env.market, before, refreshed)
    requires swap == JupiterSwap(l.destinationAccount, l.usdcAccount, plan.selling, plan.minimumOut)
    requires ProtectsThrough(l, env, refreshed, plan, g)
    ensures SwappedWithinBounds(l, env, swap, refreshed, g.sold) && ReadRecord(l, g.sold) == Ok(p)
    ensures ReadLoan(g.sold, l.obligation) == Ok(Refreshed(env.market, ReadLoan(before, l.obligation).value))
    ensures DebtInWholeUnits(l, g.sold) == Ok(WholeUnitsRoundingUp(ReadLoan(g.sold, l.obligation).value.debtScaled))
    ensures PaidFrom(l, env, g.sold, g.paid, g.repaying, g.bounty)
  {
    TheRecordSurvivesARefresh(l, env.market, p, before, refreshed);
    ACommittedSwap(l, env, swap, refreshed, g.sold);
    TheDebtThroughTheSale(l, env, p, swap, before, refreshed, g.sold);
    RepayingOnly(l, env.market, g.sold, g.repaid, g.repaying);
    Paying(l, env, g.sold, g.repaid, g.paid, g.repaying, g.bounty);
  }

  lemma AProtectStaysWithinBounds(l: Layout, env: Environment, p: Position, before: Accounts, refreshed: Accounts,
                                  plan: ProtectPlan, g: ProtectSteps)
    requires l.Distinct() && ReadRecord(l, before) == Ok(p) && Refresh(env.market, l, before) == Ok(refreshed)
    requires ProtectsThrough(l, env, refreshed, plan, g) && ReadPositionLedger(l, refreshed).Ok?
    requires ProtectChecks(l, p, ReadPositionLedger(l, refreshed).value, g.settled).Ok?
    ensures ProtectedWithinBounds(l, env.market, before, g.settled, plan, g)
    ensures ReadRecord(l, g.settled) == Ok(p)
    ensures OutOfTheRoutersReach(l, env, before) ==> OwnerLosesNothing(l, before, g.settled)
    ensures TheRouterConserves(l, env) ==> Conserves(before, g.settled)
  {
    var swap := JupiterSwap(l.destinationAccount, l.usdcAccount, plan.selling, plan.minimumOut);
    Refreshing(l, env.market, before, refreshed);
    AProtectSellsAndPays(l, env, p, before, refreshed, plan, g, swap);
    Refreshing(l, env.market, g.paid, g.settled);
    PassingTheChecksMeans(l, refreshed, MustNotMove, BoundsCheckedAroundTheCall, g.settled);
    ProtectedFrom(l, env, p, before, refreshed, plan, g, swap);
    if OutOfTheRoutersReach(l, env, before) {
      TheOwnerThroughAProtect(l, env, before, refreshed, g);
    }
    if TheRouterConserves(l, env) {
      AProtectConserves(l, env, before, refreshed, plan, g);
    }
  }

  lemma AProtectConserves(l: Layout, env: Environment, before: Accounts, refreshed: Accounts, plan: ProtectPlan,
                          g: ProtectSteps)
    requires Conserves(before, refreshed) && ProtectsThrough(l, env, refreshed, plan, g) && TheRouterConserves(l, env)
    requires Conserves(g.sold, g.paid)
    ensures Conserves(before, g.settled)
  {
    ASwapConserves(l, env, JupiterSwap(l.destinationAccount, l.usdcAccount, plan.selling, plan.minimumOut), refreshed,
        g.sold);
    RefreshConserves(env.market, l, g.paid);
    ConservesInTurn(before, refreshed, g.sold);
    ConservesInTurn(before, g.sold, g.paid);
    ConservesInTurn(before, g.paid, g.settled);
  }

  lemma TheRecordSurvivesARefresh(l: Layout, m: Market, p: Position, before: Accounts, refreshed: Accounts)
    requires l.Distinct() && ReadRecord(l, before) == Ok(p) && RefreshedFrom(l, m, before, refreshed)
    ensures ReadRecord(l, refreshed) == Ok(p)
  {
    NoTwoAddressesCollide(l);
  }

  lemma TheDebtThroughTheSale(l: Layout, env: Environment, p: Position, swap: JupiterSwap, before: Accounts,
                              refreshed: Accounts, sold: Accounts)
    requires ReadRecord(l, refreshed) == Ok(p) && RefreshedFrom(l, env.market, before, refreshed)
    requires SwappedWithinBounds(l, env, swap, refreshed, sold) && DebtInWholeUnits(l, sold).Ok?
    ensures ReadLoan(sold, l.obligation) == Ok(Refreshed(env.market, ReadLoan(before, l.obligation).value))
    ensures DebtInWholeUnits(l, sold).value == WholeUnitsRoundingUp(ReadLoan(sold, l.obligation).value.debtScaled)
    ensures ReadRecord(l, sold) == Ok(p)
  {
  }

  /** The bounds of a protect from those of its steps. */
  lemma ProtectedFrom(l: Layout, env: Environment, p: Position, before: Accounts, refreshed: Accounts,
                      plan: ProtectPlan, g: ProtectSteps, swap: JupiterSwap)
    requires l.Distinct() && RefreshedFrom(l, env.market, before, refreshed)
    requires swap == JupiterSwap(l.destinationAccount, l.usdcAccount, plan.selling, plan.minimumOut)
    requires SwappedWithinBounds(l, env, swap, refreshed, g.sold) && ReadRecord(l, g.sold) == Ok(p)
    requires ReadLoan(g.sold, l.obligation) == Ok(Refreshed(env.market, ReadLoan(before, l.obligation).value))
    requires g.raised == Amount(g.sold, l.usdcAccount) - Amount(refreshed, l.usdcAccount)
    requires 0 < g.repaying == Smaller(Smaller(plan.repayNeeded, g.raised),
        WholeUnitsRoundingUp(ReadLoan(g.sold, l.obligation).value.debtScaled))
    requires g.bounty == Smaller(plan.bountyWanted, g.raised - g.repaying)
    requires PaidFrom(l, env, g.sold, g.paid, g.repaying, g.bounty)
    requires RefreshedFrom(l, env.market, g.paid, g.settled)
    requires Custody(l, g.settled) && NoLamportsTaken(l, refreshed, g.settled)
    requires Amount(g.settled, l.collateralAccount) == Amount(refreshed, l.collateralAccount)
    requires CollateralIn(g.settled, l.obligation) == CollateralIn(refreshed, l.obligation)
    ensures ProtectedWithinBounds(l, env.market, before, g.settled, plan, g)
    ensures ReadRecord(l, g.settled) == Ok(p)
  {
    NoTwoAddressesCollide(l);
  }

  lemma TheOwnerThroughAProtect(l: Layout, env: Environment, before: Accounts, refreshed: Accounts, g: ProtectSteps)
    requires l.Distinct() && OutOfTheRoutersReach(l, env, before)
    requires UntouchedBut(before, refreshed, {l.obligation}) && RuntimeAllows(RouterCall(l, env), refreshed, g.sold)
    requires PaidFrom(l, env, g.sold, g.paid, g.repaying, g.bounty) && UntouchedBut(g.paid, g.settled, {l.obligation})
    ensures OwnerLosesNothing(l, before, g.settled)
  {
    NoTwoAddressesCollide(l);
    TheRouterTakesNothingFromTheOwner(l, env, refreshed, g.sold);
  }

  // ----- the theorem

  /** A plan was made behind open gates, at the sizes the rules name, on the refreshed loan and everything held. */
  lemma APlanOfAProtectIsSized(l: Layout, env: Environment, p: Position, ownerMinimum: u64, before: Accounts,
                               refreshed: Accounts, plan: ProtectPlan)
    requires l.Distinct() && p.state == Open && env.config.destinationIsListed
    requires Refresh(env.market, l, before) == Ok(refreshed)
    requires PrepareProtect(l, env, p, ownerMinimum, refreshed) == Ok(plan)
    ensures ReadLoan(before, l.obligation).Ok? && Amount(before, l.destinationAccount) < TWO_TO_THE_64
    ensures var o := Refreshed(env.market, ReadLoan(before, l.obligation).value);
      && ProtectIsOpen(env, p, o) && ProtectIsSized(env, p, o, Amount(before, l.destinationAccount), plan)
      && LeastRaised(env, p, ownerMinimum, plan.selling) == Ok(plan.minimumOut)
  {
    NoTwoAddressesCollide(l);
    TheProtectGatesAgree(l, env, p, refreshed);
    ThePlanIsSizedOnTheRefreshedLoan(l, env, p, ownerMinimum, refreshed, plan);
    AProtectIsPlannedExactly(env, p, Refreshed(env.market, ReadLoan(before, l.obligation).value),
                             Amount(before, l.destinationAccount), ownerMinimum, plan);
  }

  /**
   * What the chain lets a protect do. Every gate was open; the repayment, the bounty and the sale are sized by the
   * rules; the sale raised at least the owner's minimum or, for anyone else, the oracle's floor for that very sale,
   * capped or not; and the loan to value ends at or under the target unless everything was sold.
   */
  ghost predicate ProtectedByTheRules(l: Layout, env: Environment, ownerMinimum: u64, p: Position, before: Accounts,
                                      plan: ProtectPlan, g: ProtectSteps, after: Accounts) {
    && ProtectedWithinBounds(l, env.market, before, after, plan, g)
    && Amount(before, l.destinationAccount) < TWO_TO_THE_64
    && var o := Refreshed(env.market, ReadLoan(before, l.obligation).value);
    && ProtectIsOpen(env, p, o) && ProtectIsSized(env, p, o, Amount(before, l.destinationAccount), plan)
    && LeastRaised(env, p, ownerMinimum, plan.selling).Ok?
    && g.raised >= LeastRaised(env, p, ownerMinimum, plan.selling).value
    && LoanToValue(l, after).Ok?
    && (LoanToValue(l, after).value <= p.strategy.targetLtvBps || Amount(after, l.destinationAccount) == 0)
    && p.protectCount + 1 <= 0xFFFF_FFFF && p.usdcFromSalesTotal + g.raised < TWO_TO_THE_64
    && p.usdcRepaidTotal + g.repaying < TWO_TO_THE_64
    && ReadRecord(l, after) == Ok(p.(
         lastProtectAt := env.now, protectCount := p.protectCount + 1,
         usdcFromSalesTotal := p.usdcFromSalesTotal + g.raised,
         usdcRepaidTotal := p.usdcRepaidTotal + g.repaying,
         usdcOwedAtLeave := SaturatingSub(p.usdcOwedAtLeave, g.repaying)))
  }

  /** The unfolding of `Protect`. */
  lemma TheStepsOfAProtect(l: Layout, env: Environment, ownerMinimum: u64, before: Accounts)
    returns (p: Position, refreshed: Accounts, plan: ProtectPlan, g: ProtectSteps, protected: Position)
    requires Protect(l, env, ownerMinimum, before).Ok?
    ensures ReadRecord(l, before) == Ok(p) && p.state == Open && env.config.destinationIsListed
    ensures Refresh(env.market, l, before) == Ok(refreshed)
    ensures PrepareProtect(l, env, p, ownerMinimum, refreshed) == Ok(plan) && ReadPositionLedger(l, refreshed).Ok?
    ensures SellAndRepay(l, env, ReadPositionLedger(l, refreshed).value, plan, refreshed) == Ok(g)
    ensures ProtectChecks(l, p, ReadPositionLedger(l, refreshed).value, g.settled).Ok?
    ensures ProtectRecord(env, p, g.raised, g.repaying) == Ok(protected)
    ensures Protect(l, env, ownerMinimum, before) == Ok(WriteRecord(l, g.settled, protected))
  {
    p := ReadRecord(l, before).value;
    refreshed := Refresh(env.market, l, before).value;
    plan := PrepareProtect(l, env, p, ownerMinimum, refreshed).value;
    g := SellAndRepay(l, env, ReadPositionLedger(l, refreshed).value, plan, refreshed).value;
    protected := ProtectRecord(env, p, g.raised, g.repaying).value;
  }

  /** A committed protect, for every router and every market. */
  lemma ACommittedProtect(l: Layout, env: Environment, ownerMinimum: u64, before: Accounts)
    returns (plan: ProtectPlan, g: ProtectSteps)
    requires l.Distinct() && Protect(l, env, ownerMinimum, before).Ok?
    ensures Refresh(env.market, l, before).Ok?
    ensures PrepareProtect(l, env, ReadRecord(l, before).value, ownerMinimum, Refresh(env.market, l, before).value)
         == Ok(plan)
    ensures var after := Protect(l, env, ownerMinimum, before).value;
      && ProtectedByTheRules(l, env, ownerMinimum, ReadRecord(l, before).value, before, plan, g, after)
      && (OutOfTheRoutersReach(l, env, before) ==> OwnerLosesNothing(l, before, after))
      && (TheRouterConserves(l, env) ==> Conserves(before, after))
  {
    var p, refreshed, protected;
    p, refreshed, plan, g, protected := TheStepsOfAProtect(l, env, ownerMinimum, before);
    FromTheStepsOfAProtect(l, env, ownerMinimum, before, p, refreshed, plan, g, protected);
    WhatAProtectLeavesAlone(l, env, before, p, refreshed, plan, g, protected);
  }

  lemma FromTheStepsOfAProtect(l: Layout, env: Environment, ownerMinimum: u64, before: Accounts, p: Position,
                               refreshed: Accounts, plan: ProtectPlan, g: ProtectSteps, protected: Position)
    requires l.Distinct() && ReadRecord(l, before) == Ok(p) && p.state == Open && env.config.destinationIsListed
    requires Refresh(env.market, l, before) == Ok(refreshed) && ReadPositionLedger(l, refreshed).Ok?
    requires PrepareProtect(l, env, p, ownerMinimum, refreshed) == Ok(plan)
    requires SellAndRepay(l, env, ReadPositionLedger(l, refreshed).value, plan, refreshed) == Ok(g)
    requires ProtectChecks(l, p, ReadPositionLedger(l, refreshed).value, g.settled).Ok?
    requires ProtectRecord(env, p, g.raised, g.repaying) == Ok(protected)
    ensures ProtectedByTheRules(l, env, ownerMinimum, p, before, plan, g, WriteRecord(l, g.settled, protected))
  {
    APlanOfAProtectIsSized(l, env, p, ownerMinimum, before, refreshed, plan);
    TheTradeOfAProtect(l, env, refreshed, plan, g);
    AProtectStaysWithinBounds(l, env, p, before, refreshed, plan, g);
    TheRecordAfterAProtect(l, env.market, before, p, plan, g, protected);
    ProtectingByTheRules(l, env, ownerMinimum, before, p, plan, g, protected, WriteRecord(l, g.settled, protected));
  }

  lemma WhatAProtectLeavesAlone(l: Layout, env: Environment, before: Accounts, p: Position, refreshed: Accounts,
                                plan: ProtectPlan, g: ProtectSteps, protected: Position)
    requires l.Distinct() && ReadRecord(l, before) == Ok(p)
    requires Refresh(env.market, l, before) == Ok(refreshed) && ReadPositionLedger(l, refreshed).Ok?
    requires SellAndRepay(l, env, ReadPositionLedger(l, refreshed).value, plan, refreshed) == Ok(g)
    requires ProtectChecks(l, p, ReadPositionLedger(l, refreshed).value, g.settled).Ok?
    ensures var after := WriteRecord(l, g.settled, protected);
      && (OutOfTheRoutersReach(l, env, before) ==> OwnerLosesNothing(l, before, after))
      && (TheRouterConserves(l, env) ==> Conserves(before, after))
  {
    TheTradeOfAProtect(l, env, refreshed, plan, g);
    AProtectStaysWithinBounds(l, env, p, before, refreshed, plan, g);
    TheRecordAfterAProtect(l, env.market, before, p, plan, g, protected);
    if TheRouterConserves(l, env) {
      WritingTheRecordConserves(l, g.settled, protected);
      ConservesInTurn(before, g.settled, WriteRecord(l, g.settled, protected));
    }
  }

  lemma TheRecordAfterAProtect(l: Layout, m: Market, before: Accounts, p: Position, plan: ProtectPlan, g: ProtectSteps,
                               protected: Position)
    requires l.Distinct() && ReadRecord(l, g.settled) == Ok(p)
    requires ProtectedWithinBounds(l, m, before, g.settled, plan, g)
    ensures var after := WriteRecord(l, g.settled, protected);
      && ReadRecord(l, after) == Ok(protected) && ProtectedWithinBounds(l, m, before, after, plan, g)
      && LoanToValue(l, after) == LoanToValue(l, g.settled)
      && Amount(after, l.destinationAccount) == Amount(g.settled, l.destinationAccount)
      && (OwnerLosesNothing(l, before, g.settled) ==> OwnerLosesNothing(l, before, after))
  {
    NoTwoAddressesCollide(l);
  }

  lemma ProtectingByTheRules(l: Layout, env: Environment, ownerMinimum: u64, before: Accounts, p: Position,
                             plan: ProtectPlan, g: ProtectSteps, protected: Position, after: Accounts)
    requires ReadRecord(l, after) == Ok(protected) && Amount(before, l.destinationAccount) < TWO_TO_THE_64
    requires ProtectedWithinBounds(l, env.market, before, after, plan, g)
    requires var o := Refreshed(env.market, ReadLoan(before, l.obligation).value);
      ProtectIsOpen(env, p, o) && ProtectIsSized(env, p, o, Amount(before, l.destinationAccount), plan)
    requires LeastRaised(env, p, ownerMinimum, plan.selling) == Ok(plan.minimumOut)
    requires ProtectRecord(env, p, g.raised, g.repaying) == Ok(protected)
    requires LoanToValue(l, after).Ok?
    requires LoanToValue(l, after).value <= p.strategy.targetLtvBps || Amount(after, l.destinationAccount) == 0
    ensures ProtectedByTheRules(l, env, ownerMinimum, p, before, plan, g, after)
  {
  }

  // ----- how much a protect raises

  /** What the plan wants to raise is what the app's arithmetic raises, whenever both are sized. */
  lemma ThePlanWantsWhatTheAppRaises(sale: Guard.ProtectSale)
    requires Guard.DestinationToSell(sale).Ok?
    ensures CoreGuard.UncappedSale(Refinement.Sale(sale)).Ok?
    ensures var amounts := Guard.GuardAmounts(sale.adjustedDebtValueScaled, sale.depositedValueScaled,
                                              sale.targetLtvBps,
                                              sale.keeperBountyBps, sale.borrowFactorPct);
      && amounts.Ok?
      && var repay := Scope.RawAmountWorthRoundingUp(amounts.value.repayUsdScaled, sale.usdcDecimals,
                                                     sale.usdcPriceScaled);
      && var bounty := Scope.RawAmountWorthRoundingDown(amounts.value.bountyUsdScaled, sale.usdcDecimals,
          sale.usdcPriceScaled);
      && repay.Ok? && bounty.Ok?
      && CoreGuard.UsdcToRaise(Refinement.Sale(sale))
           == Ok(repay.value + Smaller(bounty.value, sale.keeperBountyCapUsdc))
  {
    Refinement.ProtectSalesAgree(sale);
    Refinement.ProtectAmountsAgree(sale.adjustedDebtValueScaled, sale.depositedValueScaled, sale.targetLtvBps,
                                   sale.keeperBountyBps, sale.borrowFactorPct);
    var amounts := Guard.GuardAmounts(sale.adjustedDebtValueScaled, sale.depositedValueScaled, sale.targetLtvBps,
                                      sale.keeperBountyBps, sale.borrowFactorPct).value;
    Refinement.RawAmountsAgree(amounts.repayUsdScaled, sale.usdcDecimals, sale.usdcPriceScaled);
    Refinement.RawAmountsAgree(amounts.bountyUsdScaled, sale.usdcDecimals, sale.usdcPriceScaled);
  }

  /**
   * Unless what is held caps the sale, the least a stranger's protect may raise is at most three raw units of
   * USDC short of the repayment and the bounty together.
   */
  lemma AnUncappedPlanRaisesEnough(env: Environment, p: Position, o: Obligation, destinationHeld: u64,
                                   ownerMinimum: u64, plan: ProtectPlan)
    requires PlanProtect(env, p, o, destinationHeld, ownerMinimum) == Ok(plan)
    requires env.caller != p.owner && plan.selling < destinationHeld
    requires Scope.UsdPerWholeTokenScaled(env.usdcPrice).value >= Pow10(env.usdcDecimals)
    ensures plan.minimumOut + 3 >= plan.repayNeeded + plan.bountyWanted
  {
    var usdcPrice, destinationPrice := Scope.UsdPerWholeTokenScaled(env.usdcPrice).value,
        Scope.UsdPerWholeTokenScaled(env.destinationPrice).value;
    var sale := SaleOf(env, p, o, destinationHeld, usdcPrice, destinationPrice);
    ThePlanWantsWhatTheAppRaises(sale);
    Refinement.ProtectSalesAgree(sale);
    Refinement.FloorsAgree(Scope.SwapSide(plan.selling, env.destinationDecimals, destinationPrice), env.usdcDecimals,
                           usdcPrice, env.config.maxSlippageBps);
    ProtectSale.TheWorstFillIsAtMostThreeUnitsShort(Refinement.Sale(sale));
  }

  /**
   * So a stranger's protect that is not capped repays all it needed or the whole debt, or at worst three raw units
   * less.
   */
  lemma AnUncappedProtectRepaysWhatItNeeded(l: Layout, env: Environment, p: Position, o: Obligation,
                                            destinationHeld: u64, ownerMinimum: u64,
                                            before: Accounts, after: Accounts, plan: ProtectPlan, g: ProtectSteps)
    requires PlanProtect(env, p, o, destinationHeld, ownerMinimum) == Ok(plan)
    requires env.caller != p.owner && plan.selling < destinationHeld
    requires Scope.UsdPerWholeTokenScaled(env.usdcPrice).value >= Pow10(env.usdcDecimals)
    requires ProtectedByTheRules(l, env, ownerMinimum, p, before, plan, g, after)
    ensures var debt := WholeUnitsRoundingUp(Refreshed(env.market, ReadLoan(before, l.obligation).value).debtScaled);
      ReadRecord(l, after).value.usdcRepaidTotal - p.usdcRepaidTotal >= Smaller(plan.repayNeeded - 3, debt)
  {
    AnUncappedPlanRaisesEnough(env, p, o, destinationHeld, ownerMinimum, plan);
  }

  lemma ThePlanIsSizedOnTheRefreshedLoan(l: Layout, env: Environment, p: Position, ownerMinimum: u64,
                                         refreshed: Accounts, plan: ProtectPlan)
    requires PrepareProtect(l, env, p, ownerMinimum, refreshed) == Ok(plan)
    ensures ReadLoan(refreshed, l.obligation).Ok? && Amount(refreshed, l.destinationAccount) < TWO_TO_THE_64
    ensures PlanProtect(env, p, ReadLoan(refreshed, l.obligation).value, Amount(refreshed, l.destinationAccount),
        ownerMinimum) == Ok(plan)
  {
  }
}
