// Whole runs of a position: transactions with arbitrary routers, markets, clocks and callers, and whatever happens
// between them.
module Runs {
  import opened Arithmetic
  import opened Outcomes
  import opened Positions
  import opened Runtime
  import opened Invariants
  import opened Market
  import opened Instructions
  import opened Gates
  import opened Steps
  import Depositing
  import Growing
  import Leaving
  import Protecting

  datatype Instruction =
    | Buys(minimumDestination: u64)
    | Grows(ownerMinimum: u64)
    | Protects(ownerMinimum: u64)
    | Leaves
    | Adds(amount: u64)
    | Closes

  function Execute(l: Layout, env: Environment, i: Instruction, accounts: Accounts): Checked<Accounts> {
    match i
    case Buys(minimumDestination) => BuyDestination(l, env, minimumDestination, accounts)
    case Grows(ownerMinimum) => Grow(l, env, ownerMinimum, accounts)
    case Protects(ownerMinimum) => Protect(l, env, ownerMinimum, accounts)
    case Leaves => Leave(l, env, accounts)
    case Adds(amount) => AddCollateral(l, env, amount, accounts)
    case Closes => ClosePosition(l, env, accounts)
  }

  /** A transaction commits whole or leaves everything as it was. */
  function AfterTransaction(l: Layout, env: Environment, i: Instruction, accounts: Accounts): Accounts {
    match Execute(l, env, i, accounts)
    case Ok(after) => after
    case Err(_) => accounts
  }

  /** How far along its life the position is; an account that is gone is past every state. */
  function Stage(l: Layout, accounts: Accounts): int {
    match ReadRecord(l, accounts)
    case Ok(p) => Rank(p.state)
    case Err(_) => 4
  }

  const CLOSED_STAGE := 3
  const GONE_STAGE := 4

  // ----- one committed transaction

  /** Only a grow touches what paces grows, and only a protect what paces protects; a grow waits first. */
  ghost predicate Paced(env: Environment, i: Instruction, p: Position, q: Position) {
    && (if i.Grows? then
          && WaitedOut(p.lastGrowAt, env.now, env.config.minGrowIntervalSeconds)
          && q.lastGrowAt == env.now && q.growCount == p.growCount + 1
        else
          q.lastGrowAt == p.lastGrowAt && q.growCount == p.growCount)
    && (if i.Protects? then
          q.lastProtectAt == env.now && q.protectCount == p.protectCount + 1
        else
          q.lastProtectAt == p.lastProtectAt && q.protectCount == p.protectCount)
  }

  /** What every instruction asks of its caller, of the record and of the market before it commits. */
  ghost predicate WasOpen(l: Layout, env: Environment, i: Instruction, p: Position, before: Accounts) {
    match i
    case Buys(minimumDestination) =>
      && env.caller == p.owner == l.owner && p.state == AwaitingSwap && env.config.collateralIsEnabled
      && minimumDestination > 0 && Amount(before, l.usdcAccount) > 0
    case Grows(_) =>
      && ReadLoan(before, l.obligation).Ok?
      && GrowIsOpen(env, p, Refreshed(env.market, ReadLoan(before, l.obligation).value))
    case Protects(_) =>
      && ReadLoan(before, l.obligation).Ok?
      && ProtectIsOpen(env, p, Refreshed(env.market, ReadLoan(before, l.obligation).value))
    case Leaves => l.owner == p.owner && LeaveIsOpen(env, p, Amount(before, l.destinationAccount))
    case Adds(amount) => env.caller == p.owner == l.owner && p.state != Closed && amount > 0
    case Closes =>
      && env.caller == p.owner == l.owner
      && ObligationBorrowedAmountScaled(before, l.obligation) == Ok(0)
      && ObligationDepositedAmount(before, l.obligation) == Ok(0)
      && Amount(before, l.collateralAccount) == Amount(before, l.usdcAccount) == Amount(before, l.destinationAccount)
         == 0
  }

  /** The state each instruction leaves the record in. */
  predicate MovesTheState(i: Instruction, was: PositionState, is_: PositionState) {
    match i
    case Buys(_) => was == AwaitingSwap && is_ == Open
    case Grows(_) => was == is_ == Open
    case Protects(_) => was == is_ == Open
    case Leaves => was != Closed && (is_ == Closing || is_ == Closed)
    case Adds(_) => was == is_ != Closed
    case Closes => false
  }

  /** The stock stays in the wallet and in the market, but for what an addition deposits. */
  ghost predicate StockMovesOnlyIn(l: Layout, env: Environment, i: Instruction, before: Accounts, after: Accounts) {
    && Amount(after, l.collateralAccount) == Amount(before, l.collateralAccount)
    && CollateralIn(after, l.obligation)
        == CollateralIn(before, l.obligation) + (if i.Adds? then env.market.minted(i.amount) else 0)
  }

  /** The owner loses nothing but the stock an addition takes. */
  ghost predicate OwnerPaysOnlyIn(l: Layout, i: Instruction, before: Accounts, after: Accounts) {
    && Amount(after, l.ownerCollateralAccount)
         >= Amount(before, l.ownerCollateralAccount) - (if i.Adds? then i.amount else 0)
    && Amount(after, l.ownerUsdcAccount) >= Amount(before, l.ownerUsdcAccount)
    && Amount(after, l.ownerDestinationAccount) >= Amount(before, l.ownerDestinationAccount)
  }

  /**
   * No swap took more than it was let, and every swap brought in at least what was asked: the owner's minimum in a
   * buy; in a grow or a protect the owner's minimum or, for anyone else, the oracle floor of the very amount borrowed
   * or sold; the oracle floor of everything held in a leave.
   */
  ghost predicate TradedWithinBounds(l: Layout, env: Environment, i: Instruction, p: Position, before: Accounts,
                                     after: Accounts) {
    match i
    case Buys(minimumDestination) =>
      && Amount(after, l.usdcAccount) <= Amount(before, l.usdcAccount)
      && Amount(after, l.destinationAccount) >= Amount(before, l.destinationAccount) + minimumDestination
    case Grows(ownerMinimum) =>
      && ReadRecord(l, after).Ok?
      && var borrowing := ReadRecord(l, after).value.usdcBorrowedTotal - p.usdcBorrowedTotal;
      && borrowing > 0 && LeastBought(env, p, ownerMinimum, borrowing).Ok?
      && Amount(after, l.usdcAccount) >= Amount(before, l.usdcAccount)
      && Amount(after, l.destinationAccount)
         >= Amount(before, l.destinationAccount) + LeastBought(env, p, ownerMinimum, borrowing).value
    case Protects(ownerMinimum) =>
      && ReadLoan(before, l.obligation).Ok? && ReadRecord(l, after).Ok?
      && Amount(before, l.destinationAccount) < TWO_TO_THE_64
      && exists plan :: ProtectedToPlan(l, env, ownerMinimum, p, before, ReadRecord(l, after).value, after, plan)
    case Leaves =>
      && ReadRecord(l, after).Ok?
      && ReadRecord(l, after).value.usdcFromSalesTotal
         >= p.usdcFromSalesTotal + Leaving.FloorOfTheSale(l, env, before)
    case Adds(_) => true
    case Closes => true
  }

  /** A protect by its plan: no more sold than it planned, and at least that sale's minimum raised. */
  ghost predicate ProtectedToPlan(l: Layout, env: Environment, ownerMinimum: u64, p: Position, before: Accounts,
                                  q: Position, after: Accounts, plan: ProtectPlan)
    requires ReadLoan(before, l.obligation).Ok? && Amount(before, l.destinationAccount) < TWO_TO_THE_64
  {
    && ProtectIsSized(env, p, Refreshed(env.market, ReadLoan(before, l.obligation).value),
                      Amount(before, l.destinationAccount), plan)
    && LeastRaised(env, p, ownerMinimum, plan.selling).Ok?
    && Amount(after, l.destinationAccount) >= Amount(before, l.destinationAccount) - plan.selling
    && q.usdcFromSalesTotal >= p.usdcFromSalesTotal + LeastRaised(env, p, ownerMinimum, plan.selling).value
  }

  /** Everything a committed transaction promises, whichever instruction it runs. */
  ghost predicate Advances(l: Layout, env: Environment, i: Instruction, before: Accounts, after: Accounts) {
    && ReadRecord(l, before).Ok?
    && var p := ReadRecord(l, before).value;
    && Stage(l, before) <= Stage(l, after)
    && WasOpen(l, env, i, p, before)
    && (p.state == Closed ==> i.Closes?)
    && TradedWithinBounds(l, env, i, p, before, after)
    && (if i.Closes? then Stage(l, after) == GONE_STAGE
        else
          && ReadRecord(l, after).Ok?
          && MovesTheState(i, p.state, ReadRecord(l, after).value.state)
          && Paced(env, i, p, ReadRecord(l, after).value)
          && Custody(l, after) && NoLamportsTaken(l, before, after)
          && (Stage(l, after) < CLOSED_STAGE ==> StockMovesOnlyIn(l, env, i, before, after)))
    && (OutOfTheRoutersReach(l, env, before) ==> OwnerPaysOnlyIn(l, i, before, after))
    && (TheRouterConserves(l, env) ==> Conserves(before, after))
  }

  lemma ABuyAdvances(l: Layout, env: Environment, minimumDestination: u64, before: Accounts)
    requires l.Distinct() && BuyDestination(l, env, minimumDestination, before).Ok?
    ensures Advances(l, env, Buys(minimumDestination), before, BuyDestination(l, env, minimumDestination, before).value)
  {
    Growing.ACommittedBuy(l, env, minimumDestination, before);
  }

  /** What the rules of a grow mean for its gates, its trade and its pace. */
  lemma AGrowKeepsToItsRules(l: Layout, env: Environment, ownerMinimum: u64, p: Position, before: Accounts,
                             after: Accounts)
    requires ReadRecord(l, before) == Ok(p) && Growing.GrewByTheRules(l, env, ownerMinimum, p, before, after)
    ensures var i := Grows(ownerMinimum);
      && WasOpen(l, env, i, p, before) && TradedWithinBounds(l, env, i, p, before, after)
      && MovesTheState(i, p.state, ReadRecord(l, after).value.state)
      && Paced(env, i, p, ReadRecord(l, after).value)
  {
  }

  lemma AGrowAdvances(l: Layout, env: Environment, ownerMinimum: u64, before: Accounts)
    requires l.Distinct() && Grow(l, env, ownerMinimum, before).Ok?
    ensures Advances(l, env, Grows(ownerMinimum), before, Grow(l, env, ownerMinimum, before).value)
  {
    Growing.ACommittedGrow(l, env, ownerMinimum, before);
    AGrowKeepsToItsRules(l, env, ownerMinimum, ReadRecord(l, before).value, before,
                         Grow(l, env, ownerMinimum, before).value);
  }

  lemma AProtectKeepsToItsPlan(l: Layout, env: Environment, ownerMinimum: u64, p: Position, before: Accounts,
                               plan: ProtectPlan, g: ProtectSteps, after: Accounts)
    requires Protecting.ProtectedByTheRules(l, env, ownerMinimum, p, before, plan, g, after)
    ensures TradedWithinBounds(l, env, Protects(ownerMinimum), p, before, after)
  {
    assert ProtectedToPlan(l, env, ownerMinimum, p, before, ReadRecord(l, after).value, after, plan);
  }

  lemma AProtectAdvances(l: Layout, env: Environment, ownerMinimum: u64, before: Accounts)
    requires l.Distinct() && Protect(l, env, ownerMinimum, before).Ok?
    ensures Advances(l, env, Protects(ownerMinimum), before, Protect(l, env, ownerMinimum, before).value)
  {
    var plan, g := Protecting.ACommittedProtect(l, env, ownerMinimum, before);
    AProtectKeepsToItsPlan(l, env, ownerMinimum, ReadRecord(l, before).value, before, plan, g,
                           Protect(l, env, ownerMinimum, before).value);
  }

  /** What both endings of a leave mean for the stage, the pacing, the custody and the stock. */
  lemma AnEndingAdvances(l: Layout, env: Environment, p: Position, before: Accounts, sold: Accounts, after: Accounts)
    requires ReadRecord(l, before) == Ok(p) && p.state != Closed
    requires Leaving.EndsClosed(l, env, p, before, sold, after) || Leaving.EndsClosing(l, env, p, before, sold, after)
    ensures ReadRecord(l, after).Ok? && Paced(env, Leaves, p, ReadRecord(l, after).value)
    ensures MovesTheState(Leaves, p.state, ReadRecord(l, after).value.state)
    ensures TradedWithinBounds(l, env, Leaves, p, before, after)
    ensures Stage(l, before) <= Stage(l, after) && Custody(l, after) && NoLamportsTaken(l, before, after)
    ensures Stage(l, after) < CLOSED_STAGE ==> StockMovesOnlyIn(l, env, Leaves, before, after)
  {
  }

  lemma ALeaveAdvances(l: Layout, env: Environment, before: Accounts)
    requires l.Distinct() && Leave(l, env, before).Ok?
    ensures Advances(l, env, Leaves, before, Leave(l, env, before).value)
  {
    Leaving.ACommittedLeaveHasTwoOutcomes(l, env, before);
    AnEndingAdvances(l, env, ReadRecord(l, before).value, before, Leaving.Sold(l, env, before),
        Leave(l, env, before).value);
    if OutOfTheRoutersReach(l, env, before) {
      Leaving.TheOwnerLosesNothingByALeave(l, env, before);
    }
    if TheRouterConserves(l, env) {
      Leaving.ALeaveConserves(l, env, before);
    }
  }

  lemma AnAdditionAdvances(l: Layout, env: Environment, amount: u64, before: Accounts)
    requires l.Distinct() && AddCollateral(l, env, amount, before).Ok?
    ensures Advances(l, env, Adds(amount), before, AddCollateral(l, env, amount, before).value)
  {
    Depositing.ACommittedAddition(l, env, amount, before);
    NoTwoAddressesCollide(l);
  }

  lemma ACloseAdvances(l: Layout, env: Environment, before: Accounts)
    requires l.Distinct() && ClosePosition(l, env, before).Ok?
    ensures Advances(l, env, Closes, before, ClosePosition(l, env, before).value)
  {
    Depositing.ACommittedClose(l, env, before);
    NoTwoAddressesCollide(l);
  }

  lemma ATransactionAdvances(l: Layout, env: Environment, i: Instruction, before: Accounts)
    requires l.Distinct() && Execute(l, env, i, before).Ok?
    ensures Advances(l, env, i, before, Execute(l, env, i, before).value)
  {
    match i
    case Buys(minimumDestination) => ABuyAdvances(l, env, minimumDestination, before);
    case Grows(ownerMinimum) => AGrowAdvances(l, env, ownerMinimum, before);
    case Protects(ownerMinimum) => AProtectAdvances(l, env, ownerMinimum, before);
    case Leaves => ALeaveAdvances(l, env, before);
    case Adds(amount) => AnAdditionAdvances(l, env, amount, before);
    case Closes => ACloseAdvances(l, env, before);
  }

  // ----- runs

  datatype Step = Transaction(env: Environment, i: Instruction) | Outside

  /**
   * Between these transactions anything else may happen: the program's other instructions, payments, and whatever
   * the market does to the loan. The token accounts stay the position's alone and its rent stays where it is, the
   * position does not go back a stage, and only a grow touches what paces grows.
   */
  ghost predicate OutsideAllows(l: Layout, before: Accounts, after: Accounts) {
    && Stage(l, before) <= Stage(l, after)
    && (ReadRecord(l, after).Ok? ==>
          && ReadRecord(l, after).value.lastGrowAt == ReadRecord(l, before).value.lastGrowAt
          && ReadRecord(l, after).value.growCount == ReadRecord(l, before).value.growCount)
    && (Stage(l, after) < GONE_STAGE && Custody(l, before) ==> Custody(l, after) && NoLamportsTaken(l, before, after))
  }

  ghost predicate Takes(l: Layout, before: Accounts, step: Step, after: Accounts) {
    match step
    case Transaction(env, i) => after == AfterTransaction(l, env, i, before)
    case Outside => OutsideAllows(l, before, after)
  }

  ghost predicate Run(l: Layout, states: seq<Accounts>, steps: seq<Step>) {
    && |states| == |steps| + 1
    && forall k {:trigger Takes(l, states[k], steps[k], states[k + 1])} ::
         0 <= k < |steps| ==> Takes(l, states[k], steps[k], states[k + 1])
  }

  predicate Commits(l: Layout, before: Accounts, step: Step) {
    step.Transaction? && Execute(l, step.env, step.i, before).Ok?
  }

  /** Every step of a run either advances the position or leaves it what it was. */
  lemma EveryStep(l: Layout, states: seq<Accounts>, steps: seq<Step>, k: nat)
    requires l.Distinct() && Run(l, states, steps) && k < |steps|
    ensures Commits(l, states[k], steps[k]) ==> Advances(l, steps[k].env, steps[k].i, states[k], states[k + 1])
    ensures !Commits(l, states[k], steps[k]) ==> OutsideAllows(l, states[k], states[k + 1])
    ensures !Commits(l, states[k], steps[k]) && steps[k].Transaction? ==> states[k + 1] == states[k]
  {
    assert Takes(l, states[k], steps[k], states[k + 1]);
    if Commits(l, states[k], steps[k]) {
      ATransactionAdvances(l, steps[k].env, steps[k].i, states[k]);
    }
  }

  /**
   * Over every run each transaction that commits came through its gates, and its swap stays within the bounds of its
   * instruction, whatever its router.
   */
  lemma EverySwapMeetsItsFloor(l: Layout, states: seq<Accounts>, steps: seq<Step>, k: nat)
    requires l.Distinct() && Run(l, states, steps) && k < |steps| && Commits(l, states[k], steps[k])
    ensures ReadRecord(l, states[k]).Ok?
    ensures WasOpen(l, steps[k].env, steps[k].i, ReadRecord(l, states[k]).value, states[k])
    ensures TradedWithinBounds(l, steps[k].env, steps[k].i, ReadRecord(l, states[k]).value, states[k], states[k + 1])
  {
    EveryStep(l, states, steps, k);
  }

  // ----- the states go one way

  lemma OneStepNeverGoesBack(l: Layout, states: seq<Accounts>, steps: seq<Step>, k: nat)
    requires l.Distinct() && Run(l, states, steps) && k < |steps|
    ensures Stage(l, states[k]) <= Stage(l, states[k + 1])
  {
    EveryStep(l, states, steps, k);
  }

  /** Over every run a position never goes back: awaiting its swap, open, closing, closed, gone. */
  lemma {:induction false} TheStageNeverGoesBack(l: Layout, states: seq<Accounts>, steps: seq<Step>, early: nat,
                                                 late: nat)
    requires l.Distinct() && Run(l, states, steps) && early <= late <= |steps|
    ensures Stage(l, states[early]) <= Stage(l, states[late])
    decreases late
  {
    if early < late {
      TheStageNeverGoesBack(l, states, steps, early, late - 1);
      OneStepNeverGoesBack(l, states, steps, late - 1);
    }
  }

  /** Once closed nothing commits but the close, and once gone nothing does. */
  lemma ClosedAcceptsOnlyTheClose(l: Layout, states: seq<Accounts>, steps: seq<Step>, closed: nat, k: nat)
    requires l.Distinct() && Run(l, states, steps) && closed <= k < |steps|
    requires Stage(l, states[closed]) >= CLOSED_STAGE && Commits(l, states[k], steps[k])
    ensures steps[k].i.Closes? && Stage(l, states[closed]) == CLOSED_STAGE
  {
    TheStageNeverGoesBack(l, states, steps, closed, k);
    EveryStep(l, states, steps, k);
  }

  // ----- custody

  lemma OneStepKeepsCustody(l: Layout, states: seq<Accounts>, steps: seq<Step>, k: nat)
    requires l.Distinct() && Run(l, states, steps) && k < |steps|
    requires Custody(l, states[k]) && Stage(l, states[k + 1]) < GONE_STAGE
    ensures Custody(l, states[k + 1]) && NoLamportsTaken(l, states[k], states[k + 1])
  {
    EveryStep(l, states, steps, k);
  }

  lemma NoLamportsTakenInTurn(l: Layout, before: Accounts, between: Accounts, after: Accounts)
    requires NoLamportsTaken(l, before, between) && NoLamportsTaken(l, between, after)
    ensures NoLamportsTaken(l, before, after)
  {
  }

  /** The position's token accounts stay its alone, and its rent is never taken, for as long as it exists. */
  lemma {:induction false} TheTokenAccountsStayThePositions(l: Layout, states: seq<Accounts>, steps: seq<Step>, n: nat)
    requires l.Distinct() && Run(l, states, steps) && n <= |steps|
    requires Custody(l, states[0]) && Stage(l, states[n]) < GONE_STAGE
    ensures Custody(l, states[n]) && NoLamportsTaken(l, states[0], states[n])
  {
    if n > 0 {
      OneStepNeverGoesBack(l, states, steps, n - 1);
      TheTokenAccountsStayThePositions(l, states, steps, n - 1);
      OneStepKeepsCustody(l, states, steps, n - 1);
      NoLamportsTakenInTurn(l, states[0], states[n - 1], states[n]);
    }
  }

  // ----- the stock

  /** What one step adds to the collateral: what a committed addition was turned into. */
  function AddedAt(l: Layout, before: Accounts, step: Step): nat {
    if Commits(l, before, step) && step.i.Adds? then step.env.market.minted(step.i.amount) else 0
  }

  /** What the additions of a run were turned into. */
  ghost function AddedBy(l: Layout, states: seq<Accounts>, steps: seq<Step>, n: nat): nat
    requires n <= |steps| < |states|
  {
    if n == 0 then 0 else AddedBy(l, states, steps, n - 1) + AddedAt(l, states[n - 1], steps[n - 1])
  }

  /**
   * Nothing outside the program pays stock in or seizes collateral: the steps whose effect the theorem does not count.
   */
  ghost predicate NothingOutsideMovesTheStock(l: Layout, states: seq<Accounts>, steps: seq<Step>)
    requires |states| == |steps| + 1
  {
    forall k :: 0 <= k < |steps| && steps[k].Outside? ==>
      && Amount(states[k + 1], l.collateralAccount) == Amount(states[k], l.collateralAccount)
      && CollateralIn(states[k + 1], l.obligation) == CollateralIn(states[k], l.obligation)
  }

  lemma OneStepConservesTheStock(l: Layout, states: seq<Accounts>, steps: seq<Step>, k: nat)
    requires l.Distinct() && Run(l, states, steps) && k < |steps|
    requires NothingOutsideMovesTheStock(l, states, steps) && Stage(l, states[k + 1]) < CLOSED_STAGE
    ensures Amount(states[k + 1], l.collateralAccount) == Amount(states[k], l.collateralAccount)
    ensures CollateralIn(states[k + 1], l.obligation)
         == CollateralIn(states[k], l.obligation) + AddedAt(l, states[k], steps[k])
  {
    EveryStep(l, states, steps, k);
  }

  /**
   * Until the position closes, and whatever every router on the way does, the stock in the wallet is what it was
   * and the collateral in the market is what it was and what was added.
   */
  lemma {:induction false} TheStockIsConserved(l: Layout, states: seq<Accounts>, steps: seq<Step>, n: nat)
    requires l.Distinct() && Run(l, states, steps) && n <= |steps|
    requires NothingOutsideMovesTheStock(l, states, steps) && Stage(l, states[n]) < CLOSED_STAGE
    ensures Amount(states[n], l.collateralAccount) == Amount(states[0], l.collateralAccount)
    ensures CollateralIn(states[n], l.obligation)
         == CollateralIn(states[0], l.obligation) + AddedBy(l, states, steps, n)
  {
    if n > 0 {
      OneStepNeverGoesBack(l, states, steps, n - 1);
      TheStockIsConserved(l, states, steps, n - 1);
      OneStepConservesTheStock(l, states, steps, n - 1);
    }
  }

  // ----- the pace of growing

  /** A positive clock that never runs back, between `start` and `end`, and one interval throughout. */
  ghost predicate Clocked(steps: seq<Step>, start: int, end: int, interval: u64) {
    && 0 < start <= end
    && (forall k :: 0 <= k < |steps| && steps[k].Transaction? ==>
          start <= steps[k].env.now <= end && steps[k].env.config.minGrowIntervalSeconds == interval)
    && (forall j, k :: 0 <= j < k < |steps| && steps[j].Transaction? && steps[k].Transaction? ==>
        steps[j].env.now <= steps[k].env.now)
  }

  predicate IsAGrow(l: Layout, before: Accounts, step: Step) {
    Commits(l, before, step) && step.i.Grows?
  }

  /** How one step moves what paces grows; `last` and `count` are 0 where there is no record. */
  ghost predicate PacesOneStep(grows: bool, now: int, interval: int, last: int, last': int, count: int, count': int) {
    if grows then
      && last' == now && count' == count + 1
      && (last == 0 || now >= last + interval)
    else
      last' == last && count' == count
  }

  function LastGrowAt(l: Layout, accounts: Accounts): int {
    if ReadRecord(l, accounts).Ok? then ReadRecord(l, accounts).value.lastGrowAt else 0
  }

  function GrowsCounted(l: Layout, accounts: Accounts): int {
    if ReadRecord(l, accounts).Ok? then ReadRecord(l, accounts).value.growCount else 0
  }

  lemma EveryStepIsPaced(l: Layout, states: seq<Accounts>, steps: seq<Step>, k: nat, now: int, interval: int)
    requires l.Distinct() && Run(l, states, steps) && k < |steps| && ReadRecord(l, states[k + 1]).Ok?
    requires steps[k].Transaction? ==> now == steps[k].env.now && interval == steps[k].env.config.minGrowIntervalSeconds
    ensures ReadRecord(l, states[k]).Ok?
    ensures PacesOneStep(IsAGrow(l, states[k], steps[k]), now, interval,
                         LastGrowAt(l, states[k]), LastGrowAt(l, states[k + 1]),
                         GrowsCounted(l, states[k]), GrowsCounted(l, states[k + 1]))
  {
    EveryStep(l, states, steps, k);
  }

  function TimeOf(step: Step): int {
    if step.Transaction? then step.env.now else 0
  }

  function IntervalOf(step: Step): int {
    if step.Transaction? then step.env.config.minGrowIntervalSeconds else 0
  }

  /** The time a grow writes down is only ever replaced by a later one. */
  lemma {:induction false} TheLastGrowIsRemembered(l: Layout, states: seq<Accounts>, steps: seq<Step>, first: nat,
                                                   late: nat, start: int, end: int, interval: u64)
    requires l.Distinct() && Run(l, states, steps) && Clocked(steps, start, end, interval) && first < late <= |steps|
    requires steps[first].Transaction? && LastGrowAt(l, states[first + 1]) >= steps[first].env.now
    requires ReadRecord(l, states[late]).Ok?
    ensures LastGrowAt(l, states[late]) >= steps[first].env.now
    decreases late
  {
    var k := late - 1;
    if first < k {
      EveryStepIsPaced(l, states, steps, k, TimeOf(steps[k]), IntervalOf(steps[k]));
      TheLastGrowIsRemembered(l, states, steps, first, k, start, end, interval);
      if steps[k].Transaction? {
        TheClockNeverRunsBack(steps, start, end, interval, first, k);
      }
    }
  }

  /** Any two grows of a run are at least the interval apart. */
  lemma GrowsAreApart(l: Layout, states: seq<Accounts>, steps: seq<Step>, first: nat, second: nat, start: int,
                      end: int, interval: u64)
    requires l.Distinct() && Run(l, states, steps) && Clocked(steps, start, end, interval)
    requires first < second < |steps| && IsAGrow(l, states[first], steps[first])
      && IsAGrow(l, states[second], steps[second])
    ensures steps[second].env.now >= steps[first].env.now + interval
  {
    AGrowIsRecorded(l, states, steps, first);
    AGrowIsRecorded(l, states, steps, second);
    TheClockAt(l, states, steps, start, end, interval, first);
    TheClockAt(l, states, steps, start, end, interval, second);
    TheLastGrowIsRemembered(l, states, steps, first, second, start, end, interval);
  }

  lemma TheClockNeverRunsBack(steps: seq<Step>, start: int, end: int, interval: u64, first: nat, second: nat)
    requires Clocked(steps, start, end, interval) && first < second < |steps| && steps[first].Transaction?
      && steps[second].Transaction?
    ensures steps[first].env.now <= steps[second].env.now
  {
  }

  lemma AGrowIsRecorded(l: Layout, states: seq<Accounts>, steps: seq<Step>, k: nat)
    requires l.Distinct() && Run(l, states, steps) && k < |steps| && IsAGrow(l, states[k], steps[k])
    ensures ReadRecord(l, states[k]).Ok? && LastGrowAt(l, states[k + 1]) == steps[k].env.now
    ensures LastGrowAt(l, states[k]) == 0
         || steps[k].env.now >= LastGrowAt(l, states[k]) + steps[k].env.config.minGrowIntervalSeconds
  {
    EveryStep(l, states, steps, k);
    EveryStepIsPaced(l, states, steps, k, TimeOf(steps[k]), IntervalOf(steps[k]));
  }

  ghost function GrowCount(l: Layout, states: seq<Accounts>, steps: seq<Step>, n: nat): nat
    requires n <= |steps| < |states|
  {
    if n == 0 then 0 else GrowCount(l, states, steps, n - 1) + if IsAGrow(l, states[n - 1], steps[n - 1]) then 1 else 0
  }

  /** So many grows have been counted, and if any, the last of them is late enough for all of them to fit. */
  ghost predicate Fit(grows: int, counted: int, before: int, last: int, start: int, end: int, interval: int) {
    && counted == before + grows
    && (grows > 0 ==> start + (grows - 1) * interval <= last <= end)
  }

  lemma OneMoreFits(isGrow: bool, now: int, interval: nat, last: int, last': int, counted: int, counted': int,
                    grows: nat, before: int, start: int, end: int)
    requires PacesOneStep(isGrow, now, interval, last, last', counted, counted')
    requires Fit(grows, counted, before, last, start, end, interval) && start > 0 && (isGrow ==> start <= now <= end)
    ensures Fit(grows + (if isGrow then 1 else 0), counted', before, last', start, end, interval)
  {
    if isGrow && grows > 0 {
      Distribute(grows - 1, 1, interval);
      MulMono(0, grows - 1, interval);
    }
  }

  lemma TheClockAt(l: Layout, states: seq<Accounts>, steps: seq<Step>, start: int, end: int, interval: u64, k: nat)
    requires Clocked(steps, start, end, interval) && k < |steps| < |states| && steps[k].Transaction?
    ensures start <= steps[k].env.now <= end && steps[k].env.config.minGrowIntervalSeconds == interval
  {
  }

  /** While the position exists, its counter counts the grows, and they fit before the last of them. */
  lemma {:induction false} GrowsFitBeforeTheLast(l: Layout, states: seq<Accounts>, steps: seq<Step>, n: nat,
                                            start: int, end: int, interval: u64)
    requires l.Distinct() && Run(l, states, steps) && Clocked(steps, start, end, interval) && n <= |steps|
    requires ReadRecord(l, states[n]).Ok?
    ensures Fit(GrowCount(l, states, steps, n), GrowsCounted(l, states[n]), GrowsCounted(l, states[0]),
                LastGrowAt(l, states[n]), start, end, interval)
  {
    if n > 0 {
      var k := n - 1;
      if steps[k].Transaction? {
        TheClockAt(l, states, steps, start, end, interval, k);
      }
      EveryStepIsPaced(l, states, steps, k, TimeOf(steps[k]), interval);
      GrowsFitBeforeTheLast(l, states, steps, k, start, end, interval);
      OneMoreFits(IsAGrow(l, states[k], steps[k]), TimeOf(steps[k]), interval,
                  LastGrowAt(l, states[k]), LastGrowAt(l, states[n]),
                  GrowsCounted(l, states[k]), GrowsCounted(l, states[n]),
                  GrowCount(l, states, steps, k), GrowsCounted(l, states[0]), start, end);
    }
  }

  /** At most one grow for each interval that fits in the run, and one more. */
  lemma GrowsAreBounded(l: Layout, states: seq<Accounts>, steps: seq<Step>, start: int, end: int, interval: u64)
    requires l.Distinct() && Run(l, states, steps) && Clocked(steps, start, end, interval)
    requires interval > 0 && ReadRecord(l, states[|steps|]).Ok?
    ensures GrowsCounted(l, states[|steps|]) - GrowsCounted(l, states[0]) <= (end - start) / interval + 1
  {
    GrowsFitBeforeTheLast(l, states, steps, |steps|, start, end, interval);
    var grows := GrowCount(l, states, steps, |steps|);
    AllFitInTheTime(grows, interval, start, end);
  }

  lemma AllFitInTheTime(grows: nat, interval: nat, start: int, end: int)
    requires interval > 0 && start <= end && (grows > 0 ==> start + (grows - 1) * interval <= end)
    ensures grows <= (end - start) / interval + 1
  {
    FloorNonNegative(end - start, interval);
    if grows > 0 {
      FloorAtLeast(end - start, interval, grows - 1);
    }
  }

  // ----- the owner and the mints

  /** What the owner put in through additions. */
  ghost function PaidInBy(l: Layout, states: seq<Accounts>, steps: seq<Step>, n: nat): nat
    requires n <= |steps| < |states|
  {
    if n == 0 then 0
    else
      PaidInBy(l, states, steps, n - 1)
      + if Commits(l, states[n - 1], steps[n - 1]) && steps[n - 1].i.Adds? then steps[n - 1].i.amount else 0
  }

  /** The owner's accounts are out of every router's reach, and the owner spends nothing elsewhere. */
  ghost predicate TheOwnerKeepsApart(l: Layout, states: seq<Accounts>, steps: seq<Step>)
    requires |states| == |steps| + 1
  {
    forall k :: 0 <= k < |steps| ==>
      match steps[k]
      case Transaction(env, _) => OutOfTheRoutersReach(l, env, states[k])
      case Outside => OwnerLosesNothing(l, states[k], states[k + 1])
  }

  /** Over every run, whatever the routers do, the owner's accounts lose nothing but what the owner added. */
  lemma {:induction false} TheOwnerPaysOnlyWhatWasAdded(l: Layout, states: seq<Accounts>, steps: seq<Step>, n: nat)
    requires l.Distinct() && Run(l, states, steps) && TheOwnerKeepsApart(l, states, steps) && n <= |steps|
    ensures Amount(states[n], l.ownerCollateralAccount)
         >= Amount(states[0], l.ownerCollateralAccount) - PaidInBy(l, states, steps, n)
    ensures Amount(states[n], l.ownerUsdcAccount) >= Amount(states[0], l.ownerUsdcAccount)
    ensures Amount(states[n], l.ownerDestinationAccount) >= Amount(states[0], l.ownerDestinationAccount)
  {
    if n > 0 {
      EveryStep(l, states, steps, n - 1);
      TheOwnerPaysOnlyWhatWasAdded(l, states, steps, n - 1);
    }
  }

  /** No router and nothing outside mints or burns. */
  ghost predicate NothingElseMints(l: Layout, states: seq<Accounts>, steps: seq<Step>)
    requires |states| == |steps| + 1
  {
    forall k :: 0 <= k < |steps| ==>
      match steps[k]
      case Transaction(env, _) => TheRouterConserves(l, env)
      case Outside => Conserves(states[k], states[k + 1])
  }

  /** Then no run does: every unit of every mint is in some account at its end as at its start. */
  lemma {:induction false} EveryMintIsConserved(l: Layout, states: seq<Accounts>, steps: seq<Step>, n: nat)
    requires l.Distinct() && Run(l, states, steps) && NothingElseMints(l, states, steps) && n <= |steps|
    ensures Conserves(states[0], states[n])
  {
    if n > 0 {
      EveryStep(l, states, steps, n - 1);
      EveryMintIsConserved(l, states, steps, n - 1);
      ConservesInTurn(states[0], states[n - 1], states[n]);
    }
  }
}
