// Each instruction as a function of the accounts and of everything it does not control: it commits new accounts or
// errs.
module Instructions {
  import opened Arithmetic
  import opened Outcomes
  import opened Positions
  import opened Runtime
  import opened Invariants
  import opened Market
  import Guard
  import Refinement
  import Scope

  datatype Config = Config(
    sunset: bool,
    growPaused: bool,
    keeperBountyBps: u16,
    keeperBountyCapUsdc: u64,
    maxSlippageBps: u16,
    maxPriceAgeSlots: u64,
    minProtectIntervalSeconds: u64,
    minGrowIntervalSeconds: u64,
    maxShareOfAvailableBps: u16,
    collateralIsEnabled: bool,
    destinationIsListed: bool,
    destinationIsEnabled: bool)

  /** Everything one call does not control: who calls, the clock, the prices, the market, the route and the router. */
  datatype Environment = Environment(
    config: Config,
    market: Market,
    caller: Key,
    callerUsdcAccount: Key,
    now: i64,
    usdcPrice: Scope.ScopePrice,
    destinationPrice: Scope.ScopePrice,
    usdcDecimals: u8,
    destinationDecimals: u8,
    borrowFactorPct: u64,
    liquidationThresholdBps: u16,
    liquidityAvailable: u64,
    signals: Guard.DeleverageSignals,
    route: seq<Passed>,
    routeDataIsEmpty: bool,
    ownAuthorities: set<Key>,
    router: Accounts -> Accounts)

  function RouterCall(l: Layout, env: Environment): Call {
    Call(env.route, l.position, env.ownAuthorities)
  }

  // ----- the position's own record

  function ReadRecord(l: Layout, accounts: Accounts): Checked<Position> {
    var account := At(accounts, l.position);
    if account.program == ACCRUE_PROGRAM && account.data.Record? then Ok(account.data.position)
    else Err(PositionAccountMissing)
  }

  function WriteRecord(l: Layout, accounts: Accounts, p: Position): Accounts {
    accounts[l.position := At(accounts, l.position).(data := Record(p))]
  }

  function LoanToValue(l: Layout, accounts: Accounts): Checked<u16> {
    var read :- ReadObligation(accounts, l.obligation);
    if read.None? then Ok(0)
    else Guard.LoanToValueBps(read.value.adjustedDebtValueScaled, read.value.depositedValueScaled)
  }

  function DebtInWholeUnits(l: Layout, accounts: Accounts): Checked<u64> {
    var debtScaled :- ObligationBorrowedAmountScaled(accounts, l.obligation);
    if WholeUnitsRoundingUp(debtScaled) < TWO_TO_THE_64 then Ok(WholeUnitsRoundingUp(debtScaled)) else Err(MathOverflow)
  }

  // ----- the swap

  datatype JupiterSwap = JupiterSwap(source: Key, destination: Key, amountIn: u64, minimumOut: u64)

  function Swapped(l: Layout, env: Environment, swap: JupiterSwap, accounts: Accounts): Checked<Accounts> {
    if swap.amountIn == 0 then Err(NothingToSwap)
    else
      :- Need(!env.routeDataIsEmpty, NothingToSwap);
      :- Need(env.route != [], NothingToSwap);
      :- Need(RouteIsClean(l, accounts, env.route, swap.source, swap.destination), SwapRouteTouchesAForbiddenAccount);
      var sourceBefore :- TokenAccountAmount(accounts, swap.source);
      var destinationBefore :- TokenAccountAmount(accounts, swap.destination);
      var after := env.router(accounts);
      :- Need(RuntimeAllows(RouterCall(l, env), accounts, after), RuntimeViolation);
      var sourceAfter :- TokenAccountAmount(after, swap.source);
      var destinationAfter :- TokenAccountAmount(after, swap.destination);
      :- Need(sourceBefore >= sourceAfter, SwapSpentTooMuch);
      :- Need(sourceBefore - sourceAfter <= swap.amountIn, SwapSpentTooMuch);
      :- Need(destinationAfter >= destinationBefore, SwapReturnedTooLittle);
      :- Need(destinationAfter - destinationBefore >= swap.minimumOut, SwapReturnedTooLittle);
      Ok(after)
  }

  /** A caller who is not the owner only acts on fresh prices. */
  function RequireFreshUnlessOwner(env: Environment, p: Position): Checked<()> {
    if env.caller == p.owner then Ok(())
    else
      :- Scope.RequirePriceIsFresh(env.usdcPrice, env.market.slot, env.config.maxPriceAgeSlots);
      :- Scope.RequirePriceIsFresh(env.destinationPrice, env.market.slot, env.config.maxPriceAgeSlots);
      Ok(())
  }

  // ----- buy_destination

  function BuySwap(l: Layout, accounts: Accounts, minimumDestination: u64): Checked<JupiterSwap> {
    var usdcToSpend :- TokenAccountAmount(accounts, l.usdcAccount);
    :- Need(usdcToSpend > 0, NothingToSwap);
    :- Need(minimumDestination > 0, MinimumOutputTooLow);
    Ok(JupiterSwap(l.usdcAccount, l.destinationAccount, usdcToSpend, minimumDestination))
  }

  function BuyDestination(l: Layout, env: Environment, minimumDestination: u64, accounts: Accounts): Checked<Accounts> {
    var p :- ReadRecord(l, accounts);
    :- Need(env.caller == p.owner == l.owner, NotThePositionOwner);
    :- Need(p.state == AwaitingSwap, WrongPositionState);
    :- Need(env.config.collateralIsEnabled, CollateralNotAllowed);
    var swap :- BuySwap(l, accounts, minimumDestination);
    var before :- ReadPositionLedger(l, accounts);
    var after :- Swapped(l, env, swap, accounts);
    var _ :- AssertInvariantsHold(l, before, MustNotMove,
      EndsWithAtLeast(swap.source, swap.destination, SwapBounds(swap.amountIn, swap.minimumOut)), after);
    Ok(WriteRecord(l, after, p.(state := Open)))
  }

  // ----- grow

  function GrowGates(l: Layout, env: Environment, p: Position, refreshed: Accounts): Checked<()> {
    var ltv :- LoanToValue(l, refreshed);
    :- Need(ltv <= p.strategy.growBelowLtvBps, GrowLevelExceeded);
    :- Guard.RequireTheIntervalHasElapsed(p.lastGrowAt, env.now, env.config.minGrowIntervalSeconds);
    RequireFreshUnlessOwner(env, p)
  }

  /** The amount to borrow, and the least of the yield token it has to buy. */
  function GrowAmounts(env: Environment, p: Position, o: Obligation, ownerMinimum: u64): Checked<(u64, u64)> {
    var usdcPriceScaled :- Scope.UsdPerWholeTokenScaled(env.usdcPrice);
    var destinationPriceScaled :- Scope.UsdPerWholeTokenScaled(env.destinationPrice);
    :- Need(env.borrowFactorPct > 0, ReserveHasNoBorrowFactor);
    var borrowing :- Refinement.UsdcTheProgramBorrows(
      o.adjustedDebtValueScaled, o.depositedValueScaled, p.strategy.targetLtvBps, env.borrowFactorPct,
      env.usdcDecimals, usdcPriceScaled);
    :- Need(borrowing > 0, NothingToBorrow);
    var _ :- Guard.RequireBorrowWithinAvailableShare(borrowing, env.liquidityAvailable,
                                                     env.config.maxShareOfAvailableBps);
    if env.caller == p.owner then Ok((borrowing, ownerMinimum))
    else
      var minimum :- Scope.MinimumOutputTheOracleAllows(
        Scope.SwapSide(borrowing, env.usdcDecimals, usdcPriceScaled), env.destinationDecimals, destinationPriceScaled,
        env.config.maxSlippageBps);
      Ok((borrowing, minimum))
  }

  /** What the borrow brought in and nothing more is what the swap may spend. */
  function GrowSwap(l: Layout, before: PositionLedger, borrowed: Accounts, minimum: u64): Checked<JupiterSwap> {
    var held :- TokenAccountAmount(borrowed, l.usdcAccount);
    :- Need(held >= before.usdcBalance, MathOverflow);
    Ok(JupiterSwap(l.usdcAccount, l.destinationAccount, held - before.usdcBalance, minimum))
  }

  function GrowRecord(env: Environment, p: Position, borrowing: u64): Checked<Position> {
    if p.growCount >= 0xFFFF_FFFF then Err(MathOverflow)
    else
      p.(lastGrowAt := env.now, growCount := p.growCount + 1).RecordBorrow(borrowing)
  }

  /** The gates and the sizing, on the refreshed market. */
  datatype GrowPlan = GrowPlan(refreshed: Accounts, borrowing: u64, minimumOut: u64)

  function PlanGrow(l: Layout, env: Environment, p: Position, ownerMinimum: u64,
                    accounts: Accounts): Checked<GrowPlan> {
    var refreshed :- Refresh(env.market, l, accounts);
    var _ :- GrowGates(l, env, p, refreshed);
    var o :- ReadLoan(refreshed, l.obligation);
    var amounts :- GrowAmounts(env, p, o, ownerMinimum);
    Ok(GrowPlan(refreshed, amounts.0, amounts.1))
  }

  /** The borrow, the swap of what it paid out, and the refresh after them. */
  datatype GrowSteps = GrowSteps(borrowed: Accounts, swap: JupiterSwap, bought: Accounts, settled: Accounts)

  function BorrowAndBuy(l: Layout, env: Environment, before: PositionLedger, plan: GrowPlan): Checked<GrowSteps> {
    var borrowed :- Borrow(env.market, l, plan.refreshed, plan.borrowing);
    var swap :- GrowSwap(l, before, borrowed, plan.minimumOut);
    var bought :- Swapped(l, env, swap, borrowed);
    var settled :- Refresh(env.market, l, bought);
    Ok(GrowSteps(borrowed, swap, bought, settled))
  }

  function GrowChecks(l: Layout, p: Position, before: PositionLedger, settled: Accounts): Checked<()> {
    var ltv :- LoanToValue(l, settled);
    :- Need(ltv <= p.strategy.targetLtvBps, LoanToValueAboveTarget);
    AssertInvariantsHold(l, before, MustNotMove, BoundsCheckedAroundTheCall, settled)
  }

  function Grow(l: Layout, env: Environment, ownerMinimum: u64, accounts: Accounts): Checked<Accounts> {
    var p :- ReadRecord(l, accounts);
    :- Need(p.state == Open, WrongPositionState);
    :- Need(!env.config.growPaused, GrowsArePaused);
    :- Need(p.strategy.growEnabled, GrowNotEnabled);
    :- Need(env.config.destinationIsEnabled, DestinationNotAllowed);
    var plan :- PlanGrow(l, env, p, ownerMinimum, accounts);
    var before :- ReadPositionLedger(l, plan.refreshed);
    var steps :- BorrowAndBuy(l, env, before, plan);
    var _ :- GrowChecks(l, p, before, steps.settled);
    var grown :- GrowRecord(env, p, plan.borrowing);
    Ok(WriteRecord(l, steps.settled, grown))
  }

  // ----- protect

  function ProtectGates(l: Layout, env: Environment, p: Position, refreshed: Accounts): Checked<()> {
    var ltv :- LoanToValue(l, refreshed);
    :- Need(ltv >= p.strategy.protectLtvBps, GuardLevelNotReached);
    :- if env.caller != p.owner && ltv < env.liquidationThresholdBps
       then Guard.RequireTheIntervalHasElapsed(p.lastProtectAt, env.now, env.config.minProtectIntervalSeconds)
       else Pass;
    RequireFreshUnlessOwner(env, p)
  }

  datatype ProtectPlan = ProtectPlan(repayNeeded: u64, bountyWanted: u64, selling: u64, minimumOut: u64)

  function SaleOf(env: Environment, p: Position, o: Obligation, destinationHeld: u64, usdcPriceScaled: u128,
                  destinationPriceScaled: u128): Guard.ProtectSale {
    Guard.ProtectSale(
      o.adjustedDebtValueScaled, o.depositedValueScaled, p.strategy.targetLtvBps, env.borrowFactorPct,
      env.config.keeperBountyBps, env.config.keeperBountyCapUsdc, env.config.maxSlippageBps,
      env.usdcDecimals, usdcPriceScaled, env.destinationDecimals, destinationPriceScaled, destinationHeld)
  }

  function PlanProtect(env: Environment, p: Position, o: Obligation, destinationHeld: u64,
                       ownerMinimum: u64): Checked<ProtectPlan> {
    var usdcPriceScaled :- Scope.UsdPerWholeTokenScaled(env.usdcPrice);
    var destinationPriceScaled :- Scope.UsdPerWholeTokenScaled(env.destinationPrice);
    :- Need(env.borrowFactorPct > 0, ReserveHasNoBorrowFactor);
    var amounts :- Guard.GuardAmounts(o.adjustedDebtValueScaled, o.depositedValueScaled, p.strategy.targetLtvBps,
                                      env.config.keeperBountyBps, env.borrowFactorPct);
    var repayNeeded :- Scope.RawAmountWorthRoundingUp(amounts.repayUsdScaled, env.usdcDecimals, usdcPriceScaled);
    var bounty :- Scope.RawAmountWorthRoundingDown(amounts.bountyUsdScaled, env.usdcDecimals, usdcPriceScaled);
    var selling :- Guard.DestinationToSell(SaleOf(env, p, o, destinationHeld, usdcPriceScaled, destinationPriceScaled));
    :- Need(selling > 0, NothingToSell);
    var minimum :-
      if env.caller == p.owner then Ok(ownerMinimum)
      else Scope.MinimumOutputTheOracleAllows(
        Scope.SwapSide(selling, env.destinationDecimals, destinationPriceScaled), env.usdcDecimals, usdcPriceScaled,
        env.config.maxSlippageBps);
    Ok(ProtectPlan(repayNeeded, Smaller(bounty, env.config.keeperBountyCapUsdc), selling, minimum))
  }

  function PayBounty(l: Layout, env: Environment, accounts: Accounts, bounty: u64): Checked<Accounts> {
    if bounty == 0 then Ok(accounts) else Transfer(accounts, l.usdcAccount, env.callerUsdcAccount, l.position, bounty)
  }

  function ProtectRecord(env: Environment, p: Position, raised: u64, repaying: u64): Checked<Position> {
    if p.protectCount >= 0xFFFF_FFFF then Err(MathOverflow)
    else
      var sold :- p.(lastProtectAt := env.now, protectCount := p.protectCount + 1).RecordSale(raised);
      sold.RecordRepay(repaying)
  }

  /** The gates and the plan, on the refreshed market. */
  function PrepareProtect(l: Layout, env: Environment, p: Position, ownerMinimum: u64,
                          refreshed: Accounts): Checked<ProtectPlan> {
    var _ :- ProtectGates(l, env, p, refreshed);
    var o :- ReadLoan(refreshed, l.obligation);
    var destinationHeld :- TokenAccountAmount(refreshed, l.destinationAccount);
    PlanProtect(env, p, o, destinationHeld, ownerMinimum)
  }

  /** The sale, the repayment, the bounty and the refresh after them. */
  datatype ProtectSteps = ProtectSteps(
    sold: Accounts, raised: u64, repaying: u64, repaid: Accounts, bounty: u64, paid: Accounts, settled: Accounts)

  function RepayAndReward(l: Layout, env: Environment, plan: ProtectPlan, raised: u64,
                          sold: Accounts): Checked<ProtectSteps> {
    var debt :- DebtInWholeUnits(l, sold);
    var repaying := Smaller(Smaller(plan.repayNeeded, raised), debt);
    :- Need(repaying > 0, NothingToSell);
    var repaid :- Repay(env.market, l, sold, repaying);
    var bounty := Smaller(plan.bountyWanted, raised - repaying);
    var paid :- PayBounty(l, env, repaid, bounty);
    var settled :- Refresh(env.market, l, paid);
    Ok(ProtectSteps(sold, raised, repaying, repaid, bounty, paid, settled))
  }

  /** The sale, and what it raised. */
  function SellFor(l: Layout, env: Environment, usdcBefore: u64, selling: u64, minimumOut: u64,
                   refreshed: Accounts): Checked<(Accounts, u64)> {
    var sold :- Swapped(l, env, JupiterSwap(l.destinationAccount, l.usdcAccount, selling, minimumOut), refreshed);
    var usdcHeld :- TokenAccountAmount(sold, l.usdcAccount);
    :- Need(usdcHeld >= usdcBefore, SwapSpentTooMuch);
    Ok((sold, usdcHeld - usdcBefore))
  }

  function SellAndRepay(l: Layout, env: Environment, before: PositionLedger, plan: ProtectPlan,
                        refreshed: Accounts): Checked<ProtectSteps> {
    var sale :- SellFor(l, env, before.usdcBalance, plan.selling, plan.minimumOut, refreshed);
    RepayAndReward(l, env, plan, sale.1, sale.0)
  }

  function ProtectChecks(l: Layout, p: Position, before: PositionLedger, settled: Accounts): Checked<()> {
    var ltv :- LoanToValue(l, settled);
    var destinationLeft :- TokenAccountAmount(settled, l.destinationAccount);
    :- Need(ltv <= p.strategy.targetLtvBps || destinationLeft == 0, LoanToValueAboveTarget);
    AssertInvariantsHold(l, before, MustNotMove, BoundsCheckedAroundTheCall, settled)
  }

  function Protect(l: Layout, env: Environment, ownerMinimum: u64, accounts: Accounts): Checked<Accounts> {
    var p :- ReadRecord(l, accounts);
    :- Need(p.state == Open, WrongPositionState);
    :- Need(env.config.destinationIsListed, DestinationNotAllowed);
    var refreshed :- Refresh(env.market, l, accounts);
    var plan :- PrepareProtect(l, env, p, ownerMinimum, refreshed);
    var before :- ReadPositionLedger(l, refreshed);
    var steps :- SellAndRepay(l, env, before, plan, refreshed);
    var _ :- ProtectChecks(l, p, before, steps.settled);
    var protected :- ProtectRecord(env, p, steps.raised, steps.repaying);
    Ok(WriteRecord(l, steps.settled, protected))
  }

  // ----- leave

  function LeaveGates(env: Environment, p: Position): Checked<()> {
    if p.state == Closed then Err(WrongPositionState)
    else
      :- Need(env.config.sunset || p.strategy.exitOnFlagEnabled, ExitOnFlagNotEnabled);
      :- Need(Guard.ThereIsAReasonToLeave(env.signals.(programIsRetiring := env.config.sunset), env.now),
              NoReasonToLeave);
      :- Need(env.config.destinationIsListed, DestinationNotAllowed);
      Ok(())
  }

  function LeaveSwap(l: Layout, env: Environment, p: Position, destinationHeld: u64): Checked<JupiterSwap> {
    var _ :- RequireFreshUnlessOwner(env, p);
    var destinationPriceScaled :- Scope.UsdPerWholeTokenScaled(env.destinationPrice);
    var usdcPriceScaled :- Scope.UsdPerWholeTokenScaled(env.usdcPrice);
    var minimum :- Scope.MinimumOutputTheOracleAllows(
      Scope.SwapSide(destinationHeld, env.destinationDecimals, destinationPriceScaled), env.usdcDecimals,
      usdcPriceScaled, env.config.maxSlippageBps);
    Ok(JupiterSwap(l.destinationAccount, l.usdcAccount, destinationHeld, minimum))
  }

  /** Sell everything held of the yield token, if anything is. */
  function LeaveSale(l: Layout, env: Environment, p: Position, accounts: Accounts): Checked<Accounts> {
    var destinationHeld :- TokenAccountAmount(accounts, l.destinationAccount);
    if destinationHeld == 0 then Ok(accounts)
    else
      var swap :- LeaveSwap(l, env, p, destinationHeld);
      Swapped(l, env, swap, accounts)
  }

  function LeaveRecord(p: Position, fromSale: u64, repaying: u64): Checked<Position> {
    var sold :- p.RecordSale(fromSale);
    sold.RecordRepay(repaying)
  }

  /** The sale did not cover the loan: the collateral stays where it is and the shortfall is written down. */
  function LeavePartWay(l: Layout, p: Position, before: PositionLedger, fromSale: u64, repaying: u64, stillOwed: u64,
                        settled: Accounts): Checked<Accounts> {
    var _ :- AssertInvariantsHold(l, before, MustNotMove, BoundsCheckedAroundTheCall, settled);
    var left :- LeaveRecord(p, fromSale, repaying);
    Ok(WriteRecord(l, settled, left.(usdcOwedAtLeave := stillOwed, state := Closing)))
  }

  function MoveWholeBalance(l: Layout, accounts: Accounts, from: Key, to: Key): Checked<Accounts> {
    var amount :- TokenAccountAmount(accounts, from);
    if amount == 0 then Ok(accounts) else Transfer(accounts, from, to, l.position, amount)
  }

  function SendEverythingToTheOwner(l: Layout, accounts: Accounts): Checked<Accounts> {
    var first :- MoveWholeBalance(l, accounts, l.destinationAccount, l.ownerDestinationAccount);
    var second :- MoveWholeBalance(l, first, l.usdcAccount, l.ownerUsdcAccount);
    MoveWholeBalance(l, second, l.collateralAccount, l.ownerCollateralAccount)
  }

  function WithdrawIfAny(m: Market, l: Layout, accounts: Accounts, amount: u64): Checked<Accounts> {
    if amount == 0 then Ok(accounts) else Withdraw(m, l, accounts, amount)
  }

  function RepayIfAny(m: Market, l: Layout, accounts: Accounts, amount: u64): Checked<Accounts> {
    if amount == 0 then Ok(accounts) else Repay(m, l, accounts, amount)
  }

  /** The loan is gone: everything goes back to the owner. */
  function LeaveWhole(l: Layout, env: Environment, p: Position, before: PositionLedger, fromSale: u64, repaying: u64,
                      settled: Accounts): Checked<Accounts> {
    var collateral :- ObligationDepositedAmount(settled, l.obligation);
    var withdrawn :- WithdrawIfAny(env.market, l, settled, collateral);
    var sent :- SendEverythingToTheOwner(l, withdrawn);
    var _ :- AssertInvariantsHold(l, before, ExactlyOut(collateral), BoundsCheckedAroundTheCall, sent);
    var left :- LeaveRecord(p, fromSale, repaying);
    Ok(WriteRecord(l, sent, left.(state := Closed)))
  }

  /** A leave up to its ending: the accounts after the sale and after the repayment, and what they come to. */
  datatype Settlement = Settlement(sold: Accounts, settled: Accounts, raised: u64, repaying: u64, stillOwed: u64)

  /** The accounts after the repayment, what it was, and what is still owed. */
  function RepayFrom(l: Layout, env: Environment, usdcHeld: u64, sold: Accounts): Checked<(Accounts, u64, u64)> {
    var refreshed :- Refresh(env.market, l, sold);
    var debt :- DebtInWholeUnits(l, refreshed);
    var repaying := Smaller(debt, usdcHeld);
    var repaid :- RepayIfAny(env.market, l, refreshed, repaying);
    var settled :- Refresh(env.market, l, repaid);
    var stillOwed :- DebtInWholeUnits(l, settled);
    Ok((settled, repaying, stillOwed))
  }

  /** The sale, and the USDC held after it. */
  function SellAll(l: Layout, env: Environment, p: Position, usdcBefore: u64,
                   accounts: Accounts): (r: Checked<(Accounts, u64)>)
    ensures r.Ok? ==> r.value.1 >= usdcBefore
  {
    var sold :- LeaveSale(l, env, p, accounts);
    var usdcHeld :- TokenAccountAmount(sold, l.usdcAccount);
    :- Need(usdcHeld >= usdcBefore, SwapSpentTooMuch);
    Ok((sold, usdcHeld))
  }

  function Settle(l: Layout, env: Environment, p: Position, usdcBefore: u64, accounts: Accounts): Checked<Settlement> {
    var sale :- SellAll(l, env, p, usdcBefore, accounts);
    var settled :- RepayFrom(l, env, sale.1, sale.0);
    Ok(Settlement(sale.0, settled.0, sale.1 - usdcBefore, settled.1, settled.2))
  }

  function Leave(l: Layout, env: Environment, accounts: Accounts): Checked<Accounts> {
    var p :- ReadRecord(l, accounts);
    :- Need(l.owner == p.owner, NotThePositionOwner);
    var _ :- LeaveGates(env, p);
    var before :- ReadPositionLedger(l, accounts);
    var s :- Settle(l, env, p, before.usdcBalance, accounts);
    if s.stillOwed > 0 then LeavePartWay(l, p, before, s.raised, s.repaying, s.stillOwed, s.settled)
    else LeaveWhole(l, env, p, before, s.raised, s.repaying, s.settled)
  }

  // ----- add_collateral

  function AddCollateral(l: Layout, env: Environment, amount: u64, accounts: Accounts): Checked<Accounts> {
    var p :- ReadRecord(l, accounts);
    :- Need(env.caller == p.owner == l.owner, NotThePositionOwner);
    :- Need(p.state != Closed, WrongPositionState);
    :- Need(amount > 0, PositionSizeOutOfRange);
    var before :- ReadPositionLedger(l, accounts);
    var moved :- Transfer(accounts, l.ownerCollateralAccount, l.collateralAccount, l.owner, amount);
    var refreshed :- Refresh(env.market, l, moved);
    var after :- Deposit(env.market, l, refreshed, amount);
    var depositedNow :- ObligationDepositedAmount(after, l.obligation);
    :- Need(depositedNow >= before.obligationCollateral, ObligationCollateralMoved);
    var _ :- AssertInvariantsHold(l, before, ExactlyIn(depositedNow - before.obligationCollateral),
        NoSwapInThisInstruction, after);
    Ok(after)
  }

  // ----- close_position

  /** The token program closes an emptied account its holder signs for, and the rent goes to the owner. */
  function CloseTokenAccount(l: Layout, accounts: Accounts, key: Key): Checked<Accounts> {
    var account := At(accounts, key);
    :- Need(IsTokenAccount(account) && account.data.amount == 0 && account.data.holder == l.position, TransferRefused);
    Ok(PayOut(accounts, key, l.owner))
  }

  /** An account is emptied and gone, and its lamports are the owner's. */
  function PayOut(accounts: Accounts, from: Key, to: Key): Accounts {
    var emptied := accounts[from := Account(SYSTEM_PROGRAM, 0, Empty)];
    emptied[to := At(emptied, to).(lamports := At(emptied, to).lamports + At(accounts, from).lamports)]
  }

  function RequireEmptied(l: Layout, accounts: Accounts): Checked<PositionLedger> {
    var debtScaled :- ObligationBorrowedAmountScaled(accounts, l.obligation);
    :- Need(debtScaled == 0, DebtStillOutstanding);
    var deposited :- ObligationDepositedAmount(accounts, l.obligation);
    :- Need(deposited == 0, TokensStillHeld);
    var ledger :- ReadPositionLedger(l, accounts);
    :- Need(ledger.collateralBalance == 0 && ledger.usdcBalance == 0 && ledger.destinationBalance == 0,
            TokensStillHeld);
    Ok(ledger)
  }

  function ClosePosition(l: Layout, env: Environment, accounts: Accounts): Checked<Accounts> {
    var p :- ReadRecord(l, accounts);
    :- Need(env.caller == p.owner == l.owner, NotThePositionOwner);
    var ledger :- RequireEmptied(l, accounts);
    var _ :- AssertInvariantsHold(l, ledger, MustNotMove, NoSwapInThisInstruction, accounts);
    var first :- CloseTokenAccount(l, accounts, l.destinationAccount);
    var second :- CloseTokenAccount(l, first, l.usdcAccount);
    var third :- CloseTokenAccount(l, second, l.collateralAccount);
    Ok(PayOut(third, l.position, l.owner))
  }
}
