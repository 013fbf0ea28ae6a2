// The instructions as they run: each moves tokens and debt step by step through mutable accounts, or is rolled back
// whole.
module Program {
  import opened Outcomes
  import opened Positions
  import opened Runtime
  import opened Invariants
  import opened Market
  import opened Instructions
  import Runs

  /** A method did what its specification says: the same accounts, or the same error. */
  ghost predicate Did(r: Checked<()>, specified: Checked<Accounts>, accounts: Accounts) {
    match specified
    case Ok(after) => r.Ok? && accounts == after
    case Err(error) => r == Err(error)
  }

  class Ledger {
    const l: Layout
    var accounts: Accounts

    constructor (l: Layout, accounts: Accounts)
      ensures this.l == l && this.accounts == accounts
    {
      this.l := l;
      this.accounts := accounts;
    }

    // ----- the calls into other programs

    method RefreshTheMarket(env: Environment) returns (r: Checked<()>)
      modifies this`accounts
      ensures Did(r, Refresh(env.market, l, old(accounts)), accounts)
    {
      accounts :- Refresh(env.market, l, accounts);
      return Ok(());
    }

    method BorrowLiquidity(env: Environment, amount: u64) returns (r: Checked<()>)
      modifies this`accounts
      ensures Did(r, Borrow(env.market, l, old(accounts), amount), accounts)
    {
      accounts :- Borrow(env.market, l, accounts, amount);
      return Ok(());
    }

    method RepayLiquidity(env: Environment, amount: u64) returns (r: Checked<()>)
      modifies this`accounts
      ensures Did(r, Repay(env.market, l, old(accounts), amount), accounts)
    {
      accounts :- Repay(env.market, l, accounts, amount);
      return Ok(());
    }

    method DepositCollateral(env: Environment, amount: u64) returns (r: Checked<()>)
      modifies this`accounts
      ensures Did(r, Deposit(env.market, l, old(accounts), amount), accounts)
    {
      accounts :- Deposit(env.market, l, accounts, amount);
      return Ok(());
    }

    method WithdrawCollateral(env: Environment, amount: u64) returns (r: Checked<()>)
      modifies this`accounts
      ensures Did(r, Withdraw(env.market, l, old(accounts), amount), accounts)
    {
      accounts :- Withdraw(env.market, l, accounts, amount);
      return Ok(());
    }

    method TransferChecked(from: Key, to: Key, authority: Key, amount: u64) returns (r: Checked<()>)
      modifies this`accounts
      ensures Did(r, Transfer(old(accounts), from, to, authority, amount), accounts)
    {
      accounts :- Transfer(accounts, from, to, authority, amount);
      return Ok(());
    }

    method WritePosition(p: Position)
      modifies this`accounts
      ensures accounts == WriteRecord(l, old(accounts), p)
    {
      accounts := WriteRecord(l, accounts, p);
    }

    /** The call into the router, which does whatever the runtime lets it. */
    method InvokeTheRouter(env: Environment) returns (r: Checked<()>)
      modifies this`accounts
      ensures r.Ok? <==> RuntimeAllows(RouterCall(l, env), old(accounts), env.router(old(accounts)))
      ensures r.Ok? ==> accounts == env.router(old(accounts))
      ensures r.Err? ==> r.error == RuntimeViolation
    {
      var after := env.router(accounts);
      :- Need(RuntimeAllows(RouterCall(l, env), accounts, after), RuntimeViolation);
      accounts := after;
      return Ok(());
    }

    // ----- the swap

    method ExecuteJupiterSwap(env: Environment, swap: JupiterSwap) returns (r: Checked<()>)
      modifies this`accounts
      ensures Did(r, Swapped(l, env, swap, old(accounts)), accounts)
    {
      if swap.amountIn == 0 {
        return Err(NothingToSwap);
      }
      :- Need(!env.routeDataIsEmpty, NothingToSwap);
      :- Need(env.route != [], NothingToSwap);
      var _ :- AssertSwapRouteTouchesNothingItMustNot(l, accounts, env.route, swap.source, swap.destination);
      var sourceBefore :- TokenAccountAmount(accounts, swap.source);
      var destinationBefore :- TokenAccountAmount(accounts, swap.destination);
      var _ :- InvokeTheRouter(env);
      var sourceAfter :- TokenAccountAmount(accounts, swap.source);
      var destinationAfter :- TokenAccountAmount(accounts, swap.destination);
      :- Need(sourceBefore >= sourceAfter, SwapSpentTooMuch);
      :- Need(sourceBefore - sourceAfter <= swap.amountIn, SwapSpentTooMuch);
      :- Need(destinationAfter >= destinationBefore, SwapReturnedTooLittle);
      :- Need(destinationAfter - destinationBefore >= swap.minimumOut, SwapReturnedTooLittle);
      return Ok(());
    }

    // ----- buy_destination

    method HandleBuyDestination(env: Environment, minimumDestination: u64) returns (r: Checked<()>)
      modifies this`accounts
      ensures Did(r, BuyDestination(l, env, minimumDestination, old(accounts)), accounts)
    {
      var p :- ReadRecord(l, accounts);
      :- Need(env.caller == p.owner == l.owner, NotThePositionOwner);
      :- Need(p.state == AwaitingSwap, WrongPositionState);
      :- Need(env.config.collateralIsEnabled, CollateralNotAllowed);
      var swap :- BuySwap(l, accounts, minimumDestination);
      var before :- ReadPositionLedger(l, accounts);
      var _ :- ExecuteJupiterSwap(env, swap);
      var _ :- AssertInvariantsHold(l, before, MustNotMove,
        EndsWithAtLeast(swap.source, swap.destination, SwapBounds(swap.amountIn, swap.minimumOut)), accounts);
      WritePosition(p.(state := Open));
      return Ok(());
    }

    // ----- grow

    /** The borrow, the swap of exactly what it paid out, and the refresh after them. */
    method BorrowAndSwap(env: Environment, before: PositionLedger, borrowing: u64, minimumOut: u64)
      returns (r: Checked<()>)
      modifies this`accounts
      ensures var steps := BorrowAndBuy(l, env, before, GrowPlan(old(accounts), borrowing, minimumOut));
        Did(r, if steps.Ok? then Ok(steps.value.settled) else Err(steps.error), accounts)
    {
      var _ :- BorrowLiquidity(env, borrowing);
      var swap :- GrowSwap(l, before, accounts, minimumOut);
      var _ :- ExecuteJupiterSwap(env, swap);
      var _ :- RefreshTheMarket(env);
      return Ok(());
    }

    method HandleGrow(env: Environment, ownerMinimum: u64) returns (r: Checked<()>)
      modifies this`accounts
      ensures Did(r, Grow(l, env, ownerMinimum, old(accounts)), accounts)
    {
      var p :- ReadRecord(l, accounts);
      :- Need(p.state == Open, WrongPositionState);
      :- Need(!env.config.growPaused, GrowsArePaused);
      :- Need(p.strategy.growEnabled, GrowNotEnabled);
      :- Need(env.config.destinationIsEnabled, DestinationNotAllowed);
      var _ :- RefreshTheMarket(env);
      var _ :- GrowGates(l, env, p, accounts);
      var o :- ReadLoan(accounts, l.obligation);
      var amounts :- GrowAmounts(env, p, o, ownerMinimum);
      var before :- ReadPositionLedger(l, accounts);
      var _ :- BorrowAndSwap(env, before, amounts.0, amounts.1);
      var _ :- GrowChecks(l, p, before, accounts);
      var grown :- GrowRecord(env, p, amounts.0);
      WritePosition(grown);
      return Ok(());
    }

    // ----- protect

    method RepayAndPayTheBounty(env: Environment, plan: ProtectPlan, raised: u64) returns (r: Checked<u64>)
      modifies this`accounts
      ensures match RepayAndReward(l, env, plan, raised, old(accounts))
              case Ok(g) => r == Ok(g.repaying) && accounts == g.settled
              case Err(error) => r == Err(error)
    {
      var debt :- DebtInWholeUnits(l, accounts);
      var repaying := Smaller(Smaller(plan.repayNeeded, raised), debt);
      :- Need(repaying > 0, NothingToSell);
      var _ :- RepayLiquidity(env, repaying);
      var bounty := Smaller(plan.bountyWanted, raised - repaying);
      if bounty > 0 {
        var _ :- TransferChecked(l.usdcAccount, env.callerUsdcAccount, l.position, bounty);
      }
      var _ :- RefreshTheMarket(env);
      return Ok(repaying);
    }

    method Sell(env: Environment, usdcBefore: u64, selling: u64, minimumOut: u64) returns (r: Checked<u64>)
      modifies this`accounts
      ensures match SellFor(l, env, usdcBefore, selling, minimumOut, old(accounts))
              case Ok(sale) => r == Ok(sale.1) && accounts == sale.0
              case Err(error) => r == Err(error)
    {
      var _ :- ExecuteJupiterSwap(env, JupiterSwap(l.destinationAccount, l.usdcAccount, selling, minimumOut));
      var usdcHeld :- TokenAccountAmount(accounts, l.usdcAccount);
      :- Need(usdcHeld >= usdcBefore, SwapSpentTooMuch);
      return Ok(usdcHeld - usdcBefore);
    }

    method SellForTheLoan(env: Environment, before: PositionLedger, plan: ProtectPlan) returns (r: Checked<(u64, u64)>)
      modifies this`accounts
      ensures match SellAndRepay(l, env, before, plan, old(accounts))
              case Ok(g) => r == Ok((g.raised, g.repaying)) && accounts == g.settled
              case Err(error) => r == Err(error)
    {
      var raised :- Sell(env, before.usdcBalance, plan.selling, plan.minimumOut);
      var repaying :- RepayAndPayTheBounty(env, plan, raised);
      return Ok((raised, repaying));
    }

    method HandleProtect(env: Environment, ownerMinimum: u64) returns (r: Checked<()>)
      modifies this`accounts
      ensures Did(r, Protect(l, env, ownerMinimum, old(accounts)), accounts)
    {
      var p :- ReadRecord(l, accounts);
      :- Need(p.state == Open, WrongPositionState);
      :- Need(env.config.destinationIsListed, DestinationNotAllowed);
      var _ :- RefreshTheMarket(env);
      var plan :- PrepareProtect(l, env, p, ownerMinimum, accounts);
      var before :- ReadPositionLedger(l, accounts);
      var sold :- SellForTheLoan(env, before, plan);
      var _ :- ProtectChecks(l, p, before, accounts);
      var protected :- ProtectRecord(env, p, sold.0, sold.1);
      WritePosition(protected);
      return Ok(());
    }

    // ----- leave

    /** Sells everything held of the yield token, if anything is, and returns the USDC held after it. */
    method SellEverything(env: Environment, p: Position, usdcBefore: u64) returns (r: Checked<u64>)
      modifies this`accounts
      ensures match SellAll(l, env, p, usdcBefore, old(accounts))
              case Ok(sale) => r == Ok(sale.1) && accounts == sale.0
              case Err(error) => r == Err(error)
    {
      var destinationHeld :- TokenAccountAmount(accounts, l.destinationAccount);
      if destinationHeld > 0 {
        var swap :- LeaveSwap(l, env, p, destinationHeld);
        var _ :- ExecuteJupiterSwap(env, swap);
      }
      var usdcHeld :- TokenAccountAmount(accounts, l.usdcAccount);
      :- Need(usdcHeld >= usdcBefore, SwapSpentTooMuch);
      return Ok(usdcHeld);
    }

    /** Repays as much of the loan as the USDC covers, and returns that and what is still owed. */
    method RepayFromWhatIsHeld(env: Environment, usdcHeld: u64) returns (r: Checked<(u64, u64)>)
      modifies this`accounts
      ensures match RepayFrom(l, env, usdcHeld, old(accounts))
              case Ok(settled) => r == Ok((settled.1, settled.2)) && accounts == settled.0
              case Err(error) => r == Err(error)
    {
      var _ :- RefreshTheMarket(env);
      var debt :- DebtInWholeUnits(l, accounts);
      var repaying := Smaller(debt, usdcHeld);
      if repaying > 0 {
        var _ :- RepayLiquidity(env, repaying);
      }
      var _ :- RefreshTheMarket(env);
      var stillOwed :- DebtInWholeUnits(l, accounts);
      return Ok((repaying, stillOwed));
    }

    method SettleTheLoan(env: Environment, p: Position, usdcBefore: u64) returns (r: Checked<(u64, u64, u64)>)
      modifies this`accounts
      ensures match Settle(l, env, p, usdcBefore, old(accounts))
              case Ok(s) => r == Ok((s.raised, s.repaying, s.stillOwed)) && accounts == s.settled
              case Err(error) => r == Err(error)
    {
      ghost var sale := SellAll(l, env, p, usdcBefore, accounts);
      var usdcHeld :- SellEverything(env, p, usdcBefore);
      assert sale == Ok((accounts, usdcHeld)) && usdcHeld >= usdcBefore;
      ghost var settled := RepayFrom(l, env, usdcHeld, accounts);
      var repaid :- RepayFromWhatIsHeld(env, usdcHeld);
      assert settled == Ok((accounts, repaid.0, repaid.1));
      return Ok((usdcHeld - usdcBefore, repaid.0, repaid.1));
    }

    method MoveTheWholeBalance(from: Key, to: Key) returns (r: Checked<()>)
      modifies this`accounts
      ensures Did(r, MoveWholeBalance(l, old(accounts), from, to), accounts)
    {
      var amount :- TokenAccountAmount(accounts, from);
      if amount > 0 {
        var _ :- TransferChecked(from, to, l.position, amount);
      }
      return Ok(());
    }

    method SendEverything() returns (r: Checked<()>)
      modifies this`accounts
      ensures Did(r, SendEverythingToTheOwner(l, old(accounts)), accounts)
    {
      var _ :- MoveTheWholeBalance(l.destinationAccount, l.ownerDestinationAccount);
      var _ :- MoveTheWholeBalance(l.usdcAccount, l.ownerUsdcAccount);
      var _ :- MoveTheWholeBalance(l.collateralAccount, l.ownerCollateralAccount);
      return Ok(());
    }

    method HandEverythingBack(env: Environment, p: Position, before: PositionLedger, raised: u64,
                              repaying: u64) returns (r: Checked<()>)
      modifies this`accounts
      ensures Did(r, LeaveWhole(l, env, p, before, raised, repaying, old(accounts)), accounts)
    {
      var collateral :- ObligationDepositedAmount(accounts, l.obligation);
      if collateral > 0 {
        var _ :- WithdrawCollateral(env, collateral);
      }
      var _ :- SendEverything();
      var _ :- AssertInvariantsHold(l, before, ExactlyOut(collateral), BoundsCheckedAroundTheCall, accounts);
      var left :- LeaveRecord(p, raised, repaying);
      WritePosition(left.(state := Closed));
      return Ok(());
    }

    method HandleLeave(env: Environment) returns (r: Checked<()>)
      modifies this`accounts
      ensures Did(r, Leave(l, env, old(accounts)), accounts)
    {
      var p :- ReadRecord(l, accounts);
      :- Need(l.owner == p.owner, NotThePositionOwner);
      var _ :- LeaveGates(env, p);
      var before :- ReadPositionLedger(l, accounts);
      var settled :- SettleTheLoan(env, p, before.usdcBalance);
      var raised, repaying, stillOwed := settled.0, settled.1, settled.2;
      if stillOwed > 0 {
        var _ :- AssertInvariantsHold(l, before, MustNotMove, BoundsCheckedAroundTheCall, accounts);
        var left :- LeaveRecord(p, raised, repaying);
        WritePosition(left.(usdcOwedAtLeave := stillOwed, state := Closing));
        return Ok(());
      }
      r := HandEverythingBack(env, p, before, raised, repaying);
    }

    // ----- add_collateral

    method HandleAddCollateral(env: Environment, amount: u64) returns (r: Checked<()>)
      modifies this`accounts
      ensures Did(r, AddCollateral(l, env, amount, old(accounts)), accounts)
    {
      var p :- ReadRecord(l, accounts);
      :- Need(env.caller == p.owner == l.owner, NotThePositionOwner);
      :- Need(p.state != Closed, WrongPositionState);
      :- Need(amount > 0, PositionSizeOutOfRange);
      var before :- ReadPositionLedger(l, accounts);
      var _ :- TransferChecked(l.ownerCollateralAccount, l.collateralAccount, l.owner, amount);
      var _ :- RefreshTheMarket(env);
      var _ :- DepositCollateral(env, amount);
      var depositedNow :- ObligationDepositedAmount(accounts, l.obligation);
      :- Need(depositedNow >= before.obligationCollateral, ObligationCollateralMoved);
      var _ :- AssertInvariantsHold(l, before, ExactlyIn(depositedNow - before.obligationCollateral),
          NoSwapInThisInstruction, accounts);
      return Ok(());
    }

    // ----- close_position

    method CloseTheTokenAccount(key: Key) returns (r: Checked<()>)
      modifies this`accounts
      ensures Did(r, CloseTokenAccount(l, old(accounts), key), accounts)
    {
      accounts :- CloseTokenAccount(l, accounts, key);
      return Ok(());
    }

    method HandleClosePosition(env: Environment) returns (r: Checked<()>)
      modifies this`accounts
      ensures Did(r, ClosePosition(l, env, old(accounts)), accounts)
    {
      var p :- ReadRecord(l, accounts);
      :- Need(env.caller == p.owner == l.owner, NotThePositionOwner);
      var ledger :- RequireEmptied(l, accounts);
      var _ :- AssertInvariantsHold(l, ledger, MustNotMove, NoSwapInThisInstruction, accounts);
      var _ :- CloseTheTokenAccount(l.destinationAccount);
      var _ :- CloseTheTokenAccount(l.usdcAccount);
      var _ :- CloseTheTokenAccount(l.collateralAccount);
      accounts := PayOut(accounts, l.position, l.owner);
      return Ok(());
    }

    // ----- a transaction

    /** One transaction: the instruction commits whole, or whatever it had done is rolled back. */
    method Process(env: Environment, i: Runs.Instruction) returns (r: Checked<()>)
      modifies this`accounts
      ensures r.Ok? <==> Runs.Execute(l, env, i, old(accounts)).Ok?
      ensures r.Err? ==> r.error == Runs.Execute(l, env, i, old(accounts)).error
      ensures accounts == Runs.AfterTransaction(l, env, i, old(accounts))
    {
      var snapshot := accounts;
      match i {
        case Buys(minimumDestination) => r := HandleBuyDestination(env, minimumDestination);
        case Grows(ownerMinimum) => r := HandleGrow(env, ownerMinimum);
        case Protects(ownerMinimum) => r := HandleProtect(env, ownerMinimum);
        case Leaves => r := HandleLeave(env);
        case Adds(amount) => r := HandleAddCollateral(env, amount);
        case Closes => r := HandleClosePosition(env);
      }
      if r.Err? {
        accounts := snapshot;
      }
    }
  }
}
