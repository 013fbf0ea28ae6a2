// One position at a retiring program, small enough to follow by hand: a leave that sells, and both endings, do happen.
module Examples {
  import opened Arithmetic
  import opened Outcomes
  import opened Positions
  import opened Runtime
  import opened Invariants
  import opened Market
  import opened Instructions
  import opened Steps
  import Committing
  import Guard
  import Leaving
  import Scope

  const LAYOUT := Layout(10, 11, 12, 13, 14, 15, 16, 17, 18, 19, 20, 21, 22)

  const STOCK: Key := 31
  const USDC: Key := 32
  const YIELD: Key := 33

  // Nothing accrues and nothing moves in value; collateral is worth one unit of stock each.
  const MARKET := Market(
    7, (debt: u128) => debt, (collateral: u64) => collateral as int, (debt: u128) => debt,
    (amount: u64) => amount, (amount: u64) => 0, (debt: u128, amount: u64) => debt,
    (amount: u64) => amount, (amount: u64) => amount, false, (step: MarketStep) => false)

  const CONFIG := Config(true, false, 0, 0, 0, 0, 0, 0, 0, true, true, true)

  // The position signs for its own tokens through the route, and the pool's authority for the pool's.
  const ROUTE := [Passed(10, false), Passed(12, true), Passed(13, true), Passed(41, true), Passed(42, true),
                  Passed(TOKEN_PROGRAM, false)]

  // A stranger calls, on prices of this slot.
  const ENVIRONMENT := Environment(
    CONFIG, MARKET, 99, 98, 1, Scope.ScopePrice(1, 0, 7), Scope.ScopePrice(1, 0, 7), 6, 6, 100, 6_500, 0,
    Guard.DeleverageSignals(false, false, 0, false, false, 0, 0, 0),
    ROUTE, false, {40}, (accounts: Accounts) => Held(5))

  const POSITION := Position(15, Strategy(4_000, 5_000, 3_000, true, true), Open, 0, 0, 0, 0, 4, 0, 0, 0)

  function Tokens(mint: Key, holder: Key, amount: u64): Account {
    Account(TOKEN_PROGRAM, 1, Data.Tokens(mint, holder, amount, None, None))
  }

  /** A debt of four units, nine of collateral, and `usdc` of USDC in hand; the pool has three of the yield token. */
  function Held(usdc: u64): Accounts {
    map[
      10 := Account(ACCRUE_PROGRAM, 1, Record(POSITION)),
      11 := Tokens(STOCK, 10, 2), 12 := Tokens(USDC, 10, usdc), 13 := Tokens(YIELD, 10, 0),
      14 := Account(LEND_PROGRAM, 1, Loan(Obligation(4 * SCALED_FRACTION_ONE, 9, 0, 0, 7))),
      16 := Tokens(STOCK, 15, 0), 17 := Tokens(USDC, 15, 0), 18 := Tokens(YIELD, 15, 0),
      20 := Tokens(STOCK, 19, 100), 21 := Tokens(USDC, 19, 100),
      41 := Tokens(YIELD, 40, 3), 42 := Tokens(USDC, 40, 50)]
  }

  /** The same with the three of the yield token not sold yet: the router trades them for three of USDC. */
  function Unsold(): Accounts {
    Held(2)[13 := Tokens(YIELD, 10, 3)][41 := Tokens(YIELD, 40, 0)][42 := Tokens(USDC, 40, 53)]
  }

  lemma TheLayoutIsDistinct()
    ensures LAYOUT.Distinct()
  {
    var a := LAYOUT.Addresses();
    forall i | 0 <= i < |a| ensures a[i] == 10 + i {
    }
  }

  /** The accounts once `repaid` of the debt has gone to the vault. */
  function Settled(usdc: u64, repaid: u64): Accounts
    requires repaid <= 4 && repaid <= usdc
  {
    Held(usdc)[12 := Tokens(USDC, 10, usdc - repaid)][21 := Tokens(USDC, 19, 100 + repaid)]
    [14 := Account(LEND_PROGRAM, 1, Loan(Obligation((4 - repaid) * SCALED_FRACTION_ONE, 9, 9,
        (4 - repaid) * SCALED_FRACTION_ONE, 7)))]
  }

  lemma TheGatesAreOpen(usdc: u64)
    ensures ReadRecord(LAYOUT, Held(usdc)) == Ok(POSITION) && LeaveGates(ENVIRONMENT, POSITION).Ok?
    ensures ReadPositionLedger(LAYOUT, Held(usdc)) == Ok(PositionLedger(1, 1, 1, 1, 2, usdc, 0, 9))
    ensures SellAll(LAYOUT, ENVIRONMENT, POSITION, usdc, Held(usdc)) == Ok((Held(usdc), usdc))
  {
  }

  lemma TheRefreshOnlyRevalues(usdc: u64, repaid: u64)
    requires repaid <= 4 && repaid <= usdc
    ensures Refresh(MARKET, LAYOUT, Settled(usdc, repaid)) == Ok(Settled(usdc, repaid))
    ensures Refresh(MARKET, LAYOUT, Held(usdc)) == Ok(Settled(usdc, 0))
  {
    var was, unpaid := Settled(usdc, repaid), Settled(usdc, 0);
    var again, first := Refresh(MARKET, LAYOUT, was), Refresh(MARKET, LAYOUT, Held(usdc));
    assert again.Ok? && again.value.Keys == was.Keys && again.value == was;
    assert first.Ok? && first.value.Keys == unpaid.Keys && first.value == unpaid;
  }

  lemma TheRepayment(usdc: u64, repaid: u64)
    requires 0 < repaid <= 4 && repaid <= usdc && usdc < 100
    ensures RepayIfAny(MARKET, LAYOUT, Settled(usdc, 0), repaid).Ok?
    ensures Refresh(MARKET, LAYOUT, RepayIfAny(MARKET, LAYOUT, Settled(usdc, 0), repaid).value)
         == Ok(Settled(usdc, repaid))
  {
    RepayingAll(4 * SCALED_FRACTION_ONE, repaid);
    var paid := Repay(MARKET, LAYOUT, Settled(usdc, 0), repaid);
    assert paid.Ok?;
    var settled := Refresh(MARKET, LAYOUT, paid.value);
    assert settled.Ok? && settled.value.Keys == Settled(usdc, repaid).Keys;
    assert settled.value[14] == Settled(usdc, repaid)[14];
    assert settled.value == Settled(usdc, repaid);
  }

  lemma FourIsOwed(usdc: u64)
    ensures LAYOUT.Distinct() && Leaving.DebtToCover(LAYOUT, ENVIRONMENT, Held(usdc)) == 4
  {
    TheLayoutIsDistinct();
    WholeUnitsAreWhole(4);
  }

  lemma WholeUnitsAreWhole(units: u64)
    ensures WholeUnitsRoundingUp(units * SCALED_FRACTION_ONE) == units
  {
    RepayingAll(units * SCALED_FRACTION_ONE, units);
    if units > 0 {
      RepayingAll(units * SCALED_FRACTION_ONE, units - 1);
    }
  }

  /** The settlement repays the whole debt of four, or all of the three units held. */
  lemma TheSettlement(usdc: u64, repaid: u64)
    requires (usdc == 5 && repaid == 4) || (usdc == 3 && repaid == 3)
    ensures RepayFrom(LAYOUT, ENVIRONMENT, usdc, Held(usdc)) == Ok((Settled(usdc, repaid), repaid, 4 - repaid))
  {
    TheRefreshOnlyRevalues(usdc, repaid);
    TheRepayment(usdc, repaid);
    WholeUnitsAreWhole(4);
    WholeUnitsAreWhole(4 - repaid);
  }

  // ----- what a leave comes to, from what its steps come to

  /** A leave commits when its gates are open and its settlement and its ending go through. */
  lemma ALeaveFromItsSettlement(l: Layout, env: Environment, accounts: Accounts, p: Position, ledger: PositionLedger,
                                s: Settlement)
    requires ReadRecord(l, accounts) == Ok(p) && l.owner == p.owner && LeaveGates(env, p).Ok?
    requires ReadPositionLedger(l, accounts) == Ok(ledger)
      && Settle(l, env, p, ledger.usdcBalance, accounts) == Ok(s)
    requires if s.stillOwed > 0 then LeavePartWay(l, p, ledger, s.raised, s.repaying, s.stillOwed, s.settled).Ok?
             else LeaveWhole(l, env, p, ledger, s.raised, s.repaying, s.settled).Ok?
    ensures Leave(l, env, accounts).Ok?
  {
  }

  lemma ItEndsClosed(l: Layout, env: Environment, accounts: Accounts, p: Position, usdcBefore: u64, sold: Accounts,
                     usdcHeld: u64)
    requires l.Distinct() && Leave(l, env, accounts).Ok? && ReadRecord(l, accounts) == Ok(p)
    requires SellAll(l, env, p, usdcBefore, accounts) == Ok((sold, usdcHeld))
    requires usdcHeld >= Leaving.DebtToCover(l, env, sold)
    ensures Leaving.EndsClosed(l, env, p, accounts, sold, Leave(l, env, accounts).value)
  {
    Leaving.ACommittedLeaveHasTwoOutcomes(l, env, accounts);
  }

  lemma ItEndsClosing(l: Layout, env: Environment, accounts: Accounts, p: Position, usdcBefore: u64, sold: Accounts,
                      usdcHeld: u64)
    requires l.Distinct() && Leave(l, env, accounts).Ok? && ReadRecord(l, accounts) == Ok(p)
    requires SellAll(l, env, p, usdcBefore, accounts) == Ok((sold, usdcHeld))
    requires usdcHeld < Leaving.DebtToCover(l, env, sold)
    ensures Leaving.EndsClosing(l, env, p, accounts, sold, Leave(l, env, accounts).value)
  {
    Leaving.ACommittedLeaveHasTwoOutcomes(l, env, accounts);
  }

  // ----- part way

  lemma ThePartWayChecksPass()
    ensures LeavePartWay(LAYOUT, POSITION, PositionLedger(1, 1, 1, 1, 2, 3, 0, 9), 0, 3, 1, Settled(3, 3)).Ok?
  {
  }

  lemma WithThreeALeaveCommits()
    ensures Leave(LAYOUT, ENVIRONMENT, Held(3)).Ok?
  {
    TheGatesAreOpen(3);
    TheSettlement(3, 3);
    ThePartWayChecksPass();
    var s := Settlement(Held(3), Settled(3, 3), 0, 3, 1);
    Committing.ASettlementInTurn(LAYOUT, ENVIRONMENT, POSITION, 3, Held(3), s, 3);
    ALeaveFromItsSettlement(LAYOUT, ENVIRONMENT, Held(3), POSITION, PositionLedger(1, 1, 1, 1, 2, 3, 0, 9), s);
  }

  /** With three units in hand and four owed a leave commits, handed back part way. */
  lemma WithThreeItEndsClosing()
    ensures Leave(LAYOUT, ENVIRONMENT, Held(3)).Ok?
    ensures Leaving.EndsClosing(LAYOUT, ENVIRONMENT, POSITION, Held(3), Held(3),
                                Leave(LAYOUT, ENVIRONMENT, Held(3)).value)
  {
    WithThreeALeaveCommits();
    FourIsOwed(3);
    TheGatesAreOpen(3);
    ItEndsClosing(LAYOUT, ENVIRONMENT, Held(3), POSITION, 3, Held(3), 3);
  }

  // ----- whole

  /** The accounts once the nine of collateral are stock in the wallet again. */
  function WithTheStockBack(): Accounts {
    Settled(5, 4)[11 := Tokens(STOCK, 10, 11)][20 := Tokens(STOCK, 19, 91)]
    [14 := Account(LEND_PROGRAM, 1, Loan(Obligation(0, 0, 9, 0, 7)))]
  }

  lemma TheStockComesBack()
    ensures WithdrawIfAny(MARKET, LAYOUT, Settled(5, 4), 9) == Ok(WithTheStockBack())
  {
    var withdrawn := Withdraw(MARKET, LAYOUT, Settled(5, 4), 9);
    assert withdrawn.Ok? && withdrawn.value.Keys == WithTheStockBack().Keys;
    assert withdrawn.value == WithTheStockBack();
  }

  /** And once everything is the owner's. */
  function WithEverythingSent(): Accounts {
    WithTheStockBack()[12 := Tokens(USDC, 10, 0)][17 := Tokens(USDC, 15, 1)]
    [11 := Tokens(STOCK, 10, 0)][16 := Tokens(STOCK, 15, 11)]
  }

  lemma EverythingIsSent()
    ensures SendEverythingToTheOwner(LAYOUT, WithTheStockBack()) == Ok(WithEverythingSent())
  {
    var first := MoveWholeBalance(LAYOUT, WithTheStockBack(), 13, 18);
    assert first == Ok(WithTheStockBack());
    var second := MoveWholeBalance(LAYOUT, first.value, 12, 17);
    assert second == Ok(first.value[12 := Tokens(USDC, 10, 0)][17 := Tokens(USDC, 15, 1)]);
  }

  lemma TheWholeChecksPass(ledger: PositionLedger)
    requires ledger == PositionLedger(1, 1, 1, 1, 2, ledger.usdcBalance, ledger.destinationBalance, 9)
    ensures AssertInvariantsHold(LAYOUT, ledger, ExactlyOut(9), BoundsCheckedAroundTheCall, WithEverythingSent()).Ok?
  {
  }

  /** An ending goes through when its withdrawal, its transfers and its checks do. */
  lemma AWholeEndingCommits(l: Layout, env: Environment, p: Position, ledger: PositionLedger, raised: u64,
                            repaying: u64, collateral: u64, settled: Accounts, withdrawn: Accounts, sent: Accounts)
    requires ObligationDepositedAmount(settled, l.obligation) == Ok(collateral)
    requires WithdrawIfAny(env.market, l, settled, collateral) == Ok(withdrawn)
    requires SendEverythingToTheOwner(l, withdrawn) == Ok(sent)
    requires AssertInvariantsHold(l, ledger, ExactlyOut(collateral), BoundsCheckedAroundTheCall, sent).Ok?
    requires LeaveRecord(p, raised, repaying).Ok?
    ensures LeaveWhole(l, env, p, ledger, raised, repaying, settled).Ok?
  {
  }

  lemma TheWholeEndingCommits(ledger: PositionLedger, raised: u64)
    requires ledger == PositionLedger(1, 1, 1, 1, 2, ledger.usdcBalance, ledger.destinationBalance, 9) && raised < 100
    ensures LeaveWhole(LAYOUT, ENVIRONMENT, POSITION, ledger, raised, 4, Settled(5, 4)).Ok?
  {
    TheStockComesBack();
    EverythingIsSent();
    TheWholeChecksPass(ledger);
    AWholeEndingCommits(LAYOUT, ENVIRONMENT, POSITION, ledger, raised, 4, 9, Settled(5, 4), WithTheStockBack(),
                        WithEverythingSent());
  }

  lemma WithFiveALeaveCommits()
    ensures Leave(LAYOUT, ENVIRONMENT, Held(5)).Ok?
  {
    TheGatesAreOpen(5);
    TheSettlement(5, 4);
    TheWholeEndingCommits(PositionLedger(1, 1, 1, 1, 2, 5, 0, 9), 0);
    var s := Settlement(Held(5), Settled(5, 4), 0, 4, 0);
    Committing.ASettlementInTurn(LAYOUT, ENVIRONMENT, POSITION, 5, Held(5), s, 5);
    ALeaveFromItsSettlement(LAYOUT, ENVIRONMENT, Held(5), POSITION, PositionLedger(1, 1, 1, 1, 2, 5, 0, 9), s);
  }

  /** With five in hand it commits, and everything goes back to the owner. */
  lemma WithFiveItEndsClosed()
    ensures Leave(LAYOUT, ENVIRONMENT, Held(5)).Ok?
    ensures Leaving.EndsClosed(LAYOUT, ENVIRONMENT, POSITION, Held(5), Held(5),
                               Leave(LAYOUT, ENVIRONMENT, Held(5)).value)
  {
    WithFiveALeaveCommits();
    FourIsOwed(5);
    TheGatesAreOpen(5);
    ItEndsClosed(LAYOUT, ENVIRONMENT, Held(5), POSITION, 5, Held(5), 5);
  }

  // ----- with a sale

  /** The sale is of all three units, for at least the two the oracle lets it return after its floors. */
  lemma TheSaleIsSized()
    ensures LeaveSwap(LAYOUT, ENVIRONMENT, POSITION, 3) == Ok(JupiterSwap(13, 12, 3, 2))
  {
    assert Pow10(6) == 1_000_000 by {
      assert Pow10(4) == 10_000;
    }
    assert Scope.UsdPerWholeTokenScaled(Scope.ScopePrice(1, 0, 7)) == Ok(SCALED_FRACTION_ONE);
    assert Scope.UsdValueOfScaled(3, 6, SCALED_FRACTION_ONE) == Ok(3_458_764_513_820);
    assert Scope.RawAmountWorthRoundingDown(3_458_764_513_820, 6, SCALED_FRACTION_ONE) == Ok(2);
  }

  lemma TheRouteIsClean()
    ensures RouteIsClean(LAYOUT, Unsold(), ROUTE, 13, 12)
  {
  }

  /** Only the four token accounts of the trade change, and an authority over each that pays signs. */
  lemma TheRouterIsAllowed()
    ensures RuntimeAllows(RouterCall(LAYOUT, ENVIRONMENT), Unsold(), Held(5))
  {
    var call := RouterCall(LAYOUT, ENVIRONMENT);
    assert call.route[0].key == 10 && call.route[5].key == TOKEN_PROGRAM;
    forall key | key in Unsold().Keys + Held(5).Keys ensures MayBecome(call, key, At(Unsold(), key), At(Held(5), key)) {
      if key in {12, 13, 41, 42} {
        ATradedAccountMayMove(key);
      }
    }
  }

  lemma ATradedAccountMayMove(key: Key)
    requires key in {12, 13, 41, 42}
    ensures MayBecome(RouterCall(LAYOUT, ENVIRONMENT), key, At(Unsold(), key), At(Held(5), key))
  {
    var call := RouterCall(LAYOUT, ENVIRONMENT);
    assert call.route[1] == Passed(12, true) && call.route[2] == Passed(13, true);
    assert call.route[3] == Passed(41, true) && call.route[4] == Passed(42, true);
    assert call.route[0].key == 10 && Signs(call, 10) && Signs(call, 40);
    assert call.route[5].key == TOKEN_PROGRAM && Runs(call, TOKEN_PROGRAM);
    assert IsPassedWritable(call, key);
  }

  /** A swap commits when its route is clean, the router allowed, and what it did within the bounds. */
  lemma ASwapCommits(l: Layout, env: Environment, swap: JupiterSwap, accounts: Accounts, after: Accounts)
    requires swap.amountIn > 0 && !env.routeDataIsEmpty && env.route != [] && env.router(accounts) == after
    requires RouteIsClean(l, accounts, env.route, swap.source, swap.destination)
    requires RuntimeAllows(RouterCall(l, env), accounts, after)
    requires IsTokenAccount(At(accounts, swap.source)) && IsTokenAccount(At(accounts, swap.destination))
    requires IsTokenAccount(At(after, swap.source)) && IsTokenAccount(At(after, swap.destination))
    requires 0 <= Amount(accounts, swap.source) - Amount(after, swap.source) <= swap.amountIn
    requires Amount(after, swap.destination) - Amount(accounts, swap.destination) >= swap.minimumOut
    ensures Swapped(l, env, swap, accounts) == Ok(after)
  {
  }

  lemma ASaleCommits(l: Layout, env: Environment, p: Position, usdcBefore: u64, held: u64, swap: JupiterSwap,
                     accounts: Accounts, sold: Accounts, usdcHeld: u64)
    requires TokenAccountAmount(accounts, l.destinationAccount) == Ok(held) && held > 0
    requires LeaveSwap(l, env, p, held) == Ok(swap) && Swapped(l, env, swap, accounts) == Ok(sold)
    requires TokenAccountAmount(sold, l.usdcAccount) == Ok(usdcHeld) && usdcHeld >= usdcBefore
    ensures SellAll(l, env, p, usdcBefore, accounts) == Ok((sold, usdcHeld))
  {
  }

  lemma TheThreeAreSold()
    ensures SellAll(LAYOUT, ENVIRONMENT, POSITION, 2, Unsold()) == Ok((Held(5), 5))
  {
    TheSaleIsSized();
    TheRouteIsClean();
    TheRouterIsAllowed();
    ASwapCommits(LAYOUT, ENVIRONMENT, JupiterSwap(13, 12, 3, 2), Unsold(), Held(5));
    ASaleCommits(LAYOUT, ENVIRONMENT, POSITION, 2, 3, JupiterSwap(13, 12, 3, 2), Unsold(), Held(5), 5);
  }

  lemma TheReadingsBeforeTheSale()
    ensures ReadRecord(LAYOUT, Unsold()) == Ok(POSITION)
    ensures ReadPositionLedger(LAYOUT, Unsold()) == Ok(PositionLedger(1, 1, 1, 1, 2, 2, 3, 9))
  {
  }

  lemma ALeaveThatSellsCommits()
    ensures Leave(LAYOUT, ENVIRONMENT, Unsold()).Ok?
  {
    TheGatesAreOpen(5);
    TheReadingsBeforeTheSale();
    TheThreeAreSold();
    TheSettlement(5, 4);
    TheWholeEndingCommits(PositionLedger(1, 1, 1, 1, 2, 2, 3, 9), 3);
    var s := Settlement(Held(5), Settled(5, 4), 3, 4, 0);
    Committing.ASettlementInTurn(LAYOUT, ENVIRONMENT, POSITION, 2, Unsold(), s, 5);
    ALeaveFromItsSettlement(LAYOUT, ENVIRONMENT, Unsold(), POSITION, PositionLedger(1, 1, 1, 1, 2, 2, 3, 9), s);
  }

  /** A stranger's leave through a router that trades three for three: two in hand become five, and it ends closed. */
  lemma ALeaveThatSellsEndsClosed()
    ensures Leave(LAYOUT, ENVIRONMENT, Unsold()).Ok?
    ensures Leaving.FloorOfTheSale(LAYOUT, ENVIRONMENT, Unsold()) == 2
    ensures Leaving.EndsClosed(LAYOUT, ENVIRONMENT, POSITION, Unsold(), Held(5),
                               Leave(LAYOUT, ENVIRONMENT, Unsold()).value)
  {
    ALeaveThatSellsCommits();
    TheSaleIsSized();
    FourIsOwed(5);
    TheReadingsBeforeTheSale();
    TheThreeAreSold();
    ItEndsClosed(LAYOUT, ENVIRONMENT, Unsold(), POSITION, 2, Held(5), 5);
  }
}
