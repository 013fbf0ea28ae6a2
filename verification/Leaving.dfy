// What a committed leave comes to: one of two outcomes, decided by whether the USDC held covers the loan.
module Leaving {
  import opened Outcomes
  import opened Positions
  import opened Runtime
  import opened Invariants
  import opened Market
  import opened Instructions
  import opened Gates
  import opened Steps

  // ----- the sale

  /** The least the oracle lets a sale of everything held of the yield token return; nothing where nothing is held. */
  function FloorOfTheSale(l: Layout, env: Environment, before: Accounts): nat {
    var held := Amount(before, l.destinationAccount);
    if held == 0 || held >= TWO_TO_THE_64 then 0
    else match OracleFloorOnSelling(env, held) case Ok(floor) => floor case Err(_) => 0
  }

  /**
   * The sale is of all of the yield token at or above the oracle floor, by the prices that call could act on. It
   * leaves the record, the stock and the loan as they were, whatever the router does.
   */
  ghost predicate SaleOnly(l: Layout, env: Environment, before: Accounts, sold: Accounts) {
    && ReadRecord(l, before).Ok? && ReadRecord(l, sold) == ReadRecord(l, before)
    && (sold == before || RuntimeAllows(RouterCall(l, env), before, sold))
    && SoldAtTheFloor(l, env, before, sold)
    && At(sold, l.collateralAccount) == At(before, l.collateralAccount)
    && At(sold, l.obligation) == At(before, l.obligation)
  }

  ghost predicate SoldAtTheFloor(l: Layout, env: Environment, before: Accounts, sold: Accounts) {
    && Amount(before, l.destinationAccount) < TWO_TO_THE_64
    && (Amount(before, l.destinationAccount) > 0 ==>
          OracleFloorOnSelling(env, Amount(before, l.destinationAccount)).Ok?)
    && Amount(sold, l.usdcAccount) >= Amount(before, l.usdcAccount) + FloorOfTheSale(l, env, before)
    && Amount(sold, l.destinationAccount) <= Amount(before, l.destinationAccount)
  }

  /** The sale of a committed leave, for every router. */
  lemma TheSale(l: Layout, env: Environment, p: Position, before: Accounts)
    requires l.Distinct() && ReadRecord(l, before) == Ok(p) && LeaveSale(l, env, p, before).Ok?
    ensures SaleOnly(l, env, before, LeaveSale(l, env, p, before).value)
    ensures env.caller == p.owner || Amount(before, l.destinationAccount) == 0 || BothPricesAreYoung(env)
  {
    var held := Amount(before, l.destinationAccount);
    if held > 0 {
      ALeaveIsSizedExactly(l, env, p, held, LeaveSwap(l, env, p, held).value);
      ACommittedSwap(l, env, LeaveSwap(l, env, p, held).value, before, LeaveSale(l, env, p, before).value);
    }
  }

  // ----- the two endings

  /** The debt, in whole units rounded up, that the sale has to cover. */
  function DebtToCover(l: Layout, env: Environment, sold: Accounts): nat {
    match At(sold, l.obligation).data
    case Loan(o) => WholeUnitsRoundingUp(Refreshed(env.market, o).debtScaled)
    case _ => 0
  }

  ghost predicate Books(p: Position, left: Position, raised: int, repaid: int, owed: int, state: PositionState) {
    left == p.(usdcFromSalesTotal := left.usdcFromSalesTotal, usdcRepaidTotal := left.usdcRepaidTotal,
               usdcOwedAtLeave := left.usdcOwedAtLeave, state := state)
    && left.usdcFromSalesTotal == p.usdcFromSalesTotal + raised
    && left.usdcRepaidTotal == p.usdcRepaidTotal + repaid
    && left.usdcOwedAtLeave == owed
  }

  /** No debt, no collateral, nothing held, and every unit in the owner's accounts or the vaults. */
  ghost predicate BackWithTheOwner(l: Layout, before: Accounts, sold: Accounts, after: Accounts, debt: nat,
                                   redeemed: nat) {
    && ObligationBorrowedAmountScaled(after, l.obligation) == Ok(0)
    && ObligationDepositedAmount(after, l.obligation) == Ok(0)
    && Amount(after, l.collateralAccount) == Amount(after, l.usdcAccount) == Amount(after, l.destinationAccount) == 0
    && Amount(after, l.ownerDestinationAccount)
       == Amount(sold, l.ownerDestinationAccount) + Amount(sold, l.destinationAccount)
    && Amount(after, l.ownerUsdcAccount) == Amount(sold, l.ownerUsdcAccount) + Amount(sold, l.usdcAccount) - debt
    && Amount(after, l.usdcVault) == Amount(sold, l.usdcVault) + debt
    && Amount(after, l.ownerCollateralAccount)
       == Amount(sold, l.ownerCollateralAccount) + Amount(before, l.collateralAccount) + redeemed
    && Amount(after, l.collateralVault) == Amount(sold, l.collateralVault) - redeemed
    && Custody(l, after) && NoLamportsTaken(l, before, after)
  }

  /** Sold at or above the floor, the whole debt repaid out of it, and everything else back with the owner. */
  ghost predicate EndsClosed(l: Layout, env: Environment, p: Position, before: Accounts, sold: Accounts,
                             after: Accounts) {
    var debt := DebtToCover(l, env, sold);
    && l.owner == p.owner && SoldAtTheFloor(l, env, before, sold)
    && ReadRecord(l, after).Ok?
    && Books(p, ReadRecord(l, after).value, Amount(sold, l.usdcAccount) - Amount(before, l.usdcAccount), debt,
             SaturatingSub(p.usdcOwedAtLeave, debt), Closed)
    && BackWithTheOwner(l, before, sold, after, debt, RedeemedFor(env.market, CollateralIn(before, l.obligation)))
  }

  /** Handed back part way: all the USDC repaid, the exact positive shortfall recorded, and the stock where it was. */
  ghost predicate EndsClosing(l: Layout, env: Environment, p: Position, before: Accounts, sold: Accounts,
                              after: Accounts) {
    var held := Amount(sold, l.usdcAccount);
    var shortfall := DebtToCover(l, env, sold) - held;
    && shortfall > 0 && l.owner == p.owner && SoldAtTheFloor(l, env, before, sold)
    && ReadRecord(l, after).Ok?
    && Books(p, ReadRecord(l, after).value, held - Amount(before, l.usdcAccount), held, shortfall, Closing)
    && DebtInWholeUnits(l, after) == Ok(shortfall)
    && Amount(after, l.usdcAccount) == 0
    && Amount(after, l.usdcVault) == Amount(sold, l.usdcVault) + held
    && Amount(after, l.collateralAccount) == Amount(before, l.collateralAccount)
    && CollateralIn(after, l.obligation) == CollateralIn(before, l.obligation)
    && UntouchedBut(sold, after, {l.position, l.usdcAccount, l.usdcVault, l.obligation})
    && Custody(l, after) && NoLamportsTaken(l, before, after)
  }

  // ----- the steps after the sale

  /**
   * The repayment and the refreshes around it: the vault has what the position paid, and the debt is down by as much.
   */
  ghost predicate RepaidFrom(l: Layout, sold: Accounts, settled: Accounts, debtScaled: u128, amount: u64) {
    && UntouchedBut(sold, settled, {l.usdcAccount, l.usdcVault, l.obligation})
    && ReadLoan(settled, l.obligation).Ok?
    && ReadLoan(settled, l.obligation).value.debtScaled == SaturatingSub(debtScaled, amount * SCALED_FRACTION_ONE)
    && CollateralIn(settled, l.obligation) == CollateralIn(sold, l.obligation)
    && Amount(settled, l.usdcAccount) == Amount(sold, l.usdcAccount) - amount
    && Amount(settled, l.usdcVault) == Amount(sold, l.usdcVault) + amount
    && Conserves(sold, settled)
  }

  /** The repayment and the refresh after it, in the slot of the refresh before. */
  lemma Repaying(l: Layout, m: Market, sold: Accounts, refreshed: Accounts, repaid: Accounts, settled: Accounts,
                 amount: u64)
    requires l.Distinct() && Refresh(m, l, sold) == Ok(refreshed)
    requires RepayIfAny(m, l, refreshed, amount) == Ok(repaid) && Refresh(m, l, repaid) == Ok(settled)
    requires amount <= WholeUnitsRoundingUp(ReadLoan(refreshed, l.obligation).value.debtScaled)
    ensures RepaidFrom(l, sold, settled, ReadLoan(refreshed, l.obligation).value.debtScaled, amount)
  {
    NoTwoAddressesCollide(l);
    RepayingAll(ReadLoan(refreshed, l.obligation).value.debtScaled, amount);
    RefreshConserves(m, l, sold);
    if amount > 0 {
      RepayConserves(m, l, refreshed, amount);
    }
    RefreshConserves(m, l, repaid);
    ConservesInTurn(sold, refreshed, repaid);
    ConservesInTurn(sold, repaid, settled);
  }

  lemma MovingAWholeBalance(l: Layout, accounts: Accounts, from: Key, to: Key)
    requires from != to && MoveWholeBalance(l, accounts, from, to).Ok?
    ensures var after := MoveWholeBalance(l, accounts, from, to).value;
      && UntouchedBut(accounts, after, {from, to})
      && Amount(after, from) == 0 && Amount(after, to) == Amount(accounts, to) + Amount(accounts, from)
      && Conserves(accounts, after)
  {
    var amount := Amount(accounts, from);
    if amount > 0 {
      TransferConserves(accounts, from, to, l.position, amount);
    }
  }

  /** Every unit of the three tokens ends with the owner, and nothing else changes. */
  ghost predicate SentToTheOwner(l: Layout, accounts: Accounts, after: Accounts) {
    && UntouchedBut(accounts, after,
                    {l.destinationAccount, l.ownerDestinationAccount, l.usdcAccount, l.ownerUsdcAccount,
                     l.collateralAccount, l.ownerCollateralAccount})
    && Amount(after, l.destinationAccount) == Amount(after, l.usdcAccount) == Amount(after, l.collateralAccount) == 0
    && Amount(after, l.ownerDestinationAccount)
        == Amount(accounts, l.ownerDestinationAccount) + Amount(accounts, l.destinationAccount)
    && Amount(after, l.ownerUsdcAccount) == Amount(accounts, l.ownerUsdcAccount) + Amount(accounts, l.usdcAccount)
    && Amount(after, l.ownerCollateralAccount)
        == Amount(accounts, l.ownerCollateralAccount) + Amount(accounts, l.collateralAccount)
    && Conserves(accounts, after)
  }

  lemma SendingEverything(l: Layout, accounts: Accounts)
    requires l.Distinct() && SendEverythingToTheOwner(l, accounts).Ok?
    ensures SentToTheOwner(l, accounts, SendEverythingToTheOwner(l, accounts).value)
  {
    NoTwoAddressesCollide(l);
    MovingAWholeBalance(l, accounts, l.destinationAccount, l.ownerDestinationAccount);
    var first := MoveWholeBalance(l, accounts, l.destinationAccount, l.ownerDestinationAccount).value;
    MovingAWholeBalance(l, first, l.usdcAccount, l.ownerUsdcAccount);
    var second := MoveWholeBalance(l, first, l.usdcAccount, l.ownerUsdcAccount).value;
    MovingAWholeBalance(l, second, l.collateralAccount, l.ownerCollateralAccount);
    ConservesInTurn(accounts, first, second);
    ConservesInTurn(accounts, second, SendEverythingToTheOwner(l, accounts).value);
  }

  function RedeemedFor(m: Market, collateral: nat): nat {
    if 0 < collateral < TWO_TO_THE_64 then m.redeemed(collateral) else 0
  }

  /** All of the collateral comes back as stock, and what is left of the obligation reads as nothing. */
  ghost predicate Withdrawn(l: Layout, accounts: Accounts, after: Accounts, redeemed: nat) {
    && UntouchedBut(accounts, after, {l.collateralAccount, l.collateralVault, l.obligation})
    && Amount(after, l.collateralAccount) == Amount(accounts, l.collateralAccount) + redeemed
    && Amount(after, l.collateralVault) == Amount(accounts, l.collateralVault) - redeemed
    && ObligationBorrowedAmountScaled(after, l.obligation) == Ok(0)
    && ObligationDepositedAmount(after, l.obligation) == Ok(0)
    && Conserves(accounts, after)
  }

  lemma WithdrawingEverything(l: Layout, m: Market, accounts: Accounts, collateral: u64)
    requires l.Distinct() && ReadLoan(accounts, l.obligation).Ok?
      && ReadLoan(accounts, l.obligation).value.debtScaled == 0
    requires collateral == CollateralIn(accounts, l.obligation) && WithdrawIfAny(m, l, accounts, collateral).Ok?
    ensures Withdrawn(l, accounts, WithdrawIfAny(m, l, accounts, collateral).value, RedeemedFor(m, collateral))
  {
    NoTwoAddressesCollide(l);
    if collateral > 0 {
      WithdrawConserves(m, l, accounts, collateral);
    }
  }

  // ----- the theorem

  /** Everything in a leave before its ending: the sale, the repayment and the refreshes around it. */
  ghost predicate Settled(l: Layout, env: Environment, p: Position, before: Accounts, s: Settlement) {
    && ReadRecord(l, before) == Ok(p) && SaleOnly(l, env, before, s.sold)
    && s.raised == Amount(s.sold, l.usdcAccount) - Amount(before, l.usdcAccount)
    && s.repaying == Smaller(DebtToCover(l, env, s.sold), Amount(s.sold, l.usdcAccount))
    && s.stillOwed == DebtToCover(l, env, s.sold) - s.repaying
    && UntouchedBut(s.sold, s.settled, {l.usdcAccount, l.usdcVault, l.obligation})
    && Conserves(s.sold, s.settled)
    && ReadLoan(s.settled, l.obligation).Ok?
    && DebtInWholeUnits(l, s.settled) == Ok(s.stillOwed)
    && CollateralIn(s.settled, l.obligation) == CollateralIn(before, l.obligation)
    && Amount(s.settled, l.usdcAccount) == Amount(s.sold, l.usdcAccount) - s.repaying
    && Amount(s.settled, l.usdcVault) == Amount(s.sold, l.usdcVault) + s.repaying
    && ReadRecord(l, s.settled) == Ok(p)
  }

  /** The unfolding of `Settle`, step by step. */
  lemma Settling(l: Layout, env: Environment, p: Position, before: Accounts, s: Settlement)
    requires l.Distinct() && ReadRecord(l, before) == Ok(p) && IsTokenAccount(At(before, l.usdcAccount))
    requires Settle(l, env, p, Amount(before, l.usdcAccount), before) == Ok(s)
    ensures Settled(l, env, p, before, s)
  {
    TheSale(l, env, p, before);
    var refreshed := Refresh(env.market, l, s.sold).value;
    var repaid := RepayIfAny(env.market, l, refreshed, s.repaying).value;
    Repaying(l, env.market, s.sold, refreshed, repaid, s.settled, s.repaying);
    SettledFrom(l, env, p, before, s, ReadLoan(refreshed, l.obligation).value.debtScaled);
  }

  lemma SettledFrom(l: Layout, env: Environment, p: Position, before: Accounts, s: Settlement, debtScaled: u128)
    requires l.Distinct() && ReadRecord(l, before) == Ok(p) && SaleOnly(l, env, before, s.sold)
    requires s.raised == Amount(s.sold, l.usdcAccount) - Amount(before, l.usdcAccount)
    requires WholeUnitsRoundingUp(debtScaled) == DebtToCover(l, env, s.sold)
    requires s.repaying == Smaller(DebtToCover(l, env, s.sold), Amount(s.sold, l.usdcAccount))
    requires RepaidFrom(l, s.sold, s.settled, debtScaled, s.repaying)
      && DebtInWholeUnits(l, s.settled) == Ok(s.stillOwed)
    ensures Settled(l, env, p, before, s)
  {
    NoTwoAddressesCollide(l);
    RepayingAll(debtScaled, s.repaying);
  }

  lemma APartialLeave(l: Layout, env: Environment, p: Position, before: Accounts, s: Settlement, after: Accounts)
    requires l.Distinct() && l.owner == p.owner
    requires ReadPositionLedger(l, before).Ok? && Settled(l, env, p, before, s) && s.stillOwed > 0
    requires LeavePartWay(l, p, ReadPositionLedger(l, before).value, s.raised, s.repaying, s.stillOwed, s.settled)
        == Ok(after)
    ensures EndsClosing(l, env, p, before, s.sold, after) && Conserves(s.sold, after)
  {
    PassingTheChecksMeans(l, before, MustNotMove, BoundsCheckedAroundTheCall, s.settled);
    ClosingFrom(l, env, p, before, s,
        LeaveRecord(p, s.raised, s.repaying).value.(usdcOwedAtLeave := s.stillOwed, state := Closing));
  }

  lemma ClosingFrom(l: Layout, env: Environment, p: Position, before: Accounts, s: Settlement, left: Position)
    requires l.Distinct() && l.owner == p.owner
    requires Settled(l, env, p, before, s) && s.stillOwed > 0
    requires Custody(l, s.settled) && NoLamportsTaken(l, before, s.settled)
    requires Books(p, left, s.raised, s.repaying, s.stillOwed, Closing)
    ensures EndsClosing(l, env, p, before, s.sold, WriteRecord(l, s.settled, left))
      && Conserves(s.sold, WriteRecord(l, s.settled, left))
  {
    NoTwoAddressesCollide(l);
    var after := WriteRecord(l, s.settled, left);
    WritingTheRecordConserves(l, s.settled, left);
    ConservesInTurn(s.sold, s.settled, after);
    UntouchedInTurn(s.sold, s.settled, after, {l.usdcAccount, l.usdcVault, l.obligation}, {l.position},
                    {l.position, l.usdcAccount, l.usdcVault, l.obligation});
  }

  ghost predicate HandedBack(l: Layout, settled: Accounts, sent: Accounts, redeemed: nat) {
    && ObligationBorrowedAmountScaled(sent, l.obligation) == Ok(0)
    && ObligationDepositedAmount(sent, l.obligation) == Ok(0)
    && Amount(sent, l.collateralAccount) == Amount(sent, l.usdcAccount) == Amount(sent, l.destinationAccount) == 0
    && Amount(sent, l.ownerDestinationAccount)
        == Amount(settled, l.ownerDestinationAccount) + Amount(settled, l.destinationAccount)
    && Amount(sent, l.ownerUsdcAccount) == Amount(settled, l.ownerUsdcAccount) + Amount(settled, l.usdcAccount)
    && Amount(sent, l.ownerCollateralAccount)
        == Amount(settled, l.ownerCollateralAccount) + Amount(settled, l.collateralAccount) + redeemed
    && Amount(sent, l.collateralVault) == Amount(settled, l.collateralVault) - redeemed
    && Amount(sent, l.usdcVault) == Amount(settled, l.usdcVault)
    && At(sent, l.position) == At(settled, l.position)
    && Conserves(settled, sent)
  }

  lemma HandingBack(l: Layout, m: Market, settled: Accounts, collateral: u64, withdrawn: Accounts, sent: Accounts)
    requires l.Distinct() && ReadLoan(settled, l.obligation).Ok?
      && ReadLoan(settled, l.obligation).value.debtScaled == 0
    requires collateral == CollateralIn(settled, l.obligation)
    requires WithdrawIfAny(m, l, settled, collateral) == Ok(withdrawn)
      && SendEverythingToTheOwner(l, withdrawn) == Ok(sent)
    ensures HandedBack(l, settled, sent, RedeemedFor(m, collateral))
  {
    WithdrawingEverything(l, m, settled, collateral);
    SendingEverything(l, withdrawn);
    HandedBackInTurn(l, settled, withdrawn, sent, RedeemedFor(m, collateral));
  }

  lemma HandedBackInTurn(l: Layout, settled: Accounts, withdrawn: Accounts, sent: Accounts, redeemed: nat)
    requires l.Distinct() && Withdrawn(l, settled, withdrawn, redeemed) && SentToTheOwner(l, withdrawn, sent)
    ensures HandedBack(l, settled, sent, redeemed)
  {
    NoTwoAddressesCollide(l);
    ConservesInTurn(settled, withdrawn, sent);
  }

  lemma AWholeLeave(l: Layout, env: Environment, p: Position, before: Accounts, s: Settlement, after: Accounts)
    requires l.Distinct() && l.owner == p.owner
    requires ReadPositionLedger(l, before).Ok? && Settled(l, env, p, before, s) && s.stillOwed == 0
    requires LeaveWhole(l, env, p, ReadPositionLedger(l, before).value, s.raised, s.repaying, s.settled) == Ok(after)
    ensures EndsClosed(l, env, p, before, s.sold, after) && Conserves(s.sold, after)
  {
    var collateral := ObligationDepositedAmount(s.settled, l.obligation).value;
    var withdrawn := WithdrawIfAny(env.market, l, s.settled, collateral).value;
    var sent := SendEverythingToTheOwner(l, withdrawn).value;
    var left := LeaveRecord(p, s.raised, s.repaying).value.(state := Closed);
    ClosingTheBooks(l, env, p, before, s, collateral, withdrawn, sent, left);
  }

  lemma ClosingTheBooks(l: Layout, env: Environment, p: Position, before: Accounts, s: Settlement, collateral: u64,
                        withdrawn: Accounts, sent: Accounts, left: Position)
    requires l.Distinct() && l.owner == p.owner
    requires ReadPositionLedger(l, before).Ok? && Settled(l, env, p, before, s) && s.stillOwed == 0
    requires collateral == CollateralIn(s.settled, l.obligation)
    requires WithdrawIfAny(env.market, l, s.settled, collateral) == Ok(withdrawn)
      && SendEverythingToTheOwner(l, withdrawn) == Ok(sent)
    requires AssertInvariantsHold(l, ReadPositionLedger(l, before).value, ExactlyOut(collateral),
        BoundsCheckedAroundTheCall, sent).Ok?
    requires Books(p, left, s.raised, s.repaying, SaturatingSub(p.usdcOwedAtLeave, s.repaying), Closed)
    ensures EndsClosed(l, env, p, before, s.sold, WriteRecord(l, sent, left))
      && Conserves(s.sold, WriteRecord(l, sent, left))
  {
    RepayingAll(ReadLoan(s.settled, l.obligation).value.debtScaled, 0);
    HandingBack(l, env.market, s.settled, collateral, withdrawn, sent);
    PassingTheChecksMeans(l, before, ExactlyOut(collateral), BoundsCheckedAroundTheCall, sent);
    ClosedFrom(l, env, p, before, s, sent, left);
    ClosingTheBooksConserves(l, p, s, sent, left, RedeemedFor(env.market, collateral));
  }

  lemma ClosingTheBooksConserves(l: Layout, p: Position, s: Settlement, sent: Accounts, left: Position, redeemed: nat)
    requires ReadRecord(l, s.settled) == Ok(p) && Conserves(s.sold, s.settled)
      && HandedBack(l, s.settled, sent, redeemed)
    ensures Conserves(s.sold, WriteRecord(l, sent, left))
  {
    WritingTheRecordConserves(l, sent, left);
    ConservesInTurn(s.sold, s.settled, sent);
    ConservesInTurn(s.sold, sent, WriteRecord(l, sent, left));
  }

  lemma ClosedFrom(l: Layout, env: Environment, p: Position, before: Accounts, s: Settlement, sent: Accounts,
                   left: Position)
    requires l.Distinct() && l.owner == p.owner && Settled(l, env, p, before, s) && s.stillOwed == 0
    requires Custody(l, sent) && NoLamportsTaken(l, before, sent)
    requires HandedBack(l, s.settled, sent, RedeemedFor(env.market, CollateralIn(s.settled, l.obligation)))
    requires Books(p, left, s.raised, s.repaying, SaturatingSub(p.usdcOwedAtLeave, s.repaying), Closed)
    ensures EndsClosed(l, env, p, before, s.sold, WriteRecord(l, sent, left))
  {
    var redeemed := RedeemedFor(env.market, CollateralIn(s.settled, l.obligation));
    BackOnceSettled(l, env, p, before, s, sent, redeemed);
    WritingLeavesItBack(l, before, s.sold, sent, s.repaying, redeemed, left);
  }

  lemma BackOnceSettled(l: Layout, env: Environment, p: Position, before: Accounts, s: Settlement, sent: Accounts,
                        redeemed: nat)
    requires l.Distinct() && Settled(l, env, p, before, s) && HandedBack(l, s.settled, sent, redeemed)
    requires Custody(l, sent) && NoLamportsTaken(l, before, sent)
    ensures BackWithTheOwner(l, before, s.sold, sent, s.repaying, redeemed)
  {
    NoTwoAddressesCollide(l);
  }

  lemma WritingLeavesItBack(l: Layout, before: Accounts, sold: Accounts, sent: Accounts, debt: nat, redeemed: nat,
                            left: Position)
    requires l.Distinct() && BackWithTheOwner(l, before, sold, sent, debt, redeemed)
    requires At(sent, l.position).program == ACCRUE_PROGRAM
    ensures BackWithTheOwner(l, before, sold, WriteRecord(l, sent, left), debt, redeemed)
  {
    NoTwoAddressesCollide(l);
  }

  /** The accounts after the sale of a committed leave. */
  function Sold(l: Layout, env: Environment, before: Accounts): Accounts
    requires Leave(l, env, before).Ok?
  {
    LeaveSale(l, env, ReadRecord(l, before).value, before).value
  }

  lemma TheEndingsExclude(l: Layout, env: Environment, p: Position, before: Accounts, sold: Accounts, after: Accounts)
    ensures !(EndsClosed(l, env, p, before, sold, after) && EndsClosing(l, env, p, before, sold, after))
  {
  }

  /** The unfolding of `Leave`: its settlement, then one of its endings. */
  lemma TheStepsOfALeave(l: Layout, env: Environment, before: Accounts)
    returns (p: Position, s: Settlement, after: Accounts)
    requires Leave(l, env, before).Ok?
    ensures Leave(l, env, before) == Ok(after) && ReadRecord(l, before) == Ok(p) && l.owner == p.owner
    ensures LeaveGates(env, p).Ok?
    ensures ReadPositionLedger(l, before).Ok? && LeaveSale(l, env, p, before) == Ok(s.sold)
    ensures Settle(l, env, p, Amount(before, l.usdcAccount), before) == Ok(s)
    ensures var ledger := ReadPositionLedger(l, before).value;
      if s.stillOwed > 0 then LeavePartWay(l, p, ledger, s.raised, s.repaying, s.stillOwed, s.settled) == Ok(after)
      else LeaveWhole(l, env, p, ledger, s.raised, s.repaying, s.settled) == Ok(after)
  {
    after := Leave(l, env, before).value;
    p := ReadRecord(l, before).value;
    s := Settle(l, env, p, ReadPositionLedger(l, before).value.usdcBalance, before).value;
  }

  lemma EitherEnding(l: Layout, env: Environment, p: Position, before: Accounts, s: Settlement, after: Accounts)
    requires l.Distinct() && l.owner == p.owner && ReadPositionLedger(l, before).Ok? && Settled(l, env, p, before, s)
    requires var ledger := ReadPositionLedger(l, before).value;
      if s.stillOwed > 0 then LeavePartWay(l, p, ledger, s.raised, s.repaying, s.stillOwed, s.settled) == Ok(after)
      else LeaveWhole(l, env, p, ledger, s.raised, s.repaying, s.settled) == Ok(after)
    ensures s.stillOwed > 0 ==> EndsClosing(l, env, p, before, s.sold, after)
    ensures s.stillOwed == 0 ==> EndsClosed(l, env, p, before, s.sold, after)
    ensures Conserves(s.sold, after)
  {
    if s.stillOwed > 0 {
      APartialLeave(l, env, p, before, s, after);
    } else {
      AWholeLeave(l, env, p, before, s, after);
    }
  }

  /**
   * A committed leave came through every gate and has exactly two outcomes, for every router and every market, told
   * apart by whether the USDC held after the sale covers the loan rounded up. The sale returns at least the oracle
   * floor of all that was held of the yield token, and after it nothing is minted or burnt.
   */
  lemma ACommittedLeaveHasTwoOutcomes(l: Layout, env: Environment, before: Accounts)
    requires l.Distinct() && Leave(l, env, before).Ok?
    ensures var p := ReadRecord(l, before).value;
      var sold, after := Sold(l, env, before), Leave(l, env, before).value;
      && LeaveIsOpen(env, p, Amount(before, l.destinationAccount)) && l.owner == p.owner
      && SaleOnly(l, env, before, sold)
      && (Amount(sold, l.usdcAccount) >= DebtToCover(l, env, sold) <==> EndsClosed(l, env, p, before, sold, after))
      && (Amount(sold, l.usdcAccount) < DebtToCover(l, env, sold) <==> EndsClosing(l, env, p, before, sold, after))
      && Conserves(sold, after)
  {
    var p, s, after := TheStepsOfALeave(l, env, before);
    TheSale(l, env, p, before);
    TheLeaveGatesAgree(env, p, Amount(before, l.destinationAccount));
    Settling(l, env, p, before, s);
    EitherEnding(l, env, p, before, s, after);
    TheEndingsExclude(l, env, p, before, s.sold, after);
  }

  // ----- what a leave leaves alone

  /** Whatever the router does, a leave takes nothing from the owner's own token accounts. */
  lemma TheOwnerLosesNothingByALeave(l: Layout, env: Environment, before: Accounts)
    requires l.Distinct() && Leave(l, env, before).Ok? && OutOfTheRoutersReach(l, env, before)
    ensures OwnerLosesNothing(l, before, Leave(l, env, before).value)
  {
    ACommittedLeaveHasTwoOutcomes(l, env, before);
    TheRouterTakesNothingFromTheOwner(l, env, before, Sold(l, env, before));
    AnEndingTakesNothing(l, env, ReadRecord(l, before).value, before, Sold(l, env, before),
                         Leave(l, env, before).value);
  }

  lemma AnEndingTakesNothing(l: Layout, env: Environment, p: Position, before: Accounts, sold: Accounts,
                             after: Accounts)
    requires l.Distinct() && OwnerLosesNothing(l, before, sold)
    requires EndsClosed(l, env, p, before, sold, after) || EndsClosing(l, env, p, before, sold, after)
    requires EndsClosed(l, env, p, before, sold, after) ==> Amount(sold, l.usdcAccount) >= DebtToCover(l, env, sold)
    ensures OwnerLosesNothing(l, before, after)
  {
    NoTwoAddressesCollide(l);
  }

  /** And where the router mints and burns nothing, neither does the leave. */
  lemma ALeaveConserves(l: Layout, env: Environment, before: Accounts)
    requires l.Distinct() && Leave(l, env, before).Ok? && TheRouterConserves(l, env)
    ensures Conserves(before, Leave(l, env, before).value)
  {
    ACommittedLeaveHasTwoOutcomes(l, env, before);
    TheSaleConserves(l, env, ReadRecord(l, before).value, before, Sold(l, env, before));
    ConservesInTurn(before, Sold(l, env, before), Leave(l, env, before).value);
  }

  lemma TheSaleConserves(l: Layout, env: Environment, p: Position, before: Accounts, sold: Accounts)
    requires LeaveSale(l, env, p, before) == Ok(sold) && TheRouterConserves(l, env)
    ensures Conserves(before, sold)
  {
    var held := Amount(before, l.destinationAccount);
    if held > 0 {
      ASwapConserves(l, env, LeaveSwap(l, env, p, held).value, before, sold);
    }
  }

  /** Once a leave has ended closed, the owner can close the position. */
  lemma ClosingFollowsAWholeLeave(l: Layout, env: Environment, p: Position, before: Accounts, sold: Accounts,
                                  after: Accounts, later: Environment)
    requires l.Distinct() && EndsClosed(l, env, p, before, sold, after) && later.caller == p.owner
    ensures ClosePosition(l, later, after).Ok?
  {
    NoTwoAddressesCollide(l);
  }
}
