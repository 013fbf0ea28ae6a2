// What a committed add_collateral and a committed close_position come to.
module Depositing {
  import opened Outcomes
  import opened Positions
  import opened Runtime
  import opened Invariants
  import opened Market
  import opened Instructions
  import opened Steps

  // ----- add_collateral

  /**
   * The stock goes from the owner to the vault, through the position, which ends with what it had; the obligation
   * gains exactly what the market minted for it, and nothing else changes.
   */
  ghost predicate AddedByTheRules(l: Layout, env: Environment, p: Position, amount: u64, before: Accounts,
                                  after: Accounts) {
    && env.caller == p.owner == l.owner && p.state != Closed && amount > 0
    && ReadLoan(before, l.obligation).Ok?
    && var o := Refreshed(env.market, ReadLoan(before, l.obligation).value);
    && ReadRecord(l, after) == Ok(p)
    && Amount(after, l.ownerCollateralAccount) == Amount(before, l.ownerCollateralAccount) - amount
    && Amount(after, l.collateralAccount) == Amount(before, l.collateralAccount)
    && Amount(after, l.collateralVault) == Amount(before, l.collateralVault) + amount
    && o.collateral + env.market.minted(amount) < TWO_TO_THE_64
    && ReadLoan(after, l.obligation) == Ok(o.(collateral := o.collateral + env.market.minted(amount)))
    && UntouchedBut(before, after, {l.ownerCollateralAccount, l.collateralAccount, l.collateralVault, l.obligation})
    && Custody(l, after) && NoLamportsTaken(l, before, after)
    && Conserves(before, after)
  }

  lemma ACommittedAddition(l: Layout, env: Environment, amount: u64, before: Accounts)
    requires l.Distinct() && AddCollateral(l, env, amount, before).Ok?
    ensures AddedByTheRules(l, env, ReadRecord(l, before).value, amount, before,
        AddCollateral(l, env, amount, before).value)
  {
    var ledger := ReadPositionLedger(l, before).value;
    var moved := Transfer(before, l.ownerCollateralAccount, l.collateralAccount, l.owner, amount).value;
    var refreshed := Refresh(env.market, l, moved).value;
    var after := Deposit(env.market, l, refreshed, amount).value;
    var minted := ObligationDepositedAmount(after, l.obligation).value - ledger.obligationCollateral;
    PassingTheChecksMeans(l, before, ExactlyIn(minted), NoSwapInThisInstruction, after);
    AddingMoves(l, env, amount, before, moved, refreshed, after);
  }

  lemma AddingMoves(l: Layout, env: Environment, amount: u64, before: Accounts, moved: Accounts, refreshed: Accounts,
                    after: Accounts)
    requires l.Distinct()
    requires Transfer(before, l.ownerCollateralAccount, l.collateralAccount, l.owner, amount) == Ok(moved)
    requires Refresh(env.market, l, moved) == Ok(refreshed) && Deposit(env.market, l, refreshed, amount) == Ok(after)
    ensures Conserves(before, after) && ReadLoan(before, l.obligation).Ok?
    ensures var o := Refreshed(env.market, ReadLoan(before, l.obligation).value);
      && o.collateral + env.market.minted(amount) < TWO_TO_THE_64
      && ReadLoan(after, l.obligation) == Ok(o.(collateral := o.collateral + env.market.minted(amount)))
    ensures Amount(after, l.ownerCollateralAccount) == Amount(before, l.ownerCollateralAccount) - amount
    ensures Amount(after, l.collateralAccount) == Amount(before, l.collateralAccount)
    ensures Amount(after, l.collateralVault) == Amount(before, l.collateralVault) + amount
    ensures UntouchedBut(before, after,
                         {l.ownerCollateralAccount, l.collateralAccount, l.collateralVault, l.obligation})
    ensures ReadRecord(l, after) == ReadRecord(l, before)
  {
    NoTwoAddressesCollide(l);
    TransferConserves(before, l.ownerCollateralAccount, l.collateralAccount, l.owner, amount);
    RefreshConserves(env.market, l, moved);
    DepositConserves(env.market, l, refreshed, amount);
    ConservesInTurn(before, moved, refreshed);
    ConservesInTurn(before, refreshed, after);
  }

  // ----- close_position

  const GONE := Account(SYSTEM_PROGRAM, 0, Empty)

  /** Nothing was owed or held; the four accounts are gone, all their rent is the owner's, and nothing else changes. */
  ghost predicate ClosedByTheRules(l: Layout, before: Accounts, after: Accounts) {
    && ObligationBorrowedAmountScaled(before, l.obligation) == Ok(0)
    && ObligationDepositedAmount(before, l.obligation) == Ok(0)
    && Amount(before, l.collateralAccount) == Amount(before, l.usdcAccount) == Amount(before, l.destinationAccount) == 0
    && At(after, l.position) == At(after, l.collateralAccount) == At(after, l.usdcAccount)
        == At(after, l.destinationAccount) == GONE
    && At(after, l.owner) == At(before, l.owner).(lamports :=
         At(before, l.owner).lamports + At(before, l.position).lamports + At(before, l.collateralAccount).lamports
         + At(before, l.usdcAccount).lamports + At(before, l.destinationAccount).lamports)
    && UntouchedBut(before, after, {l.position, l.collateralAccount, l.usdcAccount, l.destinationAccount, l.owner})
    && Conserves(before, after)
  }

  lemma PayingOutConserves(accounts: Accounts, from: Key, to: Key)
    requires from != to && Amount(accounts, from) == 0
    ensures Conserves(accounts, PayOut(accounts, from, to))
    ensures UntouchedBut(accounts, PayOut(accounts, from, to), {from, to})
    ensures At(PayOut(accounts, from, to), from) == GONE
    ensures At(PayOut(accounts, from, to), to)
         == At(accounts, to).(lamports := At(accounts, to).lamports + At(accounts, from).lamports)
  {
    var emptied := accounts[from := GONE];
    var paid := At(emptied, to).(lamports := At(emptied, to).lamports + At(accounts, from).lamports);
    forall mint ensures SupplyHeld(accounts, mint) == SupplyHeld(PayOut(accounts, from, to), mint) {
      SupplyAfterAWrite(accounts, from, GONE, mint);
      SupplyAfterAWrite(emptied, to, paid, mint);
    }
  }

  lemma ACommittedClose(l: Layout, env: Environment, before: Accounts)
    requires l.Distinct() && ClosePosition(l, env, before).Ok?
    ensures env.caller == ReadRecord(l, before).value.owner == l.owner
    ensures ClosedByTheRules(l, before, ClosePosition(l, env, before).value)
  {
    NoTwoAddressesCollide(l);
    var first := PayOut(before, l.destinationAccount, l.owner);
    var second := PayOut(first, l.usdcAccount, l.owner);
    var third := PayOut(second, l.collateralAccount, l.owner);
    var last := PayOut(third, l.position, l.owner);
    PayingOutConserves(before, l.destinationAccount, l.owner);
    PayingOutConserves(first, l.usdcAccount, l.owner);
    PayingOutConserves(second, l.collateralAccount, l.owner);
    PayingOutConserves(third, l.position, l.owner);
    ConservesInTurn(before, first, second);
    ConservesInTurn(before, second, third);
    ConservesInTurn(before, third, last);
  }
}
