// The lending market as the program meets it: abstract valuations and interest, exact token and debt movements.
module Market {
  import opened Arithmetic
  import opened Outcomes
  import opened Runtime
  import opened Invariants

  datatype MarketStep = Refreshes | Borrows | Repays | Deposits | Withdraws

  /** What the market decides by itself, all of it arbitrary: interest, prices, exchange rates, fees and refusals. */
  datatype Market = Market(
    slot: u64,
    accrued: u128 -> u128,                    // the debt after the interest since the last refresh
    collateralValue: u64 -> u128,             // the value of an amount of collateral
    weightedDebtValue: u128 -> u128,          // the weighted value of a debt
    received: u64 -> u64,                     // what a borrow pays out
    fee: u64 -> u64,                          // what it pays the market's fee receiver
    debtAfterBorrow: (u128, u64) -> u128,     // the debt it leaves
    minted: u64 -> u64,                       // the collateral a deposit is turned into
    redeemed: u64 -> u64,                     // the stock a withdrawal of collateral is turned into
    closesEmptied: bool,                      // whether an emptied obligation's account is closed
    refuses: MarketStep -> bool)

  /** Interest is charged once a slot; the values are recomputed every time. */
  function Refreshed(m: Market, o: Obligation): Obligation {
    var debt := if o.updatedAt == m.slot then o.debtScaled else m.accrued(o.debtScaled);
    Obligation(debt, o.collateral, m.collateralValue(o.collateral), m.weightedDebtValue(debt), m.slot)
  }

  lemma RefreshIsIdempotentWithinASlot(m: Market, o: Obligation)
    ensures Refreshed(m, Refreshed(m, o)) == Refreshed(m, o)
  {
  }

  /** A debt in whole raw units, rounded up. */
  function WholeUnitsRoundingUp(debtScaled: nat): nat {
    CeilNonNegative(debtScaled, SCALED_FRACTION_ONE);
    CeilDiv(debtScaled, SCALED_FRACTION_ONE)
  }

  function ReadLoan(accounts: Accounts, key: Key): Checked<Obligation> {
    var account := At(accounts, key);
    if account.program == LEND_PROGRAM && account.data.Loan? then Ok(account.data.obligation) else Err(MarketRefused)
  }

  function WriteLoan(accounts: Accounts, key: Key, o: Obligation): Accounts {
    accounts[key := At(accounts, key).(data := Loan(o))]
  }

  function Refresh(m: Market, l: Layout, accounts: Accounts): Checked<Accounts> {
    if m.refuses(Refreshes) then Err(MarketRefused)
    else
      var o :- ReadLoan(accounts, l.obligation);
      Ok(WriteLoan(accounts, l.obligation, Refreshed(m, o)))
  }

  function Borrow(m: Market, l: Layout, accounts: Accounts, amount: u64): Checked<Accounts> {
    if m.refuses(Borrows) then Err(MarketRefused)
    else
      var o :- ReadLoan(accounts, l.obligation);
      var paid :- Transfer(accounts, l.usdcVault, l.usdcAccount, l.marketAuthority, m.received(amount));
      var charged :- ChargeFee(m, l, paid, m.fee(amount));
      Ok(WriteLoan(charged, l.obligation, o.(debtScaled := m.debtAfterBorrow(o.debtScaled, amount))))
  }

  /** The origination fee, out of the vault. */
  function ChargeFee(m: Market, l: Layout, accounts: Accounts, fee: u64): Checked<Accounts> {
    if fee == 0 then Ok(accounts) else Transfer(accounts, l.usdcVault, l.feeReceiver, l.marketAuthority, fee)
  }

  /** What a repayment of `amount` takes: never more than the debt rounded up. */
  function Taken(debtScaled: nat, amount: u64): nat {
    if amount * SCALED_FRACTION_ONE >= debtScaled then WholeUnitsRoundingUp(debtScaled) else amount
  }

  function Repay(m: Market, l: Layout, accounts: Accounts, amount: u64): Checked<Accounts> {
    if m.refuses(Repays) then Err(MarketRefused)
    else
      var o :- ReadLoan(accounts, l.obligation);
      CeilAtMost(o.debtScaled, SCALED_FRACTION_ONE, amount);
      var paid :- Transfer(accounts, l.usdcAccount, l.usdcVault, l.position, Taken(o.debtScaled, amount));
      Ok(WriteLoan(paid, l.obligation, o.(debtScaled := SaturatingSub(o.debtScaled, amount * SCALED_FRACTION_ONE))))
  }

  function Deposit(m: Market, l: Layout, accounts: Accounts, amount: u64): Checked<Accounts> {
    if m.refuses(Deposits) then Err(MarketRefused)
    else
      var o :- ReadLoan(accounts, l.obligation);
      var collateral :- CheckedAdd64(o.collateral, m.minted(amount));
      var paid :- Transfer(accounts, l.collateralAccount, l.collateralVault, l.position, amount);
      Ok(WriteLoan(paid, l.obligation, o.(collateral := collateral)))
  }

  function Withdraw(m: Market, l: Layout, accounts: Accounts, amount: u64): Checked<Accounts> {
    if m.refuses(Withdraws) then Err(MarketRefused)
    else
      var o :- ReadLoan(accounts, l.obligation);
      :- Need(amount <= o.collateral, MarketRefused);
      var paid :- Transfer(accounts, l.collateralVault, l.collateralAccount, l.marketAuthority, m.redeemed(amount));
      if m.closesEmptied && o.debtScaled == 0 && o.collateral == amount
      then Ok(paid[l.obligation := Account(SYSTEM_PROGRAM, 0, Empty)])
      else Ok(WriteLoan(paid, l.obligation, o.(collateral := o.collateral - amount)))
  }

  /** A repayment takes what is offered, or the debt rounded up if that is less. */
  lemma NoMoreIsTakenThanIsOwed(debtScaled: nat, amount: u64)
    ensures Taken(debtScaled, amount) == Smaller(amount, WholeUnitsRoundingUp(debtScaled))
  {
    CeilAtMost(debtScaled, SCALED_FRACTION_ONE, amount);
  }

  /** A withdrawal closes the obligation exactly when it empties it and the market closes what is empty. */
  lemma AWithdrawalClosesExactly(m: Market, l: Layout, accounts: Accounts, amount: u64)
    requires VaultsApart(l) && Withdraw(m, l, accounts, amount).Ok?
    ensures var o := ReadLoan(accounts, l.obligation).value;
      var after := At(Withdraw(m, l, accounts, amount).value, l.obligation);
      if m.closesEmptied && o.debtScaled == 0 && amount == o.collateral then after.data.Empty?
      else after.data == Loan(o.(collateral := o.collateral - amount))
  {
  }

  /** Covering the debt rounded up clears it; anything less leaves exactly the rest, and that is positive. */
  lemma RepayingAll(debtScaled: nat, amount: nat)
    ensures amount >= WholeUnitsRoundingUp(debtScaled) <==> SaturatingSub(debtScaled, amount * SCALED_FRACTION_ONE) == 0
    ensures amount <= WholeUnitsRoundingUp(debtScaled) ==>
      WholeUnitsRoundingUp(SaturatingSub(debtScaled, amount * SCALED_FRACTION_ONE))
          == WholeUnitsRoundingUp(debtScaled) - amount
  {
    CeilAtMost(debtScaled, SCALED_FRACTION_ONE, amount);
    var whole := WholeUnitsRoundingUp(debtScaled);
    CeilBounds(debtScaled, SCALED_FRACTION_ONE);
    if amount <= whole {
      var left := SaturatingSub(debtScaled, amount * SCALED_FRACTION_ONE);
      CeilAtMost(left, SCALED_FRACTION_ONE, whole - amount);
      CeilAtMost(left, SCALED_FRACTION_ONE, whole - amount - 1);
      CeilNonNegative(left, SCALED_FRACTION_ONE);
    }
  }

  /**
   * A transfer and the write to the obligation that goes with it, whether the market keeps the account or closes it.
   */
  lemma PayingConserves(l: Layout, accounts: Accounts, from: Key, to: Key, authority: Key, amount: u64, o: Obligation)
    requires l.obligation != from && l.obligation != to && !IsTokenAccount(At(accounts, l.obligation))
    ensures var paid := Transfer(accounts, from, to, authority, amount);
      paid.Ok? ==>
      && Conserves(accounts, WriteLoan(paid.value, l.obligation, o))
      && Conserves(accounts, paid.value[l.obligation := Account(SYSTEM_PROGRAM, 0, Empty)])
  {
    var paid := Transfer(accounts, from, to, authority, amount);
    if paid.Ok? {
      TransferConserves(accounts, from, to, authority, amount);
      OtherWritesConserve(paid.value, l.obligation, At(paid.value, l.obligation).(data := Loan(o)));
      OtherWritesConserve(paid.value, l.obligation, Account(SYSTEM_PROGRAM, 0, Empty));
    }
  }

  ghost predicate VaultsApart(l: Layout) {
    l.obligation !in {l.usdcVault, l.usdcAccount, l.collateralVault, l.collateralAccount, l.feeReceiver}
  }

  lemma RefreshConserves(m: Market, l: Layout, accounts: Accounts)
    requires Refresh(m, l, accounts).Ok?
    ensures Conserves(accounts, Refresh(m, l, accounts).value)
  {
    OtherWritesConserve(accounts, l.obligation, At(Refresh(m, l, accounts).value, l.obligation));
  }

  lemma BorrowConserves(m: Market, l: Layout, accounts: Accounts, amount: u64)
    requires VaultsApart(l) && Borrow(m, l, accounts, amount).Ok?
    ensures Conserves(accounts, Borrow(m, l, accounts, amount).value)
  {
    var o := ReadLoan(accounts, l.obligation).value;
    var left := o.(debtScaled := m.debtAfterBorrow(o.debtScaled, amount));
    var paid := Transfer(accounts, l.usdcVault, l.usdcAccount, l.marketAuthority, m.received(amount)).value;
    if m.fee(amount) == 0 {
      PayingConserves(l, accounts, l.usdcVault, l.usdcAccount, l.marketAuthority, m.received(amount), left);
    } else {
      TransferConserves(accounts, l.usdcVault, l.usdcAccount, l.marketAuthority, m.received(amount));
      PayingConserves(l, paid, l.usdcVault, l.feeReceiver, l.marketAuthority, m.fee(amount), left);
      ConservesInTurn(accounts, paid, Borrow(m, l, accounts, amount).value);
    }
  }

  lemma RepayConserves(m: Market, l: Layout, accounts: Accounts, amount: u64)
    requires VaultsApart(l) && Repay(m, l, accounts, amount).Ok?
    ensures Conserves(accounts, Repay(m, l, accounts, amount).value)
  {
    var o := ReadLoan(accounts, l.obligation).value;
    CeilAtMost(o.debtScaled, SCALED_FRACTION_ONE, amount);
    PayingConserves(l, accounts, l.usdcAccount, l.usdcVault, l.position, Taken(o.debtScaled, amount),
                    o.(debtScaled := SaturatingSub(o.debtScaled, amount * SCALED_FRACTION_ONE)));
  }

  lemma DepositConserves(m: Market, l: Layout, accounts: Accounts, amount: u64)
    requires VaultsApart(l) && Deposit(m, l, accounts, amount).Ok?
    ensures Conserves(accounts, Deposit(m, l, accounts, amount).value)
  {
    var o := ReadLoan(accounts, l.obligation).value;
    PayingConserves(l, accounts, l.collateralAccount, l.collateralVault, l.position, amount,
                    o.(collateral := o.collateral + m.minted(amount)));
  }

  lemma WithdrawConserves(m: Market, l: Layout, accounts: Accounts, amount: u64)
    requires VaultsApart(l) && Withdraw(m, l, accounts, amount).Ok?
    ensures Conserves(accounts, Withdraw(m, l, accounts, amount).value)
  {
    var o := ReadLoan(accounts, l.obligation).value;
    PayingConserves(l, accounts, l.collateralVault, l.collateralAccount, l.marketAuthority, m.redeemed(amount),
                    o.(collateral := o.collateral - amount));
  }

  /** What the market refuses fails, and so does every step on what is not a loan of its own. */
  lemma ARefusedStepFails(m: Market, l: Layout, accounts: Accounts, amount: u64)
    ensures m.refuses(Refreshes) || ReadLoan(accounts, l.obligation).Err? ==>
      Refresh(m, l, accounts) == Err(MarketRefused)
    ensures m.refuses(Borrows) || ReadLoan(accounts, l.obligation).Err? ==>
      Borrow(m, l, accounts, amount) == Err(MarketRefused)
    ensures m.refuses(Repays) || ReadLoan(accounts, l.obligation).Err? ==>
      Repay(m, l, accounts, amount) == Err(MarketRefused)
    ensures m.refuses(Deposits) || ReadLoan(accounts, l.obligation).Err? ==>
      Deposit(m, l, accounts, amount) == Err(MarketRefused)
    ensures m.refuses(Withdraws) || ReadLoan(accounts, l.obligation).Err? ==>
      Withdraw(m, l, accounts, amount) == Err(MarketRefused)
  {
  }

  /** No market step mints or burns a token. */
  lemma MarketStepsConserve(m: Market, l: Layout, accounts: Accounts, amount: u64)
    requires VaultsApart(l)
    ensures Refresh(m, l, accounts).Ok? ==> Conserves(accounts, Refresh(m, l, accounts).value)
    ensures Borrow(m, l, accounts, amount).Ok? ==> Conserves(accounts, Borrow(m, l, accounts, amount).value)
    ensures Repay(m, l, accounts, amount).Ok? ==> Conserves(accounts, Repay(m, l, accounts, amount).value)
    ensures Deposit(m, l, accounts, amount).Ok? ==> Conserves(accounts, Deposit(m, l, accounts, amount).value)
    ensures Withdraw(m, l, accounts, amount).Ok? ==> Conserves(accounts, Withdraw(m, l, accounts, amount).value)
  {
    if Refresh(m, l, accounts).Ok? {
      RefreshConserves(m, l, accounts);
    }
    if Borrow(m, l, accounts, amount).Ok? {
      BorrowConserves(m, l, accounts, amount);
    }
    if Repay(m, l, accounts, amount).Ok? {
      RepayConserves(m, l, accounts, amount);
    }
    if Deposit(m, l, accounts, amount).Ok? {
      DepositConserves(m, l, accounts, amount);
    }
    if Withdraw(m, l, accounts, amount).Ok? {
      WithdrawConserves(m, l, accounts, amount);
    }
  }
}
