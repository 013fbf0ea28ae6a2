// What the steps an instruction is made of leave alone: the swap for every router, and the writes to the record.
module Steps {
  import opened Outcomes
  import opened Positions
  import opened Runtime
  import opened Invariants
  import opened Market
  import opened Instructions

  ghost predicate UntouchedBut(before: Accounts, after: Accounts, touched: set<Key>) {
    forall key :: key !in touched ==> At(after, key) == At(before, key)
  }

  lemma UntouchedInTurn(before: Accounts, between: Accounts, after: Accounts, first: set<Key>, second: set<Key>,
                        touched: set<Key>)
    requires UntouchedBut(before, between, first) && UntouchedBut(between, after, second) && first <= touched
      && second <= touched
    ensures UntouchedBut(before, after, touched)
  {
    forall key | key !in touched ensures At(after, key) == At(before, key) {
      assert key !in first && key !in second;
    }
  }

  lemma NoTwoAddressesCollide(l: Layout)
    requires l.Distinct()
    ensures l.position != l.collateralAccount && l.position != l.usdcAccount && l.position != l.destinationAccount
    ensures l.position != l.obligation && l.position != l.owner
    ensures l.position !in {l.ownerCollateralAccount, l.ownerUsdcAccount, l.ownerDestinationAccount,
                            l.collateralVault, l.usdcVault}
    ensures l.obligation !in {l.collateralAccount, l.usdcAccount, l.destinationAccount, l.owner}
    ensures l.obligation !in {l.ownerCollateralAccount, l.ownerUsdcAccount, l.ownerDestinationAccount,
                            l.collateralVault, l.usdcVault}
    ensures l.collateralAccount != l.usdcAccount && l.collateralAccount != l.destinationAccount
      && l.usdcAccount != l.destinationAccount
    ensures l.owner !in {l.collateralAccount, l.usdcAccount, l.destinationAccount}
    ensures {l.collateralAccount, l.usdcAccount, l.destinationAccount} !!
            {l.ownerCollateralAccount, l.ownerUsdcAccount, l.ownerDestinationAccount, l.collateralVault, l.usdcVault}
    ensures l.ownerCollateralAccount !in {l.ownerUsdcAccount, l.ownerDestinationAccount, l.collateralVault, l.usdcVault}
    ensures l.ownerUsdcAccount !in {l.ownerDestinationAccount, l.collateralVault, l.usdcVault}
    ensures l.ownerDestinationAccount !in {l.collateralVault, l.usdcVault} && l.collateralVault != l.usdcVault
    ensures l.feeReceiver !in {l.position, l.collateralAccount, l.usdcAccount, l.destinationAccount, l.obligation}
    ensures l.feeReceiver !in {l.ownerCollateralAccount, l.ownerUsdcAccount, l.ownerDestinationAccount,
                               l.collateralVault, l.usdcVault}
  {
    var a := l.Addresses();
    assert a[0] == l.position && a[1] == l.collateralAccount && a[2] == l.usdcAccount && a[3] == l.destinationAccount;
    assert a[4] == l.obligation && a[5] == l.owner;
    assert a[6] == l.ownerCollateralAccount && a[7] == l.ownerUsdcAccount && a[8] == l.ownerDestinationAccount;
    assert a[9] == l.marketAuthority && a[10] == l.collateralVault && a[11] == l.usdcVault;
    assert a[12] == l.feeReceiver;
  }

  // ----- the record

  lemma WritingTheRecordConserves(l: Layout, accounts: Accounts, p: Position)
    requires At(accounts, l.position).program == ACCRUE_PROGRAM
    ensures Conserves(accounts, WriteRecord(l, accounts, p))
    ensures UntouchedBut(accounts, WriteRecord(l, accounts, p), {l.position})
    ensures ReadRecord(l, WriteRecord(l, accounts, p)) == Ok(p)
  {
    OtherWritesConserve(accounts, l.position, At(accounts, l.position).(data := Record(p)));
  }

  // ----- the market

  /** A refresh changes the loan's values, and its debt at most once a slot. */
  ghost predicate RefreshedFrom(l: Layout, m: Market, before: Accounts, after: Accounts) {
    && ReadLoan(before, l.obligation).Ok?
    && UntouchedBut(before, after, {l.obligation})
    && ReadLoan(after, l.obligation) == Ok(Refreshed(m, ReadLoan(before, l.obligation).value))
    && At(after, l.obligation).lamports == At(before, l.obligation).lamports
    && Conserves(before, after)
  }

  lemma Refreshing(l: Layout, m: Market, before: Accounts, after: Accounts)
    requires Refresh(m, l, before) == Ok(after)
    ensures RefreshedFrom(l, m, before, after)
  {
    RefreshConserves(m, l, before);
  }

  // ----- the swap

  /**
   * No more spent than allowed and no less received than asked, and the obligation, the record and the token
   * account outside the swap as they were, with every account of the program, the market and its farms. The two
   * accounts of the swap still hold the mints they held.
   */
  ghost predicate SwappedWithinBounds(l: Layout, env: Environment, swap: JupiterSwap, before: Accounts,
                                      after: Accounts) {
    && RuntimeAllows(RouterCall(l, env), before, after)
    && 0 <= Amount(before, swap.source) - Amount(after, swap.source) <= swap.amountIn
    && Amount(after, swap.destination) - Amount(before, swap.destination) >= swap.minimumOut
    && At(after, l.collateralAccount) == At(before, l.collateralAccount)
    && At(after, l.obligation) == At(before, l.obligation)
    && At(after, l.position).data == At(before, l.position).data && At(after, l.position).program == ACCRUE_PROGRAM
    && IsTokenAccount(At(before, swap.source)) && IsTokenAccount(At(before, swap.destination))
    && IsTokenAccount(At(after, swap.source)) && IsTokenAccount(At(after, swap.destination))
    && At(after, swap.source).data.mint == At(before, swap.source).data.mint
    && At(after, swap.destination).data.mint == At(before, swap.destination).data.mint
    && TheProgramsAreLeftAlone(before, after)
  }

  lemma AnAccountKeepsItsMint(call: Call, before: Accounts, after: Accounts, key: Key)
    requires RuntimeAllows(call, before, after)
    requires IsTokenAccount(At(before, key)) && IsTokenAccount(At(after, key))
    ensures At(after, key).data.mint == At(before, key).data.mint
  {
    OnlyWhatIsPassedChanges(call, before, after, key);
  }

  /** A committed swap, for every router. */
  lemma ACommittedSwap(l: Layout, env: Environment, swap: JupiterSwap, before: Accounts, after: Accounts)
    requires l.Distinct() && Swapped(l, env, swap, before) == Ok(after) && ReadRecord(l, before).Ok?
    requires swap.source in {l.usdcAccount, l.destinationAccount}
      && swap.destination in {l.usdcAccount, l.destinationAccount}
    ensures SwappedWithinBounds(l, env, swap, before, after)
  {
    TheDenyListAloneKeepsTheStock(l, RouterCall(l, env), before, after, swap.source, swap.destination);
    TheDenyListKeepsTheProgramsOut(l, RouterCall(l, env), before, after, swap.source, swap.destination);
    assert l.Addresses()[1] == l.collateralAccount && l.Addresses()[2] == l.usdcAccount
      && l.Addresses()[3] == l.destinationAccount;
    AnAccountKeepsItsMint(RouterCall(l, env), before, after, swap.source);
    AnAccountKeepsItsMint(RouterCall(l, env), before, after, swap.destination);
  }

  /**
   * Exactly when a swap commits, and to what: there is something to swap and a route that carries nothing forbidden;
   * the accounts are what the router made of them and the runtime allowed it; and the two measured balances, readable
   * before and after, keep to the bounds.
   */
  lemma ASwapCommitsExactly(l: Layout, env: Environment, swap: JupiterSwap, before: Accounts, after: Accounts)
    ensures Swapped(l, env, swap, before) == Ok(after) <==>
      && swap.amountIn > 0 && env.route != [] && !env.routeDataIsEmpty
      && (forall i :: 0 <= i < |env.route| ==>
            !IsForbidden(l, before, env.route[i].key, swap.source, swap.destination))
      && after == env.router(before) && RuntimeAllows(RouterCall(l, env), before, after)
      && IsTokenAccount(At(before, swap.source)) && IsTokenAccount(At(before, swap.destination))
      && IsTokenAccount(At(after, swap.source)) && IsTokenAccount(At(after, swap.destination))
      && Amount(before, swap.source) - swap.amountIn <= Amount(after, swap.source) <= Amount(before, swap.source)
      && Amount(after, swap.destination) >= Amount(before, swap.destination) + swap.minimumOut
  {
    forall i | 0 <= i < |env.route|
      ensures MayBePassed(l, before, env.route[i].key, swap.source, swap.destination)
         <==> !IsForbidden(l, before, env.route[i].key, swap.source, swap.destination)
    {
    }
  }

  /** The programs the router brings in mint and burn nothing of what they were handed. */
  ghost predicate TheRouterConserves(l: Layout, env: Environment) {
    forall accounts: Accounts :: RuntimeAllows(RouterCall(l, env), accounts, env.router(accounts)) ==>
        Conserves(accounts, env.router(accounts))
  }

  lemma ASwapConserves(l: Layout, env: Environment, swap: JupiterSwap, before: Accounts, after: Accounts)
    requires Swapped(l, env, swap, before) == Ok(after) && TheRouterConserves(l, env)
    ensures Conserves(before, after)
  {
  }

  // ----- what every instruction but the last keeps

  /**
   * The stock where it was, in the wallet and in the market; the token accounts still the position's alone; no rent
   * taken.
   */
  ghost predicate KeepsThePosition(l: Layout, before: Accounts, after: Accounts) {
    && Amount(after, l.collateralAccount) == Amount(before, l.collateralAccount)
    && CollateralIn(after, l.obligation) == CollateralIn(before, l.obligation)
    && Custody(l, after) && NoLamportsTaken(l, before, after)
  }

  // ----- the owner's own accounts

  /** No authority over the owner's own token accounts signs during the call. */
  predicate OutOfTheRoutersReach(l: Layout, env: Environment, accounts: Accounts) {
    forall key | key in {l.ownerCollateralAccount, l.ownerUsdcAccount, l.ownerDestinationAccount} ::
      IsTokenAccount(At(accounts, key)) ==> !InReach(RouterCall(l, env), At(accounts, key).data)
  }

  lemma TheRouterOnlyAdds(l: Layout, env: Environment, before: Accounts, after: Accounts, key: Key)
    requires RuntimeAllows(RouterCall(l, env), before, after)
    requires IsTokenAccount(At(before, key)) ==> !InReach(RouterCall(l, env), At(before, key).data)
    ensures Amount(after, key) >= Amount(before, key)
  {
    if IsTokenAccount(At(before, key)) {
      OutOfReachNeverLoses(RouterCall(l, env), before, after, key);
    }
  }

  ghost predicate OwnerLosesNothing(l: Layout, before: Accounts, after: Accounts) {
    && Amount(after, l.ownerCollateralAccount) >= Amount(before, l.ownerCollateralAccount)
    && Amount(after, l.ownerUsdcAccount) >= Amount(before, l.ownerUsdcAccount)
    && Amount(after, l.ownerDestinationAccount) >= Amount(before, l.ownerDestinationAccount)
  }

  lemma TheRouterTakesNothingFromTheOwner(l: Layout, env: Environment, before: Accounts, after: Accounts)
    requires after == before || RuntimeAllows(RouterCall(l, env), before, after)
    requires OutOfTheRoutersReach(l, env, before)
    ensures OwnerLosesNothing(l, before, after)
  {
    if after != before {
      TheRouterOnlyAdds(l, env, before, after, l.ownerCollateralAccount);
      TheRouterOnlyAdds(l, env, before, after, l.ownerUsdcAccount);
      TheRouterOnlyAdds(l, env, before, after, l.ownerDestinationAccount);
    }
  }
}
