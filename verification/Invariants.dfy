// The deny list in front of a swap, and the checks every instruction ends with.
module Invariants {
  import opened Outcomes
  import opened Positions
  import opened Runtime

  /**
   * The addresses of one position: its own four accounts, its obligation, its owner's accounts and the market's own.
   */
  datatype Layout = Layout(
    position: Key,
    collateralAccount: Key,
    usdcAccount: Key,
    destinationAccount: Key,
    obligation: Key,
    owner: Key,
    ownerCollateralAccount: Key,
    ownerUsdcAccount: Key,
    ownerDestinationAccount: Key,
    marketAuthority: Key,
    collateralVault: Key,
    usdcVault: Key,
    feeReceiver: Key)
  {
    function Addresses(): seq<Key> {
      [position, collateralAccount, usdcAccount, destinationAccount, obligation, owner,
       ownerCollateralAccount, ownerUsdcAccount, ownerDestinationAccount, marketAuthority, collateralVault,
       usdcVault, feeReceiver]
    }

    /** Derived addresses never collide, with each other or with a program. */
    ghost predicate Distinct() {
      && (forall i, j :: 0 <= i < j < |Addresses()| ==> Addresses()[i] != Addresses()[j])
      && (forall i :: 0 <= i < |Addresses()| ==> Addresses()[i] > SWAP_PROGRAM)
    }
  }

  function TokenAccountAmount(accounts: Accounts, key: Key): Checked<u64> {
    var account := At(accounts, key);
    :- Need(IsTokenProgram(account.program), UnknownTokenProgram);
    if account.data.Tokens? then Ok(account.data.amount) else Err(AccountTooShort)
  }

  /** Reads of an obligation the market has closed are zero. */
  function ReadObligation(accounts: Accounts, key: Key): Checked<Option<Obligation>> {
    var account := At(accounts, key);
    if account.data.Empty? then Ok(None)
    else
      :- Need(account.program == LEND_PROGRAM, NotAKaminoAccount);
      if account.data.Loan? then Ok(Some(account.data.obligation)) else Err(AccountTooShort)
  }

  function ObligationDepositedAmount(accounts: Accounts, key: Key): Checked<u64> {
    var read :- ReadObligation(accounts, key);
    Ok(if read.None? then 0 else read.value.collateral)
  }

  function ObligationBorrowedAmountScaled(accounts: Accounts, key: Key): Checked<u128> {
    var read :- ReadObligation(accounts, key);
    Ok(if read.None? then 0 else read.value.debtScaled)
  }

  datatype PositionLedger = PositionLedger(
    positionLamports: nat, collateralLamports: nat, usdcLamports: nat, destinationLamports: nat,
    collateralBalance: u64, usdcBalance: u64, destinationBalance: u64, obligationCollateral: u64)

  function ReadPositionLedger(l: Layout, accounts: Accounts): Checked<PositionLedger> {
    var collateral :- TokenAccountAmount(accounts, l.collateralAccount);
    var usdc :- TokenAccountAmount(accounts, l.usdcAccount);
    var destination :- TokenAccountAmount(accounts, l.destinationAccount);
    var deposited :- ObligationDepositedAmount(accounts, l.obligation);
    Ok(PositionLedger(
      At(accounts, l.position).lamports, At(accounts, l.collateralAccount).lamports,
      At(accounts, l.usdcAccount).lamports, At(accounts, l.destinationAccount).lamports,
      collateral, usdc, destination, deposited))
  }

  // ----- the deny list

  predicate MayBePassed(l: Layout, accounts: Accounts, key: Key, source: Key, destination: Key) {
    || key == l.position
    || (&& key != l.obligation
        && key != ACCRUE_PROGRAM && key != LEND_PROGRAM && key != FARMS_PROGRAM
        && At(accounts, key).program != ACCRUE_PROGRAM
        && At(accounts, key).program != LEND_PROGRAM
        && (key == l.collateralAccount || key == l.usdcAccount || key == l.destinationAccount ==>
              key == source || key == destination))
  }

  /** The same list from the other side: what a route may not carry, the signing position aside. */
  predicate IsForbidden(l: Layout, accounts: Accounts, key: Key, source: Key, destination: Key) {
    && key != l.position
    && (|| key in {l.obligation, ACCRUE_PROGRAM, LEND_PROGRAM, FARMS_PROGRAM}
        || At(accounts, key).program in {ACCRUE_PROGRAM, LEND_PROGRAM}
        || key in {l.collateralAccount, l.usdcAccount, l.destinationAccount} - {source, destination})
  }

  method AssertSwapRouteTouchesNothingItMustNot(l: Layout, accounts: Accounts, route: seq<Passed>, source: Key,
                                                destination: Key)
    returns (r: Checked<()>)
    ensures r.Ok? <==> RouteIsClean(l, accounts, route, source, destination)
    ensures r.Err? <==> exists i :: 0 <= i < |route| && IsForbidden(l, accounts, route[i].key, source, destination)
    ensures r.Err? ==> r.error == SwapRouteTouchesAForbiddenAccount
  {
    for i := 0 to |route|
      invariant forall k :: 0 <= k < i ==> MayBePassed(l, accounts, route[k].key, source, destination)
    {
      if !MayBePassed(l, accounts, route[i].key, source, destination) {
        assert IsForbidden(l, accounts, route[i].key, source, destination);
        return Err(SwapRouteTouchesAForbiddenAccount);
      }
    }
    return Ok(());
  }

  predicate RouteIsClean(l: Layout, accounts: Accounts, route: seq<Passed>, source: Key, destination: Key) {
    forall i :: 0 <= i < |route| ==> MayBePassed(l, accounts, route[i].key, source, destination)
  }

  /**
   * The deny list and the runtime are enough on their own: before any check made after the call, and for every
   * router, the obligation and each of the position's token accounts outside the swap are as they were, the
   * record is as it was, and the position's own account was at most paid.
   */
  lemma TheDenyListAloneKeepsTheStock(l: Layout, call: Call, before: Accounts, after: Accounts, source: Key,
                                      destination: Key)
    requires l.Distinct() && call.position == l.position
    requires RouteIsClean(l, before, call.route, source, destination)
    requires RuntimeAllows(call, before, after)
    requires At(before, l.position).program == ACCRUE_PROGRAM
    ensures At(after, l.obligation) == At(before, l.obligation)
    ensures At(after, l.position).data == At(before, l.position).data
    ensures At(after, l.position).program == ACCRUE_PROGRAM
    ensures At(after, l.position).lamports >= At(before, l.position).lamports
    ensures forall key :: key in {l.collateralAccount, l.usdcAccount, l.destinationAccount} - {source, destination} ==>
      At(after, key) == At(before, key)
  {
    assert l.position == l.Addresses()[0] && l.obligation == l.Addresses()[4];
    assert l.collateralAccount == l.Addresses()[1] && l.usdcAccount == l.Addresses()[2]
      && l.destinationAccount == l.Addresses()[3];
    OnlyWhatIsPassedChanges(call, before, after, l.obligation);
    OnlyWhatIsPassedChanges(call, before, after, l.position);
    OnlyWhatIsPassedChanges(call, before, after, l.collateralAccount);
    OnlyWhatIsPassedChanges(call, before, after, l.usdcAccount);
    OnlyWhatIsPassedChanges(call, before, after, l.destinationAccount);
  }

  lemma OnlyWhatIsPassedChanges(call: Call, before: Accounts, after: Accounts, key: Key)
    requires RuntimeAllows(call, before, after)
    ensures MayBecome(call, key, At(before, key), At(after, key))
  {
  }

  /** Whatever belongs to the program, to the lending market or to its farms keeps its data, and is at most paid. */
  ghost predicate TheProgramsAreLeftAlone(before: Accounts, after: Accounts) {
    forall key :: At(before, key).program in {ACCRUE_PROGRAM, LEND_PROGRAM, FARMS_PROGRAM} ==>
      && At(after, key).data == At(before, key).data && At(after, key).program == At(before, key).program
      && At(after, key).lamports >= At(before, key).lamports
  }

  /**
   * Behind the deny list none of the three programs runs inside the call, so no router reaches an account of theirs,
   * of this position or of any other.
   */
  lemma TheDenyListKeepsTheProgramsOut(l: Layout, call: Call, before: Accounts, after: Accounts, source: Key,
                                       destination: Key)
    requires l.Distinct() && call.position == l.position
    requires RouteIsClean(l, before, call.route, source, destination)
    requires RuntimeAllows(call, before, after)
    ensures !Runs(call, ACCRUE_PROGRAM) && !Runs(call, LEND_PROGRAM) && !Runs(call, FARMS_PROGRAM)
    ensures TheProgramsAreLeftAlone(before, after)
  {
    assert l.position == l.Addresses()[0] > SWAP_PROGRAM;
    forall key | At(before, key).program in {ACCRUE_PROGRAM, LEND_PROGRAM, FARMS_PROGRAM}
      ensures At(after, key).data == At(before, key).data && At(after, key).program == At(before, key).program
      ensures At(after, key).lamports >= At(before, key).lamports
    {
      OnlyWhatIsPassedChanges(call, before, after, key);
    }
  }

  /** A token account no signer of the call has authority over keeps its holder and can only gain. */
  lemma OutOfReachNeverLoses(call: Call, before: Accounts, after: Accounts, key: Key)
    requires RuntimeAllows(call, before, after)
    requires IsTokenAccount(At(before, key)) && !InReach(call, At(before, key).data)
    ensures IsTokenAccount(At(after, key)) && Amount(after, key) >= Amount(before, key)
    ensures At(after, key).data == At(before, key).data.(amount := Amount(after, key))
  {
    OnlyWhatIsPassedChanges(call, before, after, key);
  }

  // ----- the checks at the end

  datatype CollateralMovement = MustNotMove | ExactlyIn(amount: u64) | ExactlyOut(amount: u64)

  datatype SwapBounds = SwapBounds(amountIn: u64, minimumOut: u64)

  datatype SwapCheck =
    | NoSwapInThisInstruction
    | BoundsCheckedAroundTheCall
    | EndsWithAtLeast(source: Key, destination: Key, bounds: SwapBounds)

  function AssertStillHeld(accounts: Accounts, key: Key, position: Key): Checked<()> {
    var account := At(accounts, key);
    :- Need(IsTokenProgram(account.program), UnknownTokenProgram);
    if !account.data.Tokens? then Err(AccountTooShort)
    else
      :- Need(account.data.holder == position, PositionTokenAccountOwnerChanged);
      :- Need(account.data.delegate.None?, PositionTokenAccountHasADelegate);
      :- Need(account.data.closer.None?, PositionTokenAccountHasACloseAuthority);
      Ok(())
  }

  function BalanceChangeFor(l: Layout, before: PositionLedger, after: PositionLedger, account: Key,
                            expectDecrease: bool): Checked<u64> {
    var pair :-
      if account == l.usdcAccount then Ok((before.usdcBalance, after.usdcBalance))
      else if account == l.destinationAccount then Ok((before.destinationBalance, after.destinationBalance))
      else if account == l.collateralAccount then Ok((before.collateralBalance, after.collateralBalance))
      else Err(TokenLeftForAForbiddenAddress);
    if expectDecrease then
      if pair.0 >= pair.1 then Ok(pair.0 - pair.1) else Err(SwapSpentTooMuch)
    else
      if pair.1 >= pair.0 then Ok(pair.1 - pair.0) else Err(SwapReturnedTooLittle)
  }

  function AssertMovement(before: PositionLedger, after: PositionLedger, movement: CollateralMovement): Checked<()> {
    match movement
    case MustNotMove =>
      :- Need(after.collateralBalance == before.collateralBalance, CollateralBalanceMoved);
      :- Need(after.obligationCollateral == before.obligationCollateral, ObligationCollateralMoved);
      Ok(())
    case ExactlyIn(amount) =>
      var expected :- CheckedAdd64(before.obligationCollateral, amount);
      :- Need(after.obligationCollateral == expected, ObligationCollateralMoved);
      Ok(())
    case ExactlyOut(amount) =>
      :- Need(before.obligationCollateral >= amount, MathOverflow);
      :- Need(after.obligationCollateral == before.obligationCollateral - amount, ObligationCollateralMoved);
      Ok(())
  }

  function AssertSwap(l: Layout, before: PositionLedger, after: PositionLedger, swap: SwapCheck): Checked<()> {
    match swap
    case EndsWithAtLeast(source, destination, bounds) =>
      var spent :- BalanceChangeFor(l, before, after, source, true);
      :- Need(spent <= bounds.amountIn, SwapSpentTooMuch);
      var received :- BalanceChangeFor(l, before, after, destination, false);
      :- Need(received >= bounds.minimumOut, SwapReturnedTooLittle);
      Ok(())
    case _ => Ok(())
  }

  function AssertAllStillHeld(l: Layout, accounts: Accounts): Checked<()> {
    var _ :- AssertStillHeld(accounts, l.collateralAccount, l.position);
    var _ :- AssertStillHeld(accounts, l.usdcAccount, l.position);
    AssertStillHeld(accounts, l.destinationAccount, l.position)
  }

  function AssertNoLamportsTaken(before: PositionLedger, after: PositionLedger): Checked<()> {
    if after.positionLamports < before.positionLamports then Err(PositionLamportsTaken)
    else if after.collateralLamports < before.collateralLamports then Err(PositionLamportsTaken)
    else if after.usdcLamports < before.usdcLamports then Err(PositionLamportsTaken)
    else if after.destinationLamports < before.destinationLamports then Err(PositionLamportsTaken)
    else Ok(())
  }

  function AssertInvariantsHold(l: Layout, before: PositionLedger, movement: CollateralMovement, swap: SwapCheck,
                                accounts: Accounts): Checked<()> {
    if At(accounts, l.position).data.Empty? then Err(PositionAccountMissing)
    else if At(accounts, l.collateralAccount).data.Empty? then Err(PositionAccountMissing)
    else if At(accounts, l.usdcAccount).data.Empty? then Err(PositionAccountMissing)
    else if At(accounts, l.destinationAccount).data.Empty? then Err(PositionAccountMissing)
    else
      var _ :- AssertAllStillHeld(l, accounts);
      var after :- ReadPositionLedger(l, accounts);
      var _ :- AssertNoLamportsTaken(before, after);
      var _ :- AssertMovement(before, after, movement);
      AssertSwap(l, before, after, swap)
  }

  /**
   * The three token accounts belong to the position alone: it holds them, nobody may spend for it, nobody may close
   * them.
   */
  ghost predicate Custody(l: Layout, accounts: Accounts) {
    && HeldAlone(At(accounts, l.collateralAccount), l.position)
    && HeldAlone(At(accounts, l.usdcAccount), l.position)
    && HeldAlone(At(accounts, l.destinationAccount), l.position)
  }

  predicate HeldAlone(account: Account, holder: Key) {
    IsTokenAccount(account) && account.data.holder == holder && account.data.delegate.None? && account.data.closer.None?
  }

  ghost predicate NoLamportsTaken(l: Layout, before: Accounts, after: Accounts) {
    && At(after, l.position).lamports >= At(before, l.position).lamports
    && At(after, l.collateralAccount).lamports >= At(before, l.collateralAccount).lamports
    && At(after, l.usdcAccount).lamports >= At(before, l.usdcAccount).lamports
    && At(after, l.destinationAccount).lamports >= At(before, l.destinationAccount).lamports
  }

  function CollateralIn(accounts: Accounts, obligation: Key): nat {
    match At(accounts, obligation).data
    case Loan(o) => o.collateral
    case _ => 0
  }

  /** What passing the checks means, in terms of the accounts before and after. */
  lemma PassingTheChecksMeans(l: Layout, before: Accounts, movement: CollateralMovement, swap: SwapCheck,
                              after: Accounts)
    requires ReadPositionLedger(l, before).Ok?
    requires AssertInvariantsHold(l, ReadPositionLedger(l, before).value, movement, swap, after).Ok?
    ensures Custody(l, after) && NoLamportsTaken(l, before, after)
    ensures movement.MustNotMove? ==>
      && Amount(after, l.collateralAccount) == Amount(before, l.collateralAccount)
      && CollateralIn(after, l.obligation) == CollateralIn(before, l.obligation)
    ensures movement.ExactlyIn? ==>
      CollateralIn(after, l.obligation) == CollateralIn(before, l.obligation) + movement.amount
    ensures movement.ExactlyOut? ==>
      CollateralIn(after, l.obligation) + movement.amount == CollateralIn(before, l.obligation)
    ensures swap.EndsWithAtLeast? ==>
      && swap.source in {l.collateralAccount, l.usdcAccount, l.destinationAccount}
      && swap.destination in {l.collateralAccount, l.usdcAccount, l.destinationAccount}
      && 0 <= Amount(before, swap.source) - Amount(after, swap.source) <= swap.bounds.amountIn
      && Amount(after, swap.destination) - Amount(before, swap.destination) >= swap.bounds.minimumOut
  {
  }

  /** The collateral has moved by as much as was claimed. */
  ghost predicate MovedAsClaimed(l: Layout, before: PositionLedger, movement: CollateralMovement, after: Accounts) {
    var held := CollateralIn(after, l.obligation);
    match movement
    case MustNotMove =>
      held == before.obligationCollateral && Amount(after, l.collateralAccount) == before.collateralBalance
    case ExactlyIn(amount) => held < TWO_TO_THE_64 && held == before.obligationCollateral + amount
    case ExactlyOut(amount) => held == before.obligationCollateral - amount
  }

  /** The source gave up no more than it was let, and the destination gained what was asked. */
  ghost predicate EndsWithin(l: Layout, before: Accounts, swap: SwapCheck, after: Accounts) {
    swap.EndsWithAtLeast? ==>
      && {swap.source, swap.destination} <= {l.collateralAccount, l.usdcAccount, l.destinationAccount}
      && 0 <= Amount(before, swap.source) - Amount(after, swap.source) <= swap.bounds.amountIn
      && Amount(after, swap.destination) >= Amount(before, swap.destination) + swap.bounds.minimumOut
  }

  lemma TheMovementChecksExactly(l: Layout, before: PositionLedger, movement: CollateralMovement, after: Accounts)
    requires ReadPositionLedger(l, after).Ok?
    ensures AssertMovement(before, ReadPositionLedger(l, after).value, movement).Ok?
       <==> MovedAsClaimed(l, before, movement, after)
    ensures var r := AssertMovement(before, ReadPositionLedger(l, after).value, movement);
      && (r == Err(CollateralBalanceMoved) <==>
          movement.MustNotMove? && Amount(after, l.collateralAccount) != before.collateralBalance)
      && (r == Err(MathOverflow) <==>
          || (movement.ExactlyOut? && movement.amount > before.obligationCollateral)
          || (movement.ExactlyIn? && movement.amount + before.obligationCollateral >= TWO_TO_THE_64))
  {
  }

  /** What the check of one token account finds first: its program, its layout, its holder, then the authorities. */
  lemma AnAccountIsHeldExactly(accounts: Accounts, key: Key, position: Key)
    ensures var r, account := AssertStillHeld(accounts, key, position), At(accounts, key);
      && (r.Ok? <==> HeldAlone(account, position))
      && (r == Err(UnknownTokenProgram) <==> !IsTokenProgram(account.program))
      && (r == Err(AccountTooShort) <==> IsTokenProgram(account.program) && !account.data.Tokens?)
      && (r == Err(PositionTokenAccountOwnerChanged) <==> IsTokenAccount(account) && account.data.holder != position)
      && (r == Err(PositionTokenAccountHasADelegate) <==>
          IsTokenAccount(account) && account.data.holder == position && account.data.delegate.Some?)
      && (r == Err(PositionTokenAccountHasACloseAuthority) <==>
          IsTokenAccount(account) && account.data.holder == position && account.data.delegate.None?
          && account.data.closer.Some?)
  {
  }

  lemma TheBalanceChangeExactly(l: Layout, before: Accounts, after: Accounts, account: Key, expectDecrease: bool)
    requires ReadPositionLedger(l, before).Ok? && ReadPositionLedger(l, after).Ok?
    ensures var r := BalanceChangeFor(l, ReadPositionLedger(l, before).value, ReadPositionLedger(l, after).value,
                                      account, expectDecrease);
      var gain := Amount(after, account) - Amount(before, account);
      && (r.Ok? <==> (&& account in {l.collateralAccount, l.usdcAccount, l.destinationAccount}
                      && if expectDecrease then gain <= 0 else gain >= 0))
      && (r.Ok? ==> r.value == if expectDecrease then -gain else gain)
  {
  }

  lemma TheSwapChecksExactly(l: Layout, before: Accounts, swap: SwapCheck, after: Accounts)
    requires ReadPositionLedger(l, before).Ok? && ReadPositionLedger(l, after).Ok?
    ensures AssertSwap(l, ReadPositionLedger(l, before).value, ReadPositionLedger(l, after).value, swap).Ok?
       <==> EndsWithin(l, before, swap, after)
  {
    if swap.EndsWithAtLeast? {
      TheBalanceChangeExactly(l, before, after, swap.source, true);
      TheBalanceChangeExactly(l, before, after, swap.destination, false);
    }
  }

  /**
   * The checks pass exactly when the accounts are there, the position holds all three alone and lost no lamports, the
   * obligation can be read and moved as claimed, and the swap, if one is checked, ended within its bounds.
   */
  lemma TheChecksPassExactly(l: Layout, before: Accounts, movement: CollateralMovement, swap: SwapCheck,
                             after: Accounts)
    requires ReadPositionLedger(l, before).Ok?
    ensures AssertInvariantsHold(l, ReadPositionLedger(l, before).value, movement, swap, after).Ok? <==>
      && !At(after, l.position).data.Empty? && Custody(l, after) && NoLamportsTaken(l, before, after)
      && (var o := At(after, l.obligation); o.data.Empty? || (o.program == LEND_PROGRAM && o.data.Loan?))
      && MovedAsClaimed(l, ReadPositionLedger(l, before).value, movement, after)
      && EndsWithin(l, before, swap, after)
    ensures var r := AssertInvariantsHold(l, ReadPositionLedger(l, before).value, movement, swap, after);
      r == Err(PositionAccountMissing) <==>
      exists key :: key in {l.position, l.collateralAccount, l.usdcAccount, l.destinationAccount}
        && At(after, key).data.Empty?
  {
    if ReadPositionLedger(l, after).Ok? {
      TheMovementChecksExactly(l, ReadPositionLedger(l, before).value, movement, after);
      TheSwapChecksExactly(l, before, swap, after);
    }
  }
}
