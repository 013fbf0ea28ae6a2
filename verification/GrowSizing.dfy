// The amount grow borrows, carried through the market's own valuation of it.
module GrowSizing {
  import opened Arithmetic
  import opened Outcomes
  import CoreGuard
  import Guard
  import GuardRun
  import Refinement
  import Rounding
  import Scope

  /** What the market counts a raw USDC debt as when it rounds every step up: its value, then its weight. */
  function WeightRoundedUp(raw: nat, decimals: nat, priceScaled: nat, borrowFactorPct: nat): int {
    CeilDiv(CeilDiv(raw * priceScaled, Pow10(decimals)) * borrowFactorPct, PERCENT)
  }

  /** The raw amount, floored, weighs no more than the room it was sized for, however the market rounds it back up. */
  lemma TheAmountWeighsNoMoreThanTheRoom(room: nat, unit: nat, priceScaled: nat, factor: nat, borrowing: nat)
    requires unit > 0 && priceScaled > 0 && borrowing == room * unit / priceScaled
    ensures CeilDiv(CeilDiv(borrowing * priceScaled, unit) * factor, PERCENT) <= CeilDiv(room * factor, PERCENT)
  {
    FloorBounds(room * unit, priceScaled);
    CeilAtMost(borrowing * priceScaled, unit, room);
    MulMono(CeilDiv(borrowing * priceScaled, unit), room, factor);
    CeilMono(CeilDiv(borrowing * priceScaled, unit) * factor, room * factor, PERCENT);
  }

  /** And the room weighs no more than the allowance leaves. */
  lemma TheRoomFits(debt: u128, deposited: u128, targetLtvBps: u16, borrowFactorPct: u64)
    requires Guard.BorrowToReachTarget(debt, deposited, targetLtvBps, borrowFactorPct).Ok?
    requires Guard.BorrowToReachTarget(debt, deposited, targetLtvBps, borrowFactorPct).value > 0
    ensures var room := Guard.BorrowToReachTarget(debt, deposited, targetLtvBps, borrowFactorPct).value;
      debt + CeilDiv(room * borrowFactorPct, PERCENT) <= CoreGuard.ValueAllowedAtTarget(deposited, targetLtvBps)
  {
    var room := Guard.BorrowToReachTarget(debt, deposited, targetLtvBps, borrowFactorPct).value;
    Refinement.RepaymentsAndBorrowsAgree(debt, deposited, targetLtvBps, borrowFactorPct);
    Refinement.AllowancesAgree(deposited, targetLtvBps);
    if debt > CoreGuard.ValueAllowedAtTarget(deposited, targetLtvBps) {
      assert false;
    }
    Rounding.BorrowIsTheGreatestThatFits(debt, deposited, targetLtvBps, borrowFactorPct, room);
  }

  lemma ABorrowNeedsRoom(room: u128, decimals: u8, priceScaled: u128)
    requires Scope.RawAmountWorthRoundingDown(room, decimals, priceScaled).Ok?
    ensures priceScaled > 0
    ensures Scope.RawAmountWorthRoundingDown(room, decimals, priceScaled).value == room * Pow10(decimals) / priceScaled
    ensures Scope.RawAmountWorthRoundingDown(room, decimals, priceScaled).value > 0 ==> room > 0
  {
    if room == 0 {
      FloorNonNegative(0, priceScaled);
      assert 0 * Pow10(decimals) == 0;
    }
  }

  /** A debt inside an allowance the program could compute is read without overflow, at or under the target. */
  lemma ReadsAtOrUnderTheTarget(debtAfter: u128, deposited: u128, targetLtvBps: u16)
    requires Guard.ValueAllowedAtTarget(deposited, targetLtvBps).Ok?
    requires debtAfter <= CoreGuard.ValueAllowedAtTarget(deposited, targetLtvBps)
    ensures var ltv := Guard.LoanToValueBps(debtAfter, deposited); ltv.Ok? && ltv.value <= targetLtvBps
  {
    MulMono(0, deposited, targetLtvBps);
    FloorBounds(deposited * targetLtvBps, BASIS_POINTS);
    GuardRun.WithinTarget(GuardRun.Book(debtAfter, deposited), targetLtvBps);
    Refinement.LoanToValuesAgree(debtAfter, deposited);
  }

  /**
   * At unmoved prices and with no origination fee, borrowing the computed amount keeps the weighted debt at or
   * under the value allowed at target, and so passes the target check after the swap, however the market rounds.
   */
  lemma TheBorrowFitsUnderTheTarget(debt: u128, deposited: u128, targetLtvBps: u16, borrowFactorPct: u64,
                                    decimals: u8, priceScaled: u128, debtAfter: u128)
    requires var borrowing := Refinement.UsdcTheProgramBorrows(debt, deposited, targetLtvBps, borrowFactorPct,
        decimals, priceScaled);
      borrowing.Ok? && borrowing.value > 0
      && debtAfter <= debt + WeightRoundedUp(borrowing.value, decimals, priceScaled, borrowFactorPct)
    ensures debtAfter <= CoreGuard.ValueAllowedAtTarget(deposited, targetLtvBps)
    ensures var ltv := Guard.LoanToValueBps(debtAfter, deposited); ltv.Ok? && ltv.value <= targetLtvBps
  {
    var room := Guard.BorrowToReachTarget(debt, deposited, targetLtvBps, borrowFactorPct).value;
    var borrowing := Refinement.UsdcTheProgramBorrows(debt, deposited, targetLtvBps, borrowFactorPct, decimals,
        priceScaled).value;
    ABorrowNeedsRoom(room, decimals, priceScaled);
    TheRoomFits(debt, deposited, targetLtvBps, borrowFactorPct);
    TheAmountWeighsNoMoreThanTheRoom(room, Pow10(decimals), priceScaled, borrowFactorPct, borrowing);
    ReadsAtOrUnderTheTarget(debtAfter, deposited, targetLtvBps);
  }

  /** Revaluing the old debt and the new together never counts for more than revaluing them apart. */
  lemma DebtsWeighNoMoreTogether(owed: nat, borrowed: nat, decimals: nat, priceScaled: nat, borrowFactorPct: nat)
    ensures WeightRoundedUp(owed + borrowed, decimals, priceScaled, borrowFactorPct)
         <= WeightRoundedUp(owed, decimals, priceScaled, borrowFactorPct)
          + WeightRoundedUp(borrowed, decimals, priceScaled, borrowFactorPct)
  {
    var unit := Pow10(decimals);
    var was, added := CeilDiv(owed * priceScaled, unit), CeilDiv(borrowed * priceScaled, unit);
    Distribute(owed, borrowed, priceScaled);
    CeilSubadditive(owed * priceScaled, borrowed * priceScaled, unit);
    var together := CeilDiv((owed + borrowed) * priceScaled, unit);
    MulMono(together, was + added, borrowFactorPct);
    Distribute(was, added, borrowFactorPct);
    CeilMono(together * borrowFactorPct, was * borrowFactorPct + added * borrowFactorPct, PERCENT);
    CeilSubadditive(was * borrowFactorPct, added * borrowFactorPct, PERCENT);
  }

  /** The same bound when the market revalues the whole debt in one go after the borrow. */
  lemma TheWholeDebtFitsUnderTheTarget(owed: nat, debt: u128, deposited: u128, targetLtvBps: u16, borrowFactorPct: u64,
                                       decimals: u8, priceScaled: u128, debtAfter: u128)
    requires debt == WeightRoundedUp(owed, decimals, priceScaled, borrowFactorPct)
    requires var borrowing := Refinement.UsdcTheProgramBorrows(debt, deposited, targetLtvBps, borrowFactorPct,
        decimals, priceScaled);
      borrowing.Ok? && borrowing.value > 0
      && debtAfter == WeightRoundedUp(owed + borrowing.value, decimals, priceScaled, borrowFactorPct)
    ensures debtAfter <= CoreGuard.ValueAllowedAtTarget(deposited, targetLtvBps)
    ensures var ltv := Guard.LoanToValueBps(debtAfter, deposited); ltv.Ok? && ltv.value <= targetLtvBps
  {
    var borrowing := Refinement.UsdcTheProgramBorrows(debt, deposited, targetLtvBps, borrowFactorPct, decimals,
        priceScaled).value;
    DebtsWeighNoMoreTogether(owed, borrowing, decimals, priceScaled, borrowFactorPct);
    TheBorrowFitsUnderTheTarget(debt, deposited, targetLtvBps, borrowFactorPct, decimals, priceScaled, debtAfter);
  }
}
