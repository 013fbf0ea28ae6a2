// Sizing a top up against a price that may move before the transaction runs.
module TopUp {
  import opened Arithmetic
  import opened Outcomes
  import CoreGuard

  const ROOM_LEFT_UNDER_TARGET_BPS: nat := 10
  const A_CENT_SCALED: nat := SCALED_FRACTION_ONE / 100
  const THE_PRICE_MAY_HAVE_MOVED_BPS: nat := 100

  /** What is held back of the room: a share of it, and never less than a cent. */
  function MarginHeldBack(roomScaled: nat): nat {
    var share := roomScaled * ROOM_LEFT_UNDER_TARGET_BPS / BASIS_POINTS;
    if share > A_CENT_SCALED then share else A_CENT_SCALED
  }

  function TheBorrowToAskFor(roomScaled: nat): nat {
    SaturatingSub(roomScaled, MarginHeldBack(roomScaled))
  }

  function ValuedForBorrowing(collateralValueScaled: nat): nat {
    collateralValueScaled * (BASIS_POINTS - THE_PRICE_MAY_HAVE_MOVED_BPS) / BASIS_POINTS
  }

  datatype PositionNow = PositionNow(collateralValueScaled: nat, adjustedDebtValueScaled: nat, targetLtvBps: nat)

  function BorrowForAddedValue(position: PositionNow, addedValueScaled: nat, aPriceMayHaveMoved: bool): nat {
    var held := position.collateralValueScaled + addedValueScaled;
    var collateralAfter := if aPriceMayHaveMoved then ValuedForBorrowing(held) else held;
    MulMono(0, collateralAfter, position.targetLtvBps);
    FloorNonNegative(collateralAfter * position.targetLtvBps, BASIS_POINTS);
    SaturatingSub(collateralAfter * position.targetLtvBps / BASIS_POINTS, position.adjustedDebtValueScaled)
  }

  datatype TopUpSizing = TopUpSizing(
    addedValueScaled: nat, borrowValueScaled: nat, collateralValueAfterScaled: nat, debtValueAfterScaled: nat,
    loanToValueAfterBps: int)

  function SizeATopUp(position: PositionNow, addedValueScaled: nat, leaveRoomUnderTheTarget: bool): TopUpSizing {
    var room := BorrowForAddedValue(position, addedValueScaled, leaveRoomUnderTheTarget);
    var borrow := if leaveRoomUnderTheTarget then TheBorrowToAskFor(room) else room;
    var collateral := position.collateralValueScaled + addedValueScaled;
    var debt := position.adjustedDebtValueScaled + borrow;
    TopUpSizing(addedValueScaled, borrow, collateral, debt, CoreGuard.LoanToValueBps(debt, collateral))
  }

  /** A thousandth of the room is held back, and never less than a cent; the borrow is all the rest of the room. */
  lemma TheBorrowAndTheMarginFillTheRoom(room: nat)
    ensures var margin := MarginHeldBack(room);
      && (room >= margin ==> TheBorrowToAskFor(room) + margin == room)
      && (room < margin ==> TheBorrowToAskFor(room) == 0)
      && 11_529_215_046_068_469 <= margin && room < (margin + 1) * 1_000
      && (margin == 11_529_215_046_068_469 || margin * 1_000 <= room)
  {
    FloorBounds(room * ROOM_LEFT_UNDER_TARGET_BPS, BASIS_POINTS);
  }

  /** No larger borrow stays within the target against the valuation used, and every smaller one does. */
  lemma TheRoomIsTheGreatest(position: PositionNow, added: nat, moved: bool, against: nat, borrow: nat)
    requires var held := position.collateralValueScaled + added;
      if moved then against * 10_000 <= held * 9_900 < (against + 1) * 10_000 else against == held
    ensures borrow <= BorrowForAddedValue(position, added, moved) <==>
      borrow == 0 || (position.adjustedDebtValueScaled + borrow) * 10_000 <= against * position.targetLtvBps
  {
    var held := position.collateralValueScaled + added;
    FloorIs(held * (BASIS_POINTS - THE_PRICE_MAY_HAVE_MOVED_BPS), BASIS_POINTS, against);
    MulMono(0, against, position.targetLtvBps);
    FloorAtLeast(against * position.targetLtvBps, BASIS_POINTS, position.adjustedDebtValueScaled + borrow);
  }

  /** A debt a valuation allows at a level reads at most that level. */
  lemma WithinTheLevel(debt: nat, valuation: nat, level: nat)
    requires valuation > 0 && debt * BASIS_POINTS <= valuation * level
    ensures debt * BASIS_POINTS / valuation <= level
  {
    FloorAtLeast(debt * BASIS_POINTS, valuation, level + 1);
    assert (level + 1) * valuation == valuation * level + valuation;
  }

  /** What is allowed against the shaded value is allowed at every valuation at least as high. */
  lemma TheShadedValueIsEnough(held: nat, valuation: nat, target: nat, allowed: nat)
    requires valuation * BASIS_POINTS >= held * (BASIS_POINTS - THE_PRICE_MAY_HAVE_MOVED_BPS)
    requires allowed <= ValuedForBorrowing(held) * target / BASIS_POINTS
    ensures allowed * BASIS_POINTS <= valuation * target
  {
    var against := ValuedForBorrowing(held);
    FloorBounds(held * (BASIS_POINTS - THE_PRICE_MAY_HAVE_MOVED_BPS), BASIS_POINTS);
    CancelMul(against, valuation, BASIS_POINTS);
    FloorBounds(against * target, BASIS_POINTS);
    MulMono(against, valuation, target);
  }

  /**
   * A borrow that leaves room stays at or under the target for every valuation the market may come to, down to
   * one percent under the one read, and for any extra debt up to the margin held back.
   */
  lemma TheBorrowSurvivesTheMove(position: PositionNow, added: nat, valuation: nat, debtFound: nat)
    requires SizeATopUp(position, added, true).borrowValueScaled > 0
    requires valuation * 10_000 >= (position.collateralValueScaled + added) * 9_900
    requires debtFound <= position.adjustedDebtValueScaled + SizeATopUp(position, added, true).borrowValueScaled
                          + MarginHeldBack(BorrowForAddedValue(position, added, true))
    ensures CoreGuard.LoanToValueBps(debtFound, valuation) <= position.targetLtvBps
  {
    TheShadedValueIsEnough(position.collateralValueScaled + added, valuation, position.targetLtvBps, debtFound);
    if valuation > 0 {
      WithinTheLevel(debtFound, valuation, position.targetLtvBps);
    }
  }

  lemma AskingGrowsWithTheRoom(room: nat, more: nat)
    requires room <= more
    ensures TheBorrowToAskFor(room) <= TheBorrowToAskFor(more)
  {
    var share, moreShare := room * ROOM_LEFT_UNDER_TARGET_BPS / BASIS_POINTS,
        more * ROOM_LEFT_UNDER_TARGET_BPS / BASIS_POINTS;
    assert moreShare - share <= more - room;
  }

  /** What a sizing reports: the value and the debt it leads to, and the loan to value they read as. */
  lemma TheSizingReported(position: PositionNow, added: nat, leaveRoom: bool)
    ensures var sized := SizeATopUp(position, added, leaveRoom);
      var room := BorrowForAddedValue(position, added, leaveRoom);
      && sized.addedValueScaled == added
      && sized.collateralValueAfterScaled == position.collateralValueScaled + added
      && sized.debtValueAfterScaled == position.adjustedDebtValueScaled + sized.borrowValueScaled
      && sized.loanToValueAfterBps
         == CoreGuard.LoanToValueBps(sized.debtValueAfterScaled, sized.collateralValueAfterScaled)
      && (leaveRoom && room > MarginHeldBack(room) ==> sized.borrowValueScaled == room - MarginHeldBack(room))
      && (leaveRoom && room <= MarginHeldBack(room) ==> sized.borrowValueScaled == 0)
      && (!leaveRoom ==> sized.borrowValueScaled == room)
  {
  }

  /** Putting more in never lets the owner take less out, with or without the room. */
  lemma AddingMoreNeverBorrowsLess(position: PositionNow, added: nat, more: nat, leaveRoom: bool)
    requires added <= more
    ensures SizeATopUp(position, added, leaveRoom).borrowValueScaled
        <= SizeATopUp(position, more, leaveRoom).borrowValueScaled
  {
    var held, heldMore := position.collateralValueScaled + added, position.collateralValueScaled + more;
    var against := if leaveRoom then ValuedForBorrowing(held) else held;
    var againstMore := if leaveRoom then ValuedForBorrowing(heldMore) else heldMore;
    assert against <= againstMore;
    MulMono(against, againstMore, position.targetLtvBps);
    FloorMono(against * position.targetLtvBps, againstMore * position.targetLtvBps, BASIS_POINTS);
    AskingGrowsWithTheRoom(BorrowForAddedValue(position, added, leaveRoom),
                           BorrowForAddedValue(position, more, leaveRoom));
  }

  /** Without the room, the same valuation drop lands above target: the margins are what the promise rests on. */
  lemma WithoutTheRoomAOnePercentFallIsAboveTarget()
    ensures var sized := SizeATopUp(PositionNow(0, 0, 4_000), 1_000_000, false);
      sized.loanToValueAfterBps == 4_000 && CoreGuard.LoanToValueBps(sized.debtValueAfterScaled, 990_000) > 4_000
  {
  }
}
