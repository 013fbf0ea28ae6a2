// A guarded position over a whole run: market moves, protects and grows in any order the levels allow.
module GuardRun {
  import opened Arithmetic
  import opened Outcomes
  import CoreGuard
  import Guard
  import Refinement
  import Rounding
  import Strategy

  /** What the market counts: the debt weighted by its borrow factor, and the collateral, both scaled USD. */
  datatype Book = Book(debt: u128, collateral: u128)

  datatype Terms = Terms(levels: Strategy.Levels, maxLtvBps: u16, thresholdBps: u16, borrowFactorPct: u64)

  datatype Event =
    | MarketMoves  // new prices, and interest on the debt
    | Protects     // the guard repays to target
    | Grows        // the guard borrows to target

  ghost predicate Accepted(terms: Terms) {
    && Strategy.WhyTheStrategyIsRefused(terms.levels, terms.maxLtvBps, terms.thresholdBps).None?
    && terms.borrowFactorPct > 0
  }

  function Ltv(book: Book): int {
    CoreGuard.LoanToValueBps(book.debt, book.collateral)
  }

  /**
   * One move leaves the guard room when it multiplies the loan to value by no more than the liquidation
   * threshold over the guard level; at an unchanged debt, when the collateral falls no further than
   * guard level over threshold.
   */
  ghost predicate InsideTheGuardRoom(terms: Terms, before: Book, after: Book) {
    after.debt * (before.collateral * terms.levels.protectLtvBps)
      <= before.debt * (after.collateral * terms.thresholdBps)
  }

  lemma AtOneDebtOnlyThePriceCounts(terms: Terms, before: Book, after: Book)
    requires before.debt == after.debt > 0
    ensures InsideTheGuardRoom(terms, before, after)
        <==> !(after.collateral * terms.thresholdBps < before.collateral * terms.levels.protectLtvBps)
  {
    var d, x, y := before.debt, before.collateral * terms.levels.protectLtvBps, after.collateral * terms.thresholdBps;
    if d * x <= d * y {
      CancelMul(x, y, d);
    } else {
      CancelMulStrict(y, x, d);
    }
  }

  /** What one event may do. The guard acts as soon as its level is reached, so a market move starts below it. */
  ghost predicate Step(terms: Terms, before: Book, event: Event, after: Book)
    requires Accepted(terms)
  {
    match event
    case MarketMoves =>
      && Ltv(before) < terms.levels.protectLtvBps
      && InsideTheGuardRoom(terms, before, after)
      && (before.debt == 0 ==> after.debt == 0)
    case Protects =>
      && Ltv(before) >= terms.levels.protectLtvBps
      && after.collateral == before.collateral
      && var repay := Guard.RepayToReachTarget(before.debt, before.collateral, terms.levels.targetLtvBps,
          terms.borrowFactorPct);
      && repay.Ok?
      // The market takes at least the floored weight of the repayment off the debt.
      && after.debt <= SaturatingSub(before.debt, repay.value * terms.borrowFactorPct / PERCENT)
    case Grows =>
      && Ltv(before) <= terms.levels.growBelowLtvBps
      && after.collateral == before.collateral
      && var borrow := Guard.BorrowToReachTarget(before.debt, before.collateral, terms.levels.targetLtvBps,
          terms.borrowFactorPct);
      && borrow.Ok?
      // And adds at most the rounded up weight of the borrow to it.
      && before.debt <= after.debt <= before.debt + CeilDiv(borrow.value * terms.borrowFactorPct, PERCENT)
  }

  ghost predicate Run(terms: Terms, books: seq<Book>, events: seq<Event>)
    requires Accepted(terms)
  {
    && |books| == |events| + 1
    && forall i :: 0 <= i < |events| ==> Step(terms, books[i], events[i], books[i + 1])
  }

  /**
   * A debt with no collateral behind it reads as a loan to value of zero, so a run starts with some or owes nothing.
   */
  ghost predicate Backed(book: Book) {
    book.debt > 0 ==> book.collateral > 0
  }

  /** Below a level, multiplied out. */
  lemma BelowALevel(book: Book, level: nat)
    requires level > 0
    ensures Ltv(book) < level <==> book.collateral == 0 || book.debt * BASIS_POINTS < level * book.collateral
  {
    if book.collateral > 0 {
      FloorAtLeast(book.debt * BASIS_POINTS, book.collateral, level);
    }
  }

  lemma WithinTarget(book: Book, targetLtvBps: nat)
    requires book.debt <= CoreGuard.ValueAllowedAtTarget(book.collateral, targetLtvBps)
    ensures Ltv(book) <= targetLtvBps
  {
    MulMono(0, book.collateral, targetLtvBps);
    FloorBounds(book.collateral * targetLtvBps, BASIS_POINTS);
    if book.collateral > 0 {
      assert book.debt * BASIS_POINTS < (targetLtvBps + 1) * book.collateral;
      FloorAtLeast(book.debt * BASIS_POINTS, book.collateral, targetLtvBps + 1);
    }
  }

  lemma ScaleThrough(debt: nat, limit: nat, newDebt: nat, newLimit: nat)
    requires debt * BASIS_POINTS < limit && newDebt * limit <= debt * newLimit && newLimit > 0
    ensures newDebt * BASIS_POINTS < newLimit
  {
    MulMonoStrict(debt * BASIS_POINTS, limit, newLimit);
    MulMono(newDebt * limit, debt * newLimit, BASIS_POINTS);
    assert newDebt * limit * BASIS_POINTS == newDebt * BASIS_POINTS * limit;
    assert debt * newLimit * BASIS_POINTS == debt * BASIS_POINTS * newLimit;
    assert limit * newLimit == newLimit * limit;
    CancelMulStrict(newDebt * BASIS_POINTS, newLimit, limit);
  }

  lemma AMoveStaysUnderTheThreshold(terms: Terms, before: Book, after: Book)
    requires Accepted(terms) && Backed(before) && Step(terms, before, MarketMoves, after)
    ensures Backed(after) && Ltv(after) < terms.thresholdBps
  {
    BelowALevel(before, terms.levels.protectLtvBps);
    BelowALevel(after, terms.thresholdBps);
    if after.debt > 0 {
      var limit, newLimit := before.collateral * terms.levels.protectLtvBps, after.collateral * terms.thresholdBps;
      MulMonoStrict(0, before.collateral, terms.levels.protectLtvBps);
      MulMonoStrict(0, after.debt, limit);
      MulMono(0, after.collateral, terms.thresholdBps);
      CancelMulStrict(0, newLimit, before.debt);
      ScaleThrough(before.debt, limit, after.debt, newLimit);
    }
  }

  lemma AProtectEndsAtTarget(terms: Terms, before: Book, after: Book)
    requires Accepted(terms) && Backed(before) && Step(terms, before, Protects, after)
    ensures Backed(after) && Ltv(after) <= terms.levels.targetLtvBps
  {
    var target := terms.levels.targetLtvBps;
    var repay := Guard.RepayToReachTarget(before.debt, before.collateral, target, terms.borrowFactorPct).value;
    Refinement.RepaymentsAndBorrowsAgree(before.debt, before.collateral, target, terms.borrowFactorPct);
    Rounding.RepaymentIsTheLeastThatClosesTheGap(before.debt, before.collateral, target, terms.borrowFactorPct, repay);
    WithinTarget(after, target);
  }

  lemma AGrowEndsAtTarget(terms: Terms, before: Book, after: Book)
    requires Accepted(terms) && Backed(before) && Step(terms, before, Grows, after)
    ensures Backed(after) && Ltv(after) <= terms.levels.targetLtvBps
  {
    var target := terms.levels.targetLtvBps;
    var borrow := Guard.BorrowToReachTarget(before.debt, before.collateral, target, terms.borrowFactorPct).value;
    Refinement.RepaymentsAndBorrowsAgree(before.debt, before.collateral, target, terms.borrowFactorPct);
    BelowALevel(before, target);
    if before.collateral > 0 {
      FloorAtLeast(before.collateral * target, BASIS_POINTS, before.debt);
      Rounding.BorrowIsTheGreatestThatFits(before.debt, before.collateral, target, terms.borrowFactorPct, borrow);
      WithinTarget(after, target);
    }
  }

  /**
   * The guard holds over every run: no state reaches the liquidation threshold, and every protect and every
   * grow ends at or under the target, which leaves the market five points or more before the guard level again.
   */
  lemma {:induction false} EveryRunStaysUnderTheThreshold(terms: Terms, books: seq<Book>, events: seq<Event>)
    requires Accepted(terms) && Run(terms, books, events)
    requires Backed(books[0]) && Ltv(books[0]) < terms.thresholdBps
    ensures forall i :: 0 <= i < |books| ==> Backed(books[i]) && Ltv(books[i]) < terms.thresholdBps
    ensures forall i :: 0 <= i < |events| && events[i] != MarketMoves ==>
      Ltv(books[i + 1]) <= terms.levels.targetLtvBps <= terms.levels.protectLtvBps - Strategy.MIN_GUARD_ROOM_BPS
  {
    if |events| > 0 {
      var last := |events| - 1;
      EveryRunStaysUnderTheThreshold(terms, books[..|books| - 1], events[..last]);
      var before := books[..|books| - 1][last];
      match events[last]
      case MarketMoves => AMoveStaysUnderTheThreshold(terms, before, books[last + 1]);
      case Protects => AProtectEndsAtTarget(terms, before, books[last + 1]);
      case Grows => AGrowEndsAtTarget(terms, before, books[last + 1]);
      forall i | 0 <= i < |events| && events[i] != MarketMoves ensures Ltv(books[i + 1]) <= terms.levels.targetLtvBps {
        if i < last {
          assert events[..last][i] != MarketMoves && books[..|books| - 1][i + 1] == books[i + 1];
        }
      }
      forall i | 0 <= i < |books| ensures Backed(books[i]) && Ltv(books[i]) < terms.thresholdBps {
        if i < |books| - 1 {
          assert books[..|books| - 1][i] == books[i];
        }
      }
    }
  }

  // ----- exactly which falls, and exactly which starts, are safe

  /**
   * A fall of the collateral to `num` over `den` of its value never carries a debt from under the guard level to the
   * threshold.
   */
  ghost predicate AFallIsSafe(terms: Terms, num: nat, den: nat) {
    forall debt: nat, was: nat, now: nat ::
      was > 0 && now > 0 && now * den == was * num
      && CoreGuard.LoanToValueBps(debt, was) < terms.levels.protectLtvBps ==>
        CoreGuard.LoanToValueBps(debt, now) < terms.thresholdBps
  }

  lemma UnderALevel(debt: nat, collateral: nat, level: nat)
    requires collateral > 0
    ensures CoreGuard.LoanToValueBps(debt, collateral) < level <==> debt * BASIS_POINTS < level * collateral
  {
    FloorAtLeast(debt * BASIS_POINTS, collateral, level);
  }

  lemma AFallInsideTheRoomIsSafe(terms: Terms, num: nat, den: nat, debt: nat, was: nat, now: nat)
    requires Accepted(terms) && den > 0 && num * terms.thresholdBps >= den * terms.levels.protectLtvBps
    requires was > 0 && now > 0 && now * den == was * num
    requires CoreGuard.LoanToValueBps(debt, was) < terms.levels.protectLtvBps
    ensures CoreGuard.LoanToValueBps(debt, now) < terms.thresholdBps
  {
    var protect, threshold := terms.levels.protectLtvBps, terms.thresholdBps;
    UnderALevel(debt, was, protect);
    UnderALevel(debt, now, threshold);
    // In units of den: debt * 10_000 * den < protect * was * den <= threshold * num * was == threshold * now * den.
    MulMonoStrict(debt * BASIS_POINTS, protect * was, den);
    MulMono(den * protect, num * threshold, was);
    assert protect * was * den == den * protect * was by {
      Regroup(protect, was, den);
      assert protect * den == den * protect;
    }
    assert num * threshold * was == threshold * now * den by {
      Regroup(num, threshold, was);
      Regroup(now, den, threshold);
      assert num * was * threshold == now * den * threshold;
    }
    CancelMulStrict(debt * BASIS_POINTS, threshold * now, den);
  }

  /** The debt one unit under the guard level, where a fall past the room reaches the threshold. */
  lemma AFallPastTheRoomIsNotSafe(terms: Terms, num: nat, den: nat)
    requires Accepted(terms) && num > 0 && den > 0 && num * terms.thresholdBps < den * terms.levels.protectLtvBps
    ensures !AFallIsSafe(terms, num, den)
  {
    var protect, threshold := terms.levels.protectLtvBps, terms.thresholdBps;
    MulMonoStrict(0, den, protect);
    var debt, was, now := den * protect - 1, den * BASIS_POINTS, num * BASIS_POINTS;
    UnderALevel(debt, was, protect);
    UnderALevel(debt, now, threshold);
    Regroup(den, BASIS_POINTS, protect);
    Regroup(num, BASIS_POINTS, threshold);
    Regroup(num, BASIS_POINTS, den);
    Regroup(den, BASIS_POINTS, num);
  }

  /**
   * The exact bound the sampled walk approximates: a fall is safe when it is no deeper than guard level over
   * threshold.
   */
  lemma AFallIsSafeExactlyInsideTheRoom(terms: Terms, num: nat, den: nat)
    requires Accepted(terms) && num > 0 && den > 0
    ensures AFallIsSafe(terms, num, den) <==> num * terms.thresholdBps >= den * terms.levels.protectLtvBps
  {
    if num * terms.thresholdBps >= den * terms.levels.protectLtvBps {
      forall debt: nat, was: nat, now: nat
        | was > 0 && now > 0 && now * den == was * num
          && CoreGuard.LoanToValueBps(debt, was) < terms.levels.protectLtvBps
        ensures CoreGuard.LoanToValueBps(debt, now) < terms.thresholdBps
      {
        AFallInsideTheRoomIsSafe(terms, num, den, debt, was, now);
      }
    } else {
      AFallPastTheRoomIsNotSafe(terms, num, den);
    }
  }

  /** Every move inside the guard room, from here, ends under the threshold. */
  ghost predicate EveryMoveIsSafeFrom(terms: Terms, before: Book) {
    forall after: Book :: InsideTheGuardRoom(terms, before, after) ==> Backed(after) && Ltv(after) < terms.thresholdBps
  }

  /**
   * The guard room is enough exactly under the guard level. From the level on some move inside the room reaches
   * the threshold, so the guard has to act before the next one.
   */
  lemma TheRoomIsEnoughExactlyUnderTheGuardLevel(terms: Terms, before: Book)
    requires Accepted(terms) && before.collateral > 0
    ensures Ltv(before) < terms.levels.protectLtvBps <==> EveryMoveIsSafeFrom(terms, before)
  {
    var protect, threshold := terms.levels.protectLtvBps, terms.thresholdBps;
    if Ltv(before) < protect {
      forall after: Book | InsideTheGuardRoom(terms, before, after) ensures Backed(after) && Ltv(after) < threshold {
        if before.debt == 0 {
          MulMonoStrict(0, before.collateral, protect);
          CancelMul(after.debt, 0, before.collateral * protect);
        }
        AMoveStaysUnderTheThreshold(terms, before, after);
      }
    } else {
      var after := Book(threshold, BASIS_POINTS);
      UnderALevel(before.debt, before.collateral, protect);
      UnderALevel(threshold, BASIS_POINTS, threshold);
      MulMono(protect * before.collateral, before.debt * BASIS_POINTS, threshold);
      Regroup(before.debt, BASIS_POINTS, threshold);
      assert InsideTheGuardRoom(terms, before, after) by {
        assert after.debt * (before.collateral * protect) == protect * before.collateral * threshold;
        assert before.debt * (after.collateral * threshold) == before.debt * BASIS_POINTS * threshold;
      }
    }
  }

  const SAMPLED: Terms := Terms(Strategy.Levels(4_000, 5_000, 3_000), 5_500, 6_500, 120)

  /**
   * The repository's own sampled walk truncates 5000/6500 to 769 permille, which is past the room: a fall that deep is
   * not safe.
   */
  lemma TheTruncatedWorstFallIsTooDeep()
    ensures Accepted(SAMPLED)
    ensures !AFallIsSafe(SAMPLED, SAMPLED.levels.protectLtvBps * 1_000 / SAMPLED.thresholdBps, 1_000)
    ensures Ltv(Book(4_999_999, 10_000_000)) < SAMPLED.levels.protectLtvBps
    ensures Ltv(Book(4_999_999, 10_000_000 * 769 / 1_000)) >= SAMPLED.thresholdBps
    ensures !InsideTheGuardRoom(SAMPLED, Book(4_999_999, 10_000_000), Book(4_999_999, 10_000_000 * 769 / 1_000))
  {
    AFallIsSafeExactlyInsideTheRoom(SAMPLED, 769, 1_000);
  }

  /** Two moves inside the room with no protect between them can liquidate, here from the sampled levels. */
  lemma TheGuardHasToActBetweenMoves()
    ensures var first, second, third := Book(4_000, 10_000), Book(4_000, 7_693), Book(4_000, 5_918);
      && InsideTheGuardRoom(SAMPLED, first, second) && InsideTheGuardRoom(SAMPLED, second, third)
      && Ltv(first) < SAMPLED.levels.protectLtvBps <= Ltv(second) < SAMPLED.thresholdBps <= Ltv(third)
  {
  }
}
