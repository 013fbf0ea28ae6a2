// The borrow rate read off a reserve's curve, and what a depositor keeps of it.
module BorrowCurve {
  import opened Arithmetic
  import opened Outcomes

  datatype Point = Point(utilisationBps: nat, borrowRateBps: nat)

  datatype Reserve = Reserve(
    liquidityBorrowedScaled: nat, liquidityAvailableAmount: nat, borrowRateCurve: seq<Point>, protocolTakeRatePct: nat)

  function UtilisationBps(reserve: Reserve): (at: int)
    ensures 0 <= at <= BASIS_POINTS
  {
    var borrowed := reserve.liquidityBorrowedScaled / SCALED_FRACTION_ONE;
    var total := borrowed + reserve.liquidityAvailableAmount;
    if total == 0 then 0
    else
      FloorAtLeast(borrowed * BASIS_POINTS, total, BASIS_POINTS + 1);
      FloorNonNegative(borrowed * BASIS_POINTS, total);
      borrowed * BASIS_POINTS / total
  }

  /** Nearest whole number, halves up. */
  function Rounded(numerator: int, denominator: int): int
    requires denominator > 0
  {
    (2 * numerator + denominator) / (2 * denominator)
  }

  function Interpolated(below: Point, above: Point, at: int): int
    requires below.utilisationBps < above.utilisationBps
  {
    var span := above.utilisationBps - below.utilisationBps;
    var rise := above.borrowRateBps - below.borrowRateBps;
    Rounded(below.borrowRateBps * span + rise * (at - below.utilisationBps), span)
  }

  /** The points up to and including the first at full utilisation. */
  function Usable(curve: seq<Point>): seq<Point> {
    if curve == [] then []
    else if curve[0].utilisationBps >= BASIS_POINTS then [curve[0]]
    else [curve[0]] + Usable(curve[1..])
  }

  /** The rate past the first point: on the first segment that reaches far enough, or flat after the last. */
  function PastTheFirst(points: seq<Point>, at: int): int
    requires points != [] && at > points[0].utilisationBps
  {
    if |points| == 1 then points[0].borrowRateBps
    else if at <= points[1].utilisationBps then Interpolated(points[0], points[1], at)
    else PastTheFirst(points[1..], at)
  }

  function RateAt(points: seq<Point>, at: int): int {
    if points == [] then 0
    else if at <= points[0].utilisationBps then points[0].borrowRateBps
    else PastTheFirst(points, at)
  }

  method UsablePoints(curve: seq<Point>) returns (points: seq<Point>)
    ensures points == Usable(curve)
  {
    points := [];
    for i := 0 to |curve|
      invariant Usable(curve) == points + Usable(curve[i..])
    {
      points := points + [curve[i]];
      if curve[i].utilisationBps >= BASIS_POINTS {
        return;
      }
    }
  }

  /** The search over the segments; the span it divides by is never empty, whatever the curve. */
  method BorrowRateBps(reserve: Reserve) returns (rate: int)
    ensures rate == RateAt(Usable(reserve.borrowRateCurve), UtilisationBps(reserve))
  {
    var at := UtilisationBps(reserve);
    var points := UsablePoints(reserve.borrowRateCurve);
    if |points| == 0 {
      return 0;
    }
    if at <= points[0].utilisationBps {
      return points[0].borrowRateBps;
    }
    for index := 1 to |points|
      invariant at > points[index - 1].utilisationBps
      invariant PastTheFirst(points, at) == PastTheFirst(points[index - 1..], at)
    {
      var below, above := points[index - 1], points[index];
      if at <= above.utilisationBps {
        var span := above.utilisationBps - below.utilisationBps;
        var rise := above.borrowRateBps - below.borrowRateBps;
        return Rounded(below.borrowRateBps * span + rise * (at - below.utilisationBps), span);
      }
      assert points[index - 1..][1..] == points[index..];
    }
    return points[|points| - 1].borrowRateBps;
  }

  method SupplyRateBps(reserve: Reserve) returns (supply: int)
    ensures supply == SupplyAt(RateAt(Usable(reserve.borrowRateCurve), UtilisationBps(reserve)),
                               UtilisationBps(reserve),
                               reserve.protocolTakeRatePct)
  {
    var rate := BorrowRateBps(reserve);
    var paid := TruncatedQuotient(rate * UtilisationBps(reserve), BASIS_POINTS);
    var keptByTheMarket := TruncatedQuotient(paid * reserve.protocolTakeRatePct, PERCENT);
    supply := paid - keptByTheMarket;
  }

  function SupplyAt(rate: int, at: int, takePct: nat): int {
    var paid := TruncatedQuotient(rate * at, BASIS_POINTS);
    paid - TruncatedQuotient(paid * takePct, PERCENT)
  }

  ghost predicate Sorted(points: seq<Point>) {
    forall i, j :: 0 <= i <= j < |points| ==>
      points[i].utilisationBps <= points[j].utilisationBps && points[i].borrowRateBps <= points[j].borrowRateBps
  }

  /**
   * The usable points are the curve up to its first point at full utilisation, that point included, or all of it. A
   * prefix of a sorted curve is sorted, so the promises below hold for the usable points of any sorted curve.
   */
  lemma {:induction false} UsableIsAPrefix(curve: seq<Point>)
    ensures var points := Usable(curve);
      && points <= curve
      && (points == curve || (points != [] && points[|points| - 1].utilisationBps >= 10_000))
      && (forall i :: 0 <= i < |points| - 1 ==> points[i].utilisationBps < 10_000)
      && (Sorted(curve) ==> Sorted(points))
  {
    if curve != [] {
      UsableIsAPrefix(curve[1..]);
    }
  }

  /** The utilisation is the floored share of what was lent in what there is, both in whole units. */
  lemma TheUtilisationExactly(reserve: Reserve, borrowed: nat, at: int)
    requires borrowed * SCALED_FRACTION_ONE <= reserve.liquidityBorrowedScaled < (borrowed + 1) * SCALED_FRACTION_ONE
    ensures var total := borrowed + reserve.liquidityAvailableAmount;
      at == UtilisationBps(reserve) <==>
      if total == 0 then at == 0 else at * total <= borrowed * 10_000 < (at + 1) * total
  {
    FloorIs(reserve.liquidityBorrowedScaled, SCALED_FRACTION_ONE, borrowed);
    var total := borrowed + reserve.liquidityAvailableAmount;
    if total > 0 {
      FloorIs(borrowed * BASIS_POINTS, total, at);
    }
  }

  // ----- one segment

  lemma RoundedMono(a: int, b: int, d: int)
    requires d > 0 && a <= b
    ensures Rounded(a, d) <= Rounded(b, d)
  {
    FloorMono(2 * a + d, 2 * b + d, 2 * d);
  }

  /** Rounding is to the nearest, and up where two are as near. */
  lemma RoundedIsNearest(numerator: int, d: int, r: int)
    requires d > 0
    ensures r == Rounded(numerator, d) <==> 2 * numerator - d < 2 * r * d <= 2 * numerator + d
  {
    FloorIs(2 * numerator + d, 2 * d, r);
    assert r * (2 * d) == 2 * r * d;
    assert (r + 1) * (2 * d) == 2 * r * d + 2 * d;
  }

  lemma RoundedExact(whole: int, d: int)
    requires d > 0
    ensures Rounded(whole * d, d) == whole
  {
    FloorAtLeast(2 * (whole * d) + d, 2 * d, whole);
    FloorAtLeast(2 * (whole * d) + d, 2 * d, whole + 1);
    assert whole * (2 * d) == 2 * (whole * d);
    assert (whole + 1) * (2 * d) == 2 * (whole * d) + 2 * d;
  }

  lemma InterpolationIsMonotone(below: Point, above: Point, at: int, later: int)
    requires below.utilisationBps < above.utilisationBps && below.borrowRateBps <= above.borrowRateBps
    requires below.utilisationBps <= at <= later <= above.utilisationBps
    ensures below.borrowRateBps <= Interpolated(below, above, at) <= Interpolated(below, above, later)
        <= above.borrowRateBps
  {
    var span := above.utilisationBps - below.utilisationBps;
    var rise := above.borrowRateBps - below.borrowRateBps;
    var a, b := at - below.utilisationBps, later - below.utilisationBps;
    MulMono(0, a, rise);
    MulMono(a, b, rise);
    MulMono(b, span, rise);
    assert below.borrowRateBps * span + rise * span == above.borrowRateBps * span;
    RoundedMono(below.borrowRateBps * span, below.borrowRateBps * span + rise * a, span);
    RoundedMono(below.borrowRateBps * span + rise * a, below.borrowRateBps * span + rise * b, span);
    RoundedMono(below.borrowRateBps * span + rise * b, above.borrowRateBps * span, span);
    RoundedExact(below.borrowRateBps, span);
    RoundedExact(above.borrowRateBps, span);
  }

  // ----- the whole curve

  lemma {:induction false} PastTheFirstIsBetween(points: seq<Point>, at: int)
    requires points != [] && Sorted(points) && at > points[0].utilisationBps
    ensures points[0].borrowRateBps <= PastTheFirst(points, at) <= points[|points| - 1].borrowRateBps
  {
    if |points| > 1 {
      if at <= points[1].utilisationBps {
        InterpolationIsMonotone(points[0], points[1], at, at);
      } else {
        PastTheFirstIsBetween(points[1..], at);
      }
    }
  }

  lemma {:induction false} PastTheFirstIsMonotone(points: seq<Point>, at: int, later: int)
    requires points != [] && Sorted(points) && points[0].utilisationBps < at <= later
    ensures PastTheFirst(points, at) <= PastTheFirst(points, later)
  {
    if |points| > 1 {
      if later <= points[1].utilisationBps {
        InterpolationIsMonotone(points[0], points[1], at, later);
      } else if at <= points[1].utilisationBps {
        InterpolationIsMonotone(points[0], points[1], at, at);
        PastTheFirstIsBetween(points[1..], later);
      } else {
        PastTheFirstIsMonotone(points[1..], at, later);
      }
    }
  }

  /** The rate never falls as more is lent out, and stays between the first usable rate and the last. */
  lemma TheRateIsMonotoneAndBounded(points: seq<Point>, at: int, later: int)
    requires points != [] && Sorted(points) && at <= later
    ensures points[0].borrowRateBps <= RateAt(points, at) <= RateAt(points, later) <= points[|points| - 1].borrowRateBps
  {
    if at > points[0].utilisationBps {
      PastTheFirstIsMonotone(points, at, later);
      PastTheFirstIsBetween(points, at);
    }
    if later > points[0].utilisationBps {
      PastTheFirstIsBetween(points, later);
    }
  }

  /** On the segment a utilisation falls in, and on no other, the rate is that segment's interpolation. */
  lemma {:induction false} TheRateIsTheSegmentsOwn(points: seq<Point>, i: nat, at: int)
    requires Sorted(points) && i + 1 < |points|
    requires points[i].utilisationBps < at <= points[i + 1].utilisationBps
    ensures RateAt(points, at) == Interpolated(points[i], points[i + 1], at)
  {
    if i > 0 {
      assert points[1].utilisationBps <= points[i].utilisationBps;
      assert points[1..][i - 1] == points[i] && points[1..][i] == points[i + 1];
      TheRateIsTheSegmentsOwn(points[1..], i - 1, at);
    }
  }

  /**
   * What the depositor earns, from both sides: the floored share of the rate that is lent out, less the floored share
   * of that which the market takes.
   */
  lemma TheSupplyExactly(rate: nat, at: nat, takePct: nat, paid: nat, supply: int)
    requires paid * 10_000 <= rate * at < (paid + 1) * 10_000
    ensures supply == SupplyAt(rate, at, takePct) <==>
      100 * paid - paid * takePct <= 100 * supply < 100 * paid - paid * takePct + 100
  {
    MulMono(0, at, rate);
    FloorIs(rate * at, BASIS_POINTS, paid);
    MulMono(0, takePct, paid);
    FloorIs(paid * takePct, PERCENT, paid - supply);
  }

  /** What the depositor earns never exceeds what the borrower pays. */
  lemma TheSupplyRateNeverExceedsTheBorrowRate(reserve: Reserve)
    ensures var at := UtilisationBps(reserve);
      var rate := RateAt(Usable(reserve.borrowRateCurve), at);
      Sorted(Usable(reserve.borrowRateCurve)) ==> SupplyAt(rate, at, reserve.protocolTakeRatePct) <= rate
  {
    var at, points := UtilisationBps(reserve), Usable(reserve.borrowRateCurve);
    var rate := RateAt(points, at);
    if Sorted(points) {
      if points != [] {
        TheRateIsMonotoneAndBounded(points, at, at);
      }
      MulMono(at, BASIS_POINTS, rate);
      MulMono(0, at, rate);
      FloorNonNegative(rate * at, BASIS_POINTS);
      FloorMono(rate * at, rate * BASIS_POINTS, BASIS_POINTS);
      var paid := rate * at / BASIS_POINTS;
      MulMono(0, paid, reserve.protocolTakeRatePct);
      FloorNonNegative(paid * reserve.protocolTakeRatePct, PERCENT);
    }
  }
}
