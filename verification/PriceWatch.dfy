// The keeper's price watch: when a new price alone carries a position over its guard level.
module PriceWatch {
  import opened Arithmetic
  import opened Outcomes
  import CoreGuard

  // The price account and the index of the feed inside it.
  datatype Feed = Feed(account: nat, index: nat)

  datatype Watched = Watched(feed: Feed, collateralPriceScaled: nat, loanToValueBps: nat, protectLtvBps: nat)

  function LoanToValueAtANewPrice(watched: Watched, priceScaled: int): int {
    if priceScaled <= 0 then watched.loanToValueBps
    else TruncatedQuotient(watched.loanToValueBps * watched.collateralPriceScaled, priceScaled)
  }

  predicate HasCrossedItsGuardLevel(watched: Watched, priceScaled: int) {
    && watched.loanToValueBps < watched.protectLtvBps
    && LoanToValueAtANewPrice(watched, priceScaled) >= watched.protectLtvBps
  }

  /**
   * A crossing is from under the guard level to at or over it: a position already there is never reported, and neither
   * is a feed without a price.
   */
  lemma ACrossingExactly(watched: Watched, priceScaled: int)
    ensures HasCrossedItsGuardLevel(watched, priceScaled) <==>
      && watched.loanToValueBps < watched.protectLtvBps && priceScaled > 0
      && watched.protectLtvBps * priceScaled <= watched.loanToValueBps * watched.collateralPriceScaled
    ensures watched.loanToValueBps >= watched.protectLtvBps ==> !HasCrossedItsGuardLevel(watched, priceScaled)
  {
    MulMono(0, watched.loanToValueBps, watched.collateralPriceScaled);
    if priceScaled > 0 {
      FloorAtLeast(watched.loanToValueBps * watched.collateralPriceScaled, priceScaled, watched.protectLtvBps);
    }
  }

  /** The position as the market last valued it, and what it is watched as. */
  ghost predicate WatchedFrom(watched: Watched, debt: nat, collateral: nat) {
    collateral > 0 && watched.loanToValueBps == CoreGuard.LoanToValueBps(debt, collateral)
  }

  /**
   * The true loan to value at the new price, unrounded, is at `level` basis points or over it. The collateral is
   * worth its old value times new price over old price; both sides are multiplied out.
   */
  ghost predicate AtOrOver(watched: Watched, debt: nat, collateral: nat, priceScaled: nat, level: int) {
    level * (priceScaled * collateral) <= debt * BASIS_POINTS * watched.collateralPriceScaled
  }

  /** A reported crossing is a real one: the true loan to value at the new price has reached the guard level. */
  lemma NoFalseAlarm(watched: Watched, debt: nat, collateral: nat, priceScaled: int)
    requires WatchedFrom(watched, debt, collateral)
    requires HasCrossedItsGuardLevel(watched, priceScaled)
    ensures priceScaled > 0 && AtOrOver(watched, debt, collateral, priceScaled, watched.protectLtvBps)
  {
    var ltv, was, level := watched.loanToValueBps, watched.collateralPriceScaled, watched.protectLtvBps;
    MulMono(0, ltv, was);
    FloorAtLeast(ltv * was, priceScaled, level);
    FloorBounds(debt * BASIS_POINTS, collateral);
    MulMono(level * priceScaled, ltv * was, collateral);
    MulMono(ltv * collateral, debt * BASIS_POINTS, was);
    Regroup(ltv, was, collateral);
    assert level * priceScaled * collateral == level * (priceScaled * collateral);
  }

  /**
   * A crossing that is missed is missed by less than old price over new price basis points: the true loan to
   * value at the new price is under the guard level plus that much.
   */
  lemma AMissIsSmall(watched: Watched, debt: nat, collateral: nat, priceScaled: nat)
    requires WatchedFrom(watched, debt, collateral) && watched.collateralPriceScaled > 0 && priceScaled > 0
    requires watched.loanToValueBps < watched.protectLtvBps && !HasCrossedItsGuardLevel(watched, priceScaled)
    ensures debt * BASIS_POINTS * watched.collateralPriceScaled
          < (watched.protectLtvBps * priceScaled + watched.collateralPriceScaled) * collateral
  {
    var ltv, was, level := watched.loanToValueBps, watched.collateralPriceScaled, watched.protectLtvBps;
    MulMono(0, ltv, was);
    FloorAtLeast(ltv * was, priceScaled, level);
    FloorBounds(debt * BASIS_POINTS, collateral);
    MulMonoStrict(debt * BASIS_POINTS, (ltv + 1) * collateral, was);
    Regroup(ltv + 1, collateral, was);
    Distribute(ltv, 1, was);
    MulMono(ltv * was + was, level * priceScaled + was, collateral);
  }

  // ----- the scan

  ghost predicate SomeoneCrossed(watching: seq<Watched>, prices: Feed -> int) {
    exists i :: 0 <= i < |watching| && HasCrossedItsGuardLevel(watching[i], prices(watching[i].feed))
  }

  /** One entry for each feed, in the order the feeds first appear. */
  method DistinctFeeds(watching: seq<Watched>) returns (feeds: seq<Feed>)
    ensures forall i, j :: 0 <= i < j < |feeds| ==> feeds[i] != feeds[j]
    ensures forall feed :: feed in feeds <==> exists i :: 0 <= i < |watching| && watching[i].feed == feed
  {
    feeds := [];
    for k := 0 to |watching|
      invariant forall i, j :: 0 <= i < j < |feeds| ==> feeds[i] != feeds[j]
      invariant forall feed :: feed in feeds <==> exists i :: 0 <= i < k && watching[i].feed == feed
    {
      if watching[k].feed !in feeds {
        feeds := feeds + [watching[k].feed];
      }
    }
  }

  /** Each feed's price is read once and tried on every position that names the feed. */
  method Scan(watching: seq<Watched>, feeds: seq<Feed>, prices: Feed -> int) returns (crossed: bool)
    requires forall feed :: feed in feeds <==> exists i :: 0 <= i < |watching| && watching[i].feed == feed
    ensures crossed <==> SomeoneCrossed(watching, prices)
  {
    crossed := false;
    for k := 0 to |feeds|
      invariant !crossed
      invariant forall i :: 0 <= i < |watching| && watching[i].feed in feeds[..k] ==>
        !HasCrossedItsGuardLevel(watching[i], prices(watching[i].feed))
    {
      var price := prices(feeds[k]);
      crossed := exists one | one in watching :: one.feed == feeds[k] && HasCrossedItsGuardLevel(one, price);
      if crossed {
        var one :| one in watching && one.feed == feeds[k] && HasCrossedItsGuardLevel(one, price);
        return;
      }
      assert feeds[..k + 1] == feeds[..k] + [feeds[k]];
    }
    forall i | 0 <= i < |watching| ensures !HasCrossedItsGuardLevel(watching[i], prices(watching[i].feed)) {
      assert watching[i].feed in feeds;
      assert feeds[..|feeds|] == feeds;
    }
  }

  datatype WhyTheRoundRan = TheIntervalElapsed | APriceCrossedAGuardLevel

  /**
   * The wait: as many scans as the interval leaves time for, each at the prices it finds; it ends at the first
   * crossing.
   */
  method WaitForTheNextRound(watching: seq<Watched>, scans: seq<Feed -> int>)
    returns (why: WhyTheRoundRan, scanned: nat)
    ensures scanned <= |scans|
    ensures why.APriceCrossedAGuardLevel? <==> exists k :: 0 <= k < |scans| && SomeoneCrossed(watching, scans[k])
    ensures forall k :: 0 <= k < scanned - 1 ==> !SomeoneCrossed(watching, scans[k])
    ensures why.APriceCrossedAGuardLevel? ==> scanned > 0 && SomeoneCrossed(watching, scans[scanned - 1])
  {
    if watching == [] {
      return TheIntervalElapsed, 0;
    }
    var feeds := DistinctFeeds(watching);
    scanned := 0;
    while scanned < |scans|
      invariant scanned <= |scans|
      invariant forall k :: 0 <= k < scanned ==> !SomeoneCrossed(watching, scans[k])
    {
      var crossed := Scan(watching, feeds, scans[scanned]);
      scanned := scanned + 1;
      if crossed {
        return APriceCrossedAGuardLevel, scanned;
      }
    }
    return TheIntervalElapsed, scanned;
  }
}
