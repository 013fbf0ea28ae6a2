// The sliding window over the last second that every chain read waits behind.
module Limiter {
  import opened Outcomes

  const A_SECOND_IN_MILLISECONDS: int := 1_000

  /** The least whole number at or above a positive rate; a rate need not be whole. */
  function Ceiling(rate: real): int {
    if rate.Floor as real == rate then rate.Floor else rate.Floor + 1
  }

  /** Comparing a length with a fractional rate is comparing it with the rate rounded up. */
  lemma FewerThanTheRate(n: nat, rate: real)
    requires rate > 0.0
    ensures n as real < rate <==> n < Ceiling(rate)
    ensures Ceiling(rate) >= 1
  {
  }

  ghost predicate Ordered(times: seq<int>) {
    forall i, j :: 0 <= i <= j < |times| ==> times[i] <= times[j]
  }

  /** Any grant and the one `most` later are a second or more apart. */
  ghost predicate Spaced(times: seq<int>, most: int) {
    forall i, j :: 0 <= i < j < |times| && j == i + most ==> times[j] - times[i] >= A_SECOND_IN_MILLISECONDS
  }

  /** The grants less than a second old at a moment, in order. */
  function Unexpired(times: seq<int>, now: int): seq<int> {
    if times == [] then []
    else if now - times[0] >= A_SECOND_IN_MILLISECONDS then Unexpired(times[1..], now)
    else [times[0]] + Unexpired(times[1..], now)
  }

  function GrantedWithin(times: seq<int>, from: int): nat {
    if times == [] then 0
    else
      GrantedWithin(times[..|times| - 1], from)
      + if from <= times[|times| - 1] < from + 1_000 then 1 else 0
  }

  /** The grants that fall into the second from `from` on, one by one. */
  ghost function InTheSecond(times: seq<int>, from: int): set<nat> {
    set i: nat | i < |times| && from <= times[i] < from + 1_000
  }

  lemma {:induction false} TheCountIsOfThatSecond(times: seq<int>, from: int)
    ensures GrantedWithin(times, from) == |InTheSecond(times, from)|
  {
    if times == [] {
      assert InTheSecond(times, from) == {};
    } else {
      var last := |times| - 1;
      var front := times[..last];
      TheCountIsOfThatSecond(front, from);
      assert InTheSecond(front, from) == InTheSecond(times, from) - {last};
    }
  }

  lemma NoneBefore(times: seq<int>, from: int)
    requires forall i :: 0 <= i < |times| ==> times[i] < from
    ensures GrantedWithin(times, from) == 0
  {
  }

  lemma {:induction false} SplitTheCount(times: seq<int>, at: nat, from: int)
    requires at <= |times|
    ensures GrantedWithin(times, from) == GrantedWithin(times[..at], from) + GrantedWithin(times[at..], from)
    ensures GrantedWithin(times[at..], from) <= |times| - at
  {
    if at == |times| {
      assert times[..at] == times && times[at..] == [];
    } else {
      var front := times[..|times| - 1];
      SplitTheCount(front, at, from);
      assert front[..at] == times[..at] && front[at..] == times[at..][..|times| - at - 1];
    }
  }

  /** Spaced grants never put more than `most` into any one second, wherever the second starts. */
  lemma {:induction false} NoSecondHoldsMore(times: seq<int>, most: int, from: int)
    requires Ordered(times) && Spaced(times, most) && most >= 1
    ensures GrantedWithin(times, from) <= most
  {
    if times != [] {
      var last := |times| - 1;
      if !(from <= times[last] < from + A_SECOND_IN_MILLISECONDS) {
        NoSecondHoldsMore(times[..last], most, from);
      } else if |times| > most {
        SplitTheCount(times, |times| - most, from);
        var early := times[..|times| - most];
        forall i | 0 <= i < |early| ensures early[i] < from {
          assert early[i] == times[i] <= times[last - most];
          assert times[last] - times[last - most] >= A_SECOND_IN_MILLISECONDS;
        }
        NoneBefore(early, from);
      } else {
        SplitTheCount(times, 0, from);
        assert times[0..] == times;
      }
    }
  }

  lemma {:induction false} NothingExpired(times: seq<int>, now: int)
    requires forall i :: 0 <= i < |times| ==> now - times[i] < A_SECOND_IN_MILLISECONDS
    ensures Unexpired(times, now) == times
  {
    if times != [] {
      NothingExpired(times[1..], now);
    }
  }

  /** Once a prefix has expired only what follows it counts. */
  lemma {:induction false} DropTheExpired(times: seq<int>, dropped: nat, now: int)
    requires dropped <= |times|
    requires forall i :: 0 <= i < dropped ==> now - times[i] >= A_SECOND_IN_MILLISECONDS
    ensures Unexpired(times, now) == Unexpired(times[dropped..], now)
  {
    if dropped > 0 {
      DropTheExpired(times[1..], dropped - 1, now);
      assert times[1..][dropped - 1..] == times[dropped..];
    } else {
      assert times[0..] == times;
    }
  }

  /** The queue is the end of the history, and everything before it is a second old or more. */
  ghost predicate Keeps(grants: seq<int>, queue: seq<int>, now: int) {
    && |queue| <= |grants|
    && queue == grants[|grants| - |queue|..]
    && forall i :: 0 <= i < |grants| - |queue| ==> now - grants[i] >= A_SECOND_IN_MILLISECONDS
  }

  ghost predicate History(grants: seq<int>, most: int) {
    Ordered(grants) && Spaced(grants, most)
  }

  lemma KeptLater(grants: seq<int>, queue: seq<int>, now: int, later: int)
    requires Keeps(grants, queue, now) && later >= now
    ensures Keeps(grants, queue, later)
  {
    forall i | 0 <= i < |grants| - |queue| ensures later - grants[i] >= A_SECOND_IN_MILLISECONDS {
      assert now - grants[i] >= A_SECOND_IN_MILLISECONDS;
    }
  }

  lemma ShiftTheOldest(grants: seq<int>, queue: seq<int>, now: int)
    requires Keeps(grants, queue, now) && queue != [] && now - queue[0] >= A_SECOND_IN_MILLISECONDS
    ensures Keeps(grants, queue[1..], now)
  {
    assert queue[0] == grants[|grants| - |queue|];
  }

  /** Once its oldest is young enough the queue holds exactly the unexpired grants. */
  lemma TheQueueIsTheUnexpired(grants: seq<int>, queue: seq<int>, now: int)
    requires Ordered(grants) && Keeps(grants, queue, now)
    requires queue != [] ==> now - queue[0] < A_SECOND_IN_MILLISECONDS
    ensures Unexpired(grants, now) == queue
  {
    DropTheExpired(grants, |grants| - |queue|, now);
    forall i | 0 <= i < |queue| ensures now - queue[i] < A_SECOND_IN_MILLISECONDS {
      assert queue[i] == grants[|grants| - |queue| + i] >= grants[|grants| - |queue|] == queue[0];
    }
    NothingExpired(queue, now);
  }

  lemma OneMoreStaysOrdered(grants: seq<int>, now: int)
    requires Ordered(grants) && (grants != [] ==> now >= grants[|grants| - 1])
    ensures Ordered(grants + [now])
  {
    forall i | 0 <= i < |grants| ensures grants[i] <= now {
      assert grants[i] <= grants[|grants| - 1];
    }
  }

  /** The grant `most` before a new one has left the queue, so it is a second old. */
  lemma OneMoreStaysSpaced(grants: seq<int>, queue: seq<int>, most: int, now: int)
    requires Spaced(grants, most) && Keeps(grants, queue, now) && |queue| < most
    ensures Spaced(grants + [now], most)
  {
    var more := grants + [now];
    forall i, j | 0 <= i < j < |more| && j == i + most ensures more[j] - more[i] >= A_SECOND_IN_MILLISECONDS {
      if j < |grants| {
        assert grants[j] - grants[i] >= A_SECOND_IN_MILLISECONDS;
      } else {
        assert now - grants[i] >= A_SECOND_IN_MILLISECONDS;
      }
    }
  }

  lemma OneMoreIsKept(grants: seq<int>, queue: seq<int>, now: int)
    requires Keeps(grants, queue, now)
    ensures Keeps(grants + [now], queue + [now], now)
  {
    var more, kept := grants + [now], queue + [now];
    assert more[|more| - |kept|..] == grants[|grants| - |queue|..] + [now];
  }

  /** One more grant, no earlier than the last, while fewer than the most are kept. */
  lemma OneMoreGrant(grants: seq<int>, queue: seq<int>, most: int, now: int)
    requires History(grants, most) && Keeps(grants, queue, now) && |queue| < most
    requires grants != [] ==> now >= grants[|grants| - 1]
    requires queue != [] ==> now - queue[0] < A_SECOND_IN_MILLISECONDS
    ensures History(grants + [now], most) && Keeps(grants + [now], queue + [now], now)
    ensures Unexpired(grants + [now], now) == queue + [now] && (grants + [now])[|grants|] == now
  {
    OneMoreStaysOrdered(grants, now);
    OneMoreStaysSpaced(grants, queue, most, now);
    OneMoreIsKept(grants, queue, now);
    TheQueueIsTheUnexpired(grants + [now], queue + [now], now);
  }

  // ----- one turn

  /**
   * A caller on its way to a turn: it has slept at most once, and once only because the limit was reached when it
   * came.
   */
  ghost predicate OnItsWay(grants: seq<int>, queue: seq<int>, rate: real, arrival: int, now: int, sleeps: int) {
    && 0 <= sleeps <= 1 && now >= arrival && (sleeps == 0 ==> now == arrival)
    && Keeps(grants, queue, now) && |queue| <= Ceiling(rate)
    && (sleeps == 1 ==> queue != [] && now - queue[0] >= A_SECOND_IN_MILLISECONDS)
    && (sleeps == 1 ==> |Unexpired(grants, arrival)| >= Ceiling(rate))
  }

  /** The same caller once the expired starts are gone: if it has slept, it is below the limit. */
  ghost predicate AtTheQueue(grants: seq<int>, queue: seq<int>, rate: real, arrival: int, now: int, sleeps: int) {
    && 0 <= sleeps <= 1 && now >= arrival && (sleeps == 0 ==> now == arrival)
    && Keeps(grants, queue, now) && |queue| <= Ceiling(rate) && queue == Unexpired(grants, now)
    && (queue != [] ==> now - queue[0] < A_SECOND_IN_MILLISECONDS)
    && (sleeps == 1 ==> |Unexpired(grants, arrival)| >= Ceiling(rate) && |queue| < Ceiling(rate))
  }

  lemma AfterDropping(grants: seq<int>, queue: seq<int>, dropped: seq<int>, rate: real, arrival: int, now: int,
                      sleeps: int)
    requires rate > 0.0 && Ordered(grants) && OnItsWay(grants, queue, rate, arrival, now, sleeps)
    requires Keeps(grants, dropped, now) && |dropped| <= |queue|
    requires dropped != [] ==> now - dropped[0] < A_SECOND_IN_MILLISECONDS
    requires queue != [] && now - queue[0] >= A_SECOND_IN_MILLISECONDS ==> |dropped| < |queue|
    ensures AtTheQueue(grants, dropped, rate, arrival, now, sleeps)
    ensures dropped == [] ==> |dropped| as real < rate
    ensures dropped != [] ==> now - dropped[0] < A_SECOND_IN_MILLISECONDS
  {
    TheQueueIsTheUnexpired(grants, dropped, now);
  }

  /** The oldest grant unexpired on arrival is a second old, and the sleep was late by so much. */
  ghost predicate SleptUntil(grants: seq<int>, arrival: int, late: nat, now: int) {
    var unexpired := Unexpired(grants, arrival);
    unexpired != [] && now == unexpired[0] + 1_000 + late
  }

  /** A sleep ends as late as it is late after the oldest start is a second old. */
  lemma AfterSleeping(grants: seq<int>, queue: seq<int>, rate: real, arrival: int, now: int, sleeps: int, late: nat,
                      later: int)
    requires rate > 0.0 && AtTheQueue(grants, queue, rate, arrival, now, sleeps) && !(|queue| as real < rate)
      && queue != []
    requires var pause := A_SECOND_IN_MILLISECONDS - (now - queue[0]);
      later == now + (if pause > 1 then pause else 1) + late
    ensures sleeps == 0 && OnItsWay(grants, queue, rate, arrival, later, 1) && SleptUntil(grants, arrival, late, later)
  {
    FewerThanTheRate(|queue|, rate);
    KeptLater(grants, queue, now, later);
  }

  /** What a limiter keeps between turns. */
  ghost predicate BetweenTurns(grants: seq<int>, queue: seq<int>, rate: real) {
    && rate > 0.0 && History(grants, Ceiling(rate)) && |queue| <= Ceiling(rate)
    && if grants == [] then queue == [] else Keeps(grants, queue, grants[|grants| - 1])
  }

  lemma OnArrival(grants: seq<int>, queue: seq<int>, rate: real, arrival: int)
    requires BetweenTurns(grants, queue, rate) && (grants != [] ==> arrival >= grants[|grants| - 1])
    ensures OnItsWay(grants, queue, rate, arrival, arrival, 0) && Ordered(grants) && History(grants, Ceiling(rate))
      && rate > 0.0
  {
    if grants != [] {
      KeptLater(grants, queue, grants[|grants| - 1], arrival);
    }
  }

  /** The turn itself: below the limit, and so granted on arrival exactly when the caller never slept. */
  lemma OnTurn(grants: seq<int>, queue: seq<int>, rate: real, arrival: int, now: int, sleeps: int)
    requires rate > 0.0 && History(grants, Ceiling(rate)) && AtTheQueue(grants, queue, rate, arrival, now, sleeps)
    requires |queue| as real < rate && (grants != [] ==> arrival >= grants[|grants| - 1])
    ensures BetweenTurns(grants + [now], queue + [now], rate)
    ensures Unexpired(grants + [now], now) == queue + [now]
    ensures sleeps == 0 <==> |Unexpired(grants, arrival)| < Ceiling(rate)
  {
    FewerThanTheRate(|queue|, rate);
    OneMoreGrant(grants, queue, Ceiling(rate), now);
  }

  class RateLimiter {
    const requestsPerSecond: real
    var startedAt: seq<int>
    // Every turn ever granted, in order.
    ghost var grants: seq<int>

    ghost predicate Valid()
      reads this
    {
      BetweenTurns(grants, startedAt, requestsPerSecond)
    }

    constructor (requestsPerSecond: real)
      requires requestsPerSecond > 0.0
      ensures Valid() && grants == [] && this.requestsPerSecond == requestsPerSecond
    {
      this.requestsPerSecond := requestsPerSecond;
      startedAt := [];
      grants := [];
    }

    /**
     * One caller's turn. It arrives at `arrival`, no earlier than the last grant, and a sleep may end late by
     * any amount. It is granted after at most one sleep, and without one exactly when fewer than the limit, rounded
     * up, are unexpired; a sleep ends once the oldest of those is a second old, and as late as it is late.
     */
    method TakeATurn(arrival: int, lateBy: int -> nat) returns (grantedAt: int, sleeps: int)
      requires Valid()
      requires grants != [] ==> arrival >= grants[|grants| - 1]
      modifies this
      ensures Valid()
      ensures grants == old(grants) + [grantedAt] && grantedAt >= arrival
      ensures startedAt == Unexpired(grants, grantedAt)
      ensures 0 <= sleeps <= 1
      ensures sleeps == 0 <==> |Unexpired(old(grants), arrival)| < Ceiling(requestsPerSecond)
      ensures sleeps == 0 ==> grantedAt == arrival
      ensures sleeps == 1 ==> SleptUntil(old(grants), arrival, lateBy(0), grantedAt)
    {
      var now := arrival;
      sleeps := 0;
      OnArrival(grants, startedAt, requestsPerSecond, arrival);
      while true
        invariant grants == old(grants) && OnItsWay(grants, startedAt, requestsPerSecond, arrival, now, sleeps)
        invariant sleeps == 1 ==> SleptUntil(grants, arrival, lateBy(0), now)
        decreases 1 - sleeps
      {
        ghost var queued := startedAt;
        DropExpired(now);
        AfterDropping(grants, queued, startedAt, requestsPerSecond, arrival, now, sleeps);
        if |startedAt| as real < requestsPerSecond {
          Start(now, arrival, sleeps);
          return now, sleeps;
        }
        var oldest := startedAt[0];
        var pause := A_SECOND_IN_MILLISECONDS - (now - oldest);
        var later := now + (if pause > 1 then pause else 1) + lateBy(sleeps);
        AfterSleeping(grants, startedAt, requestsPerSecond, arrival, now, sleeps, lateBy(sleeps), later);
        now, sleeps := later, sleeps + 1;
      }
    }

    /** The turn is granted: it starts now. */
    method Start(now: int, ghost arrival: int, ghost sleeps: int)
      requires requestsPerSecond > 0.0 && History(grants, Ceiling(requestsPerSecond))
      requires AtTheQueue(grants, startedAt, requestsPerSecond, arrival, now, sleeps)
        && |startedAt| as real < requestsPerSecond
      requires grants != [] ==> arrival >= grants[|grants| - 1]
      modifies this
      ensures Valid() && grants == old(grants) + [now] && startedAt == Unexpired(grants, now)
      ensures sleeps == 0 <==> |Unexpired(old(grants), arrival)| < Ceiling(requestsPerSecond)
    {
      OnTurn(grants, startedAt, requestsPerSecond, arrival, now, sleeps);
      startedAt := startedAt + [now];
      grants := grants + [now];
    }

    /** The inner loop: shift out every start a second old or more. */
    method DropExpired(now: int)
      requires Keeps(grants, startedAt, now)
      modifies this`startedAt
      ensures Keeps(grants, startedAt, now)
      ensures startedAt != [] ==> now - startedAt[0] < A_SECOND_IN_MILLISECONDS
      ensures |startedAt| <= |old(startedAt)|
      ensures old(startedAt) != [] && now - old(startedAt)[0] >= A_SECOND_IN_MILLISECONDS ==>
        |startedAt| < |old(startedAt)|
    {
      while startedAt != [] && now - startedAt[0] >= A_SECOND_IN_MILLISECONDS
        invariant Keeps(grants, startedAt, now)
        invariant startedAt == old(startedAt) || |startedAt| < |old(startedAt)|
        decreases |startedAt|
      {
        ShiftTheOldest(grants, startedAt, now);
        startedAt := startedAt[1..];
      }
    }
  }

  /** A limiter is made for a positive rate, and a rate that is not is an error. */
  method CreateRateLimiter(requestsPerSecond: real) returns (r: Result<RateLimiter, Thrown>)
    ensures r.Ok? <==> requestsPerSecond > 0.0
    ensures r.Ok? ==> fresh(r.value) && r.value.Valid() && r.value.grants == []
    ensures r.Ok? ==> r.value.requestsPerSecond == requestsPerSecond
  {
    if requestsPerSecond <= 0.0 {
      return Err(Thrown);
    }
    var limiter := new RateLimiter(requestsPerSecond);
    return Ok(limiter);
  }

  /** Whatever turns a limiter has granted, no half open second ever held more than the limit rounded up. */
  lemma TheLimitHolds(limiter: RateLimiter, from: int)
    requires limiter.Valid()
    ensures |InTheSecond(limiter.grants, from)| <= Ceiling(limiter.requestsPerSecond)
  {
    TheCountIsOfThatSecond(limiter.grants, from);
    NoSecondHoldsMore(limiter.grants, Ceiling(limiter.requestsPerSecond), from);
  }
}
