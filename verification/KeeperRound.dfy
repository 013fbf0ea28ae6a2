// One round of the keeper over its candidates, whatever builds, sends or log writes fail.
module KeeperRound {
  import opened Decide
  import opened Outcomes
  import CoreGuard

  datatype Candidate = Candidate(address: nat, loanToValueBps: int, watched: PositionUnderWatch)

  // ----- the most stretched first

  function Insert(one: Candidate, sorted: seq<Candidate>): seq<Candidate> {
    if sorted == [] then [one]
    else if one.loanToValueBps >= sorted[0].loanToValueBps then [one] + sorted
    else [sorted[0]] + Insert(one, sorted[1..])
  }

  /** A stable sort by descending loan to value, as Array.prototype.sort is. */
  function MostStretchedFirst(candidates: seq<Candidate>): seq<Candidate> {
    if candidates == [] then [] else Insert(candidates[0], MostStretchedFirst(candidates[1..]))
  }

  ghost predicate Descending(candidates: seq<Candidate>) {
    forall i, j :: 0 <= i <= j < |candidates| ==> candidates[i].loanToValueBps >= candidates[j].loanToValueBps
  }

  /** The candidates at one loan to value, in order. */
  function At(candidates: seq<Candidate>, loanToValueBps: int): seq<Candidate> {
    if candidates == [] then []
    else
      (if candidates[0].loanToValueBps == loanToValueBps then [candidates[0]] else [])
      + At(candidates[1..], loanToValueBps)
  }

  lemma {:induction false} InsertPermutes(one: Candidate, sorted: seq<Candidate>)
    ensures multiset(Insert(one, sorted)) == multiset([one]) + multiset(sorted)
  {
    if sorted != [] {
      assert sorted == [sorted[0]] + sorted[1..];
      InsertPermutes(one, sorted[1..]);
    }
  }

  lemma {:induction false} InsertKeepsTheOrder(one: Candidate, sorted: seq<Candidate>)
    requires Descending(sorted)
    ensures Descending(Insert(one, sorted))
  {
    if sorted != [] && one.loanToValueBps < sorted[0].loanToValueBps {
      InsertKeepsTheOrder(one, sorted[1..]);
      InsertPermutes(one, sorted[1..]);
      var rest := Insert(one, sorted[1..]);
      forall i | 0 <= i < |rest| ensures rest[i].loanToValueBps <= sorted[0].loanToValueBps {
        assert rest[i] in multiset(rest);
        assert rest[i] == one || rest[i] in sorted[1..];
      }
    }
  }

  lemma {:induction false} InsertIsStable(one: Candidate, sorted: seq<Candidate>, level: int)
    requires Descending(sorted)
    ensures At(Insert(one, sorted), level) == At([one], level) + At(sorted, level)
  {
    if sorted == [] {
      assert Insert(one, sorted) == [one] && At(sorted, level) == [];
    } else if one.loanToValueBps >= sorted[0].loanToValueBps {
      AtSplits(one, sorted, level);
    } else {
      var first, rest := sorted[0], sorted[1..];
      InsertIsStable(one, rest, level);
      AtSplits(first, Insert(one, rest), level);
      AtSplits(first, rest, level);
      assert sorted == [first] + rest;
      // Not both of them are at the level.
      assert At([first], level) == [] || At([one], level) == [];
    }
  }

  lemma {:induction false} TheSortPermutes(candidates: seq<Candidate>)
    ensures multiset(MostStretchedFirst(candidates)) == multiset(candidates)
    ensures |MostStretchedFirst(candidates)| == |candidates|
  {
    if candidates != [] {
      assert candidates == [candidates[0]] + candidates[1..];
      TheSortPermutes(candidates[1..]);
      InsertPermutes(candidates[0], MostStretchedFirst(candidates[1..]));
    }
    assert |multiset(MostStretchedFirst(candidates))| == |multiset(candidates)|;
  }

  lemma {:induction false} TheSortDescends(candidates: seq<Candidate>)
    ensures Descending(MostStretchedFirst(candidates))
  {
    if candidates != [] {
      TheSortDescends(candidates[1..]);
      InsertKeepsTheOrder(candidates[0], MostStretchedFirst(candidates[1..]));
    }
  }

  lemma AtSplits(one: Candidate, rest: seq<Candidate>, level: int)
    ensures At([one] + rest, level) == At([one], level) + At(rest, level)
  {
    assert ([one] + rest)[1..] == rest && [one][1..] == [];
  }

  lemma {:induction false} TheSortIsStable(candidates: seq<Candidate>, level: int)
    ensures At(MostStretchedFirst(candidates), level) == At(candidates, level)
  {
    if candidates != [] {
      TheSortIsStable(candidates[1..], level);
      TheSortDescends(candidates[1..]);
      InsertIsStable(candidates[0], MostStretchedFirst(candidates[1..]), level);
      AtSplits(candidates[0], candidates[1..], level);
      assert candidates == [candidates[0]] + candidates[1..];
    }
  }

  /** The visiting order is a permutation, in descending loan to value, with equals left in the order they came. */
  lemma MostStretchedFirstIsAStableSort(candidates: seq<Candidate>, level: int)
    ensures Descending(MostStretchedFirst(candidates))
    ensures multiset(MostStretchedFirst(candidates)) == multiset(candidates)
    ensures At(MostStretchedFirst(candidates), level) == At(candidates, level)
  {
    TheSortPermutes(candidates);
    TheSortDescends(candidates);
    TheSortIsStable(candidates, level);
  }

  // ----- the round

  datatype RunOutcome = Skipped | Landed | Reverted

  datatype Record = Record(address: nat, decision: Decision, outcome: RunOutcome)

  /** How a round ends: with a report, or by throwing out of a log write nothing catches. */
  datatype RoundEnd = Report(considered: nat, attempted: nat, landed: nat) | Threw

  /**
   * What may go wrong at each candidate in turn: the build or the send, the first log write, the write that reports a
   * failure.
   */
  datatype World = World(lands: nat -> bool, writes: nat -> bool, writesTheFailure: nat -> bool)

  function Count(records: seq<Record>, outcome: RunOutcome): nat {
    if records == [] then 0
    else Count(records[..|records| - 1], outcome) + if records[|records| - 1].outcome == outcome then 1 else 0
  }

  lemma CountOneMore(records: seq<Record>, one: Record, outcome: RunOutcome)
    ensures Count(records + [one], outcome) == Count(records, outcome) + if one.outcome == outcome then 1 else 0
  {
    assert (records + [one])[..|records|] == records;
  }

  lemma {:induction false} EveryRecordHasOneOutcome(records: seq<Record>)
    ensures Count(records, Skipped) + Count(records, Landed) + Count(records, Reverted) == |records|
  {
    if records != [] {
      EveryRecordHasOneOutcome(records[..|records| - 1]);
    }
  }

  /** What one candidate's record has to say, given what went wrong. */
  predicate Faithful(record: Record, candidate: Candidate, decision: Decision, world: World, i: nat) {
    && record.address == candidate.address && record.decision == decision
    && (record.outcome == Skipped <==> decision.Wait?)
    && (record.outcome == Landed <==> decision.Do? && world.lands(i) && world.writes(i))
  }

  /** The landings whose own record could not be written, among the first `n`. */
  function LostLandings(order: seq<Candidate>, limits: GuardLimits, now: int, world: World, n: nat): nat
    requires n <= |order|
  {
    if n == 0 then 0
    else
      LostLandings(order, limits, now, world, n - 1)
      + if DecideWhatToDo(order[n - 1].watched, limits, now).Do? && world.lands(n - 1) && !world.writes(n - 1) then 1
        else 0
  }

  /** What a round has written and counted after its first `i` candidates. */
  ghost predicate Recorded(records: seq<Record>, order: seq<Candidate>, limits: GuardLimits, now: int, world: World,
                           i: nat, attempted: int, landed: int)
    requires i <= |order|
  {
    && |records| == i
    && (forall k :: 0 <= k < i ==>
      Faithful(records[k], order[k], DecideWhatToDo(order[k].watched, limits, now), world, k))
    && attempted + Count(records, Skipped) == i
    && landed == Count(records, Landed) + LostLandings(order, limits, now, world, i)
  }

  lemma OneMoreRecord(records: seq<Record>, order: seq<Candidate>, limits: GuardLimits, now: int, world: World,
                      i: nat, attempted: int, landed: int, record: Record)
    requires i < |order| && Recorded(records, order, limits, now, world, i, attempted, landed)
    requires Faithful(record, order[i], DecideWhatToDo(order[i].watched, limits, now), world, i)
    ensures var decided := DecideWhatToDo(order[i].watched, limits, now).Do?;
      Recorded(records + [record], order, limits, now, world, i + 1,
               attempted + (if decided then 1 else 0), landed + (if decided && world.lands(i) then 1 else 0))
  {
    CountOneMore(records, record, Skipped);
    CountOneMore(records, record, Landed);
  }

  /** A log write that throws where nothing catches it: the write of a wait, or the write that reports a failure. */
  predicate BreaksAt(order: seq<Candidate>, limits: GuardLimits, now: int, world: World, i: nat)
    requires i < |order|
  {
    if DecideWhatToDo(order[i].watched, limits, now).Wait? then !world.writes(i)
    else !(world.lands(i) && world.writes(i)) && !world.writesTheFailure(i)
  }

  /** A failed build or send never ends a round by itself: the log has to fail as well, where nothing catches it. */
  lemma OnlyTheLogBreaksARound(order: seq<Candidate>, limits: GuardLimits, now: int, world: World, i: nat)
    requires i < |order|
    ensures var waits := DecideWhatToDo(order[i].watched, limits, now).Wait?;
      BreaksAt(order, limits, now, world, i) <==>
      || (waits && !world.writes(i))
      || (!waits && !world.lands(i) && !world.writesTheFailure(i))
      || (!waits && world.lands(i) && !world.writes(i) && !world.writesTheFailure(i))
  {
  }

  /**
   * A round throws exactly when some log write that nothing catches does. One that ends with a report has written
   * exactly one record for each candidate, in visiting order, and its counts add up: the landed count is the landed
   * records and the landings whose record was lost.
   */
  method RunOneRound(candidates: seq<Candidate>, limits: GuardLimits, now: int, world: World)
    returns (end: RoundEnd, records: seq<Record>)
    ensures var order := MostStretchedFirst(candidates);
      && |order| == |candidates|
      && (end.Threw? <==> exists i :: 0 <= i < |order| && BreaksAt(order, limits, now, world, i))
      && (end.Report? ==>
            && end.considered == |candidates|
            && Recorded(records, order, limits, now, world, |order|, end.attempted, end.landed)
            && Count(records, Landed) + Count(records, Reverted) == end.attempted)
  {
    var order := MostStretchedFirst(candidates);
    TheSortPermutes(candidates);
    var attempted, landed := 0, 0;
    records := [];
    for i := 0 to |order|
      invariant Recorded(records, order, limits, now, world, i, attempted, landed) && attempted >= 0 && landed >= 0
      invariant forall k :: 0 <= k < i ==> !BreaksAt(order, limits, now, world, k)
    {
      var candidate := order[i];
      var decision := DecideWhatToDo(candidate.watched, limits, now);
      var record;
      ghost var before := (attempted, landed);
      if decision.Wait? {
        if !world.writes(i) {
          assert BreaksAt(order, limits, now, world, i);
          return Threw, records;
        }
        record := Record(candidate.address, decision, Skipped);
      } else {
        attempted := attempted + 1;
        if world.lands(i) {
          landed := landed + 1;
        }
        if world.lands(i) && world.writes(i) {
          record := Record(candidate.address, decision, Landed);
        } else {
          // The catch: a failed build, a failed send and a failed write of the landing all end here.
          if !world.writesTheFailure(i) {
            assert BreaksAt(order, limits, now, world, i);
            return Threw, records;
          }
          record := Record(candidate.address, decision, Reverted);
        }
      }
      OneMoreRecord(records, order, limits, now, world, i, before.0, before.1, record);
      records := records + [record];
    }
    EveryRecordHasOneOutcome(records);
    end := Report(|candidates|, attempted, landed);
  }

  /** No landing is counted without its record exactly when the log takes every landing. */
  lemma {:induction false} NoLandingIsLostWhileTheLogHolds(order: seq<Candidate>, limits: GuardLimits, now: int,
                                                           world: World, n: nat)
    requires n <= |order|
    ensures LostLandings(order, limits, now, world, n) == 0 <==>
      forall i :: 0 <= i < n && DecideWhatToDo(order[i].watched, limits, now).Do? && world.lands(i) ==> world.writes(i)
  {
    if n > 0 {
      NoLandingIsLostWhileTheLogHolds(order, limits, now, world, n - 1);
    }
  }

  /** So landed plus reverted is attempted exactly when the log takes every landing. */
  lemma TheCountsAddUpExactlyWhileTheLogHolds(records: seq<Record>, order: seq<Candidate>, limits: GuardLimits,
                                              now: int, world: World, attempted: int, landed: int)
    requires Recorded(records, order, limits, now, world, |order|, attempted, landed)
    ensures landed + Count(records, Reverted) == attempted <==>
      forall i :: 0 <= i < |order| && DecideWhatToDo(order[i].watched, limits, now).Do? && world.lands(i) ==>
        world.writes(i)
  {
    EveryRecordHasOneOutcome(records);
    NoLandingIsLostWhileTheLogHolds(order, limits, now, world, |order|);
  }

  // One position far over its guard level, and a log that takes the report of a failure but not the landing before it.
  const STRETCHED: Candidate := Candidate(
    1, 6_000, PositionUnderWatch(true, 5_000, 3_000, false, false, 0, 0, 6_000, 5,
                                 CoreGuard.DeleverageSignals(false, false, 0, false, false, 0, 0, 0), 0))
  const LIMITS: GuardLimits := GuardLimits(0, 0, 0, false, false)
  const FORGETFUL: World := World(i => true, i => false, i => true)

  const MISWRITTEN: Record := Record(1, Do(Protect), Reverted)

  lemma TheLoneDecision()
    ensures DecideWhatToDo(STRETCHED.watched, LIMITS, 1) == Do(Protect)
    ensures Count([], Landed) == 0 && LostLandings([STRETCHED], LIMITS, 1, FORGETFUL, 0) == 0
    ensures LostLandings([STRETCHED], LIMITS, 1, FORGETFUL, 1) == 1
    ensures Count([MISWRITTEN], Landed) == 0 && Count([MISWRITTEN], Reverted) == 1 && Count([MISWRITTEN], Skipped) == 0
  {
    assert [] + [MISWRITTEN] == [MISWRITTEN];
    CountOneMore([], MISWRITTEN, Landed);
    CountOneMore([], MISWRITTEN, Reverted);
    CountOneMore([], MISWRITTEN, Skipped);
  }

  /** Such a round does not throw; it reports one landing, and the one record it has written says reverted. */
  lemma ALandingCanGoUnrecorded()
    ensures !BreaksAt([STRETCHED], LIMITS, 1, FORGETFUL, 0)
    ensures Recorded([MISWRITTEN], [STRETCHED], LIMITS, 1, FORGETFUL, 1, 1, 1)
    ensures Count([MISWRITTEN], Landed) == 0
  {
    TheLoneDecision();
  }

  /** And there is nothing else it could have written or reported. */
  lemma NothingElseIsRecorded(records: seq<Record>, attempted: int, landed: int)
    requires Recorded(records, [STRETCHED], LIMITS, 1, FORGETFUL, 1, attempted, landed)
    ensures records == [MISWRITTEN] && attempted == landed == 1
  {
    TheLoneDecision();
    assert Faithful(records[0], STRETCHED, Do(Protect), FORGETFUL, 0);
    assert records == [records[0]] && records[0] == MISWRITTEN;
  }
}
