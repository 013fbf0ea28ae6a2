// The levels a strategy may name, as the app refuses them and as the program does.
module Strategy {
  import opened Outcomes

  datatype Levels = Levels(targetLtvBps: int, protectLtvBps: int, growBelowLtvBps: int)

  const MIN_GUARD_ROOM_BPS: int := 500

  datatype Refusal = ProtectTooHigh | TargetTooHigh | TargetTooLow | GrowTooHigh | NoGuardRoom

  function WhyTheStrategyIsRefused(strategy: Levels, maxLoanToValueBps: int,
                                   liquidationThresholdBps: int): Option<Refusal> {
    var highestProtect := liquidationThresholdBps - MIN_GUARD_ROOM_BPS;
    if highestProtect < 0 then Some(NoGuardRoom)
    else if strategy.protectLtvBps > highestProtect then Some(ProtectTooHigh)
    else
      var highestTarget := strategy.protectLtvBps - MIN_GUARD_ROOM_BPS;
      if highestTarget < 0 || strategy.targetLtvBps > highestTarget then Some(TargetTooHigh)
      else if strategy.targetLtvBps > maxLoanToValueBps then Some(TargetTooHigh)
      else if strategy.targetLtvBps <= 0 then Some(TargetTooLow)
      else if strategy.growBelowLtvBps >= strategy.targetLtvBps then Some(GrowTooHigh)
      else None
  }

  /** The program's validation of the same levels, in unsigned sixteen bit arithmetic. */
  function ValidateAgainstReserve(targetLtvBps: u16, protectLtvBps: u16, growBelowLtvBps: u16,
                                  maxLoanToValueBps: u16, liquidationThresholdBps: u16): Checked<()> {
    if liquidationThresholdBps < MIN_GUARD_ROOM_BPS then Err(ReserveLeavesNoGuardRoom)
    else
      :- Need(protectLtvBps <= liquidationThresholdBps - MIN_GUARD_ROOM_BPS, ProtectLevelTooHigh);
      :- Need(protectLtvBps >= MIN_GUARD_ROOM_BPS, TargetLevelTooHigh);
      :- Need(targetLtvBps <= protectLtvBps - MIN_GUARD_ROOM_BPS, TargetLevelTooHigh);
      :- Need(targetLtvBps <= maxLoanToValueBps, TargetLevelTooHigh);
      :- Need(targetLtvBps > 0, TargetLevelTooLow);
      :- Need(growBelowLtvBps < targetLtvBps, GrowLevelTooHigh);
      Ok(())
  }

  function ErrorFor(refusal: Refusal): AccrueError {
    match refusal
    case ProtectTooHigh => ProtectLevelTooHigh
    case TargetTooHigh => TargetLevelTooHigh
    case TargetTooLow => TargetLevelTooLow
    case GrowTooHigh => GrowLevelTooHigh
    case NoGuardRoom => ReserveLeavesNoGuardRoom
  }

  /** The app refuses exactly what the program refuses, and for the same reason. */
  lemma RefusalsAgree(strategy: Levels, maxLtv: u16, threshold: u16)
    requires 0 <= strategy.targetLtvBps < 0x1_0000 && 0 <= strategy.protectLtvBps < 0x1_0000
    requires 0 <= strategy.growBelowLtvBps < 0x1_0000
    ensures ValidateAgainstReserve(strategy.targetLtvBps, strategy.protectLtvBps, strategy.growBelowLtvBps, maxLtv,
        threshold)
         == match WhyTheStrategyIsRefused(strategy, maxLtv, threshold)
            case None => Ok(())
            case Some(refusal) => Err(ErrorFor(refusal))
  {
  }

  /** What an accepted strategy is: its levels in order, five hundred basis points of room above each of two of them. */
  lemma AcceptedExactly(strategy: Levels, maxLoanToValueBps: int, liquidationThresholdBps: int)
    ensures WhyTheStrategyIsRefused(strategy, maxLoanToValueBps, liquidationThresholdBps).None? <==>
      && strategy.growBelowLtvBps < strategy.targetLtvBps && 0 < strategy.targetLtvBps <= maxLoanToValueBps
      && strategy.targetLtvBps + 500 <= strategy.protectLtvBps
      && strategy.protectLtvBps + 500 <= liquidationThresholdBps
  {
  }
}
