// The record the program keeps for each position.
module Positions {
  import opened Outcomes

  datatype PositionState = AwaitingSwap | Open | Closing | Closed

  datatype Strategy = Strategy(
    targetLtvBps: u16, protectLtvBps: u16, growBelowLtvBps: u16, growEnabled: bool, exitOnFlagEnabled: bool)

  datatype Position = Position(
    owner: nat,
    strategy: Strategy,
    state: PositionState,
    lastProtectAt: i64,
    lastGrowAt: i64,
    protectCount: u64,
    growCount: u64,
    usdcBorrowedTotal: u64,
    usdcRepaidTotal: u64,
    usdcFromSalesTotal: u64,
    usdcOwedAtLeave: u64)
  {
    function RecordBorrow(amount: u64): Checked<Position> {
      var total :- CheckedAdd64(usdcBorrowedTotal, amount);
      Ok(this.(usdcBorrowedTotal := total))
    }

    /** Every repayment also brings down what leave left outstanding. */
    function RecordRepay(amount: u64): Checked<Position> {
      var total :- CheckedAdd64(usdcRepaidTotal, amount);
      Ok(this.(usdcRepaidTotal := total, usdcOwedAtLeave := SaturatingSub(usdcOwedAtLeave, amount)))
    }

    function RecordSale(amount: u64): Checked<Position> {
      var total :- CheckedAdd64(usdcFromSalesTotal, amount);
      Ok(this.(usdcFromSalesTotal := total))
    }
  }

  /** How far along its life a state is. */
  function Rank(state: PositionState): int {
    match state
    case AwaitingSwap => 0
    case Open => 1
    case Closing => 2
    case Closed => 3
  }
}
