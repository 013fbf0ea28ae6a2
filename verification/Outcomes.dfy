// Results, the program's error codes and the widths of the integers it computes with.
module Outcomes {
  import opened Arithmetic

  datatype Option<+T> = None | Some(value: T)

  /** Either a value or a failure; both the program's `?` and a TypeScript `throw` become `:-`. */
  datatype Result<+T, +E> = Ok(value: T) | Err(error: E) {
    predicate IsFailure() {
      Err?
    }

    function PropagateFailure<U>(): Result<U, E>
      requires Err?
    {
      Err(error)
    }

    function Extract(): T
      requires Ok?
    {
      value
    }
  }

  /** A check that carries no value: the program's `require!`. */
  datatype Outcome<+E> = Pass | Fail(error: E) {
    predicate IsFailure() {
      Fail?
    }

    function PropagateFailure<U>(): Result<U, E>
      requires Fail?
    {
      Err(error)
    }
  }

  /** What a TypeScript function that throws leaves behind. */
  datatype Thrown = Thrown

  /** The error codes of the program that the modelled code can return. */
  datatype AccrueError =
    | MathOverflow
    | UnknownTokenProgram
    | AccountTooShort
    | NotAKaminoAccount
    | MarketRefused
    | TransferRefused
    | RuntimeViolation
    | OraclePriceIsZero
    | OraclePriceIsStale
    | SlippageAboveCeiling
    | ReserveHasNoBorrowFactor
    | ReserveLeavesNoGuardRoom
    | ProtectLevelTooHigh
    | TargetLevelTooHigh
    | TargetLevelTooLow
    | GrowLevelTooHigh
    | IntervalHasNotElapsed
    | BorrowTooLargeAShareOfLiquidity
    | WrongPositionState
    | NotThePositionOwner
    | GrowsArePaused
    | GrowNotEnabled
    | GrowLevelExceeded
    | GuardLevelNotReached
    | NothingToBorrow
    | NothingToSell
    | NothingToSwap
    | MinimumOutputTooLow
    | LoanToValueAboveTarget
    | ExitOnFlagNotEnabled
    | NoReasonToLeave
    | DestinationNotAllowed
    | CollateralNotAllowed
    | PositionSizeOutOfRange
    | SwapSpentTooMuch
    | SwapReturnedTooLittle
    | SwapRouteTouchesAForbiddenAccount
    | TokenLeftForAForbiddenAddress
    | PositionAccountMissing
    | PositionTokenAccountOwnerChanged
    | PositionTokenAccountHasADelegate
    | PositionTokenAccountHasACloseAuthority
    | PositionLamportsTaken
    | CollateralBalanceMoved
    | ObligationCollateralMoved
    | DebtStillOutstanding
    | TokensStillHeld

  type Checked<T> = Result<T, AccrueError>

  const TWO_TO_THE_64: nat := 0x1_0000_0000_0000_0000
  const TWO_TO_THE_128: nat := 0x1_0000_0000_0000_0000_0000_0000_0000_0000
  const LARGEST_I64: int := 0x7FFF_FFFF_FFFF_FFFF

  type u8 = x: int | 0 <= x < 0x100
  type u16 = x: int | 0 <= x < 0x1_0000
  type u64 = x: int | 0 <= x < TWO_TO_THE_64
  type u128 = x: int | 0 <= x < TWO_TO_THE_128
  type i64 = x: int | -LARGEST_I64 - 1 <= x <= LARGEST_I64

  const BASIS_POINTS: nat := 10_000
  const PERCENT: nat := 100
  // The lending market keeps every value as a fraction scaled by two to the sixtieth.
  const SCALED_FRACTION_ONE: nat := 1_152_921_504_606_846_976

  function Need(condition: bool, error: AccrueError): Outcome<AccrueError> {
    if condition then Pass else Fail(error)
  }

  function CheckedAdd64(a: u64, b: u64): Checked<u64> {
    if a + b < TWO_TO_THE_64 then Ok(a + b) else Err(MathOverflow)
  }

  function CheckedMul(a: u128, b: u128): Checked<u128> {
    if a * b < TWO_TO_THE_128 then MulMono(0, a, b); Ok(a * b) else Err(MathOverflow)
  }

  function CheckedDiv(a: u128, b: u128): Checked<u128> {
    if b == 0 then Err(MathOverflow) else FloorNonNegative(a, b); Ok(a / b)
  }

  function SaturatingSub(a: nat, b: nat): nat {
    if a > b then a - b else 0
  }

  function ToU64(a: u128): Checked<u64> {
    if a < TWO_TO_THE_64 then Ok(a) else Err(MathOverflow)
  }

  function Smaller(a: int, b: int): int {
    if a < b then a else b
  }
}
