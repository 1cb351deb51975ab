/** Results, contract error codes and the integer widths of the contract. */
module Prelude {

  datatype Option<+T> = None | Some(value: T)

  /** The contract error codes a modelled entrypoint can revert with.  `Panic`
      stands for a bare Rust panic (an `assert!` or an `expect`). */
  datatype Error =
    | Unauthorized
    | CreditLineNotFound
    | CreditLineClosed
    | InvalidAmount
    | OverLimit
    | NegativeLimit
    | RateTooHigh
    | ScoreTooHigh
    | UtilizationNotZero
    | Overflow
    | AlreadyInitialized
    | CreditLineSuspended
    | CreditLineDefaulted
    | MissingLiquidityToken
    | InsufficientLiquidityReserve
    | TreasuryNotSet
    | ExposureCapExceeded
    | TimestampRegression
    | CollateralRatioBelowMinimum
    | OraclePriceInvalid
    | InsufficientCollateralBalance
    | BountyNotSet
    | NoPendingTreasuryWithdrawal
    | TreasuryTimelockActive
    | TreasuryProposalExists
    | DrawReversalWindowExpired
    | OriginalDrawNotFound
    | AttestationBatchNotFound
    | OracleQuorumNotMet
    | OracleNotFound
    | LiquidationGraceActive
    | LimitOutOfBounds
    | TokenTransferFailed
    | StaleStateTransition
    | InsufficientTreasuryBalance
    | IndexFull
    | Panic

  /** A reverted call has no effect on storage: it is an `Err`. */
  datatype Result<+T> = Ok(value: T) | Err(error: Error) {
    predicate IsFailure() {
      Err?
    }

    function PropagateFailure<U>(): Result<U>
      requires Err?
    {
      Err(error)
    }

    function Extract(): T
      requires Ok?
    {
      value
    }
  }

  datatype Outcome = Pass | Fail(error: Error) {
    predicate IsFailure() {
      Fail?
    }

    function PropagateFailure<U>(): Result<U>
      requires Fail?
    {
      Err(error)
    }
  }

  function Need(condition: bool, error: Error): Outcome {
    if condition then Pass else Fail(error)
  }

  type Address = nat

  const U32_MAX: int := 0xFFFF_FFFF
  const U64_MAX: int := 0xFFFF_FFFF_FFFF_FFFF
  const U128_MAX: int := 0xFFFF_FFFF_FFFF_FFFF_FFFF_FFFF_FFFF_FFFF
  const I128_MAX: int := 0x7FFF_FFFF_FFFF_FFFF_FFFF_FFFF_FFFF_FFFF

  type u32 = x: int | 0 <= x <= 0xFFFF_FFFF
  type u64 = x: int | 0 <= x <= 0xFFFF_FFFF_FFFF_FFFF
  type u128 = x: int | 0 <= x <= 0xFFFF_FFFF_FFFF_FFFF_FFFF_FFFF_FFFF_FFFF

  type i128 = x: int | -I128_MAX - 1 <= x <= I128_MAX

  predicate InI128(x: int) {
    -I128_MAX - 1 <= x <= I128_MAX
  }

  /** `checked_add` / `checked_sub` / `checked_mul` on `i128`, given the exact result. */
  function CheckedI128(x: int): Result<int> {
    if InI128(x) then Ok(x) else Err(Overflow)
  }

  function Min(a: int, b: int): int {
    if a <= b then a else b
  }

  function Max(a: int, b: int): int {
    if a >= b then a else b
  }

  /** `saturating_add` on `u64`. */
  function SatAdd64(a: u64, b: u64): u64 {
    Min(a + b, U64_MAX)
  }

  /** The cast `x as u128` of an `i128`: two's complement. */
  function AsU128(x: int): int {
    if x >= 0 then x else x + U128_MAX + 1
  }
}
