/** Addresses, error codes, results and the 128-bit integer range shared by every contract. */
module Common {

  datatype Address = Address(id: nat)

  const I128_MIN: int := -0x8000_0000_0000_0000_0000_0000_0000_0000
  const I128_MAX: int := 0x7FFF_FFFF_FFFF_FFFF_FFFF_FFFF_FFFF_FFFF

  predicate I128(x: int) {
    I128_MIN <= x <= I128_MAX
  }

  datatype Option<+T> = None | Some(value: T)

  /** Every way in which an invocation can trap; a trap rolls the whole invocation back. */
  datatype Error =
    // the vault's own codes
    | Unauthorized
    | VaultPaused
    | InvalidAmount
    | SubaccountNotWhitelisted
    | SubaccountAlreadyRegistered
    | AumChangeExceedsLimit
    | MathOverflow
    | MaxSubaccountsReached
    | InvalidAumLimits
    | SubaccountReturnedNothing
    | DeployedAssetsUnderflow
    | NegativeStrategyBalance
    | AumCumulativeChangeExceedsLimit
    | StrategyUnreachable
    | InvalidSubaccountType
    | WalletOverWithdraw
    | WalletTrackerNotZero
    | WalletSeedBelowTracker
    | EmptyBatch
    | DuplicateSubaccountInBatch
    | NoPendingAdmin
    | AdminProposalExpired
    | InvalidAdminProposal
    // the share library's codes
    | VaultInvalidAssetsAmount
    | VaultInvalidSharesAmount
    | VaultExceededMaxDeposit
    | VaultExceededMaxMint
    | VaultExceededMaxWithdraw
    | VaultExceededMaxRedeem
    // the strategy's codes
    | NotVault
    | NotController
    | StrategyInvalidAmount
    | StrategyInsufficientBalance
    | InvalidTarget
    | InvalidController
    | StrategyMathOverflow
    | BalanceDecreasedOnTransfer
    | SettleRateLimitExceeded
    | NoDonationToRecover
    | LocalBalanceAlreadySeeded
    | SeedExceedsActualBalance
    | DeployedTotalAlreadyInitialized
    | DepositShortfall
    // the token and the host
    | TokenNegativeAmount
    | TokenInsufficientBalance
    | InsufficientAllowance
    | MissingAuth
    | MissingContract
    | ClockWentBack

  datatype Result<+T> = Ok(value: T) | Err(error: Error) {
    predicate IsFailure() {
      Err?
    }

    function PropagateFailure<U>(): Result<U>
      requires Err?
    {
      Err(error)
    }

    function Extract(): T
      requires Ok?
    {
      value
    }
  }

  /** A guard: nothing on success, the trap otherwise. */
  function Need(condition: bool, error: Error): Result<()> {
    if condition then Ok(()) else Err(error)
  }

  /** A checked 128-bit operation: the exact integer when it fits, a trap otherwise. */
  function Checked(x: int): Result<int> {
    if I128(x) then Ok(x) else Err(MathOverflow)
  }

  predicate Distinct<T(==)>(xs: seq<T>) {
    forall i, j :: 0 <= i < j < |xs| ==> xs[i] != xs[j]
  }
}
