/** The account aggregate: account.ts. Every operation returns the new row or the error it throws. */
module Accounts {
  import opened Prelude

  datatype Error =
    | AccountNotFound | AccountNotActive | InvalidStatusTransition
    | CloseRequiresZeroBalance | CloseBlocked
    | InvalidAmount | OverLimit | HoldExceedsBalance | HoldReleaseExceedsHold
    | FixedDepositWithdrawalBlocked | InsufficientAvailableFunds | MinimumBalanceViolation
    | NotAFixedDeposit | FdNotActive | FdMinimumPrincipal | FdInvalidTenure
    | BankingAccessDenied | AggregateLimit | TransferToSelf | CrossUserFixedDeposit
    | BeneficiaryCooling | InvalidUpiVpa | AccountsMissing
    | BillerNotFound | BillerInactive
    | CardNotFound | CardInvalidState | CardMerchantNotConfigured | CardPerTxnLimit | CardLimitExceeded
    | TransferNotFound | DisputeNotFound | DisputeNotAuthorized | DisputeAlreadyDecided | ReversalBlocked
    | InstructionNotFound | InstructionInvalidState | BeneficiaryNotFound

  datatype Status = Active | Frozen | Closed
  datatype AccountType = Savings | Current | FixedDeposit

  type UserId = nat

  datatype Account = Account(
    number: string,
    userId: UserId,
    accountType: AccountType,
    status: Status,
    balance: int,
    hold: int)

  function MinBalance(accountType: AccountType): int {
    match accountType
    case Savings => 50_000
    case Current => 1_000_000
    case FixedDeposit => 0
  }

  function Available(a: Account): int {
    a.balance - a.hold
  }

  function OpenAccount(number: string, userId: UserId, accountType: AccountType): Account {
    Account(number, userId, accountType, Active, 0, 0)
  }

  function Freeze(a: Account): Result<Account, Error> {
    if a.status == Closed then Err(InvalidStatusTransition) else Ok(a.(status := Frozen))
  }

  function Unfreeze(a: Account): Result<Account, Error> {
    if a.status == Closed then Err(InvalidStatusTransition) else Ok(a.(status := Active))
  }

  function ZeroFixedDepositPrincipal(a: Account): Result<Account, Error> {
    if a.status != Active then Err(AccountNotActive)
    else if a.accountType != FixedDeposit then Err(NotAFixedDeposit)
    else Ok(a.(balance := 0))
  }

  function Close(a: Account): Result<Account, Error> {
    if a.balance != 0 then Err(CloseRequiresZeroBalance)
    else if a.hold != 0 then Err(CloseBlocked)
    else Ok(a.(status := Closed))
  }

  function PlaceHold(a: Account, amount: int): Result<Account, Error> {
    if a.status != Active then Err(AccountNotActive)
    else if amount <= 0 then Err(InvalidAmount)
    else if a.hold + amount > a.balance then Err(HoldExceedsBalance)
    else Ok(a.(hold := a.hold + amount))
  }

  function ReleaseHold(a: Account, amount: int): Result<Account, Error> {
    if a.status != Active then Err(AccountNotActive)
    else if amount <= 0 then Err(InvalidAmount)
    else if a.hold < amount then Err(HoldReleaseExceedsHold)
    else Ok(a.(hold := a.hold - amount))
  }

  function Debit(a: Account, amount: int): Result<Account, Error> {
    if a.status != Active then Err(AccountNotActive)
    else if amount <= 0 then Err(InvalidAmount)
    else if a.accountType == FixedDeposit then Err(FixedDepositWithdrawalBlocked)
    else if Available(a) < amount then Err(InsufficientAvailableFunds)
    else if a.balance - amount < MinBalance(a.accountType) then Err(MinimumBalanceViolation)
    else Ok(a.(balance := a.balance - amount))
  }

  function Credit(a: Account, amount: int): Result<Account, Error> {
    if a.status != Active then Err(AccountNotActive)
    else if amount <= 0 then Err(InvalidAmount)
    else Ok(a.(balance := a.balance + amount))
  }

  /** What every account row satisfies: the hold is covered by the balance. */
  predicate Covered(a: Account) {
    0 <= a.hold <= a.balance
  }

  /** What each operation changes, the opposite one restores; and a row that
    * was covered stays covered, above its minimum after a debit. */
  lemma OperationsUndo(a: Account, amount: int)
    ensures Covered(a) && PlaceHold(a, amount).Ok? ==> ReleaseHold(PlaceHold(a, amount).value, amount) == Ok(a)
    ensures Debit(a, amount).Ok? ==> Credit(Debit(a, amount).value, amount) == Ok(a)
    ensures a.status == Active ==>
              Freeze(a).Ok? && Freeze(a).value.status == Frozen && Unfreeze(Freeze(a).value) == Ok(a)
    ensures Covered(a) && PlaceHold(a, amount).Ok? ==> Covered(PlaceHold(a, amount).value)
    ensures Covered(a) && Debit(a, amount).Ok? ==>
              Covered(Debit(a, amount).value) && Debit(a, amount).value.balance >= MinBalance(a.accountType)
    ensures a.status != Active ==>
              PlaceHold(a, amount).Err? && ReleaseHold(a, amount).Err? && Debit(a, amount).Err?
              && Credit(a, amount).Err?
    ensures Close(a).Ok? ==>
              Close(a).value.status == Closed && Freeze(Close(a).value).Err? && Unfreeze(Close(a).value).Err?
  {
  }

  /** Releasing a covered hold and then debiting it can only fail on the
    * status, the account type or the minimum balance: never on the hold and
    * never on the available funds. */
  lemma HeldDebit(a: Account, amount: int)
    requires Covered(a) && 0 < amount <= a.hold
    ensures ReleaseHold(a, amount).Ok? <==> a.status == Active
    ensures a.status == Active ==>
              var debited := Debit(ReleaseHold(a, amount).value, amount);
              && (debited.Ok? ==> Covered(debited.value))
              && (debited.Err? ==>
                    debited.error == if a.accountType == FixedDeposit then FixedDepositWithdrawalBlocked
                                     else MinimumBalanceViolation)
              && (debited.Err? <==> a.accountType == FixedDeposit || a.balance - amount < MinBalance(a.accountType))
  {
  }
}
