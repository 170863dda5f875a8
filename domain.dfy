/**
  The entities of the account ledger: accounts, ledger entries
  (transactions), the error codes the services raise, and the state the
  services act on (the three repositories taken together).
 */
module Domain {
  import opened Wrappers

  /** Ids of account users (Java `Long`, at least 1 on every request). */
  type UserId = nat

  /** `LocalDateTime.now()` at the moment of an operation, supplied by the caller. */
  type Timestamp = int

  datatype AccountStatus = InUse | Unregistered

  datatype TransactionType = Use | Cancel

  datatype TransactionResultType = Success | Fail

  /** The `ErrorCode` values carried by the `AccountException`s of the core. */
  datatype ErrorCode =
    | UserNotFound
    | AccountNotFound
    | UserAccountUnMatch
    | AccountAlreadyUnregistered
    | AmountExceedBalance
    | MaxAccountPerUser10
    | BalanceNotEmpty

  /**
    Why an operation ended without a result: a business failure
    (`AccountException`), `Optional.get()` on an empty result
    (`NoSuchElementException`) or `Integer.parseInt` on a string that is not
    an `int` (`NumberFormatException`).
   */
  datatype Failure =
    | AccountException(code: ErrorCode)
    | NoSuchElement
    | NumberFormat

  datatype Result<+T> = Ok(value: T) | Err(failure: Failure)

  /** An account row: `accountUser` is kept as the owner's id. */
  datatype Account = Account(
    id: nat,
    accountNumber: string,
    ownerId: UserId,
    status: AccountStatus,
    balance: int,
    registeredAt: Timestamp,
    unRegisteredAt: Option<Timestamp>)
  {
    /** `Account.useBalance(amount)`: the balance less `amount`. */
    function UseBalance(amount: int): Account {
      this.(balance := balance - amount)
    }
  }

  /** A ledger entry; `account` is the account as it was when the entry was written. */
  datatype Transaction = Transaction(
    transactionType: TransactionType,
    transactionResultType: TransactionResultType,
    account: Account,
    amount: int,
    balanceSnapshot: int,
    transactionId: string,
    transactedAt: Timestamp)

  /**
    The content of the three repositories the services use: the known
    users, the accounts in id order and the append-only ledger.
   */
  datatype State = State(users: set<UserId>, accounts: seq<Account>, ledger: seq<Transaction>)

  /** The accounts after an account-service operation, and what the operation returned. */
  datatype Step<+T> = Step(accounts: seq<Account>, result: Result<T>)

  /** The accounts and the ledger after a transaction-service operation, and what it returned. */
  datatype LedgerStep<+T> = LedgerStep(accounts: seq<Account>, ledger: seq<Transaction>, result: Result<T>)

  /** Most accounts (open or closed) one user may own. */
  const MaxAccountsPerUser: nat := 10

  /** Smallest `initialBalance` a create-account request may carry. */
  const MinInitialBalance: int := 100

  /** Length of every account number a use-balance request may name. */
  const AccountNumberLength: nat := 10
}
