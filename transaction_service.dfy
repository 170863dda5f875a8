/**
  The transaction service: spending from an account (owner only, open
  accounts only, never beyond the balance), which debits the account and
  records one SUCCESS entry, and recording a failed attempt as a FAIL entry.
 */
module Transactions {
  import opened Wrappers
  import opened Domain
  import opened Store
  import opened TransactionDto
  import opened Repositories

  /** `validateUseBalance`: owner, then status, then balance; the first failing check wins. */
  function ValidateUseBalance(userId: UserId, account: Account, amount: int): Option<ErrorCode> {
    if userId != account.ownerId then Some(UserAccountUnMatch)
    else if account.status != InUse then Some(AccountAlreadyUnregistered)
    else if account.balance < amount then Some(AmountExceedBalance)
    else None
  }

  /**
    The entry `saveAndGetTransaction` writes: always of type USE, with the
    balance of `account` as snapshot.
   */
  function UseEntry(
    resultType: TransactionResultType, account: Account, amount: int, transactionId: string, now: Timestamp
  ): Transaction {
    Transaction(Use, resultType, account, amount, account.balance, transactionId, now)
  }

  /** What `useBalance` does to the accounts and the ledger. */
  function UseBalanceOutcome(
    users: set<UserId>, accounts: seq<Account>, ledger: seq<Transaction>,
    userId: UserId, accountNumber: string, amount: int, transactionId: string, now: Timestamp
  ): LedgerStep<TransactionDto> {
    if userId !in users then LedgerStep(accounts, ledger, Err(AccountException(UserNotFound)))
    else
      match FindByAccountNumber(accounts, accountNumber)
      case None => LedgerStep(accounts, ledger, Err(AccountException(AccountNotFound)))
      case Some(i) =>
        match ValidateUseBalance(userId, accounts[i], amount)
        case Some(e) => LedgerStep(accounts, ledger, Err(AccountException(e)))
        case None =>
          var used := accounts[i].UseBalance(amount);
          var entry := UseEntry(Success, used, amount, transactionId, now);
          LedgerStep(accounts[i := used], ledger + [entry], Ok(FromEntity(entry)))
  }

  /** What `saveFailedUseTransaction` does to the accounts and the ledger. */
  function SaveFailedUseOutcome(
    accounts: seq<Account>, ledger: seq<Transaction>,
    accountNumber: string, amount: int, transactionId: string, now: Timestamp
  ): LedgerStep<()> {
    match FindByAccountNumber(accounts, accountNumber)
    case None => LedgerStep(accounts, ledger, Err(AccountException(AccountNotFound)))
    case Some(i) => LedgerStep(accounts, ledger + [UseEntry(Fail, accounts[i], amount, transactionId, now)], Ok(()))
  }

  // ---------------------------------------------------------------------------
  // useBalance

  /** An unknown user is refused with USER_NOT_FOUND even when the account does not exist either. */
  lemma UseBalanceChecksUserFirst(
    users: set<UserId>, accounts: seq<Account>, ledger: seq<Transaction>,
    userId: UserId, accountNumber: string, amount: int, transactionId: string, now: Timestamp)
    requires userId !in users
    ensures UseBalanceOutcome(users, accounts, ledger, userId, accountNumber, amount, transactionId, now)
            == LedgerStep(accounts, ledger, Err(AccountException(UserNotFound)))
  {
  }

  /**
    The checks of useBalance come in a fixed order (user known, account
    found, owner matches, account IN_USE, balance covers the amount); the
    first that fails names the error. A failed useBalance changes no balance
    and writes nothing to the ledger.
   */
  lemma UseBalanceErrors(
    users: set<UserId>, accounts: seq<Account>, ledger: seq<Transaction>,
    userId: UserId, accountNumber: string, amount: int, transactionId: string, now: Timestamp)
    ensures var s := UseBalanceOutcome(users, accounts, ledger, userId, accountNumber, amount, transactionId, now);
            var found := FindByAccountNumber(accounts, accountNumber);
            && (userId in users && found.None? ==> s.result == Err(AccountException(AccountNotFound)))
            && (userId in users && found.Some? ==>
                  var a := accounts[found.value];
                  && (a.ownerId != userId ==> s.result == Err(AccountException(UserAccountUnMatch)))
                  && (a.ownerId == userId && a.status != InUse ==>
                        s.result == Err(AccountException(AccountAlreadyUnregistered)))
                  && (a.ownerId == userId && a.status == InUse && a.balance < amount ==>
                        s.result == Err(AccountException(AmountExceedBalance)))
                  && (a.ownerId == userId && a.status == InUse && a.balance >= amount <==> s.result.Ok?))
            && (s.result.Err? ==> s.accounts == accounts && s.ledger == ledger)
  {
  }

  /**
    A successful useBalance takes the amount from the account it found and
    from nothing else (owner, status and number stay), and appends exactly
    one entry: USE, SUCCESS, the amount, the new balance as snapshot. What it
    returns is the projection of that entry.
   */
  lemma UseBalanceDebits(
    users: set<UserId>, accounts: seq<Account>, ledger: seq<Transaction>,
    userId: UserId, accountNumber: string, amount: int, transactionId: string, now: Timestamp)
    ensures var s := UseBalanceOutcome(users, accounts, ledger, userId, accountNumber, amount, transactionId, now);
            s.result.Ok? ==>
              var i := FindByAccountNumber(accounts, accountNumber).value;
              var used := s.accounts[i];
              && |s.accounts| == |accounts|
              && (forall j :: 0 <= j < |accounts| && j != i ==> s.accounts[j] == accounts[j])
              && used.balance == accounts[i].balance - amount
              && used == accounts[i].(balance := used.balance)
              && |s.ledger| == |ledger| + 1
              && s.ledger[..|ledger|] == ledger
              && s.ledger[|ledger|]
                 == Transaction(Use, Success, used, amount, used.balance, transactionId, now)
              && s.result.value == FromEntity(s.ledger[|ledger|])
  {
    var s := UseBalanceOutcome(users, accounts, ledger, userId, accountNumber, amount, transactionId, now);
    if s.result.Ok? {
      assert s.ledger[..|ledger|] == ledger;
    }
  }

  /**
    Spending exactly the balance is allowed and leaves 0; spending one more
    than the balance is refused with AMOUNT_EXCEED_BALANCE.
   */
  lemma UseBalanceBoundary(
    users: set<UserId>, accounts: seq<Account>, ledger: seq<Transaction>,
    userId: UserId, accountNumber: string, transactionId: string, now: Timestamp)
    requires userId in users
    requires FindByAccountNumber(accounts, accountNumber).Some?
    requires var a := accounts[FindByAccountNumber(accounts, accountNumber).value];
             a.ownerId == userId && a.status == InUse
    ensures var i := FindByAccountNumber(accounts, accountNumber).value;
            var s := UseBalanceOutcome(users, accounts, ledger, userId, accountNumber,
                                       accounts[i].balance, transactionId, now);
            s.result.Ok? && s.accounts[i].balance == 0 && s.result.value.balanceSnapshot == 0
    ensures var i := FindByAccountNumber(accounts, accountNumber).value;
            var s := UseBalanceOutcome(users, accounts, ledger, userId, accountNumber,
                                       accounts[i].balance + 1, transactionId, now);
            s.result == Err(AccountException(AmountExceedBalance))
  {
  }

  /**
    An UNREGISTERED account is never spent from: whatever the request,
    useBalance leaves it exactly as it was.
   */
  lemma UseBalanceSparesUnregistered(
    users: set<UserId>, accounts: seq<Account>, ledger: seq<Transaction>,
    userId: UserId, accountNumber: string, amount: int, transactionId: string, now: Timestamp, k: nat)
    requires k < |accounts| && accounts[k].status == Unregistered
    ensures var s := UseBalanceOutcome(users, accounts, ledger, userId, accountNumber, amount, transactionId, now);
            |s.accounts| == |accounts| && s.accounts[k] == accounts[k]
  {
  }

  /** useBalance keeps the store and the ledger valid: in particular no balance becomes negative. */
  lemma UseBalancePreservesValid(
    users: set<UserId>, accounts: seq<Account>, ledger: seq<Transaction>,
    userId: UserId, accountNumber: string, amount: int, transactionId: string, now: Timestamp)
    requires Valid(State(users, accounts, ledger))
    ensures var s := UseBalanceOutcome(users, accounts, ledger, userId, accountNumber, amount, transactionId, now);
            Valid(State(users, s.accounts, s.ledger))
  {
    var s := UseBalanceOutcome(users, accounts, ledger, userId, accountNumber, amount, transactionId, now);
    if s.result.Ok? {
      var i := FindByAccountNumber(accounts, accountNumber).value;
      assert AccountValid(accounts[i], i);
      forall owner
        ensures CountByOwner(s.accounts, owner) <= MaxAccountsPerUser
      {
        CountByOwnerUpdate(accounts, i, s.accounts[i], owner);
      }
    }
  }

  // ---------------------------------------------------------------------------
  // saveFailedUseTransaction

  /**
    saveFailedUseTransaction only needs the account to exist (else
    ACCOUNT_NOT_FOUND and nothing is written); it never changes a balance
    and appends one USE/FAIL entry with the requested amount and the
    current balance as snapshot.
   */
  lemma SaveFailedUseRecords(
    accounts: seq<Account>, ledger: seq<Transaction>,
    accountNumber: string, amount: int, transactionId: string, now: Timestamp)
    ensures var s := SaveFailedUseOutcome(accounts, ledger, accountNumber, amount, transactionId, now);
            && s.accounts == accounts
            && (s.result.Err? <==> FindByAccountNumber(accounts, accountNumber).None?)
            && (s.result.Err? ==> s.result.failure == AccountException(AccountNotFound) && s.ledger == ledger)
            && (s.result.Ok? ==>
                  var a := accounts[FindByAccountNumber(accounts, accountNumber).value];
                  && |s.ledger| == |ledger| + 1
                  && s.ledger[..|ledger|] == ledger
                  && s.ledger[|ledger|] == Transaction(Use, Fail, a, amount, a.balance, transactionId, now)
                  && a.accountNumber == accountNumber)
  {
    var s := SaveFailedUseOutcome(accounts, ledger, accountNumber, amount, transactionId, now);
    if s.result.Ok? {
      assert s.ledger[..|ledger|] == ledger;
    }
  }

  /** saveFailedUseTransaction keeps the ledger valid. */
  lemma SaveFailedUsePreservesValid(
    users: set<UserId>, accounts: seq<Account>, ledger: seq<Transaction>,
    accountNumber: string, amount: int, transactionId: string, now: Timestamp)
    requires Valid(State(users, accounts, ledger))
    ensures var s := SaveFailedUseOutcome(accounts, ledger, accountNumber, amount, transactionId, now);
            Valid(State(users, s.accounts, s.ledger))
  {
    var s := SaveFailedUseOutcome(accounts, ledger, accountNumber, amount, transactionId, now);
    if s.result.Ok? {
      var i := FindByAccountNumber(accounts, accountNumber).value;
      assert AccountValid(accounts[i], i);
    }
  }

  /** The transaction service over the three repositories. */
  class TransactionService {
    const transactionRepository: TransactionRepository
    const accountRepository: AccountRepository
    const accountUserRepository: AccountUserRepository

    constructor (
      transactionRepository: TransactionRepository,
      accountRepository: AccountRepository,
      accountUserRepository: AccountUserRepository)
      requires Valid(Domain.State(accountUserRepository.users, accountRepository.accounts,
                                  transactionRepository.transactions))
      ensures this.transactionRepository == transactionRepository
      ensures this.accountRepository == accountRepository
      ensures this.accountUserRepository == accountUserRepository
      ensures Valid(State())
    {
      this.transactionRepository := transactionRepository;
      this.accountRepository := accountRepository;
      this.accountUserRepository := accountUserRepository;
    }

    ghost function State(): Domain.State
      reads this, transactionRepository, accountRepository, accountUserRepository
    {
      Domain.State(accountUserRepository.users, accountRepository.accounts, transactionRepository.transactions)
    }

    /** `useBalance`. */
    method UseBalance(userId: UserId, accountNumber: string, amount: int, transactionId: string, now: Timestamp)
      returns (r: Result<TransactionDto>)
      requires Valid(State())
      modifies accountRepository, transactionRepository
      ensures Valid(State())
      ensures LedgerStep(accountRepository.accounts, transactionRepository.transactions, r)
              == UseBalanceOutcome(accountUserRepository.users, old(accountRepository.accounts),
                                   old(transactionRepository.transactions),
                                   userId, accountNumber, amount, transactionId, now)
    {
      UseBalancePreservesValid(accountUserRepository.users, accountRepository.accounts,
                               transactionRepository.transactions,
                               userId, accountNumber, amount, transactionId, now);
      if userId !in accountUserRepository.users {
        return Err(AccountException(UserNotFound));
      }
      var found := FindByAccountNumber(accountRepository.accounts, accountNumber);
      if found.None? {
        return Err(AccountException(AccountNotFound));
      }
      var account := accountRepository.accounts[found.value];
      var error := ValidateUseBalance(userId, account, amount);
      if error.Some? {
        return Err(AccountException(error.value));
      }
      account := account.UseBalance(amount);
      FindByIdInValidStore(accountRepository.accounts, found.value);
      accountRepository.Save(account);
      var saved := SaveAndGetTransaction(Success, account, amount, transactionId, now);
      r := Ok(FromEntity(saved));
    }

    /** `saveFailedUseTransaction`. */
    method SaveFailedUseTransaction(accountNumber: string, amount: int, transactionId: string, now: Timestamp)
      returns (r: Result<()>)
      requires Valid(State())
      modifies transactionRepository
      ensures Valid(State())
      ensures LedgerStep(accountRepository.accounts, transactionRepository.transactions, r)
              == SaveFailedUseOutcome(accountRepository.accounts, old(transactionRepository.transactions),
                                      accountNumber, amount, transactionId, now)
    {
      SaveFailedUsePreservesValid(accountUserRepository.users, accountRepository.accounts,
                                  transactionRepository.transactions,
                                  accountNumber, amount, transactionId, now);
      var found := FindByAccountNumber(accountRepository.accounts, accountNumber);
      if found.None? {
        return Err(AccountException(AccountNotFound));
      }
      var _ := SaveAndGetTransaction(Fail, accountRepository.accounts[found.value], amount, transactionId, now);
      r := Ok(());
    }

    /** `saveAndGetTransaction`: writes one USE entry for `account` and returns it as saved. */
    method SaveAndGetTransaction(
      resultType: TransactionResultType, account: Account, amount: int, transactionId: string, now: Timestamp)
      returns (saved: Transaction)
      modifies transactionRepository
      ensures saved == UseEntry(resultType, account, amount, transactionId, now)
      ensures saved.transactionType == Use && saved.balanceSnapshot == account.balance
      ensures transactionRepository.transactions == old(transactionRepository.transactions) + [saved]
    {
      saved := transactionRepository.Save(UseEntry(resultType, account, amount, transactionId, now));
    }
  }
}
