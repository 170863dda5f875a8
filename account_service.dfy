/**
  The account service: opening an account (at most ten per user, numbered
  in sequence), looking one up by id, and closing one (only its owner, only
  once, only when empty).
 */
module Accounts {
  import opened Wrappers
  import opened Domain
  import opened AccountNumber
  import opened Store
  import opened Repositories

  /** `validateCreateAccount`: a user who already has ten accounts may not open another. */
  function ValidateCreateAccount(accounts: seq<Account>, userId: UserId): Option<ErrorCode> {
    if CountByOwner(accounts, userId) == MaxAccountsPerUser then Some(MaxAccountPerUser10) else None
  }

  /** `validateDeleteAccount`: owner, then status, then balance; the first failing check wins. */
  function ValidateDeleteAccount(userId: UserId, account: Account): Option<ErrorCode> {
    if userId != account.ownerId then Some(UserAccountUnMatch)
    else if account.status == Unregistered then Some(AccountAlreadyUnregistered)
    else if account.balance > 0 then Some(BalanceNotEmpty)
    else None
  }

  /** The account createAccount builds, before the store gives it an id. */
  function NewAccount(userId: UserId, number: string, initialBalance: int, now: Timestamp): Account {
    Account(0, number, userId, InUse, initialBalance, now, None)
  }

  /** What `createAccount` does to the accounts of a store with users `users`. */
  function CreateAccountOutcome(
    users: set<UserId>, accounts: seq<Account>, userId: UserId, initialBalance: int, now: Timestamp
  ): Step<Account> {
    if userId !in users then Step(accounts, Err(AccountException(UserNotFound)))
    else
      match ValidateCreateAccount(accounts, userId)
      case Some(e) => Step(accounts, Err(AccountException(e)))
      case None =>
        match NextAccountNumber(accounts)
        case None => Step(accounts, Err(NumberFormat))
        case Some(number) =>
          var saved := NewAccount(userId, number, initialBalance, now).(id := |accounts| + 1);
          Step(accounts + [saved], Ok(saved))
  }

  /** What `deleteAccount` does to the accounts of a store with users `users`. */
  function DeleteAccountOutcome(
    users: set<UserId>, accounts: seq<Account>, userId: UserId, accountNumber: string, now: Timestamp
  ): Step<Account> {
    if userId !in users then Step(accounts, Err(AccountException(UserNotFound)))
    else
      match FindByAccountNumber(accounts, accountNumber)
      case None => Step(accounts, Err(AccountException(AccountNotFound)))
      case Some(i) =>
        match ValidateDeleteAccount(userId, accounts[i])
        case Some(e) => Step(accounts, Err(AccountException(e)))
        case None =>
          var closed := accounts[i].(status := Unregistered, unRegisteredAt := Some(now));
          Step(accounts[i := closed], Ok(closed))
  }

  // ---------------------------------------------------------------------------
  // createAccount

  /** An unknown user is refused before anything else is looked at, and nothing is saved. */
  lemma CreateAccountChecksUserFirst(
    users: set<UserId>, accounts: seq<Account>, userId: UserId, initialBalance: int, now: Timestamp)
    requires userId !in users
    ensures CreateAccountOutcome(users, accounts, userId, initialBalance, now)
            == Step(accounts, Err(AccountException(UserNotFound)))
  {
  }

  /** A known user with ten accounts is refused with MAX_ACCOUNT_PER_USER_10, and nothing is saved. */
  lemma CreateAccountLimit(
    users: set<UserId>, accounts: seq<Account>, userId: UserId, initialBalance: int, now: Timestamp)
    requires userId in users && CountByOwner(accounts, userId) == MaxAccountsPerUser
    ensures CreateAccountOutcome(users, accounts, userId, initialBalance, now)
            == Step(accounts, Err(AccountException(MaxAccountPerUser10)))
  {
  }

  /**
    On a valid store createAccount succeeds exactly when the user is known and
    owns fewer than ten accounts; it then appends one account, owned by the
    user, IN_USE, holding the initial balance, with the next id and the next
    number of the sequence, and leaves every other account as it was.
   */
  lemma CreateAccountSucceeds(
    users: set<UserId>, accounts: seq<Account>, userId: UserId, initialBalance: int, now: Timestamp)
    requires StoreValid(users, accounts)
    ensures var s := CreateAccountOutcome(users, accounts, userId, initialBalance, now);
            s.result.Ok? <==> userId in users && CountByOwner(accounts, userId) < MaxAccountsPerUser
    ensures var s := CreateAccountOutcome(users, accounts, userId, initialBalance, now);
            s.result.Ok? ==>
              && s.accounts == accounts + [s.result.value]
              && s.result.value
                 == Account(|accounts| + 1, AccountNumberAt(|accounts|), userId, InUse, initialBalance, now, None)
    ensures var s := CreateAccountOutcome(users, accounts, userId, initialBalance, now);
            s.result.Err? ==> s.accounts == accounts
  {
    NextAccountNumberFollows(accounts);
  }

  /** createAccount keeps the store valid: in particular no user ever gets an eleventh account. */
  lemma CreateAccountPreservesValid(
    users: set<UserId>, accounts: seq<Account>, userId: UserId, initialBalance: int, now: Timestamp)
    requires StoreValid(users, accounts) && initialBalance >= MinInitialBalance
    ensures StoreValid(users, CreateAccountOutcome(users, accounts, userId, initialBalance, now).accounts)
  {
    var s := CreateAccountOutcome(users, accounts, userId, initialBalance, now);
    CreateAccountSucceeds(users, accounts, userId, initialBalance, now);
    if s.result.Ok? {
      var a := s.result.value;
      assert s.accounts == accounts + [a];
      forall owner
        ensures CountByOwner(s.accounts, owner) <= MaxAccountsPerUser
      {
        CountByOwnerAppend(accounts, a, owner);
      }
      forall i | 0 <= i < |s.accounts|
        ensures AccountValid(s.accounts[i], i) && s.accounts[i].ownerId in users
      {
        if i < |accounts| {
          assert s.accounts[i] == accounts[i];
        }
      }
    }
  }

  // ---------------------------------------------------------------------------
  // deleteAccount

  /**
    The checks of deleteAccount come in a fixed order (user known, account
    found, owner matches, not yet closed, balance not positive); the first
    that fails names the error, and a failed deleteAccount changes nothing.
   */
  lemma DeleteAccountErrors(
    users: set<UserId>, accounts: seq<Account>, userId: UserId, accountNumber: string, now: Timestamp)
    ensures var s := DeleteAccountOutcome(users, accounts, userId, accountNumber, now);
            var found := FindByAccountNumber(accounts, accountNumber);
            && (userId !in users ==> s.result == Err(AccountException(UserNotFound)))
            && (userId in users && found.None? ==> s.result == Err(AccountException(AccountNotFound)))
            && (userId in users && found.Some? ==>
                  var a := accounts[found.value];
                  && (a.ownerId != userId ==> s.result == Err(AccountException(UserAccountUnMatch)))
                  && (a.ownerId == userId && a.status == Unregistered ==>
                        s.result == Err(AccountException(AccountAlreadyUnregistered)))
                  && (a.ownerId == userId && a.status != Unregistered && a.balance > 0 ==>
                        s.result == Err(AccountException(BalanceNotEmpty)))
                  && (a.ownerId == userId && a.status != Unregistered && a.balance <= 0 <==> s.result.Ok?))
            && (s.result.Err? ==> s.accounts == accounts)
  {
  }

  /**
    A successful deleteAccount closes the account it found: status
    UNREGISTERED, closing time recorded, balance (which is 0 on a valid
    store), owner and number untouched, every other account unchanged.
   */
  lemma DeleteAccountCloses(
    users: set<UserId>, accounts: seq<Account>, userId: UserId, accountNumber: string, now: Timestamp)
    requires StoreValid(users, accounts)
    ensures var s := DeleteAccountOutcome(users, accounts, userId, accountNumber, now);
            s.result.Ok? ==>
              var i := FindByAccountNumber(accounts, accountNumber).value;
              && s.accounts == accounts[i := s.result.value]
              && s.result.value == accounts[i].(status := Unregistered, unRegisteredAt := Some(now))
              && s.result.value.balance == 0
              && s.result.value.ownerId == userId
              && s.result.value.accountNumber == accountNumber
  {
    var s := DeleteAccountOutcome(users, accounts, userId, accountNumber, now);
    if s.result.Ok? {
      var i := FindByAccountNumber(accounts, accountNumber).value;
      assert AccountValid(accounts[i], i);
    }
  }

  /** Closing an account a second time always fails with ACCOUNT_ALREADY_UNREGISTERED. */
  lemma DeleteAccountTwiceFails(
    users: set<UserId>, accounts: seq<Account>, userId: UserId, accountNumber: string,
    now: Timestamp, later: Timestamp)
    requires DeleteAccountOutcome(users, accounts, userId, accountNumber, now).result.Ok?
    ensures var again := DeleteAccountOutcome(
              users, DeleteAccountOutcome(users, accounts, userId, accountNumber, now).accounts,
              userId, accountNumber, later);
            again.result == Err(AccountException(AccountAlreadyUnregistered))
  {
    var i := FindByAccountNumber(accounts, accountNumber).value;
    var s := DeleteAccountOutcome(users, accounts, userId, accountNumber, now);
    FindByAccountNumberUpdate(accounts, i, s.result.value, accountNumber);
  }

  /** deleteAccount keeps the store valid. */
  lemma DeleteAccountPreservesValid(
    users: set<UserId>, accounts: seq<Account>, userId: UserId, accountNumber: string, now: Timestamp)
    requires StoreValid(users, accounts)
    ensures StoreValid(users, DeleteAccountOutcome(users, accounts, userId, accountNumber, now).accounts)
  {
    var s := DeleteAccountOutcome(users, accounts, userId, accountNumber, now);
    if s.result.Ok? {
      var i := FindByAccountNumber(accounts, accountNumber).value;
      assert AccountValid(accounts[i], i);
      forall owner
        ensures CountByOwner(s.accounts, owner) <= MaxAccountsPerUser
      {
        CountByOwnerUpdate(accounts, i, s.result.value, owner);
      }
    }
  }

  /** The account service over the account and user repositories. */
  class AccountService {
    const accountRepository: AccountRepository
    const accountUserRepository: AccountUserRepository

    constructor (accountRepository: AccountRepository, accountUserRepository: AccountUserRepository)
      requires StoreValid(accountUserRepository.users, accountRepository.accounts)
      ensures this.accountRepository == accountRepository
      ensures this.accountUserRepository == accountUserRepository
      ensures Valid()
    {
      this.accountRepository := accountRepository;
      this.accountUserRepository := accountUserRepository;
    }

    ghost predicate Valid()
      reads this, accountRepository, accountUserRepository
    {
      StoreValid(accountUserRepository.users, accountRepository.accounts)
    }

    /** `createAccount`. */
    method CreateAccount(userId: UserId, initialBalance: int, now: Timestamp) returns (r: Result<Account>)
      requires Valid() && initialBalance >= MinInitialBalance
      modifies accountRepository
      ensures Valid()
      ensures Step(accountRepository.accounts, r)
              == CreateAccountOutcome(accountUserRepository.users, old(accountRepository.accounts),
                                      userId, initialBalance, now)
    {
      ghost var users, before := accountUserRepository.users, accountRepository.accounts;
      CreateAccountPreservesValid(users, before, userId, initialBalance, now);
      if userId !in accountUserRepository.users {
        return Err(AccountException(UserNotFound));
      }
      var error := ValidateCreateAccount(accountRepository.accounts, userId);
      if error.Some? {
        return Err(AccountException(error.value));
      }
      var number := NextAccountNumber(accountRepository.accounts);
      if number.None? {
        return Err(NumberFormat);
      }
      var saved := accountRepository.Insert(NewAccount(userId, number.value, initialBalance, now));
      r := Ok(saved);
    }

    /** `getAccount`: the account with the given id; `Optional.get()` fails when there is none. */
    method GetAccount(id: nat) returns (r: Result<Account>)
      ensures r.Ok? ==> r.value.id == id && r.value in accountRepository.accounts
      ensures r.Err? ==> r.failure == NoSuchElement
      ensures r.Err? <==> forall a :: a in accountRepository.accounts ==> a.id != id
    {
      var found := FindById(accountRepository.accounts, id);
      if found.None? {
        return Err(NoSuchElement);
      }
      r := Ok(accountRepository.accounts[found.value]);
    }

    /** `deleteAccount`. */
    method DeleteAccount(userId: UserId, accountNumber: string, now: Timestamp) returns (r: Result<Account>)
      requires Valid()
      modifies accountRepository
      ensures Valid()
      ensures Step(accountRepository.accounts, r)
              == DeleteAccountOutcome(accountUserRepository.users, old(accountRepository.accounts),
                                      userId, accountNumber, now)
    {
      ghost var users, before := accountUserRepository.users, accountRepository.accounts;
      DeleteAccountPreservesValid(users, before, userId, accountNumber, now);
      if userId !in accountUserRepository.users {
        return Err(AccountException(UserNotFound));
      }
      var found := FindByAccountNumber(accountRepository.accounts, accountNumber);
      if found.None? {
        return Err(AccountException(AccountNotFound));
      }
      var account := accountRepository.accounts[found.value];
      var error := ValidateDeleteAccount(userId, account);
      if error.Some? {
        return Err(AccountException(error.value));
      }
      account := account.(status := Unregistered, unRegisteredAt := Some(now));
      FindByIdInValidStore(accountRepository.accounts, found.value);
      accountRepository.Save(account);
      r := Ok(account);
    }
  }
}
