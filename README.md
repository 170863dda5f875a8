# Account ledger: a Dafny model of the account and transaction services

This project models the core of an account-management service: user-owned
monetary accounts with a ten-digit account number, and an append-only ledger
of balance transactions.

- **Account service.** `createAccount` opens an account. An unknown user is
  refused. A user may own at most ten accounts. Numbers are allocated in
  sequence from "1000000000" with Java `int` arithmetic.
- **`getAccount`** looks an account up by id.
- **`deleteAccount`** closes an account. Its checks run in a fixed order:
  user known, account found, owner matches, not already closed, balance not
  positive.
- **Transaction service.** `useBalance` checks user, account, owner, status
  and balance, in that order. It then debits the account and writes exactly
  one USE/SUCCESS ledger entry whose snapshot is the new balance.
- **`saveFailedUseTransaction`** writes a USE/FAIL entry and changes no
  balance.
- **`TransactionDTO.fromEntity`** projects a ledger entry onto the value the
  service returns.

Layout, one module per file:

- `java_int.dfy` (`JavaInt`): Java `int` wrap-around, `Integer.parseInt`,
  `n + ""`, and their round trip.
- `domain.dfy` (`Domain`): entities, error codes, failures, states.
- `account_number.dfy` (`AccountNumber`): the number allocation scheme.
- `store.dfy` (`Store`): the repository queries and the store invariant.
- `transaction_dto.dfy` (`TransactionDto`): the DTO and `FromEntity`.
- `repositories.dfy` (`Repositories`): the repositories as classes with
  mutable contents.
- `account_service.dfy` (`Accounts`) and `transaction_service.dfy`
  (`Transactions`): validation functions, one specification function per
  operation, lemmas about them, and the service classes.
- `account_ledger.dfy` (`AccountLedger`): the services as a state machine
  over any sequence of requests.

Each state-changing service method is proved equal to its specification
function applied to the old repository contents. The properties are proved
as lemmas about those functions.

The clock (`LocalDateTime.now()`) and the transaction id (a random UUID
with its dashes removed) are parameters of the operations.

## Model

| member | source | states |
|---|---|---|
| `JavaInt.Wrap32` | src/main/java/com/example/accountmanagement/service/AccountService.java:33 | the `+ 1` on an `int` yields a value in the `int` range and is exact inside it |
| `JavaInt.WrapSucc` | src/main/java/com/example/accountmanagement/service/AccountService.java:33 | wrapping after each increment equals wrapping the exact sum once |
| `JavaInt.WrapInjectiveOnWindow` | src/main/java/com/example/accountmanagement/service/AccountService.java:33 | exact values less than 2^32 apart never wrap to the same `int` |
| `JavaInt.ParseInt` | src/main/java/com/example/accountmanagement/service/AccountService.java:33 | `Integer.parseInt` only yields values inside the `int` range; anything else is a NumberFormatException |
| `JavaInt.DigitsValueOfFormat` | src/main/java/com/example/accountmanagement/service/AccountService.java:33 | reading back the decimal digits of `n` gives `n` |
| `JavaInt.ParseFormatRoundTrip` | src/main/java/com/example/accountmanagement/service/AccountService.java:33 | `Integer.parseInt(x + "")` is `x` for every `int` `x`, negative ones included |
| `JavaInt.FormatIntInjective` | src/main/java/com/example/accountmanagement/service/AccountService.java:33 | different `int`s render as different strings |
| `JavaInt.FormatNatLength` | src/main/java/com/example/accountmanagement/service/AccountService.java:33 | a number with `k` significant digits renders with exactly `k` characters |
| `AccountNumber.SeedRendering` | src/main/java/com/example/accountmanagement/service/AccountService.java:34 | the seed "1000000000" is the rendering of 1000000000, so the empty store fits the numbering scheme |
| `AccountNumber.NextAccountNumberIncrements` | src/main/java/com/example/accountmanagement/service/AccountService.java:32-34 | while the last number is below 2^31-1, the next number parses to the last one plus one |
| `AccountNumber.NextAccountNumberFollows` | src/main/java/com/example/accountmanagement/service/AccountService.java:32-34 | on a store numbered by the scheme, the allocated number is the next number of the scheme |
| `AccountNumber.AccountNumberTenDigits` | src/main/java/com/example/accountmanagement/service/AccountService.java:32-34 | numbers up to 2147483647 (the first 1,147,483,648 accounts) are ten decimal digits |
| `AccountNumber.AccountNumberWrapsAfterIntMax` | src/main/java/com/example/accountmanagement/service/AccountService.java:33 | the account after "2147483647" is numbered "-2147483648", eleven characters |
| `AccountNumber.AccountNumbersDistinct` | src/main/java/com/example/accountmanagement/service/AccountService.java:32-34 | fewer than 2^32 accounts never share a number |
| `Store.FindByAccountNumber` | src/main/java/com/example/accountmanagement/service/TransactionService.java:42-43 | finds the first account with the number, and finds nothing exactly when no account has it |
| `Store.FindById` | src/main/java/com/example/accountmanagement/service/AccountService.java:55 | finds the first account with the id, and finds nothing exactly when no account has it |
| `Store.CountByOwner` | src/main/java/com/example/accountmanagement/repository/AccountRepository.java:12 | the number of accounts, open or closed, of one owner; never more than the store holds |
| `Store.CountByOwnerUpdate` | src/main/java/com/example/accountmanagement/repository/AccountRepository.java:12 | overwriting an account without changing its owner keeps every owner's count |
| `Store.CountByOwnerAppend` | src/main/java/com/example/accountmanagement/repository/AccountRepository.java:12 | appending an account adds one to its owner's count and nothing to anyone else's |
| `Store.FindByIdInValidStore` | src/main/java/com/example/accountmanagement/service/AccountService.java:71 | when ids follow creation order, as in every valid store, saving an account by id overwrites the very row it was read from |
| `Store.AccountNumbersUnique` | src/main/java/com/example/accountmanagement/service/AccountService.java:32-34 | a valid store of fewer than 2^32 accounts holds no two accounts with one number |
| `Store.FindByAccountNumberUpdate` | src/main/java/com/example/accountmanagement/service/AccountService.java:63-64 | changing anything but an account's number does not change what the lookup by number finds |
| `TransactionDto.FromEntityInjective` | src/main/java/com/example/accountmanagement/dto/TransactionDTO.java:26-36 | the projection takes the account number from the entry's account and copies type, result, amount, snapshot, id and time unchanged, so equal projections mean equal entries apart from the account's other fields |
| `Repositories.AccountRepository.Insert` | src/main/java/com/example/accountmanagement/service/AccountService.java:37-43 | saving a new account gives it the next id and appends it |
| `Repositories.AccountRepository.Save` | src/main/java/com/example/accountmanagement/service/AccountService.java:71 | saving a stored account overwrites the row with its id and nothing else |
| `Repositories.TransactionRepository.Save` | src/main/java/com/example/accountmanagement/service/TransactionService.java:73 | saving an entry appends it to the ledger and returns it |
| `Accounts.CreateAccountChecksUserFirst` | src/main/java/com/example/accountmanagement/service/AccountService.java:27-30 | an unknown user gets USER_NOT_FOUND before any other check, and nothing is saved |
| `Accounts.CreateAccountLimit` | src/main/java/com/example/accountmanagement/service/AccountService.java:47-50 | a user with ten accounts gets MAX_ACCOUNT_PER_USER_10 and the store is unchanged |
| `Accounts.CreateAccountSucceeds` | src/main/java/com/example/accountmanagement/service/AccountService.java:26-45 | on a valid store, creation succeeds iff the user is known and has fewer than ten accounts. It appends exactly one account: the user's, IN_USE, initial balance, next id, next number of the sequence. A failure leaves the store unchanged |
| `Accounts.CreateAccountPreservesValid` | src/main/java/com/example/accountmanagement/service/AccountService.java:47-50 | creation keeps the store valid: at most ten accounts per user, no negative balance, numbering in sequence |
| `Accounts.DeleteAccountErrors` | src/main/java/com/example/accountmanagement/service/AccountService.java:59-86 | USER_NOT_FOUND, ACCOUNT_NOT_FOUND, USER_ACCOUNT_UN_MATCH, ACCOUNT_ALREADY_UNREGISTERED, BALANCE_NOT_EMPTY in that order, first failure wins, success iff all pass, a failure changes nothing |
| `Accounts.DeleteAccountCloses` | src/main/java/com/example/accountmanagement/service/AccountService.java:68-71 | a successful delete sets UNREGISTERED and the closing time on the account found. Balance (0), owner and number are kept, and the other accounts are unchanged |
| `Accounts.DeleteAccountTwiceFails` | src/main/java/com/example/accountmanagement/service/AccountService.java:80-82 | deleting the same account again always fails with ACCOUNT_ALREADY_UNREGISTERED |
| `Accounts.DeleteAccountPreservesValid` | src/main/java/com/example/accountmanagement/service/AccountService.java:68-71 | deletion keeps the store valid |
| `Accounts.AccountService.CreateAccount` | src/main/java/com/example/accountmanagement/service/AccountService.java:26-45 | the method's new store and result are those of `CreateAccountOutcome`; it keeps the store valid |
| `Accounts.AccountService.GetAccount` | src/main/java/com/example/accountmanagement/service/AccountService.java:53-56 | returns an account of the store with the id; fails with NoSuchElement exactly when no account has that id |
| `Accounts.AccountService.DeleteAccount` | src/main/java/com/example/accountmanagement/service/AccountService.java:58-74 | the method's new store and result are those of `DeleteAccountOutcome`; it keeps the store valid |
| `Transactions.UseBalanceChecksUserFirst` | src/main/java/com/example/accountmanagement/service/TransactionService.java:39-43 | an unknown user gets USER_NOT_FOUND even when the account is missing too, and nothing changes |
| `Transactions.UseBalanceErrors` | src/main/java/com/example/accountmanagement/service/TransactionService.java:38-62 | ACCOUNT_NOT_FOUND, USER_ACCOUNT_UN_MATCH, ACCOUNT_ALREADY_UNREGISTERED, AMOUNT_EXCEED_BALANCE in that order, first failure wins, success iff all pass, and a failure changes no balance and writes no entry |
| `Transactions.UseBalanceDebits` | src/main/java/com/example/accountmanagement/service/TransactionService.java:38-50 | on success, only the target's balance changes, by minus the amount. Exactly one entry is appended: USE, SUCCESS, the amount, snapshot = new balance. Old entries are kept, and the result is that entry's projection |
| `Transactions.UseBalanceBoundary` | src/main/java/com/example/accountmanagement/service/TransactionService.java:59-61 | spending exactly the balance succeeds and leaves 0; one more fails with AMOUNT_EXCEED_BALANCE |
| `Transactions.UseBalanceSparesUnregistered` | src/main/java/com/example/accountmanagement/service/TransactionService.java:56-58 | an UNREGISTERED account is left exactly as it was by every useBalance |
| `Transactions.UseBalancePreservesValid` | src/main/java/com/example/accountmanagement/service/TransactionService.java:59-61 | useBalance keeps every balance non-negative and the ledger valid |
| `Transactions.SaveFailedUseRecords` | src/main/java/com/example/accountmanagement/service/TransactionService.java:64-70 | only a missing account fails (ACCOUNT_NOT_FOUND, nothing written). Otherwise one USE/FAIL entry is appended with the amount and the current balance as snapshot. No balance ever changes |
| `Transactions.SaveFailedUsePreservesValid` | src/main/java/com/example/accountmanagement/service/TransactionService.java:64-70 | recording a failed use keeps the ledger valid |
| `Transactions.TransactionService.UseBalance` | src/main/java/com/example/accountmanagement/service/TransactionService.java:37-50 | the method's new accounts, ledger and result are those of `UseBalanceOutcome`; it keeps the state valid |
| `Transactions.TransactionService.SaveFailedUseTransaction` | src/main/java/com/example/accountmanagement/service/TransactionService.java:64-70 | the method's new ledger and result are those of `SaveFailedUseOutcome`; it keeps the state valid |
| `Transactions.TransactionService.SaveAndGetTransaction` | src/main/java/com/example/accountmanagement/service/TransactionService.java:72-84 | appends one entry of type USE, whatever its result, with the account's balance as snapshot, and returns it |
| `AccountLedger.InitialStateValid` | src/main/java/com/example/accountmanagement/service/AccountService.java:32-34 | the empty store and ledger satisfy the invariant |
| `AccountLedger.ApplyPreservesValid` | src/main/java/com/example/accountmanagement/service/TransactionService.java:52-62 | each well-formed request keeps the state valid |
| `AccountLedger.RunPreservesValid` | src/main/java/com/example/accountmanagement/service/AccountService.java:47-50 | after any sequence of well-formed requests, balances are non-negative and no user has more than ten accounts. Every ledger entry is USE with a non-negative snapshot |
| `AccountLedger.ApplyExtends` | src/main/java/com/example/accountmanagement/service/AccountService.java:80-82 | a request never removes an account or changes its id, number or owner. It never changes an UNREGISTERED account and only appends to the ledger |
| `AccountLedger.RunExtends` | src/main/java/com/example/accountmanagement/service/TransactionService.java:56-58 | the same over any sequence of requests: an UNREGISTERED account is never used or changed again |
| `AccountLedger.CreateThenUseScenario` | src/main/java/com/example/accountmanagement/service/TransactionService.java:47-49 | on a store whose first account is numbered "1000000000" (AccountService.java:34) and opened with 1000, spending 200 leaves balance 800 and one USE/SUCCESS entry of 200 with snapshot 800 |

## Left out

- Distributed locking is not modelled. This covers `LockService`'s Redis
  `tryLock(1, 15, SECONDS)` and `LockAopAspect`'s unlock in `finally`. The
  model is sequential, and lock semantics live in a library that is not part
  of this model. As written, `unlock` only looks the lock up and never
  releases it. Errors other than `AccountException` on the lock path are
  swallowed.
- `cancelBalance` and `queryTransaction` are not modelled. The tests call
  them, but `TransactionService.java` does not define them.
- `AccountDTO` is not part of this model. `createAccount` and
  `deleteAccount` return the saved `Account` value instead of its DTO.
- `Account.java` is not part of this model. Its fields are the ones the
  services set. `Account.useBalance(amount)` is modelled as
  `balance - amount`, as the expected snapshot 9800 in
  TransactionServiceTest.java:92 implies.
- `AccountUser` identity: `BaseEntity` is not part of this model. Owner
  checks compare user ids, both in `validateUseBalance`
  (`Objects.equals` on ids) and in `validateDeleteAccount` (`equals`).
- JPA is not modelled:
  - Entities are values in the repositories, not managed objects.
  - A ledger entry keeps a copy of the account as it was when written,
    not a live reference; only its account number is ever read from it.
  - Generated ids are modelled as 1, 2, 3, … in creation order.
  - The dirty-checked update of `account.useBalance` is an explicit save.
  - `@Transactional` rollback is unnecessary: every operation validates
    before it changes anything.
  - Audit timestamps (`createdAt`, `updatedAt`) and the entry's own
    generated id are dropped.
- `transactionRepository.save` returns the entry it was given. The mocked
  test returns a different entry, which is why its DTO shows 9000.
- Java `Long` overflow of balances and amounts is not modelled; they are
  unbounded integers.
- `findByAccountNumber` is called by both services but its declaration is
  not part of this model; it is taken to be a Spring Data derived query
  `Optional<Account> findByAccountNumber(String)`, which would throw on two
  accounts with one number. The model returns the first. Numbers are proved distinct
  for fewer than 2^32 accounts.
- `Integer.parseInt` also accepts non-ASCII Unicode decimal digits. The
  model accepts ASCII digits only. Every number the store can hold is ASCII.
- A `null` status, as in some mocked tests, is not modelled. Status is
  always IN_USE or UNREGISTERED.
- Request validation: only `initialBalance >= 100` (CreateAccount.java:19-20)
  is assumed, because the invariant "no negative balance" needs it. The
  amount bounds and the ten-character number on use-balance requests are
  not assumed; nothing proved depends on them.
- The HTTP controller, response DTOs and the embedded-Redis test
  configuration are out of scope.
- Three checks are narrower than they may look:
  - The per-user limit is checked as `count == 10`, not `count >= 10`.
    The two agree on every reachable store, where the count never
    exceeds 10.
  - Closing refuses only a balance `> 0`. Equivalent to requiring 0,
    because balances are never negative.
  - `saveFailedUseTransaction` checks only that the account exists. It
    does not check the user or the status.
