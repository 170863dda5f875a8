/**
  The three repositories, as objects whose contents the services change:
  the users (only read by the core), the accounts in id order, and the
  append-only ledger of transactions.
 */
module Repositories {
  import opened Domain
  import opened Store

  class AccountUserRepository {
    var users: set<UserId>

    constructor (users: set<UserId>)
      ensures this.users == users
    {
      this.users := users;
    }
  }

  class AccountRepository {
    /** The accounts, ordered by id. */
    var accounts: seq<Account>

    constructor ()
      ensures accounts == []
    {
      accounts := [];
    }

    /** `save` of a new account: the store gives it the next id and appends it. */
    method Insert(account: Account) returns (saved: Account)
      modifies this
      ensures saved == account.(id := |old(accounts)| + 1)
      ensures accounts == old(accounts) + [saved]
    {
      saved := account.(id := |accounts| + 1);
      accounts := accounts + [saved];
    }

    /** `save` of an account already stored: the row with its id is overwritten. */
    method Save(account: Account)
      requires FindById(accounts, account.id).Some?
      modifies this
      ensures accounts == old(accounts)[FindById(old(accounts), account.id).value := account]
    {
      var i := FindById(accounts, account.id).value;
      accounts := accounts[i := account];
    }
  }

  class TransactionRepository {
    /** The ledger, oldest entry first. */
    var transactions: seq<Transaction>

    constructor ()
      ensures transactions == []
    {
      transactions := [];
    }

    /** `save` of a new ledger entry: it is appended and returned as saved. */
    method Save(transaction: Transaction) returns (saved: Transaction)
      modifies this
      ensures saved == transaction
      ensures transactions == old(transactions) + [transaction]
    {
      saved := transaction;
      transactions := transactions + [transaction];
    }
  }
}
