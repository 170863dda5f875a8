/**
  The repository queries the services use (find by account number, find
  by id, count by owner) and the invariant every reachable store keeps.
 */
module Store {
  import opened Wrappers
  import opened Domain
  import opened AccountNumber

  /** `findByAccountNumber`: the position of the first account carrying `number`. */
  function FindByAccountNumber(accounts: seq<Account>, number: string): (r: Option<nat>)
    ensures r.Some? ==> r.value < |accounts| && accounts[r.value].accountNumber == number
    ensures r.Some? ==> forall j :: 0 <= j < r.value ==> accounts[j].accountNumber != number
    ensures r.None? <==> forall j :: 0 <= j < |accounts| ==> accounts[j].accountNumber != number
  {
    if |accounts| == 0 then None
    else if accounts[0].accountNumber == number then Some(0)
    else
      match FindByAccountNumber(accounts[1..], number)
      case None => None
      case Some(k) => Some(k + 1)
  }

  /** `findById`: the position of the first account with id `id`. */
  function FindById(accounts: seq<Account>, id: nat): (r: Option<nat>)
    ensures r.Some? ==> r.value < |accounts| && accounts[r.value].id == id
    ensures r.Some? ==> forall j :: 0 <= j < r.value ==> accounts[j].id != id
    ensures r.None? <==> forall j :: 0 <= j < |accounts| ==> accounts[j].id != id
  {
    if |accounts| == 0 then None
    else if accounts[0].id == id then Some(0)
    else
      match FindById(accounts[1..], id)
      case None => None
      case Some(k) => Some(k + 1)
  }

  /** `countByAccountUser`: how many accounts, open or closed, `owner` has. */
  function CountByOwner(accounts: seq<Account>, owner: UserId): (c: nat)
    ensures c <= |accounts|
  {
    if |accounts| == 0 then 0
    else
      CountByOwner(accounts[..|accounts| - 1], owner)
        + (if accounts[|accounts| - 1].ownerId == owner then 1 else 0)
  }

  /** Replacing an account by one with the same owner keeps every owner's count. */
  lemma {:induction false} CountByOwnerUpdate(accounts: seq<Account>, i: nat, a: Account, owner: UserId)
    requires i < |accounts| && accounts[i].ownerId == a.ownerId
    ensures CountByOwner(accounts[i := a], owner) == CountByOwner(accounts, owner)
  {
    var n := |accounts|;
    var updated := accounts[i := a];
    if i == n - 1 {
      assert updated[..n - 1] == accounts[..n - 1];
    } else {
      assert updated[..n - 1] == accounts[..n - 1][i := a];
      CountByOwnerUpdate(accounts[..n - 1], i, a, owner);
    }
  }

  /** Appending an account raises its owner's count by one and no one else's. */
  lemma CountByOwnerAppend(accounts: seq<Account>, a: Account, owner: UserId)
    ensures CountByOwner(accounts + [a], owner)
            == CountByOwner(accounts, owner) + (if a.ownerId == owner then 1 else 0)
  {
    assert (accounts + [a])[..|accounts|] == accounts;
  }

  /** The `i`-th account (in id order) as createAccount and deleteAccount leave it. */
  predicate AccountValid(a: Account, i: nat) {
    && a.id == i + 1
    && a.accountNumber == AccountNumberAt(i)
    && a.balance >= 0
    && (a.status == Unregistered <==> a.unRegisteredAt.Some?)
  }

  /**
    What holds of every store the services can produce: ids and numbers
    follow creation order, no balance is negative, a closed account records
    when it was closed, and no user owns more than ten accounts.
   */
  ghost predicate AccountsValid(accounts: seq<Account>) {
    && (forall i :: 0 <= i < |accounts| ==> AccountValid(accounts[i], i))
    && (forall owner :: CountByOwner(accounts, owner) <= MaxAccountsPerUser)
  }

  /** Every ledger entry the core writes is a USE entry with a non-negative snapshot. */
  predicate LedgerValid(ledger: seq<Transaction>) {
    forall k :: 0 <= k < |ledger| ==> ledger[k].transactionType == Use && ledger[k].balanceSnapshot >= 0
  }

  /** A valid store all of whose accounts belong to known users. */
  ghost predicate StoreValid(users: set<UserId>, accounts: seq<Account>) {
    && AccountsValid(accounts)
    && (forall i :: 0 <= i < |accounts| ==> accounts[i].ownerId in users)
  }

  ghost predicate Valid(st: State) {
    StoreValid(st.users, st.accounts) && LedgerValid(st.ledger)
  }

  /**
    When ids follow creation order (as in every valid store), the account at
    position `i` is the one `findById` returns for its id.
   */
  lemma FindByIdInValidStore(accounts: seq<Account>, i: nat)
    requires forall k :: 0 <= k < |accounts| ==> accounts[k].id == k + 1
    requires i < |accounts|
    ensures FindById(accounts, accounts[i].id) == Some(i)
  {
    var r := FindById(accounts, accounts[i].id);
    assert r.Some?;
  }

  /** A valid store with fewer than 2^32 accounts never holds two accounts with one number. */
  lemma AccountNumbersUnique(accounts: seq<Account>, i: nat, j: nat)
    requires AccountsValid(accounts) && |accounts| <= JavaInt.TwoTo32
    requires i < j < |accounts|
    ensures accounts[i].accountNumber != accounts[j].accountNumber
  {
    assert AccountValid(accounts[i], i) && AccountValid(accounts[j], j);
    AccountNumbersDistinct(i, j);
  }

  /**
    Changing anything but the number of the account at position `i` does not
    change which account `findByAccountNumber` returns.
   */
  lemma {:induction false} FindByAccountNumberUpdate(accounts: seq<Account>, i: nat, a: Account, number: string)
    requires i < |accounts| && accounts[i].accountNumber == a.accountNumber
    ensures FindByAccountNumber(accounts[i := a], number) == FindByAccountNumber(accounts, number)
  {
    if i > 0 {
      assert accounts[i := a][1..] == accounts[1..][i - 1 := a];
      FindByAccountNumberUpdate(accounts[1..], i - 1, a, number);
    }
  }
}
