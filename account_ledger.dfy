/**
  The service as a sequential state machine: the four state-changing
  requests applied one after another to the users, accounts and ledger.
  What holds after every sequence of requests: the store stays valid (no
  negative balance, at most ten accounts per user), the ledger only grows,
  an account never changes its id, number or owner, and an UNREGISTERED
  account is never changed again.
 */
module AccountLedger {
  import opened Wrappers
  import opened Domain
  import opened Store
  import opened Accounts
  import opened Transactions
  import AccountNumber

  datatype Request =
    | CreateAccount(userId: UserId, initialBalance: int, now: Timestamp)
    | DeleteAccount(userId: UserId, accountNumber: string, now: Timestamp)
    | UseBalance(userId: UserId, accountNumber: string, amount: int, transactionId: string, now: Timestamp)
    | SaveFailedUseTransaction(accountNumber: string, amount: int, transactionId: string, now: Timestamp)

  /** The request validation in front of the services: an account is opened with at least 100. */
  predicate WellFormed(req: Request) {
    req.CreateAccount? ==> req.initialBalance >= MinInitialBalance
  }

  function Apply(st: State, req: Request): State {
    match req
    case CreateAccount(userId, initialBalance, now) =>
      st.(accounts := CreateAccountOutcome(st.users, st.accounts, userId, initialBalance, now).accounts)
    case DeleteAccount(userId, accountNumber, now) =>
      st.(accounts := DeleteAccountOutcome(st.users, st.accounts, userId, accountNumber, now).accounts)
    case UseBalance(userId, accountNumber, amount, transactionId, now) =>
      var s := UseBalanceOutcome(st.users, st.accounts, st.ledger, userId, accountNumber, amount, transactionId, now);
      st.(accounts := s.accounts, ledger := s.ledger)
    case SaveFailedUseTransaction(accountNumber, amount, transactionId, now) =>
      var s := SaveFailedUseOutcome(st.accounts, st.ledger, accountNumber, amount, transactionId, now);
      st.(accounts := s.accounts, ledger := s.ledger)
  }

  function Run(st: State, reqs: seq<Request>): State
    decreases |reqs|
  {
    if reqs == [] then st else Run(Apply(st, reqs[0]), reqs[1..])
  }

  /** No account, no ledger entry: the state the services start from. */
  lemma InitialStateValid(users: set<UserId>)
    ensures Valid(State(users, [], []))
  {
  }

  lemma ApplyPreservesValid(st: State, req: Request)
    requires Valid(st) && WellFormed(req)
    ensures Valid(Apply(st, req))
  {
    match req
    case CreateAccount(userId, initialBalance, now) =>
      CreateAccountPreservesValid(st.users, st.accounts, userId, initialBalance, now);
    case DeleteAccount(userId, accountNumber, now) =>
      DeleteAccountPreservesValid(st.users, st.accounts, userId, accountNumber, now);
    case UseBalance(userId, accountNumber, amount, transactionId, now) =>
      UseBalancePreservesValid(st.users, st.accounts, st.ledger, userId, accountNumber, amount, transactionId, now);
    case SaveFailedUseTransaction(accountNumber, amount, transactionId, now) =>
      SaveFailedUsePreservesValid(st.users, st.accounts, st.ledger, accountNumber, amount, transactionId, now);
  }

  /**
    Every sequence of well-formed requests keeps the state valid: balances
    stay non-negative, no user owns more than ten accounts, every ledger entry
    is a USE entry with a non-negative snapshot.
   */
  lemma {:induction false} RunPreservesValid(st: State, reqs: seq<Request>)
    requires Valid(st)
    requires forall k :: 0 <= k < |reqs| ==> WellFormed(reqs[k])
    ensures Valid(Run(st, reqs))
    decreases |reqs|
  {
    if reqs != [] {
      ApplyPreservesValid(st, reqs[0]);
      RunPreservesValid(Apply(st, reqs[0]), reqs[1..]);
    }
  }

  /** What one request never undoes. */
  ghost predicate Extends(before: State, after: State) {
    && after.users == before.users
    && |before.accounts| <= |after.accounts|
    && (forall k :: 0 <= k < |before.accounts| ==>
          && after.accounts[k].id == before.accounts[k].id
          && after.accounts[k].accountNumber == before.accounts[k].accountNumber
          && after.accounts[k].ownerId == before.accounts[k].ownerId
          && (before.accounts[k].status == Unregistered ==> after.accounts[k] == before.accounts[k]))
    && before.ledger <= after.ledger
  }

  lemma ApplyExtends(st: State, req: Request)
    ensures Extends(st, Apply(st, req))
  {
    match req
    case CreateAccount(userId, initialBalance, now) =>
      var s := CreateAccountOutcome(st.users, st.accounts, userId, initialBalance, now);
      assert s.accounts == st.accounts || s.accounts[..|st.accounts|] == st.accounts;
    case DeleteAccount(userId, accountNumber, now) =>
    case UseBalance(userId, accountNumber, amount, transactionId, now) =>
      forall k | 0 <= k < |st.accounts| && st.accounts[k].status == Unregistered
        ensures Apply(st, req).accounts[k] == st.accounts[k]
      {
        UseBalanceSparesUnregistered(st.users, st.accounts, st.ledger, userId, accountNumber,
                                     amount, transactionId, now, k);
      }
    case SaveFailedUseTransaction(accountNumber, amount, transactionId, now) =>
  }

  lemma ExtendsTransitive(a: State, b: State, c: State)
    requires Extends(a, b) && Extends(b, c)
    ensures Extends(a, c)
  {
  }

  /**
    Along any sequence of requests the ledger is only appended to, accounts
    are never removed and keep their id, number and owner, and an account
    that is UNREGISTERED stays exactly as it is: it is never used or changed
    again.
   */
  lemma {:induction false} RunExtends(st: State, reqs: seq<Request>)
    ensures Extends(st, Run(st, reqs))
    decreases |reqs|
  {
    if reqs != [] {
      ApplyExtends(st, reqs[0]);
      RunExtends(Apply(st, reqs[0]), reqs[1..]);
      ExtendsTransitive(st, Apply(st, reqs[0]), Run(st, reqs));
    }
  }

  /**
    Opening the first account of the store with 1000 and spending 200 from
    it: the account is numbered "1000000000", is left with 800, and the
    ledger holds one USE/SUCCESS entry of 200 with snapshot 800.
   */
  lemma CreateThenUseScenario(openedAt: Timestamp, usedAt: Timestamp)
    ensures var st := Run(State({1}, [], []),
                          [CreateAccount(1, 1000, openedAt), UseBalance(1, "1000000000", 200, "tx", usedAt)]);
            && |st.accounts| == 1
            && st.accounts[0].accountNumber == "1000000000"
            && st.accounts[0].balance == 800
            && |st.ledger| == 1
            && st.ledger[0].transactionType == Use
            && st.ledger[0].transactionResultType == Success
            && st.ledger[0].amount == 200
            && st.ledger[0].balanceSnapshot == 800
  {
    var s0 := State({1}, [], []);
    var create, use := CreateAccount(1, 1000, openedAt), UseBalance(1, "1000000000", 200, "tx", usedAt);
    var s1 := Apply(s0, create);
    CreateAccountSucceeds(s0.users, s0.accounts, 1, 1000, openedAt);
    AccountNumber.SeedRendering();
    assert s1.accounts == [Account(1, "1000000000", 1, InUse, 1000, openedAt, None)];
    assert FindByAccountNumber(s1.accounts, "1000000000") == Some(0);
    var s2 := Apply(s1, use);
    assert [create, use][1..] == [use];
    assert Run(s0, [create, use]) == Run(s1, [use]) == Run(s2, []) == s2;
  }
}
