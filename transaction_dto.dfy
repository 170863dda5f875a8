/** The value the transaction service hands back for a ledger entry. */
module TransactionDto {
  import opened Domain

  datatype TransactionDto = TransactionDto(
    accountNumber: string,
    transactionType: TransactionType,
    transactionResultType: TransactionResultType,
    amount: int,
    balanceSnapshot: int,
    transactionId: string,
    transactedAt: Timestamp)

  /** `TransactionDTO.fromEntity`: the entry's fields, with its account reduced to the account number. */
  function FromEntity(t: Transaction): TransactionDto {
    TransactionDto(
      t.account.accountNumber,
      t.transactionType,
      t.transactionResultType,
      t.amount,
      t.balanceSnapshot,
      t.transactionId,
      t.transactedAt)
  }

  /**
    The projection forgets nothing but the account's fields other than its
    number: two entries of accounts with the same number that project to the
    same value agree on every field of their own.
   */
  lemma FromEntityInjective(t1: Transaction, t2: Transaction)
    requires FromEntity(t1) == FromEntity(t2)
    ensures t1.account.accountNumber == t2.account.accountNumber
    ensures t1.(account := t2.account) == t2
  {
  }
}
