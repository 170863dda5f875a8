/**
  Allocation of account numbers: the first account gets "1000000000";
  every later one gets the number of the account with the greatest id,
  parsed as a Java `int`, plus one (with `int` wrap-around), rendered in
  decimal.
 */
module AccountNumber {
  import opened Wrappers
  import opened JavaInt
  import opened Domain

  const SeedAccountNumber: string := "1000000000"
  const SeedValue: int := 1_000_000_000

  /** The number createAccount computes for the next account of the store `accounts` (kept in id order). */
  function NextAccountNumber(accounts: seq<Account>): Option<string> {
    if |accounts| == 0 then Some(SeedAccountNumber)
    else
      match ParseInt(accounts[|accounts| - 1].accountNumber)
      case None => None
      case Some(v) => Some(FormatInt(Wrap32(v + 1)))
  }

  /** The number the `i`-th account ever created (counting from 0) receives. */
  function AccountNumberAt(i: nat): string {
    FormatInt(Wrap32(SeedValue + i))
  }

  lemma SeedRendering()
    ensures FormatInt(SeedValue) == SeedAccountNumber
  {
  }

  /** While the last number is below `Integer.MAX_VALUE`, the next number parses to it plus one. */
  lemma NextAccountNumberIncrements(accounts: seq<Account>, v: int)
    requires |accounts| > 0 && ParseInt(accounts[|accounts| - 1].accountNumber) == Some(v)
    requires v < IntMax
    ensures NextAccountNumber(accounts).Some?
    ensures ParseInt(NextAccountNumber(accounts).value) == Some(v + 1)
  {
    ParseFormatRoundTrip(v + 1);
  }

  /** When the store was numbered by this scheme, the next number is the next one of the scheme. */
  lemma NextAccountNumberFollows(accounts: seq<Account>)
    requires forall i :: 0 <= i < |accounts| ==> accounts[i].accountNumber == AccountNumberAt(i)
    ensures NextAccountNumber(accounts) == Some(AccountNumberAt(|accounts|))
  {
    if |accounts| == 0 {
      SeedRendering();
    } else {
      var n := |accounts|;
      ParseFormatRoundTrip(Wrap32(SeedValue + (n - 1)));
      WrapSucc(SeedValue + (n - 1));
    }
  }

  /**
    The first 1,147,483,648 accounts (up to number 2147483647) get ten-digit
    numbers.
   */
  lemma AccountNumberTenDigits(i: nat)
    requires SeedValue + i <= IntMax
    ensures AllDigits(AccountNumberAt(i)) && |AccountNumberAt(i)| == AccountNumberLength
  {
    assert Pow10(9) == 1_000_000_000;
    assert Pow10(10) == 10_000_000_000;
    FormatNatLength(SeedValue + i, 10);
  }

  /** The account after number 2147483647 gets "-2147483648", eleven characters long. */
  lemma AccountNumberWrapsAfterIntMax()
    ensures AccountNumberAt((IntMax - SeedValue + 1) as nat) == "-" + FormatNat(0x8000_0000)
    ensures |AccountNumberAt((IntMax - SeedValue + 1) as nat)| == AccountNumberLength + 1
  {
    assert Pow10(9) == 1_000_000_000;
    assert Pow10(10) == 10_000_000_000;
    FormatNatLength(0x8000_0000, 10);
  }

  /** Fewer than 2^32 accounts never share a number. */
  lemma AccountNumbersDistinct(i: nat, j: nat)
    requires i < j < TwoTo32
    ensures AccountNumberAt(i) != AccountNumberAt(j)
  {
    WrapInjectiveOnWindow(SeedValue + i, SeedValue + j);
    FormatIntInjective(Wrap32(SeedValue + i), Wrap32(SeedValue + j));
  }
}
