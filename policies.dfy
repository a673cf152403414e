/** The two services treat an overdraft differently: a direct withdrawal
    that would overdraw is skipped silently and reports the old balance,
    while a transfer that would overdraw its origin is refused with
    "insufficient funds". Both leave the store as it was. */
module Policies {
  import opened Domain
  import opened Transfers
  import opened Accounts

  lemma OverdraftPolicies(b: Bank, id: AccountId, target: AccountId, amount: int, now: Date)
    requires id in b.accounts && target in b.accounts
    requires 0 < amount && b.accounts[id].balance < amount
    ensures Transaction(b.accounts, -amount, id) == (b.accounts, Ok(b.accounts[id].balance))
    ensures Perform(b, TransferDto(Some(id), Some(target), Some(amount)), now) == (b, Err(InsufficientFunds(id)))
  {
  }

  /** The worked example: an account holding 10 asked to withdraw 25. */
  lemma OverdraftScenario()
    ensures var b := Bank(map[5 := Account(10, 7), 6 := Account(0, 8)], map[], 1);
      && Transaction(b.accounts, -25, 5) == (b.accounts, Ok(10))
      && Perform(b, TransferDto(Some(5), Some(6), Some(25)), 0).1 == Err(InsufficientFunds(5))
  {
  }
}
