/** Balance arithmetic on the account store: a signed change to one account,
    the two sequential changes a transfer makes, and the sum of all
    balances that a transfer conserves. */
module Ledger {
  import opened Domain

  /** `account.setBalance(account.getBalance().add(delta))` followed by a
      save: the account under `id` gets `delta` added, nothing else moves. */
  function Adjust(accounts: map<AccountId, Account>, id: AccountId, delta: int): (r: map<AccountId, Account>)
    requires id in accounts
    ensures r.Keys == accounts.Keys
    ensures r[id].balance == accounts[id].balance + delta && r[id].owner == accounts[id].owner
    ensures forall k :: k in accounts && k != id ==> r[k] == accounts[k]
  {
    accounts[id := accounts[id].(balance := accounts[id].balance + delta)]
  }

  /** Take `delta` from `from`, then give `delta` to `to`, reading the
      second account after the first change has been written. When both ids
      are the same the second change sees the first, so the net effect is
      nothing; otherwise `from` loses and `to` gains exactly `delta`. */
  function Shift(accounts: map<AccountId, Account>, from: AccountId, to: AccountId, delta: int): (r: map<AccountId, Account>)
    requires from in accounts && to in accounts
    ensures r.Keys == accounts.Keys
    ensures from == to ==> r == accounts
    ensures from != to ==> r[from].balance == accounts[from].balance - delta
    ensures from != to ==> r[to].balance == accounts[to].balance + delta
    ensures forall k :: k in accounts ==> r[k].owner == accounts[k].owner
    ensures forall k :: k in accounts && k != from && k != to ==> r[k] == accounts[k]
  {
    Adjust(Adjust(accounts, from, -delta), to, delta)
  }

  /** A store that is not empty holds some account. */
  lemma SomeAccount(accounts: map<AccountId, Account>)
    requires accounts != map[]
    ensures exists id :: id in accounts
  {
    if forall id :: id !in accounts {
      assert false;
    }
  }

  /** The sum of all balances in the store. */
  ghost function Total(accounts: map<AccountId, Account>): int
    decreases accounts.Keys
  {
    if accounts == map[] then 0
    else
      SomeAccount(accounts);
      var k :| k in accounts;
      accounts[k].balance + Total(accounts - {k})
  }

  /** Any account, not only the one `Total` happens to pick, can be split off the sum. */
  lemma {:induction false} TotalRemove(accounts: map<AccountId, Account>, id: AccountId)
    requires id in accounts
    ensures Total(accounts) == accounts[id].balance + Total(accounts - {id})
    decreases accounts.Keys
  {
    var k :| k in accounts && Total(accounts) == accounts[k].balance + Total(accounts - {k});
    if k != id {
      TotalRemove(accounts - {k}, id);
      TotalRemove(accounts - {id}, k);
      assert accounts - {k} - {id} == accounts - {id} - {k};
    }
  }

  /** A signed change to one account changes the sum by exactly that amount. */
  lemma TotalAdjust(accounts: map<AccountId, Account>, id: AccountId, delta: int)
    requires id in accounts
    ensures Total(Adjust(accounts, id, delta)) == Total(accounts) + delta
  {
    var r := Adjust(accounts, id, delta);
    TotalRemove(accounts, id);
    TotalRemove(r, id);
    assert r - {id} == accounts - {id};
  }

  /** Conservation of money: moving funds between two stored accounts,
      possibly the same one, leaves the sum of all balances unchanged. */
  lemma ShiftConserves(accounts: map<AccountId, Account>, from: AccountId, to: AccountId, delta: int)
    requires from in accounts && to in accounts
    ensures Total(Shift(accounts, from, to, delta)) == Total(accounts)
  {
    var debited := Adjust(accounts, from, -delta);
    TotalAdjust(accounts, from, -delta);
    TotalAdjust(debited, to, delta);
    assert Shift(accounts, from, to, delta) == Adjust(debited, to, delta);
  }

  /** Moving funds back along the same pair of accounts undoes a move exactly. */
  lemma ShiftUndo(accounts: map<AccountId, Account>, from: AccountId, to: AccountId, delta: int)
    requires from in accounts && to in accounts
    ensures Shift(Shift(accounts, from, to, delta), from, to, -delta) == accounts
  {
  }
}
