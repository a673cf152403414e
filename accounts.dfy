/** The account service: signed changes to one balance (withdraw and
    deposit), the balance/owner update, deletion and lookup.

    `Transaction`, `AccountUpdate` and `AccountDeletion` give the effect of
    one call on the account store; the lemmas state what the calls promise;
    the class `AccountService` performs them on a `Store` and is proved to
    agree with them. */
module Accounts {
  import opened Domain
  import opened Ledger
  import opened Persistence

  /** The effect of `performTransaction(amount, id)`: the signed `amount` is
      applied only when the balance stays non-negative; otherwise nothing
      happens and no error is raised. The balance after the call is returned. */
  function Transaction(accounts: map<AccountId, Account>, amount: int, id: AccountId): (r: (map<AccountId, Account>, Result<int>))
    ensures r.0.Keys == accounts.Keys
    ensures r.1.Err? <==> id !in accounts
    ensures r.1.Ok? ==> r.1.value == r.0[id].balance
  {
    match FindAccount(accounts, id)
    case Err(e) => (accounts, Err(e))
    case Ok(account) =>
      if account.balance + amount >= 0 then (Adjust(accounts, id, amount), Ok(account.balance + amount))
      else (accounts, Ok(account.balance))
  }

  /** The effect of `updateAccount`: a given, strictly positive amount
      becomes the balance; a given owner becomes the owner. */
  function AccountUpdate(accounts: map<AccountId, Account>, id: AccountId, dto: AccountDto): (r: (map<AccountId, Account>, Result<Account>))
    ensures r.0.Keys == accounts.Keys
    ensures r.1.Err? <==> id !in accounts
    ensures r.1.Ok? ==> r.0[id] == r.1.value
  {
    match FindAccount(accounts, id)
    case Err(e) => (accounts, Err(e))
    case Ok(account) =>
      var priced := if dto.amount.Some? && dto.amount.value > 0 then account.(balance := dto.amount.value) else account;
      var owned := if dto.owner.Some? then priced.(owner := dto.owner.value) else priced;
      (accounts[id := owned], Ok(owned))
  }

  /** The effect of `deleteAccount`, and whether anything was deleted. */
  function AccountDeletion(accounts: map<AccountId, Account>, id: AccountId): (r: (map<AccountId, Account>, bool))
    ensures r.1 <==> id in accounts
    ensures r.0.Keys == accounts.Keys - {id}
  {
    if id in accounts then (accounts - {id}, true) else (accounts, false)
  }

  // ---------------------------------------------------------------------
  // What performTransaction promises

  /** An unknown account is the only failure, and it changes nothing. For a
      known one the signed amount is applied exactly when the balance stays
      non-negative, the balance after the call is returned either way, and
      no other account and not the owner changes. */
  lemma TransactionOutcome(accounts: map<AccountId, Account>, amount: int, id: AccountId)
    ensures var (after, r) := Transaction(accounts, amount, id);
      && (r.Err? <==> id !in accounts)
      && (r.Err? ==> after == accounts && r.error == AccountNotFound(Some(id)))
      && after.Keys == accounts.Keys
      && (r.Ok? && accounts[id].balance + amount >= 0 ==> after[id].balance == accounts[id].balance + amount)
      && (r.Ok? && accounts[id].balance + amount < 0 ==> after == accounts)
      && (r.Ok? ==> r.value == after[id].balance && after[id].owner == accounts[id].owner)
      && (forall k :: k in accounts && k != id ==> after[k] == accounts[k])
  {
  }

  /** The balance a transaction leaves behind is never negative when the
      account was solvent, and a solvent store stays solvent. */
  lemma TransactionKeepsSolvent(accounts: map<AccountId, Account>, amount: int, id: AccountId)
    requires AllSolvent(accounts)
    ensures AllSolvent(Transaction(accounts, amount, id).0)
    ensures Transaction(accounts, amount, id).1.Ok? ==> Transaction(accounts, amount, id).1.value >= 0
  {
  }

  /** The sum of all balances changes by the amount when it is applied and
      not at all otherwise. */
  lemma TransactionTotal(accounts: map<AccountId, Account>, amount: int, id: AccountId)
    requires id in accounts
    ensures Total(Transaction(accounts, amount, id).0) ==
      Total(accounts) + (if accounts[id].balance + amount >= 0 then amount else 0)
  {
    if accounts[id].balance + amount >= 0 {
      TotalAdjust(accounts, id, amount);
    }
  }

  /** On a solvent account, a withdrawal that went through is undone by
      depositing the same amount. */
  lemma WithdrawThenDeposit(accounts: map<AccountId, Account>, amount: int, id: AccountId)
    requires id in accounts && accounts[id].balance >= 0 && accounts[id].balance - amount >= 0
    ensures var (mid, r) := Transaction(accounts, -amount, id);
      && r == Ok(accounts[id].balance - amount)
      && Transaction(mid, amount, id) == (accounts, Ok(accounts[id].balance))
  {
    var mid := Adjust(accounts, id, -amount);
    var back := Adjust(mid, id, amount);
    assert forall k :: k in accounts ==> back[k] == accounts[k];
    assert back == accounts;
  }

  /** Solvency is needed: an overdrawn account (the target of a reversed
      transfer can be one) that withdraws a negative amount is not brought
      back by depositing it, since that deposit would overdraw it again and
      is skipped. */
  lemma WithdrawThenDepositOverdrawn()
    ensures var accounts := map[3 := Account(-5, 7)];
      var (mid, r) := Transaction(accounts, 10, 3);
      && r == Ok(5)
      && Transaction(mid, -10, 3) == (mid, Ok(5))
      && mid != accounts
  {
  }

  // ---------------------------------------------------------------------
  // What updateAccount and deleteAccount promise

  /** An unknown account is the only failure, and it changes nothing.
      Otherwise the balance becomes the given amount when that is given and
      strictly positive and stays as it was otherwise; the owner becomes the
      given one if any; the updated account is what is returned and stored,
      and no other account changes. */
  lemma UpdateAccountOutcome(accounts: map<AccountId, Account>, id: AccountId, dto: AccountDto)
    ensures var (after, r) := AccountUpdate(accounts, id, dto);
      && (r.Err? <==> id !in accounts)
      && (r.Err? ==> after == accounts && r.error == AccountNotFound(Some(id)))
      && after.Keys == accounts.Keys
      && (r.Ok? ==> after[id] == r.value)
      && (r.Ok? && dto.amount.Some? && dto.amount.value > 0 ==> after[id].balance == dto.amount.value)
      && (r.Ok? && !(dto.amount.Some? && dto.amount.value > 0) ==> after[id].balance == accounts[id].balance)
      && (r.Ok? && dto.owner.Some? ==> after[id].owner == dto.owner.value)
      && (r.Ok? && dto.owner.None? ==> after[id].owner == accounts[id].owner)
      && (forall k :: k in accounts && k != id ==> after[k] == accounts[k])
  {
  }

  /** An update never makes a balance negative. */
  lemma UpdateAccountKeepsSolvent(accounts: map<AccountId, Account>, id: AccountId, dto: AccountDto)
    requires AllSolvent(accounts)
    ensures AllSolvent(AccountUpdate(accounts, id, dto).0)
  {
  }

  /** Deletion reports "deleted" exactly when the id was stored, removes
      exactly that account, and otherwise changes nothing. */
  lemma DeleteAccountOutcome(accounts: map<AccountId, Account>, id: AccountId)
    ensures var (after, deleted) := AccountDeletion(accounts, id);
      && (deleted <==> id in accounts)
      && after.Keys == accounts.Keys - {id}
      && (forall k :: k in after ==> after[k] == accounts[k])
      && (!deleted ==> after == accounts)
  {
  }

  // ---------------------------------------------------------------------
  // The service, working on the store it shares with the transfer service

  class AccountService {
    const store: Store

    constructor (store: Store)
      ensures this.store == store
    {
      this.store := store;
    }

    /** `getAccountById`: the stored account, or "account not found". */
    method GetAccountById(id: AccountId) returns (r: Result<Account>)
      ensures r == FindAccount(store.accounts, id)
      ensures r.Ok? <==> id in store.accounts
    {
      if id in store.accounts {
        r := Ok(store.accounts[id]);
      } else {
        r := Err(AccountNotFound(Some(id)));
      }
    }

    /** `performTransaction`: apply a signed amount unless it would overdraw. */
    method PerformTransaction(amount: int, id: AccountId) returns (r: Result<int>)
      modifies store
      ensures (store.accounts, r) == Transaction(old(store.accounts), amount, id)
      ensures store.transfers == old(store.transfers) && store.nextTransferId == old(store.nextTransferId)
    {
      var found := GetAccountById(id);
      if found.Err? {
        return Err(found.error);
      }
      var account := found.value;
      if account.balance + amount >= 0 {
        account := account.(balance := account.balance + amount);
        store.accounts := store.accounts[id := account];
      }
      r := Ok(account.balance);
    }

    /** `withdraw`: the negated amount as a transaction, so a negative
        amount deposits. */
    method Withdraw(amount: int, id: AccountId) returns (r: Result<int>)
      modifies store
      ensures (store.accounts, r) == Transaction(old(store.accounts), -amount, id)
      ensures store.transfers == old(store.transfers) && store.nextTransferId == old(store.nextTransferId)
    {
      r := PerformTransaction(-amount, id);
    }

    /** `addAmountToAccount`: the amount as a transaction. */
    method AddAmountToAccount(amount: int, id: AccountId) returns (r: Result<int>)
      modifies store
      ensures (store.accounts, r) == Transaction(old(store.accounts), amount, id)
      ensures store.transfers == old(store.transfers) && store.nextTransferId == old(store.nextTransferId)
    {
      r := PerformTransaction(amount, id);
    }

    /** `updateAccount`: overwrite the balance and owner fields in place. */
    method UpdateAccount(id: AccountId, dto: AccountDto) returns (r: Result<Account>)
      modifies store
      ensures (store.accounts, r) == AccountUpdate(old(store.accounts), id, dto)
      ensures store.transfers == old(store.transfers) && store.nextTransferId == old(store.nextTransferId)
    {
      var found := GetAccountById(id);
      if found.Err? {
        return Err(found.error);
      }
      var account := found.value;
      if dto.amount.Some? && dto.amount.value > 0 {
        account := account.(balance := dto.amount.value);
      }
      if dto.owner.Some? {
        account := account.(owner := dto.owner.value);
      }
      store.accounts := store.accounts[id := account];
      r := Ok(account);
    }

    /** `deleteAccount`: remove the account if it exists and say whether it did. */
    method DeleteAccount(id: AccountId) returns (deleted: bool)
      modifies store
      ensures (store.accounts, deleted) == AccountDeletion(old(store.accounts), id)
      ensures store.transfers == old(store.transfers) && store.nextTransferId == old(store.nextTransferId)
    {
      deleted := id in store.accounts;
      if deleted {
        store.accounts := store.accounts - {id};
      }
    }
  }
}
