/** Entities, request objects and error kinds shared by the account and
    transfer services of the banking back office. Monetary amounts are exact
    decimals in the service; here they are mathematical integers (minor
    units), so no rounding or scale enters the model. */
module Domain {

  /** Identifiers are non-null Java `Long`s, modelled as unbounded integers. */
  type AccountId = int
  type TransferId = int
  type UserId = int

  /** A creation timestamp. The wall clock is not modelled: the caller
      supplies the instant at which a transfer is recorded. */
  type Date = int

  datatype Option<T> = None | Some(value: T)

  /** The exceptions the services throw. Each carries what distinguishes its
      message: the id that did not resolve, or `None` for the two validation
      failures of a transfer request, which the service reports under the
      misleading kinds "account not found" (a field is missing) and
      "transfer not found" (the amount is not positive). */
  datatype Error =
    | AccountNotFound(missing: Option<AccountId>)
    | TransferNotFound(unknown: Option<TransferId>)
    | InsufficientFunds(short: AccountId)

  datatype Result<T> = Ok(value: T) | Err(error: Error)

  /** A stored account: its balance and the id of the user who owns it. */
  datatype Account = Account(balance: int, owner: UserId)

  /** A stored transfer: a movement of `amount` from `origin` to `target`. */
  datatype Transfer = Transfer(origin: AccountId, target: AccountId, amount: int, date: Date)

  /** A transfer together with the id under which it is stored. */
  datatype Record = Record(id: TransferId, transfer: Transfer)

  /** A transfer request as it arrives; every field may be null. */
  datatype TransferDto = TransferDto(origin: Option<AccountId>, target: Option<AccountId>, amount: Option<int>)

  /** An account update request; `owner` is the id of the owner given, if any. */
  datatype AccountDto = AccountDto(amount: Option<int>, owner: Option<UserId>)

  /** The whole persistent state the two services work on: the account
      store, the transfer store and the next id the transfer store hands out. */
  datatype Bank = Bank(accounts: map<AccountId, Account>, transfers: map<TransferId, Transfer>, nextTransferId: TransferId)

  /** The first id the transfer store hands out. */
  const FirstTransferId: TransferId := 1

  /** Every stored transfer id was handed out earlier by the counter. */
  predicate IdsIssued(b: Bank) {
    && FirstTransferId <= b.nextTransferId
    && forall id :: id in b.transfers ==> FirstTransferId <= id < b.nextTransferId
  }

  /** Every account balance is non-negative. */
  predicate AllSolvent(accounts: map<AccountId, Account>) {
    forall id :: id in accounts ==> accounts[id].balance >= 0
  }

  /** `findById(id).orElseThrow(AccountNotFoundException)` on the account store. */
  function FindAccount(accounts: map<AccountId, Account>, id: AccountId): (r: Result<Account>)
    ensures r.Ok? <==> id in accounts
    ensures r.Ok? ==> r.value == accounts[id]
    ensures r.Err? ==> r.error == AccountNotFound(Some(id))
  {
    if id in accounts then Ok(accounts[id]) else Err(AccountNotFound(Some(id)))
  }
}
