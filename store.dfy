/** The persistence context both services write through: the account store,
    the transfer store and the transfer store's id generator. Each service
    call reads and rewrites these fields as one atomic step. */
module Persistence {
  import opened Domain

  class Store {
    var accounts: map<AccountId, Account>
    var transfers: map<TransferId, Transfer>
    var nextTransferId: TransferId

    /** Stored transfer ids were all handed out by the generator. */
    ghost predicate Valid()
      reads this
    {
      IdsIssued(State())
    }

    /** The store's contents as a value. */
    function State(): Bank
      reads this
    {
      Bank(accounts, transfers, nextTransferId)
    }

    /** A store holding the given accounts and no transfers yet. */
    constructor (accounts: map<AccountId, Account>)
      ensures Valid()
      ensures State() == Bank(accounts, map[], FirstTransferId)
    {
      this.accounts := accounts;
      this.transfers := map[];
      this.nextTransferId := FirstTransferId;
    }
  }
}
