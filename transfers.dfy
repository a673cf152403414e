/** The transfer service: performing a transfer between two accounts,
    reversing a recorded transfer when it is deleted, rewriting a record,
    and looking records up.

    The functions `Perform`, `Delete` and `Update` give the effect of one
    service call on the whole persistent state; the lemmas after them state
    what these calls promise; the class `TransferService` carries out the
    same calls step by step on a `Store` and is proved to agree with them. */
module Transfers {
  import opened Domain
  import opened Ledger
  import opened Persistence

  /** A request whose origin, target and amount are all given. */
  predicate Complete(dto: TransferDto) {
    dto.origin.Some? && dto.target.Some? && dto.amount.Some?
  }

  /** The request check that precedes every lookup. A missing field is
      reported as "account not found" and a non-positive amount as
      "transfer not found", both without an id. */
  function ValidateTransferDto(dto: TransferDto): (e: Option<Error>)
    ensures e.None? <==> Complete(dto) && dto.amount.value > 0
    ensures e == Some(AccountNotFound(None)) <==> !Complete(dto)
    ensures e == Some(TransferNotFound(None)) <==> Complete(dto) && dto.amount.value <= 0
  {
    if dto.origin.None? || dto.target.None? || dto.amount.None? then Some(AccountNotFound(None))
    else if dto.amount.value <= 0 then Some(TransferNotFound(None))
    else None
  }

  /** The effect of `performTransfer`: validate, resolve the origin, resolve
      the target, check funds, move the amount, then record the transfer
      under the next free id. Every failure leaves the state as it was. */
  function Perform(b: Bank, dto: TransferDto, now: Date): (r: (Bank, Result<Record>))
    ensures r.1.Err? ==> r.0 == b
    ensures r.1.Ok? ==> r.0.accounts.Keys == b.accounts.Keys && r.0.nextTransferId == b.nextTransferId + 1
    ensures r.1.Ok? ==> r.0.transfers == b.transfers[r.1.value.id := r.1.value.transfer] && r.1.value.id == b.nextTransferId
  {
    match ValidateTransferDto(dto)
    case Some(e) => (b, Err(e))
    case None =>
      var o, t, a := dto.origin.value, dto.target.value, dto.amount.value;
      match FindAccount(b.accounts, o)
      case Err(e) => (b, Err(e))
      case Ok(origin) =>
        match FindAccount(b.accounts, t)
        case Err(e) => (b, Err(e))
        case Ok(_) =>
          if origin.balance < a then (b, Err(InsufficientFunds(o)))
          else
            var rec := Record(b.nextTransferId, Transfer(o, t, a, now));
            (Bank(Shift(b.accounts, o, t, a), b.transfers[rec.id := rec.transfer], b.nextTransferId + 1), Ok(rec))
  }

  /** The effect of `deleteTransfer`: resolve the record and both accounts
      it names, give the amount back to the origin, take it from the target
      without any funds check, and drop the record. */
  function Delete(b: Bank, id: TransferId): (r: (Bank, Result<()>))
    ensures r.1.Err? ==> r.0 == b
    ensures r.1.Ok? ==> id in b.transfers && r.0.transfers == b.transfers - {id}
    ensures r.0.accounts.Keys == b.accounts.Keys && r.0.nextTransferId == b.nextTransferId
  {
    if id !in b.transfers then (b, Err(TransferNotFound(Some(id))))
    else
      var tr := b.transfers[id];
      match FindAccount(b.accounts, tr.origin)
      case Err(e) => (b, Err(e))
      case Ok(_) =>
        match FindAccount(b.accounts, tr.target)
        case Err(e) => (b, Err(e))
        case Ok(_) =>
          (b.(accounts := Shift(b.accounts, tr.origin, tr.target, -tr.amount), transfers := b.transfers - {id}), Ok(()))
  }

  /** The effect of `updateTransfer`: the record under `id` is replaced by
      the given fields, keeping its id; balances are not touched. */
  function Update(b: Bank, id: TransferId, updated: Transfer): (r: (Bank, Result<Record>))
    ensures r.1.Err? <==> id !in b.transfers
    ensures r.0.accounts == b.accounts && r.0.nextTransferId == b.nextTransferId
    ensures r.1.Ok? ==> r.0.transfers == b.transfers[id := updated]
  {
    if id !in b.transfers then (b, Err(TransferNotFound(Some(id))))
    else (b.(transfers := b.transfers[id := updated]), Ok(Record(id, updated)))
  }

  // ---------------------------------------------------------------------
  // What performTransfer promises

  /** Whether `Perform` succeeds, and with which error it fails otherwise;
      the checks come in the order `performTransfer` makes them and no failure
      changes anything. */
  lemma PerformOutcome(b: Bank, dto: TransferDto, now: Date)
    ensures var (after, r) := Perform(b, dto, now);
      && (r.Err? ==> after == b)
      && (!Complete(dto) ==> r == Err(AccountNotFound(None)))
      && (Complete(dto) && dto.amount.value <= 0 ==> r == Err(TransferNotFound(None)))
      && (ValidateTransferDto(dto).None? ==>
            var o, t, a := dto.origin.value, dto.target.value, dto.amount.value;
            && (o !in b.accounts ==> r == Err(AccountNotFound(Some(o))))
            && (o in b.accounts && t !in b.accounts ==> r == Err(AccountNotFound(Some(t))))
            && (o in b.accounts && t in b.accounts && b.accounts[o].balance < a ==> r == Err(InsufficientFunds(o)))
            && (r.Ok? <==> o in b.accounts && t in b.accounts && b.accounts[o].balance >= a))
  {
  }

  /** A successful transfer moves exactly the amount from origin to target
      (nothing, for a self-transfer), keeps the origin solvent, leaves every
      other account alone, conserves the sum of balances, and adds exactly one
      record with the request's fields under a fresh id. */
  lemma PerformEffect(b: Bank, dto: TransferDto, now: Date)
    requires IdsIssued(b)
    requires Perform(b, dto, now).1.Ok?
    ensures var (after, r) := Perform(b, dto, now);
      var o, t, a := dto.origin.value, dto.target.value, dto.amount.value;
      && o in b.accounts && t in b.accounts && 0 < a <= b.accounts[o].balance
      && after.accounts.Keys == b.accounts.Keys
      && (o != t ==> after.accounts[o].balance == b.accounts[o].balance - a)
      && (o != t ==> after.accounts[t].balance == b.accounts[t].balance + a)
      && (o == t ==> after.accounts == b.accounts)
      && after.accounts[o].balance >= 0
      && (forall k :: k in b.accounts && k != o && k != t ==> after.accounts[k] == b.accounts[k])
      && Total(after.accounts) == Total(b.accounts)
      && r.value == Record(b.nextTransferId, Transfer(o, t, a, now))
      && r.value.id !in b.transfers
      && after.transfers == b.transfers[r.value.id := r.value.transfer]
      && IdsIssued(after)
  {
    var o, t, a := dto.origin.value, dto.target.value, dto.amount.value;
    ShiftConserves(b.accounts, o, t, a);
  }

  /** If no balance was negative before a transfer, none is after it. */
  lemma PerformKeepsSolvent(b: Bank, dto: TransferDto, now: Date)
    requires AllSolvent(b.accounts)
    ensures AllSolvent(Perform(b, dto, now).0.accounts)
  {
  }

  // ---------------------------------------------------------------------
  // What deleteTransfer promises

  /** Whether `Delete` succeeds, and with which error it fails otherwise;
      no failure changes anything. */
  lemma DeleteOutcome(b: Bank, id: TransferId)
    ensures var (after, r) := Delete(b, id);
      && (r.Err? ==> after == b)
      && (id !in b.transfers ==> r == Err(TransferNotFound(Some(id))))
      && (id in b.transfers ==>
            var tr := b.transfers[id];
            && (tr.origin !in b.accounts ==> r == Err(AccountNotFound(Some(tr.origin))))
            && (tr.origin in b.accounts && tr.target !in b.accounts ==> r == Err(AccountNotFound(Some(tr.target))))
            && (r.Ok? <==> tr.origin in b.accounts && tr.target in b.accounts))
  {
  }

  /** A successful deletion gives the amount back to the origin and takes it
      from the target (nothing, when they are the same account), leaves
      every other account alone, conserves the sum of balances and removes
      exactly that record. */
  lemma DeleteEffect(b: Bank, id: TransferId)
    requires Delete(b, id).1.Ok?
    ensures var after := Delete(b, id).0;
      var tr := b.transfers[id];
      && id in b.transfers && tr.origin in b.accounts && tr.target in b.accounts
      && after.accounts.Keys == b.accounts.Keys
      && (tr.origin != tr.target ==> after.accounts[tr.origin].balance == b.accounts[tr.origin].balance + tr.amount)
      && (tr.origin != tr.target ==> after.accounts[tr.target].balance == b.accounts[tr.target].balance - tr.amount)
      && (tr.origin == tr.target ==> after.accounts == b.accounts)
      && (forall k :: k in b.accounts && k != tr.origin && k != tr.target ==> after.accounts[k] == b.accounts[k])
      && Total(after.accounts) == Total(b.accounts)
      && after.transfers == b.transfers - {id}
      && after.nextTransferId == b.nextTransferId
  {
    var tr := b.transfers[id];
    ShiftConserves(b.accounts, tr.origin, tr.target, -tr.amount);
  }

  /** The reversal does not check funds: deleting a transfer whose target
      has since spent the money leaves the target overdrawn. */
  lemma DeleteMayOverdraw()
    ensures var b := Bank(map[1 := Account(0, 7), 2 := Account(0, 8)], map[1 := Transfer(1, 2, 40, 0)], 2);
      && AllSolvent(b.accounts)
      && Delete(b, 1).1.Ok?
      && Delete(b, 1).0.accounts[2].balance == -40
  {
  }

  // ---------------------------------------------------------------------
  // Performing and then deleting a transfer

  /** Deleting the transfer just performed restores every account and the
      transfer store; only the id generator has moved on. */
  lemma PerformThenDelete(b: Bank, dto: TransferDto, now: Date)
    requires IdsIssued(b)
    requires Perform(b, dto, now).1.Ok?
    ensures var (mid, r) := Perform(b, dto, now);
      Delete(mid, r.value.id) == (Bank(b.accounts, b.transfers, b.nextTransferId + 1), Ok(()))
  {
    var (mid, r) := Perform(b, dto, now);
    var o, t, a := dto.origin.value, dto.target.value, dto.amount.value;
    PerformEffect(b, dto, now);
    ShiftUndo(b.accounts, o, t, a);
    assert mid.transfers - {r.value.id} == b.transfers;
  }

  // ---------------------------------------------------------------------
  // What updateTransfer promises

  /** `Update` fails exactly for an unknown id and then changes nothing;
      otherwise it rewrites only that record, under the same id, and never
      touches a balance or the id generator. */
  lemma UpdateOutcome(b: Bank, id: TransferId, updated: Transfer)
    ensures var (after, r) := Update(b, id, updated);
      && (r.Err? <==> id !in b.transfers)
      && (r.Err? ==> after == b && r.error == TransferNotFound(Some(id)))
      && (r.Ok? ==> r.value == Record(id, updated))
      && after.accounts == b.accounts
      && after.nextTransferId == b.nextTransferId
      && after.transfers.Keys == b.transfers.Keys
      && (r.Ok? ==> after.transfers[id] == updated)
      && (forall k :: k in b.transfers && k != id ==> after.transfers[k] == b.transfers[k])
      && (IdsIssued(b) ==> IdsIssued(after))
  {
  }

  /** Because an update leaves balances alone, editing a transfer's amount
      and then deleting it does not restore the accounts it moved money
      between: the ledger has drifted from the record. */
  lemma UpdateThenDeleteDrifts()
    ensures var b := Bank(map[1 := Account(100, 7), 2 := Account(0, 8)], map[], 1);
      var (mid, r) := Perform(b, TransferDto(Some(1), Some(2), Some(40)), 0);
      var edited := Update(mid, r.value.id, Transfer(1, 2, 10, 0)).0;
      var after := Delete(edited, r.value.id).0;
      && r.Ok?
      && after.accounts[1].balance == 70 && after.accounts[2].balance == 30
  {
  }

  /** The worked example: X holds 100 and Y nothing; X sends 40 to Y, and
      deleting that transfer brings both back and leaves no record. */
  lemma TransferScenario()
    ensures var b := Bank(map[1 := Account(100, 7), 2 := Account(0, 8)], map[], 1);
      var (mid, r) := Perform(b, TransferDto(Some(1), Some(2), Some(40)), 0);
      && r == Ok(Record(1, Transfer(1, 2, 40, 0)))
      && mid.accounts[1].balance == 60 && mid.accounts[2].balance == 40
      && mid.transfers == map[1 := Transfer(1, 2, 40, 0)]
      && Delete(mid, 1) == (Bank(b.accounts, map[], 2), Ok(()))
  {
    var b := Bank(map[1 := Account(100, 7), 2 := Account(0, 8)], map[], 1);
    var dto := TransferDto(Some(1), Some(2), Some(40));
    PerformEffect(b, dto, 0);
    PerformThenDelete(b, dto, 0);
  }

  // ---------------------------------------------------------------------
  // The service, working on a shared store

  class TransferService {
    const store: Store

    constructor (store: Store)
      ensures this.store == store
    {
      this.store := store;
    }

    /** `getTransfers`: every stored record once, in the order the ids were
        handed out (which is the order the records were created in). */
    method GetTransfers() returns (r: seq<Record>)
      requires store.Valid()
      ensures forall i, j :: 0 <= i < j < |r| ==> r[i].id < r[j].id
      ensures forall i :: 0 <= i < |r| ==> r[i].id in store.transfers && store.transfers[r[i].id] == r[i].transfer
      ensures forall id :: id in store.transfers ==> exists i :: 0 <= i < |r| && r[i].id == id
    {
      r := [];
      var id := FirstTransferId;
      while id < store.nextTransferId
        invariant FirstTransferId <= id <= store.nextTransferId
        invariant forall i :: 0 <= i < |r| ==> r[i].id < id
        invariant forall i, j :: 0 <= i < j < |r| ==> r[i].id < r[j].id
        invariant forall i :: 0 <= i < |r| ==> r[i].id in store.transfers && store.transfers[r[i].id] == r[i].transfer
        invariant forall k :: k in store.transfers && k < id ==> exists i :: 0 <= i < |r| && r[i].id == k
      {
        if id in store.transfers {
          ghost var listed := r;
          r := r + [Record(id, store.transfers[id])];
          assert r[|listed|].id == id;
          assert forall i :: 0 <= i < |listed| ==> r[i] == listed[i];
        }
        id := id + 1;
      }
    }

    /** `getTransferById`: the record under `id`, or "transfer not found". */
    method GetTransferById(id: TransferId) returns (r: Result<Record>)
      ensures r.Ok? <==> id in store.transfers
      ensures r.Ok? ==> r.value == Record(id, store.transfers[id])
      ensures r.Err? ==> r.error == TransferNotFound(Some(id))
    {
      if id in store.transfers {
        r := Ok(Record(id, store.transfers[id]));
      } else {
        r := Err(TransferNotFound(Some(id)));
      }
    }

    /** `getAccountById`: the stored account, or "account not found". */
    method GetAccountById(id: AccountId) returns (r: Result<Account>)
      ensures r == FindAccount(store.accounts, id)
    {
      if id in store.accounts {
        r := Ok(store.accounts[id]);
      } else {
        r := Err(AccountNotFound(Some(id)));
      }
    }

    /** `createTransfer`: store a new record under the next id. */
    method CreateTransfer(origin: AccountId, target: AccountId, amount: int, now: Date) returns (rec: Record)
      requires store.Valid()
      modifies store
      ensures store.Valid()
      ensures rec == Record(old(store.nextTransferId), Transfer(origin, target, amount, now))
      ensures rec.id !in old(store.transfers)
      ensures store.transfers == old(store.transfers)[rec.id := rec.transfer]
      ensures store.nextTransferId == rec.id + 1
      ensures store.accounts == old(store.accounts)
    {
      rec := Record(store.nextTransferId, Transfer(origin, target, amount, now));
      store.transfers := store.transfers[rec.id := rec.transfer];
      store.nextTransferId := store.nextTransferId + 1;
    }

    /** `performTransfer`. The two lookups come before any change; when
        origin and target are the same account the second update reads the
        balance the first one wrote, as the shared entity does. */
    method PerformTransfer(dto: TransferDto, now: Date) returns (r: Result<Record>)
      requires store.Valid()
      modifies store
      ensures store.Valid()
      ensures (store.State(), r) == Perform(old(store.State()), dto, now)
      ensures r.Err? ==> store.State() == old(store.State())
    {
      var invalid := ValidateTransferDto(dto);
      if invalid.Some? {
        return Err(invalid.value);
      }
      var o, t, a := dto.origin.value, dto.target.value, dto.amount.value;
      var origin := GetAccountById(o);
      if origin.Err? {
        return Err(origin.error);
      }
      var destination := GetAccountById(t);
      if destination.Err? {
        return Err(destination.error);
      }
      if origin.value.balance < a {
        return Err(InsufficientFunds(o));
      }
      store.accounts := Adjust(store.accounts, o, -a);
      store.accounts := Adjust(store.accounts, t, a);
      var rec := CreateTransfer(o, t, a, now);
      r := Ok(rec);
    }

    /** `deleteTransfer`: reverse the recorded movement, then drop the record. */
    method DeleteTransfer(id: TransferId) returns (r: Result<()>)
      requires store.Valid()
      modifies store
      ensures store.Valid()
      ensures (store.State(), r) == Delete(old(store.State()), id)
      ensures r.Err? ==> store.State() == old(store.State())
    {
      var found := GetTransferById(id);
      if found.Err? {
        return Err(found.error);
      }
      var tr := found.value.transfer;
      var origin := GetAccountById(tr.origin);
      if origin.Err? {
        return Err(origin.error);
      }
      var destination := GetAccountById(tr.target);
      if destination.Err? {
        return Err(destination.error);
      }
      store.accounts := Adjust(store.accounts, tr.origin, tr.amount);
      store.accounts := Adjust(store.accounts, tr.target, -tr.amount);
      store.transfers := store.transfers - {id};
      r := Ok(());
    }

    /** `updateTransfer`: overwrite the record under `id` with `updated`. */
    method UpdateTransfer(id: TransferId, updated: Transfer) returns (r: Result<Record>)
      requires store.Valid()
      modifies store
      ensures store.Valid()
      ensures (store.State(), r) == Update(old(store.State()), id, updated)
      ensures store.accounts == old(store.accounts)
    {
      var found := GetTransferById(id);
      if found.Err? {
        return Err(found.error);
      }
      store.transfers := store.transfers[id := updated];
      r := Ok(Record(id, updated));
    }
  }
}
