# Banking back office: balance and transfer rules in Dafny

This project models the balance-changing core of a Spring banking service.
The model covers two services:

- The **transfer service** performs a transfer between two accounts. It
  validates the request, resolves both accounts, refuses an overdraft of the
  origin, debits the origin, credits the target and records the transfer.
  Deleting a recorded transfer reverses its movement without any funds check.
  Updating a record rewrites it without touching balances.
  The service also lists and looks up records.
- The **account service** applies signed changes to one balance. A change
  that would make the balance negative is skipped silently. Withdrawal and
  deposit are both such changes. The service also updates an account's
  balance and owner, deletes accounts and looks them up.

Both services work on one persistence context: an account store, a transfer
store and the transfer store's id generator. The model holds these as a
`Store` object with two `map` fields and a counter, and both service classes
share it. Amounts are exact integers (minor units).

Layout:

- `domain.dfy` (module `Domain`): ids, `Account`, `Transfer`, the request
  objects, the error kinds, the whole state `Bank`, and the account lookup.
- `ledger.dfy` (module `Ledger`): `Adjust` (one signed balance change),
  `Shift` (the two sequential changes of a transfer) and `Total` (the sum of
  all balances). It also holds the lemmas for conservation and undo.
- `store.dfy` (module `Persistence`): the shared `Store` class.
- `transfers.dfy` (module `Transfers`): `Perform`, `Delete` and `Update`,
  which give each call's effect on the whole state. Lemmas state what those
  calls promise. The class `TransferService` carries the calls out step by
  step and is proved to agree with `Perform`, `Delete` and `Update`.
- `accounts.dfy` (module `Accounts`): the same structure for the account
  service (`Transaction`, `AccountUpdate`, `AccountDeletion`, class
  `AccountService`).
- `policies.dfy` (module `Policies`): the two overdraft policies side by side.

Error kinds are the service's own exceptions. `AccountNotFound(Some(id))`
and `TransferNotFound(Some(id))` mean that the id did not resolve. The two
validation failures of a transfer request keep the service's labels:

- a missing origin, target or amount gives `AccountNotFound(None)`;
- an amount that is not positive gives `TransferNotFound(None)`.

A self-transfer (origin equal to target) is applied as two sequential
updates to the same stored account. The second update reads what the first
one wrote, so the net change is zero. In `performTransfer`, which runs in one
transaction, this matches both lookups returning the same persistence-context
entity. The model treats the reversal in `deleteTransfer` the same way; see
"## Left out" for what that assumes.

## Model

| member | source | states |
|---|---|---|
| `Domain.FindAccount` | src/main/java/com/ar/bankingonline/application/services/TransferService.java:112-114 | The lookup succeeds exactly when the id is stored and then yields that account. Otherwise it fails with "account not found" for that id. |
| `Ledger.Adjust` | src/main/java/com/ar/bankingonline/application/services/AccountService.java:103-105 | Setting a balance and saving changes only that account's balance, by exactly the delta, and keeps its owner and every other account. |
| `Ledger.Shift` | src/main/java/com/ar/bankingonline/application/services/TransferService.java:88-93 | Debiting then crediting moves exactly the amount from one account to the other. For a self-transfer the net change is zero. Owners, the key set and all other accounts are unchanged. |
| `Ledger.ShiftConserves` | src/main/java/com/ar/bankingonline/application/services/TransferService.java:88-89 | Moving funds between two stored accounts, possibly the same one, conserves the sum of all balances. |
| `Ledger.ShiftUndo` | src/main/java/com/ar/bankingonline/application/services/TransferService.java:58-64 | The reversal in deleteTransfer (credit origin, debit target) exactly undoes the forward movement. |
| `Transfers.ValidateTransferDto` | src/main/java/com/ar/bankingonline/application/services/TransferService.java:102-110 | A request passes exactly when all three fields are given and the amount is positive. A missing field gives "account not found" with no id. A complete request with a non-positive amount gives "transfer not found" with no id. |
| `Transfers.Perform` | src/main/java/com/ar/bankingonline/application/services/TransferService.java:70-100 | The whole effect of `performTransfer` on the state and its result. A failure leaves the state unchanged. A success keeps the set of accounts, adds the returned record under the id the counter held and advances the counter by one. |
| `Transfers.Delete` | src/main/java/com/ar/bankingonline/application/services/TransferService.java:52-68 | The whole effect of `deleteTransfer` on the state and its result. A failure leaves the state unchanged. A success removes exactly the stored record under that id. The set of accounts and the counter never change. |
| `Transfers.Update` | src/main/java/com/ar/bankingonline/application/services/TransferService.java:45-50 | The whole effect of `updateTransfer`. It fails exactly for an unknown id. On success the record under that id becomes the given one. Accounts and the counter never change. |
| `Transfers.PerformOutcome` | src/main/java/com/ar/bankingonline/application/services/TransferService.java:70-85 | No failure changes the state. The checks run in order: validation, origin lookup, target lookup, funds. Each has its error kind. The transfer succeeds exactly when the request is valid, both accounts exist and the origin covers the amount. |
| `Transfers.PerformEffect` | src/main/java/com/ar/bankingonline/application/services/TransferService.java:82-96 | On success the origin loses and the target gains exactly the amount (no change for a self-transfer). The origin stays non-negative, other accounts are unchanged and the sum of balances is conserved. Exactly one record with the request's fields is added under a fresh id, and existing records are unchanged. |
| `Transfers.PerformKeepsSolvent` | src/main/java/com/ar/bankingonline/application/services/TransferService.java:82-89 | If no balance was negative before a transfer, none is negative after it. |
| `Transfers.DeleteOutcome` | src/main/java/com/ar/bankingonline/application/services/TransferService.java:52-55 | An unknown record gives "transfer not found". A missing origin or target gives "account not found" for that id. In every failure case nothing changes. The call succeeds exactly when the record and both of its accounts exist. |
| `Transfers.DeleteEffect` | src/main/java/com/ar/bankingonline/application/services/TransferService.java:52-66 | On success the origin gains and the target loses the recorded amount, with no funds check. Other accounts are unchanged, the sum is conserved, and exactly that record is removed. For a self-transfer the net change is zero, which assumes the two lookups share one entity (see "## Left out"). |
| `Transfers.DeleteMayOverdraw` | src/main/java/com/ar/bankingonline/application/services/TransferService.java:62-64 | A reversal can leave the target negative, starting from a state where every balance is non-negative. |
| `Transfers.PerformThenDelete` | src/main/java/com/ar/bankingonline/application/services/TransferService.java:52-100 | Deleting the transfer just performed restores every account and the transfer store exactly. Only the id counter has advanced. |
| `Transfers.UpdateOutcome` | src/main/java/com/ar/bankingonline/application/services/TransferService.java:45-50 | An update fails exactly for an unknown id, with "transfer not found", and then changes nothing. Otherwise it replaces that record under the same id. No balance changes, other records are unchanged and fresh-id bookkeeping is preserved. |
| `Transfers.UpdateThenDeleteDrifts` | src/main/java/com/ar/bankingonline/application/services/TransferService.java:45-66 | Because an update never touches balances, editing a recorded amount and then deleting the record leaves the two accounts changed, not restored. |
| `Transfers.TransferScenario` | src/main/java/com/ar/bankingonline/application/services/TransferService.java:52-100 | Worked example: 100 and 0, transfer 40, giving 60 and 40 with one record; deleting it gives 100 and 0 with no record. |
| `Transfers.TransferService.GetTransfers` | src/main/java/com/ar/bankingonline/application/services/TransferService.java:35-38 | Lists every stored record exactly once with its id, in increasing id order (the order of creation), and nothing that is not stored. |
| `Transfers.TransferService.GetTransferById` | src/main/java/com/ar/bankingonline/application/services/TransferService.java:40-43 | Fails exactly when the id is absent, with "transfer not found". Otherwise it returns the stored record under that id. |
| `Transfers.TransferService.GetAccountById` | src/main/java/com/ar/bankingonline/application/services/TransferService.java:112-114 | Returns the stored account, or "account not found" for that id. |
| `Transfers.TransferService.CreateTransfer` | src/main/java/com/ar/bankingonline/application/services/TransferService.java:120-128 | Stores one record with the given fields under the next id, which was not in use. Existing records and all accounts are unchanged. |
| `Transfers.TransferService.PerformTransfer` | src/main/java/com/ar/bankingonline/application/services/TransferService.java:70-100 | The step-by-step service call (lookups, then two balance writes, then the record) has exactly the effect and result of `Perform`. A failure leaves the store unchanged. |
| `Transfers.TransferService.DeleteTransfer` | src/main/java/com/ar/bankingonline/application/services/TransferService.java:52-68 | The service call has exactly the effect and result of `Delete`. A failure leaves the store unchanged. |
| `Transfers.TransferService.UpdateTransfer` | src/main/java/com/ar/bankingonline/application/services/TransferService.java:45-50 | The service call has exactly the effect and result of `Update`, and the accounts are unchanged. |
| `Accounts.Transaction` | src/main/java/com/ar/bankingonline/application/services/AccountService.java:98-109 | The whole effect of `performTransaction` on the account store and its result. It fails exactly for an unknown id. The set of accounts never changes. The returned value is the balance the account holds after the call. |
| `Accounts.AccountUpdate` | src/main/java/com/ar/bankingonline/application/services/AccountService.java:56-72 | The whole effect of `updateAccount`. It fails exactly for an unknown id. The set of accounts never changes. On success the returned account is the one now stored. |
| `Accounts.AccountDeletion` | src/main/java/com/ar/bankingonline/application/services/AccountService.java:77-85 | The whole effect of `deleteAccount`. It reports "deleted" exactly when the id was stored, and the set of accounts loses exactly that id. |
| `Accounts.TransactionOutcome` | src/main/java/com/ar/bankingonline/application/services/AccountService.java:98-109 | An unknown account is the only failure, and it changes nothing. Otherwise the signed amount is applied exactly when the result is non-negative and is skipped without error when it is not. The balance after the call is returned, and no other account and not the owner changes. |
| `Accounts.TransactionKeepsSolvent` | src/main/java/com/ar/bankingonline/application/services/AccountService.java:101-105 | A solvent store stays solvent after a transaction, and the returned balance is non-negative. |
| `Accounts.TransactionTotal` | src/main/java/com/ar/bankingonline/application/services/AccountService.java:101-105 | The sum of balances changes by the amount when it is applied and not at all otherwise. |
| `Accounts.WithdrawThenDeposit` | src/main/java/com/ar/bankingonline/application/services/AccountService.java:88-109 | On a solvent account, a withdrawal that went through, followed by depositing the same amount, restores the store and returns the original balance. |
| `Accounts.WithdrawThenDepositOverdrawn` | src/main/java/com/ar/bankingonline/application/services/AccountService.java:88-109 | On an overdrawn account, withdrawing a negative amount is not undone by depositing it, because that deposit is skipped. |
| `Accounts.UpdateAccountOutcome` | src/main/java/com/ar/bankingonline/application/services/AccountService.java:56-72 | An unknown account gives "account not found" and changes nothing. Otherwise the balance becomes the given amount only when that amount is given and strictly positive, and stays unchanged otherwise. The owner is replaced only when one is given. The stored account is the one returned, and other accounts are unchanged. |
| `Accounts.UpdateAccountKeepsSolvent` | src/main/java/com/ar/bankingonline/application/services/AccountService.java:61-63 | An account update never makes a balance negative. |
| `Accounts.DeleteAccountOutcome` | src/main/java/com/ar/bankingonline/application/services/AccountService.java:77-85 | Reports "deleted" exactly when the id was stored. It removes exactly that account, keeps all others, and changes nothing when the id was absent. |
| `Accounts.AccountService.GetAccountById` | src/main/java/com/ar/bankingonline/application/services/AccountService.java:48-52 | Returns the stored account, or "account not found" for that id. It succeeds exactly when the id is stored. |
| `Accounts.AccountService.PerformTransaction` | src/main/java/com/ar/bankingonline/application/services/AccountService.java:98-109 | The service call has exactly the effect and result of `Transaction`, and the transfer store is untouched. |
| `Accounts.AccountService.Withdraw` | src/main/java/com/ar/bankingonline/application/services/AccountService.java:88-91 | Is exactly `Transaction` with the negated amount, so a negative amount deposits. |
| `Accounts.AccountService.AddAmountToAccount` | src/main/java/com/ar/bankingonline/application/services/AccountService.java:93-96 | Is exactly `Transaction` with the amount. |
| `Accounts.AccountService.UpdateAccount` | src/main/java/com/ar/bankingonline/application/services/AccountService.java:56-72 | The in-place field updates have exactly the effect and result of `AccountUpdate`. |
| `Accounts.AccountService.DeleteAccount` | src/main/java/com/ar/bankingonline/application/services/AccountService.java:77-85 | The call has exactly the effect and report of `AccountDeletion`. |
| `Policies.OverdraftPolicies` | src/main/java/com/ar/bankingonline/application/services/TransferService.java:81-85 | When the amount exceeds the balance, a direct withdrawal is a silent no-op that returns the old balance. A transfer of the same amount fails with "insufficient funds". Both leave the state unchanged. |
| `Policies.OverdraftScenario` | src/main/java/com/ar/bankingonline/application/services/AccountService.java:98-109 | Worked example: a withdrawal of 25 from a balance of 10 returns 10 and changes nothing, while a transfer of 25 from it is refused. |

## Left out

- `UserService`, `UserDto` and the user store are not part of this model. They only copy fields. An account's owner is a user id. The model has no user store, so `updateAccount` stores any given owner id. In the service the owner comes from `getReferenceById` (AccountService.java line 66), which may fail for an unknown user, either at the first access to it (such as the mapping at line 71) or at commit, which then rolls the update back and throws. The model does not capture that failure.
- `createAccount` and `getAccounts` are not modelled. Creating an account depends on the user store and on an account mapper that is not shown. Listing accounts has no rule of its own.
- The repository interfaces and the DTO/entity mappers are not modelled as files. Lookups, saves, deletions and listings are plain operations on the `Store` maps. `updateTransfer` receives the already-mapped record fields, including the date as given.
- Null fields in a record passed to `updateTransfer` are not modelled. In the model, ids and amounts are plain integers, so such a record cannot be written. The service may store one, because the mapper copies fields as given. A later `deleteTransfer` of that record then throws inside the service, at `getAccountById(null)` (TransferService.java line 54) or at `add(null)` (line 59), before any write.
- Null arguments are not modelled. A null amount throws in the service, at `amount.negate()` (AccountService.java line 90) or at `add(null)` (line 101). A null id makes `findById` or `existsById` throw `IllegalArgumentException` (AccountService.java lines 50, 58, 79 and 99; TransferService.java lines 41, 46 and 53). In the model every id and amount is an integer.
- A given owner without an id in `updateAccount` is not modelled; the model's owner is always an id.
- A `null` transfer request is not a separate case. It gets the same outcome as a request with every field missing (`AccountNotFound(None)`).
- Exception messages and the success strings of the delete calls are not modelled. Errors keep only their kind and id. `deleteTransfer` returns `Ok(())`, and `deleteAccount` returns a boolean.
- The wall clock is not modelled. The creation date is a parameter of `PerformTransfer`.
- Transfer ids come from a counter that starts at 1 and only grows. This stands in for the datastore's id generation.
- The listing order of `getTransfers` is not specified by the datastore. The model lists records in increasing id order, which is their creation order.
- Amounts are unbounded integers. Decimal scale and rounding play no part in these rules.
- Spring transactions, the persistence context and concurrency are not modelled. Each service call is one atomic step, and calls run sequentially. Concurrent transfers racing past the funds check are outside this model. `deleteTransfer` carries no transaction annotation. All of its modelled failures happen before any write.
- `Transfers.DeleteEffect`: the net-zero reversal of a self-transfer assumes that the two account lookups of `deleteTransfer` (TransferService.java lines 54-55) return one shared entity, as they do when a persistence context spans the call. Without one they return two separate copies, each holding the old balance b. Line 60 then saves b + amount and line 64 saves b − amount, so the account loses the amount. The model does not capture that outcome.
- The code reports request validation failures as "account not found" and "transfer not found". The model follows the code and has no separate invalid-request kind.
- `Accounts.WithdrawThenDeposit`: requires the account to be solvent before the withdrawal. On an overdrawn account the undoing deposit can itself be skipped, as `Accounts.WithdrawThenDepositOverdrawn` shows.
