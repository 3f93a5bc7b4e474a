# Ledger core in Dafny

A model of the ledger-application core of a NestJS/Mongoose wallet service.
One request (`create`) is applied to a wallet and a transaction log inside an
all-or-nothing unit of work (`runInTransaction`):

1. a transaction whose external key (`transactionId`) is already stored is
   refused with "This transaction is processed Before";
2. the wallet is looked up (NotFound when absent);
3. the amount is converted to EGP with a fixed rate table (USD 48, EUR 52,
   SAR 12.8), and an unpriced currency is refused with
   "Unsupported currency: <code>";
4. a withdrawal larger than the balance is refused with "Insufficient funds";
5. the wallet is saved with its new balance, then the transaction record is
   inserted. The record holds the submitted amount and currency, not the EGP
   amount.

The unit of work opens a session and a transaction. It commits when the
callback succeeds. When the callback or the commit throws, it aborts and
rethrows the same error. It always ends the session. When the caller already
holds a session, the callback runs on it and nothing else happens.

Files and modules:

- `wrappers.dfy` (`Wrappers`): `Option`, `Result` and the exceptions
  (`BadRequest(message)`, `WalletNotFound`, `StoreFailure(fault)`).
- `stores.dfy` (`Stores`): the wallet and transaction collections as two maps
  (`Collections`), and the four store operations the core uses.
- `mongo_transactions.dfy` (`MongoTransactions`): class
  `MongoTransactionsService`. It holds the collections as seen through the
  connection, the session status, the snapshot that abort restores, and the
  trace of session calls. Each session call is a method.
  `RunInTransaction` combines them.
- `transactions.dfy` (`Transactions`): `ConvertToEGP`; `CreateWork`, the
  callback `create` hands to the unit of work; and class
  `TransactionsService`, whose `Create` method runs it.
- `ledger.dfy` (`Ledger`): what a run of requests, each in its own unit of
  work, does to the collections. It covers balance conservation, the
  append-only log, refusal of replays, and preserved invariants.

Amounts and balances are exact `real`s, so 10 × 12.8 is exactly 128.
`Amount` is the subset of reals that are at least 0. Request validation
demands this (src/transactions/dto/create-transaction.dto.ts:17-19).
`TransactionKey` is the subset of strings that are not empty. The schema
marks `transactionId` required (src/transactions/schemas/transaction.schema.ts:14),
which refuses an empty string, and request validation refuses it first
(src/transactions/dto/create-transaction.dto.ts:10-12).
The currency enumeration's file is not part of this model. Its members
`Currency.EGP`, `Currency.USD`, `Currency.EUR` and `Currency.SAR` (used as the
keys of the rate table at src/transactions/transactions.service.ts:61-66) are
taken to be the strings "EGP", "USD", "EUR" and "SAR". `Code` and
`UnknownCode` rest on that assumption.
Failures of the data store are parameters of the methods and functions:

- `commitFailure` is what `commitTransaction` throws, if anything;
- `fault` (a `WriteFault`) says whether the wallet save or the record insert
  fails;
- `existingSession` says whether the caller of `RunInTransaction` passed a session.

The callback of `runInTransaction` is a Dafny function value (`Work<T>`).
It maps the contents seen through the session to the contents after its
writes, together with its result or the error it threw. Dafny cannot pass a
method as an argument. So the body of the callback in `create` is the
function `CreateWork`. Its local `newBalance` and the in-place update of the
wallet document become a `let` and a wallet value, which `SaveWallet` writes.

Three behaviours of the code worth noting:

- An unpriced currency raises a `BadRequest` with the message above, not an
  error kind of its own.
- The wallet lookup does not go through the session.
- If `abortTransaction` itself throws, its error replaces the original one.

The last two are listed under "Left out".

## Model

| member | source | states |
|---|---|---|
| `Stores.FindOne` | src/transactions/transactions.service.ts:23-25 | finds a stored transaction exactly when its external key is in the collection, and returns that record |
| `Stores.GetOne` | src/wallets/wallets.service.ts:24-32 | returns the wallet when the id is present, and `WalletNotFound` exactly when it is absent |
| `Stores.SaveWallet` | src/transactions/transactions.service.ts:46-48 | the saved wallet now holds the new value; every other wallet and the whole transaction collection are unchanged |
| `Stores.Insert` | src/transactions/schemas/transaction.schema.ts:14-15 | keys are non-empty `TransactionKey`s, as the required validator demands; the unique index refuses a stored key with a duplicate-key store failure; otherwise adds exactly that record and keeps every stored record and all wallets |
| `Transactions.ConvertToEGP` | src/transactions/transactions.service.ts:58-72 | succeeds exactly for the enumerated currencies (an unknown code is neither an enumeration value nor an inherited JavaScript object member); EGP is returned unchanged; any other currency is the amount times its rate, never negative; an unpriced currency gives "Unsupported currency: <code>" |
| `Transactions.RateTableComplete` | src/transactions/transactions.service.ts:61-66 | every enumerated currency has a positive rate and an unknown one has none |
| `Transactions.ConvertExamples` | src/transactions/transactions.service.spec.ts:339-364 | 100 EGP gives 100, 10 USD gives 480, 10 EUR gives 520, 10 SAR gives 128, and an invalid currency fails |
| `Transactions.Delta` | src/transactions/transactions.service.ts:35-44 | the signed EGP amount: never negative for a deposit, never positive for a withdrawal |
| `Transactions.RecordOf` | src/transactions/transactions.service.ts:50 | the inserted record carries the request's wallet, key, type, and its submitted amount and currency |
| `Transactions.CreateWork` | src/transactions/transactions.service.ts:22-54 | succeeds exactly when all four checks pass and no write fails. The checks run in order (duplicate, wallet, currency, funds), the first failing one gives the error, and it writes nothing. A failing wallet save writes nothing. A failing insert leaves only the saved wallet. Success writes the wallet with balance + signed amount and the record, and returns both |
| `Transactions.Apply` | src/transactions/transactions.service.ts:21-55 | a `create` on its own session with no store failure: an accepted request leaves the updated wallet and the new record, and a refused one changes nothing |
| `Transactions.DepositBalance` | src/transactions/transactions.service.ts:37-38 | a deposit adds the converted amount; a zero deposit leaves the wallet as it was but still adds the record |
| `Transactions.WithdrawalBalance` | src/transactions/transactions.service.ts:39-44 | a withdrawal subtracts the converted amount, never leaves a negative balance, and leaves 0 exactly when it takes the whole balance |
| `Transactions.UniqueIndexNeverHit` | src/transactions/transactions.service.ts:23-29 | the duplicate check runs before the insert, so the callback never hits the unique-index failure |
| `Transactions.CreateExamples` | src/transactions/transactions.service.spec.ts:67-414 | 500 + 100 gives 600; 100 + 10 USD gives 580; 500 − 200 gives 300; withdrawing 600 EGP or 20 USD from 500 is refused with nothing written; a zero deposit keeps 500; withdrawing all 500 leaves 0 |
| `Transactions.TransactionsService.constructor` | src/transactions/transactions.service.ts:13-17 | the service uses the given unit-of-work service |
| `Transactions.TransactionsService.Create` | src/transactions/transactions.service.ts:21-56 | always on a new session: succeeds exactly when every check passes and no write or commit fails; on success returns the inserted record with the saved wallet and keeps its writes; both collections are as before on any failure; the error is the callback's or the commit's. The session calls are start, begin, commit after success, abort on failure, end always |
| `Transactions.InsertFailureRollsBack` | src/common/mongo-transactions/mongo-transactions.service.ts:14-26 | a deposit whose record insert fails after the wallet save fails with that store error, leaves both collections as they were, and makes the calls start, begin, abort, end with no commit |
| `MongoTransactions.Lifecycle` | src/common/mongo-transactions/mongo-transactions.service.ts:14-26 | a call on a new session starts with start and begin and ends with end; commit is called iff the callback succeeded and abort iff the call fails |
| `MongoTransactions.MongoTransactionsService.constructor` | src/common/mongo-transactions/mongo-transactions.service.ts:7 | a connection to the given collections with no session yet and no session calls |
| `MongoTransactions.MongoTransactionsService.StartSession` | src/common/mongo-transactions/mongo-transactions.service.ts:14 | needs no open session; the session is started and nothing else changes |
| `MongoTransactions.MongoTransactionsService.StartTransaction` | src/common/mongo-transactions/mongo-transactions.service.ts:15 | needs a started session; the transaction is open and the snapshot is the current contents |
| `MongoTransactions.MongoTransactionsService.CommitTransaction` | src/common/mongo-transactions/mongo-transactions.service.ts:19 | needs an open transaction; throws exactly the store's commit error; otherwise it is committed; the contents do not change |
| `MongoTransactions.MongoTransactionsService.AbortTransaction` | src/common/mongo-transactions/mongo-transactions.service.ts:22 | needs an open transaction; the contents become the snapshot again |
| `MongoTransactions.MongoTransactionsService.EndSession` | src/common/mongo-transactions/mongo-transactions.service.ts:25 | needs an open session; it is ended and the contents do not change |
| `MongoTransactions.MongoTransactionsService.RunInTransaction` | src/common/mongo-transactions/mongo-transactions.service.ts:9-27 | on a given session: the callback's writes and its result or error as they are, with no session call and the status unchanged. Otherwise: the callback's result unless it or the commit threw, and then that same error. The writes stay exactly on success, and on failure the contents are as before. The call trace is the lifecycle: commit only after success, abort only on failure, end always |
| `Ledger.BalanceConserved` | src/transactions/transactions.service.spec.ts:255-336 | after any run of requests without store failures, every wallet keeps its owner, and its balance is the first balance plus the signed EGP sum of exactly the committed requests against it |
| `Ledger.WalletsKept` | src/transactions/transactions.service.ts:31-48 | no run of requests without store failures adds or removes a wallet |
| `Ledger.RecordsKept` | src/transactions/transactions.service.ts:50-52 | a stored transaction record is never changed or removed |
| `Ledger.KeysAppended` | src/transactions/transactions.service.ts:23-52 | the keys added are exactly those of the committed requests, and none of them was stored before |
| `Ledger.OneRecordPerCommit` | src/transactions/transactions.service.ts:48-52 | the collection grows by one record per committed request, and the committed requests have as many distinct keys as there are of them, so no two share a key |
| `Ledger.AcceptedRecorded` | src/transactions/transactions.service.ts:50-52 | every committed request's own record is stored under its key |
| `Ledger.ResubmissionRejected` | src/transactions/transactions.service.ts:23-29 | a key submitted again after it was stored or committed is refused as a duplicate and changes nothing |
| `Ledger.ApplyIdempotent` | src/transactions/transactions.service.ts:23-29 | submitting the same request twice has the effect of submitting it once |
| `Ledger.SolventKept` | src/transactions/transactions.service.ts:37-44 | if every balance is at least 0, it stays so after any run of requests without store failures |
| `Ledger.KeyedKept` | src/transactions/schemas/transaction.schema.ts:14-15 | the transaction collection stays keyed by each record's `transactionId` |
| `Ledger.FreshDepositsCommitted` | src/transactions/transactions.service.ts:37-38 | deposits in priced currencies on existing wallets, under new and distinct keys, are all committed |
| `Ledger.SequentialDeposits` | src/transactions/transactions.service.spec.ts:256-295 | 1000 + 100 + 200 + 150 leaves 1450 |
| `Ledger.SequentialDepositsRecorded` | src/transactions/transactions.service.spec.ts:256-295 | the same three deposits are all committed and leave three records |
| `Ledger.MixedDepositsAndWithdrawals` | src/transactions/transactions.service.spec.ts:297-336 | 1000, then +500, −300, +200, gives 1500, 1200, 1400 |

## Left out

- `populate` (src/transactions/transactions.service.ts:54) is a Mongoose join. `Create` returns the inserted record together with the saved wallet's `userId` and `balance`. The populate options and the internal `_id` are not modelled.
- The wallet lookup at src/transactions/transactions.service.ts:31 does not pass the session, so in the source it reads outside the open transaction. The model has one view of the data. Since `create` always opens a new session and has written nothing when it reads the wallet, the difference shows only under concurrent requests, which are not modelled.
- On a session the caller of `RunInTransaction` passes in, the callback's writes stay pending in that session. The caller's later commit or abort is not modelled.
- Session internals, isolation levels and concurrent interleavings of requests are not modelled. Requests are applied one after another.
- `connection.startSession()` and `session.startTransaction()` (src/common/mongo-transactions/mongo-transactions.service.ts:14-15) are treated as never throwing. They come before the `try`, so in the source a throw there propagates with no abort and no `endSession`.
- `abortTransaction` and `endSession` are treated as never throwing. In the source, an abort that throws replaces the original error, and the session is still ended. Read failures of `findOne` and `getOne` are not injected in `CreateWork`. `RunInTransaction` handles any failing callback the same way.
- ConvertToEGP: a currency code naming a member every JavaScript object inherits (`toString`, `constructor`, `__proto__`, ...) is outside `UnknownCode`. For such a code the rate lookup finds that member, so the source does not throw and returns NaN. Request validation rejects such codes before `create` runs.
- IEEE-754 rounding of JavaScript numbers is not modelled; amounts are exact reals.
- The request type is exactly deposit or withdrawal. For a type outside that enumeration the source skips both branches (src/transactions/transactions.service.ts:37-44) and saves the wallet unchanged. The schema's enum on `type` (src/transactions/schemas/transaction.schema.ts:17) then refuses the record, so the call fails and is rolled back. Request validation (src/transactions/dto/create-transaction.dto.ts:14-15) refuses such a request first.
- The text of the wallet NotFound message is a constant from a file not part of this model. Only the error kind is modelled.
- Controllers, modules, DTO validation (used only as the `Amount` and `TransactionKey` types), schemas, timestamps, HTTP status mapping, the throttler, configuration and `WalletsService.create`/`updateOne` are framework wiring and are left out.
