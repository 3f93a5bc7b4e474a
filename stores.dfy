/** The two collections the ledger works on, as the Mongoose schemas of
    wallets and transactions describe them, and the four store operations
    the ledger uses: find a transaction by its external key, get a wallet by
    id, save a wallet, insert a transaction. */
module Stores {
  import opened Wrappers

  /** A wallet's ObjectId. */
  type WalletId = nat

  /** An amount as the request validation admits it: a number that is at least 0. */
  type Amount = r: real | r >= 0.0

  datatype Type = Deposit | Withdrawal

  /** The external key of a transaction. The schema marks it `required`, which
      refuses an empty string, and request validation demands it not be empty. */
  type TransactionKey = t: string | |t| > 0 witness "k"

  /** A currency code outside the enumeration. It is neither an enumeration
      value nor the name of a member every JavaScript object inherits, since
      the rate lookup would find such a member. */
  type UnknownCode = code: string
    | code !in {"EGP", "USD", "EUR", "SAR"}
      && code !in {"constructor", "__proto__", "toString", "toLocaleString", "valueOf",
                   "hasOwnProperty", "isPrototypeOf", "propertyIsEnumerable",
                   "__defineGetter__", "__defineSetter__", "__lookupGetter__", "__lookupSetter__"}
    witness "INVALID"

  /** The enumerated currencies, plus `Unknown` for a value outside the
      enumeration, which the conversion has to reject. */
  datatype Currency = EGP | USD | EUR | SAR | Unknown(code: UnknownCode)

  /** A wallet document; the balance is in EGP and nothing in the schema keeps it non-negative. */
  datatype Wallet = Wallet(userId: string, balance: real)

  /** A transaction document, as inserted. */
  datatype TransactionRecord = TransactionRecord(
    wallet: WalletId,
    transactionId: TransactionKey,
    kind: Type,
    amount: Amount,
    currency: Currency)

  /** The wallet collection keyed by id and the transaction collection keyed
      by its unique `transactionId`. */
  datatype Collections = Collections(
    wallets: map<WalletId, Wallet>,
    transactions: map<TransactionKey, TransactionRecord>)

  /** The transaction collection is keyed by the field its unique index is on. */
  ghost predicate Keyed(s: Collections) {
    forall id :: id in s.transactions ==> s.transactions[id].transactionId == id
  }

  /** Every wallet balance is at least 0. */
  ghost predicate Solvent(s: Collections) {
    forall w :: w in s.wallets ==> s.wallets[w].balance >= 0.0
  }

  /** `findOne({ transactionId })`: the stored transaction with that external key, if any. */
  function FindOne(s: Collections, transactionId: TransactionKey): (r: Option<TransactionRecord>)
    ensures r.Some? <==> transactionId in s.transactions
    ensures r.Some? ==> r.value == s.transactions[transactionId]
  {
    if transactionId in s.transactions then Some(s.transactions[transactionId]) else None
  }

  /** The wallets service's `getOne`: the wallet, or NotFound when there is none. */
  function GetOne(s: Collections, id: WalletId): (r: Result<Wallet>)
    ensures r.Ok? <==> id in s.wallets
    ensures r.Ok? ==> r.value == s.wallets[id]
    ensures r.Err? ==> r.error == WalletNotFound
  {
    if id in s.wallets then Ok(s.wallets[id]) else Err(WalletNotFound)
  }

  /** `walletDoc.save()`: the wallet document with that id now holds `w`; nothing else changes. */
  function SaveWallet(s: Collections, id: WalletId, w: Wallet): (r: Collections)
    ensures r.wallets.Keys == s.wallets.Keys + {id}
    ensures r.wallets[id] == w
    ensures forall v :: v in s.wallets && v != id ==> r.wallets[v] == s.wallets[v]
    ensures r.transactions == s.transactions
  {
    Collections(s.wallets[id := w], s.transactions)
  }

  /** `transaction.save()` of a new document: the unique index on
      `transactionId` refuses a key that is already stored. */
  function Insert(s: Collections, rec: TransactionRecord): (r: Result<Collections>)
    ensures r.Ok? <==> rec.transactionId !in s.transactions
    ensures r.Err? ==> r.error == StoreFailure(DuplicateKey)
    ensures r.Ok? ==> r.value.wallets == s.wallets
    ensures r.Ok? ==> r.value.transactions.Keys == s.transactions.Keys + {rec.transactionId}
    ensures r.Ok? ==> r.value.transactions[rec.transactionId] == rec
    ensures r.Ok? ==> forall id :: id in s.transactions ==> r.value.transactions[id] == s.transactions[id]
  {
    if rec.transactionId in s.transactions then Err(StoreFailure(DuplicateKey))
    else Ok(Collections(s.wallets, s.transactions[rec.transactionId := rec]))
  }
}
