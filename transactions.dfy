/** The ledger core: `TransactionsService.create`, which applies one
    deposit or withdrawal request to a wallet and records it, inside one
    unit of work, and `convertToEGP`, the fixed rate table it uses. */
module Transactions {
  import opened Wrappers
  import opened Stores
  import opened MongoTransactions

  /** A validated request to create a transaction. */
  datatype CreateTransactionDto = CreateTransactionDto(
    wallet: WalletId,
    transactionId: TransactionKey,
    kind: Type,
    amount: Amount,
    currency: Currency)

  /** What `create` returns: the inserted record with the wallet's `userId`
      and `balance` filled in. */
  datatype Created = Created(record: TransactionRecord, wallet: Wallet)

  /** Which store write, if any, the data store makes fail. */
  datatype WriteFault = NoFault | WalletSaveFails | InsertFails

  const DuplicateMessage := "This transaction is processed Before"
  const InsufficientFundsMessage := "Insufficient funds"

  /** The enumeration value of a currency, as it appears in messages. */
  function Code(c: Currency): string {
    match c
    case EGP => "EGP"
    case USD => "USD"
    case EUR => "EUR"
    case SAR => "SAR"
    case Unknown(code) => code
  }

  function UnsupportedCurrencyMessage(c: Currency): string {
    "Unsupported currency: " + Code(c)
  }

  /** The rate table: EGP per one unit of each currency. */
  function Rate(c: Currency): Option<real> {
    match c
    case EGP => Some(1.0)
    case USD => Some(48.0)
    case EUR => Some(52.0)
    case SAR => Some(12.8)
    case Unknown(_) => None
  }

  /** `convertToEGP`: the amount in EGP, or the unsupported-currency error
      for a currency the rate table does not price (a missing or zero rate). */
  function ConvertToEGP(amount: Amount, currency: Currency): (r: Result<real>)
    ensures r.Ok? <==> !currency.Unknown?
    ensures currency == EGP ==> r == Ok(amount)
    ensures r.Ok? ==> r.value >= 0.0 && r.value == amount * Rate(currency).value
    ensures r.Err? ==> r.error == BadRequest(UnsupportedCurrencyMessage(currency))
  {
    if currency == EGP then Ok(amount)
    else
      var rate := Rate(currency);
      if rate.None? || rate.value == 0.0 then Err(BadRequest(UnsupportedCurrencyMessage(currency)))
      else Ok(amount * rate.value)
  }

  /** Every enumerated currency has a positive rate, and 1 EGP is 1 EGP. */
  lemma RateTableComplete(c: Currency)
    ensures !c.Unknown? <==> Rate(c).Some?
    ensures Rate(c).Some? ==> Rate(c).value > 0.0
    ensures Rate(EGP) == Some(1.0)
  {
  }

  /** The amount of a request in EGP, signed: positive for a deposit,
      negative for a withdrawal, 0 when the currency has no rate. */
  function Delta(dto: CreateTransactionDto): (d: real)
    ensures dto.kind == Deposit ==> d >= 0.0
    ensures dto.kind == Withdrawal ==> d <= 0.0
  {
    match ConvertToEGP(dto.amount, dto.currency)
    case Err(_) => 0.0
    case Ok(v) => if dto.kind == Deposit then v else -v
  }

  /** The request passes every check `create` makes before writing: a new
      external key, an existing wallet, a priced currency, and for a
      withdrawal a balance that covers the converted amount. */
  predicate Accepts(s: Collections, dto: CreateTransactionDto) {
    && dto.transactionId !in s.transactions
    && dto.wallet in s.wallets
    && ConvertToEGP(dto.amount, dto.currency).Ok?
    && (dto.kind == Withdrawal ==>
          s.wallets[dto.wallet].balance >= ConvertToEGP(dto.amount, dto.currency).value)
  }

  /** The record `create` inserts: the request's own fields, so the
      submitted amount and currency rather than the converted amount. */
  function RecordOf(dto: CreateTransactionDto): (rec: TransactionRecord)
    ensures rec.wallet == dto.wallet && rec.transactionId == dto.transactionId && rec.kind == dto.kind
    ensures rec.amount == dto.amount && rec.currency == dto.currency
  {
    TransactionRecord(dto.wallet, dto.transactionId, dto.kind, dto.amount, dto.currency)
  }

  /** The wallet as `create` saves it: same owner, balance moved by the signed amount. */
  function Updated(s: Collections, dto: CreateTransactionDto): Wallet
    requires dto.wallet in s.wallets
  {
    Wallet(s.wallets[dto.wallet].userId, s.wallets[dto.wallet].balance + Delta(dto))
  }

  /** The callback `create` hands to `runInTransaction`, run on the
      contents `s` seen through the session. */
  function CreateWork(dto: CreateTransactionDto, fault: WriteFault, s: Collections): (r: Step<Created>)
    // It succeeds exactly when every check passes and no write fails.
    ensures r.outcome.Ok? <==> Accepts(s, dto) && fault == NoFault
    // The checks, in order; the first that fails decides the error, and nothing is written.
    ensures dto.transactionId in s.transactions ==>
      r == Step(s, Err(BadRequest(DuplicateMessage)))
    ensures dto.transactionId !in s.transactions && dto.wallet !in s.wallets ==>
      r == Step(s, Err(WalletNotFound))
    ensures dto.transactionId !in s.transactions && dto.wallet in s.wallets && dto.currency.Unknown? ==>
      r == Step(s, Err(BadRequest(UnsupportedCurrencyMessage(dto.currency))))
    ensures && dto.transactionId !in s.transactions && dto.wallet in s.wallets
            && !dto.currency.Unknown? && dto.kind == Withdrawal
            && s.wallets[dto.wallet].balance < ConvertToEGP(dto.amount, dto.currency).value ==>
      r == Step(s, Err(BadRequest(InsufficientFundsMessage)))
    // Past the checks: the wallet is saved, then the record is inserted.
    ensures Accepts(s, dto) && fault == WalletSaveFails ==>
      r == Step(s, Err(StoreFailure(IoError)))
    ensures Accepts(s, dto) && fault == InsertFails ==>
      r == Step(SaveWallet(s, dto.wallet, Updated(s, dto)), Err(StoreFailure(IoError)))
    ensures r.outcome.Ok? ==>
      && r.db.wallets == s.wallets[dto.wallet := Updated(s, dto)]
      && r.db.transactions == s.transactions[dto.transactionId := RecordOf(dto)]
      && r.outcome.value == Created(RecordOf(dto), Updated(s, dto))
  {
    if FindOne(s, dto.transactionId).Some? then Step(s, Err(BadRequest(DuplicateMessage)))
    else match GetOne(s, dto.wallet)
      case Err(e) => Step(s, Err(e))
      case Ok(walletDoc) =>
        match ConvertToEGP(dto.amount, dto.currency)
        case Err(e) => Step(s, Err(e))
        case Ok(amountInEGP) =>
          if dto.kind == Withdrawal && walletDoc.balance < amountInEGP then
            Step(s, Err(BadRequest(InsufficientFundsMessage)))
          else
            var newBalance :=
              if dto.kind == Deposit then walletDoc.balance + amountInEGP
              else walletDoc.balance - amountInEGP;
            var saved := walletDoc.(balance := newBalance);
            match fault
            case WalletSaveFails => Step(s, Err(StoreFailure(IoError)))
            case InsertFails => Step(SaveWallet(s, dto.wallet, saved), Err(StoreFailure(IoError)))
            case NoFault =>
              var afterSave := SaveWallet(s, dto.wallet, saved);
              match Insert(afterSave, RecordOf(dto))
              case Err(e) => Step(afterSave, Err(e))
              case Ok(afterInsert) => Step(afterInsert, Ok(Created(RecordOf(dto), saved)))
  }

  /** The conversions the service's tests expect. */
  lemma ConvertExamples()
    ensures ConvertToEGP(100.0, EGP) == Ok(100.0)
    ensures ConvertToEGP(10.0, USD) == Ok(480.0)
    ensures ConvertToEGP(10.0, EUR) == Ok(520.0)
    ensures ConvertToEGP(10.0, SAR) == Ok(128.0)
    ensures ConvertToEGP(100.0, Unknown("INVALID")).Err?
  {
  }

  /** The contents after one `create` that runs in its own unit of work and
      meets no store failure: its writes when it succeeds, nothing otherwise. */
  function Apply(s: Collections, dto: CreateTransactionDto): (r: Collections)
    ensures Accepts(s, dto) ==>
      && r.wallets == s.wallets[dto.wallet := Updated(s, dto)]
      && r.transactions == s.transactions[dto.transactionId := RecordOf(dto)]
    ensures !Accepts(s, dto) ==> r == s
  {
    var step := CreateWork(dto, NoFault, s);
    if step.outcome.Ok? then step.db else s
  }

  /** A successful deposit adds the converted amount; a zero deposit leaves
      the balance as it was but still saves the wallet and inserts the record. */
  lemma DepositBalance(dto: CreateTransactionDto, s: Collections)
    requires dto.kind == Deposit && CreateWork(dto, NoFault, s).outcome.Ok?
    ensures CreateWork(dto, NoFault, s).db.wallets[dto.wallet].balance
         == s.wallets[dto.wallet].balance + ConvertToEGP(dto.amount, dto.currency).value
    ensures dto.amount == 0.0 ==>
      && CreateWork(dto, NoFault, s).db.wallets[dto.wallet] == s.wallets[dto.wallet]
      && CreateWork(dto, NoFault, s).db.transactions.Keys == s.transactions.Keys + {dto.transactionId}
  {
  }

  /** A successful withdrawal subtracts the converted amount, never leaves
      the balance below 0, and leaves exactly 0 when it takes all of it. */
  lemma WithdrawalBalance(dto: CreateTransactionDto, s: Collections)
    requires dto.kind == Withdrawal && CreateWork(dto, NoFault, s).outcome.Ok?
    ensures CreateWork(dto, NoFault, s).db.wallets[dto.wallet].balance
         == s.wallets[dto.wallet].balance - ConvertToEGP(dto.amount, dto.currency).value
    ensures CreateWork(dto, NoFault, s).db.wallets[dto.wallet].balance >= 0.0
    ensures CreateWork(dto, NoFault, s).db.wallets[dto.wallet].balance == 0.0
        <==> s.wallets[dto.wallet].balance == ConvertToEGP(dto.amount, dto.currency).value
  {
  }

  /** The unique index on `transactionId` is a backstop the callback never
      reaches: the duplicate check has already refused every stored key. */
  lemma UniqueIndexNeverHit(dto: CreateTransactionDto, fault: WriteFault, s: Collections)
    ensures CreateWork(dto, fault, s).outcome != Err(StoreFailure(DuplicateKey))
  {
  }

  /** The outcomes the service's tests expect of single requests against a
      wallet of user "user-123". */
  lemma CreateExamples(w: WalletId, id: TransactionKey)
    ensures var s := Collections(map[w := Wallet("user-123", 500.0)], map[]);
      && CreateWork(CreateTransactionDto(w, id, Deposit, 100.0, EGP), NoFault, s).db.wallets[w].balance == 600.0
      && CreateWork(CreateTransactionDto(w, id, Withdrawal, 200.0, EGP), NoFault, s).db.wallets[w].balance == 300.0
      && CreateWork(CreateTransactionDto(w, id, Withdrawal, 600.0, EGP), NoFault, s)
         == Step(s, Err(BadRequest(InsufficientFundsMessage)))
      && CreateWork(CreateTransactionDto(w, id, Withdrawal, 20.0, USD), NoFault, s)
         == Step(s, Err(BadRequest(InsufficientFundsMessage)))
      && CreateWork(CreateTransactionDto(w, id, Deposit, 0.0, EGP), NoFault, s).db.wallets[w].balance == 500.0
      && CreateWork(CreateTransactionDto(w, id, Withdrawal, 500.0, EGP), NoFault, s).db.wallets[w].balance == 0.0
    ensures var s := Collections(map[w := Wallet("user-123", 100.0)], map[]);
      CreateWork(CreateTransactionDto(w, id, Deposit, 10.0, USD), NoFault, s).db.wallets[w].balance == 580.0
  {
  }

  class TransactionsService {
    const mongo: MongoTransactionsService

    constructor (mongo: MongoTransactionsService)
      ensures this.mongo == mongo
    {
      this.mongo := mongo;
    }

    /** `create(dto)`: the callback in a unit of work on a new session.
        `commitFailure` and `fault` say what the data store does. */
    method Create(dto: CreateTransactionDto, commitFailure: Option<Error>, fault: WriteFault)
      returns (r: Result<Created>)
      requires mongo.Quiescent()
      modifies mongo
      ensures mongo.Quiescent()
      // The request succeeds exactly when every check passes and no write and no
      // commit fails; it then returns the record with the saved wallet and its
      // writes are kept. On any failure both collections are as they were.
      ensures r.Ok? <==> Accepts(old(mongo.db), dto) && fault == NoFault && commitFailure.None?
      ensures r.Ok? ==> r == CreateWork(dto, fault, old(mongo.db)).outcome
      ensures r.Ok? ==> r.value == Created(RecordOf(dto), Updated(old(mongo.db), dto))
      ensures mongo.db == (if r.Ok? then CreateWork(dto, fault, old(mongo.db)).db else old(mongo.db))
      ensures r.Err? ==>
        r.error == (if CreateWork(dto, fault, old(mongo.db)).outcome.Err?
                    then CreateWork(dto, fault, old(mongo.db)).outcome.error
                    else commitFailure.value)
      ensures commitFailure.None? && fault == NoFault ==> mongo.db == Apply(old(mongo.db), dto)
      // The session calls: start, begin, commit after a successful callback,
      // abort on failure, end always.
      ensures mongo.calls == old(mongo.calls)
        + Lifecycle(CreateWork(dto, fault, old(mongo.db)).outcome.Ok?, r.Err?)
    {
      r := mongo.RunInTransaction((s: Collections) => CreateWork(dto, fault, s), false, commitFailure);
    }
  }

  /** A store failure after the wallet was saved, before the record was
      inserted: the request fails, neither collection keeps anything, and the
      session is aborted and ended without a commit. */
  method InsertFailureRollsBack(w: WalletId)
    returns (r: Result<Created>, after: Collections, calls: seq<SessionCall>)
    ensures r == Err(StoreFailure(IoError))
    ensures after == Collections(map[w := Wallet("user-123", 500.0)], map[])
    ensures calls == [StartSessionCall, StartTransactionCall, AbortCall, EndSessionCall]
  {
    var s := Collections(map[w := Wallet("user-123", 500.0)], map[]);
    var mongo := new MongoTransactionsService(s);
    var service := new TransactionsService(mongo);
    var dto := CreateTransactionDto(w, "txn-001", Deposit, 100.0, EGP);
    assert CreateWork(dto, InsertFails, s).db.wallets[w].balance == 600.0;
    r := service.Create(dto, None, InsertFails);
    after := mongo.db;
    calls := mongo.calls;
  }
}
