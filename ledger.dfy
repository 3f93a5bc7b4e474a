/** What a run of `create` requests does to the ledger as a whole, each
    request in its own unit of work: the conservation of balances, the
    append-only transaction collection, and the refusal of replays. */
module Ledger {
  import opened Wrappers
  import opened Stores
  import opened MongoTransactions
  import opened Transactions

  /** The contents after the requests, one after the other. */
  function ProcessAll(s: Collections, dtos: seq<CreateTransactionDto>): Collections
    decreases |dtos|
  {
    if dtos == [] then s else ProcessAll(Apply(s, dtos[0]), dtos[1..])
  }

  /** The requests that were committed, in order. */
  function Accepted(s: Collections, dtos: seq<CreateTransactionDto>): seq<CreateTransactionDto>
    decreases |dtos|
  {
    if dtos == [] then []
    else (if Accepts(s, dtos[0]) then [dtos[0]] else []) + Accepted(Apply(s, dtos[0]), dtos[1..])
  }

  /** The signed EGP sum of the requests against wallet `w`. */
  function Net(w: WalletId, dtos: seq<CreateTransactionDto>): real
    decreases |dtos|
  {
    if dtos == [] then 0.0
    else (if dtos[0].wallet == w then Delta(dtos[0]) else 0.0) + Net(w, dtos[1..])
  }

  /** The external keys of the requests. */
  function Ids(dtos: seq<CreateTransactionDto>): set<TransactionKey>
    decreases |dtos|
  {
    if dtos == [] then {} else {dtos[0].transactionId} + Ids(dtos[1..])
  }

  lemma {:induction false} NetOfCons(w: WalletId, d: CreateTransactionDto, rest: seq<CreateTransactionDto>)
    ensures Net(w, [d] + rest) == (if d.wallet == w then Delta(d) else 0.0) + Net(w, rest)
  {
    assert ([d] + rest)[1..] == rest;
  }

  lemma {:induction false} IdsOfCons(d: CreateTransactionDto, rest: seq<CreateTransactionDto>)
    ensures Ids([d] + rest) == {d.transactionId} + Ids(rest)
  {
    assert ([d] + rest)[1..] == rest;
  }

  /** Conservation: every wallet keeps its owner, and its balance is its
      first balance plus the signed EGP sum of exactly the committed requests
      against it. */
  lemma {:induction false} BalanceConserved(s: Collections, dtos: seq<CreateTransactionDto>, w: WalletId)
    requires w in s.wallets
    ensures w in ProcessAll(s, dtos).wallets
    ensures ProcessAll(s, dtos).wallets[w].userId == s.wallets[w].userId
    ensures ProcessAll(s, dtos).wallets[w].balance == s.wallets[w].balance + Net(w, Accepted(s, dtos))
    decreases |dtos|
  {
    if dtos != [] {
      var d, s' := dtos[0], Apply(s, dtos[0]);
      BalanceConserved(s', dtos[1..], w);
      if Accepts(s, d) {
        NetOfCons(w, d, Accepted(s', dtos[1..]));
      } else {
        assert Accepted(s, dtos) == Accepted(s', dtos[1..]);
      }
    }
  }

  /** No request opens or closes a wallet. */
  lemma {:induction false} WalletsKept(s: Collections, dtos: seq<CreateTransactionDto>)
    ensures ProcessAll(s, dtos).wallets.Keys == s.wallets.Keys
    decreases |dtos|
  {
    if dtos != [] {
      WalletsKept(Apply(s, dtos[0]), dtos[1..]);
    }
  }

  /** Stored records never change: the transaction collection only grows. */
  lemma {:induction false} RecordsKept(s: Collections, dtos: seq<CreateTransactionDto>)
    ensures forall id :: id in s.transactions ==>
      id in ProcessAll(s, dtos).transactions && ProcessAll(s, dtos).transactions[id] == s.transactions[id]
    decreases |dtos|
  {
    if dtos != [] {
      RecordsKept(Apply(s, dtos[0]), dtos[1..]);
    }
  }

  /** The keys added are exactly those of the committed requests, none of
      which was stored before. */
  lemma {:induction false} KeysAppended(s: Collections, dtos: seq<CreateTransactionDto>)
    ensures ProcessAll(s, dtos).transactions.Keys == s.transactions.Keys + Ids(Accepted(s, dtos))
    ensures Ids(Accepted(s, dtos)) !! s.transactions.Keys
    decreases |dtos|
  {
    if dtos != [] {
      var d, s' := dtos[0], Apply(s, dtos[0]);
      KeysAppended(s', dtos[1..]);
      if Accepts(s, d) {
        IdsOfCons(d, Accepted(s', dtos[1..]));
        assert s'.transactions.Keys == s.transactions.Keys + {d.transactionId};
      } else {
        assert Accepted(s, dtos) == Accepted(s', dtos[1..]);
      }
    }
  }

  /** One record is added per committed request, so no two committed
      requests share a key. */
  lemma {:induction false} OneRecordPerCommit(s: Collections, dtos: seq<CreateTransactionDto>)
    ensures |ProcessAll(s, dtos).transactions| == |s.transactions| + |Accepted(s, dtos)|
    ensures |Ids(Accepted(s, dtos))| == |Accepted(s, dtos)|
    decreases |dtos|
  {
    if dtos != [] {
      var d, s' := dtos[0], Apply(s, dtos[0]);
      OneRecordPerCommit(s', dtos[1..]);
      if Accepts(s, d) {
        assert Accepted(s, dtos) == [d] + Accepted(s', dtos[1..]);
        assert s'.transactions.Keys == s.transactions.Keys + {d.transactionId};
        assert |s'.transactions.Keys| == |s.transactions.Keys| + 1;
      } else {
        assert Accepted(s, dtos) == Accepted(s', dtos[1..]);
      }
    }
    KeysAppended(s, dtos);
    var p := ProcessAll(s, dtos);
    assert |p.transactions.Keys| == |s.transactions.Keys| + |Ids(Accepted(s, dtos))|;
  }

  /** Every committed request's record is stored under its key. */
  lemma {:induction false} AcceptedRecorded(s: Collections, dtos: seq<CreateTransactionDto>, i: nat)
    requires i < |Accepted(s, dtos)|
    ensures Accepted(s, dtos)[i].transactionId in ProcessAll(s, dtos).transactions
    ensures ProcessAll(s, dtos).transactions[Accepted(s, dtos)[i].transactionId] == RecordOf(Accepted(s, dtos)[i])
    decreases |dtos|
  {
    var d, s' := dtos[0], Apply(s, dtos[0]);
    var rest := Accepted(s', dtos[1..]);
    if Accepts(s, d) {
      assert Accepted(s, dtos) == [d] + rest;
      if i == 0 {
        RecordsKept(s', dtos[1..]);
      } else {
        AcceptedRecorded(s', dtos[1..], i - 1);
      }
    } else {
      assert Accepted(s, dtos) == rest;
      AcceptedRecorded(s', dtos[1..], i);
    }
  }

  /** Submitting a key again, after its request was committed, is refused as
      a duplicate and changes nothing. */
  lemma ResubmissionRejected(s: Collections, dtos: seq<CreateTransactionDto>, d: CreateTransactionDto)
    requires d.transactionId in s.transactions || d.transactionId in Ids(Accepted(s, dtos))
    ensures CreateWork(d, NoFault, ProcessAll(s, dtos))
         == Step(ProcessAll(s, dtos), Err(BadRequest(DuplicateMessage)))
    ensures Apply(ProcessAll(s, dtos), d) == ProcessAll(s, dtos)
  {
    KeysAppended(s, dtos);
  }

  /** Applying a request twice is applying it once. */
  lemma ApplyIdempotent(s: Collections, d: CreateTransactionDto)
    ensures Apply(Apply(s, d), d) == Apply(s, d)
  {
  }

  /** When every balance is at least 0, it stays so: a deposit adds a
      non-negative amount, a withdrawal never takes more than the balance. */
  lemma {:induction false} SolventKept(s: Collections, dtos: seq<CreateTransactionDto>)
    requires Solvent(s)
    ensures Solvent(ProcessAll(s, dtos))
    decreases |dtos|
  {
    if dtos != [] {
      var d := dtos[0];
      if Accepts(s, d) {
        assert Solvent(Apply(s, d)) by {
          forall w | w in Apply(s, d).wallets ensures Apply(s, d).wallets[w].balance >= 0.0 {
            if w == d.wallet {
              assert Apply(s, d).wallets[w] == Updated(s, d);
            }
          }
        }
      }
      SolventKept(Apply(s, d), dtos[1..]);
    }
  }

  /** The transaction collection stays keyed by `transactionId`. */
  lemma {:induction false} KeyedKept(s: Collections, dtos: seq<CreateTransactionDto>)
    requires Keyed(s)
    ensures Keyed(ProcessAll(s, dtos))
    decreases |dtos|
  {
    if dtos != [] {
      KeyedKept(Apply(s, dtos[0]), dtos[1..]);
    }
  }

  lemma ProcessAllCons(s: Collections, d: CreateTransactionDto, rest: seq<CreateTransactionDto>)
    ensures ProcessAll(s, [d] + rest) == ProcessAll(Apply(s, d), rest)
  {
    assert ([d] + rest)[1..] == rest;
  }

  lemma AcceptedCons(s: Collections, d: CreateTransactionDto, rest: seq<CreateTransactionDto>)
    ensures Accepted(s, [d] + rest) == (if Accepts(s, d) then [d] else []) + Accepted(Apply(s, d), rest)
  {
    assert ([d] + rest)[1..] == rest;
  }

  /** The three deposits of the service's sequential-deposit test, under distinct keys. */
  function DepositRequests(w: WalletId): (dtos: seq<CreateTransactionDto>)
    ensures |dtos| == 3
    ensures dtos[0].transactionId != dtos[1].transactionId
    ensures dtos[0].transactionId != dtos[2].transactionId
    ensures dtos[1].transactionId != dtos[2].transactionId
  {
    var ids := ["txn-concurrent-1", "txn-concurrent-2", "txn-concurrent-3"];
    assert ids[0][15] != ids[1][15] && ids[0][15] != ids[2][15] && ids[1][15] != ids[2][15];
    [CreateTransactionDto(w, ids[0], Deposit, 100.0, EGP),
     CreateTransactionDto(w, ids[1], Deposit, 200.0, EGP),
     CreateTransactionDto(w, ids[2], Deposit, 150.0, EGP)]
  }

  /** Three deposits of 100, 200 and 150 EGP on a wallet holding 1000 leave 1450. */
  lemma SequentialDeposits(w: WalletId)
    ensures var s := Collections(map[w := Wallet("user-123", 1000.0)], map[]);
      && w in ProcessAll(s, DepositRequests(w)).wallets
      && ProcessAll(s, DepositRequests(w)).wallets[w].balance == 1450.0
  {
    var s := Collections(map[w := Wallet("user-123", 1000.0)], map[]);
    var dtos := DepositRequests(w);
    var d1, d2, d3 := dtos[0], dtos[1], dtos[2];
    var s1 := Apply(s, d1);
    var s2 := Apply(s1, d2);
    var s3 := Apply(s2, d3);
    assert s1.wallets[w].balance == 1100.0;
    assert s2.wallets[w].balance == 1300.0;
    assert s3.wallets[w].balance == 1450.0;
    ProcessAllCons(s, d1, [d2, d3]);
    ProcessAllCons(s1, d2, [d3]);
    ProcessAllCons(s2, d3, []);
    assert dtos == [d1] + [d2, d3] && [d2, d3] == [d2] + [d3] && [d3] == [d3] + [];
  }

  /** Deposits in priced currencies on existing wallets, under keys that are
      new and distinct, are all committed. */
  lemma {:induction false} FreshDepositsCommitted(s: Collections, dtos: seq<CreateTransactionDto>)
    requires forall i :: 0 <= i < |dtos| ==>
      && dtos[i].kind == Deposit && !dtos[i].currency.Unknown?
      && dtos[i].wallet in s.wallets && dtos[i].transactionId !in s.transactions
    requires forall i, j :: 0 <= i < j < |dtos| ==> dtos[i].transactionId != dtos[j].transactionId
    ensures Accepted(s, dtos) == dtos
    decreases |dtos|
  {
    if dtos != [] {
      var d, rest := dtos[0], dtos[1..];
      assert Accepts(s, d);
      var s' := Apply(s, d);
      forall i | 0 <= i < |rest|
        ensures rest[i].wallet in s'.wallets && rest[i].transactionId !in s'.transactions
      {
        assert rest[i] == dtos[i + 1];
      }
      FreshDepositsCommitted(s', rest);
      AcceptedCons(s, d, rest);
      assert dtos == [d] + rest;
    }
  }

  /** The same three deposits are all committed, so three records exist. */
  lemma SequentialDepositsRecorded(w: WalletId)
    ensures var s := Collections(map[w := Wallet("user-123", 1000.0)], map[]);
      && Accepted(s, DepositRequests(w)) == DepositRequests(w)
      && |ProcessAll(s, DepositRequests(w)).transactions| == 3
  {
    var s := Collections(map[w := Wallet("user-123", 1000.0)], map[]);
    FreshDepositsCommitted(s, DepositRequests(w));
    OneRecordPerCommit(s, DepositRequests(w));
  }

  /** The three requests of the service's mixed test, under distinct keys. */
  function MixedRequests(w: WalletId): (dtos: seq<CreateTransactionDto>)
    ensures |dtos| == 3
    ensures dtos[0].transactionId != dtos[1].transactionId
    ensures dtos[0].transactionId != dtos[2].transactionId
    ensures dtos[1].transactionId != dtos[2].transactionId
  {
    var ids := ["txn-mix-1", "txn-mix-2", "txn-mix-3"];
    assert ids[0][8] != ids[1][8] && ids[0][8] != ids[2][8] && ids[1][8] != ids[2][8];
    [CreateTransactionDto(w, ids[0], Deposit, 500.0, EGP),
     CreateTransactionDto(w, ids[1], Withdrawal, 300.0, EGP),
     CreateTransactionDto(w, ids[2], Deposit, 200.0, EGP)]
  }

  /** Each of the mixed requests in turn, one unit of work at a time. */
  lemma MixedSteps(w: WalletId)
    ensures var s := Collections(map[w := Wallet("user-123", 1000.0)], map[]);
      var dtos := MixedRequests(w);
      var s1 := Apply(s, dtos[0]);
      var s2 := Apply(s1, dtos[1]);
      && w in s1.wallets && s1.wallets[w].balance == 1500.0
      && w in s2.wallets && s2.wallets[w].balance == 1200.0
      && w in Apply(s2, dtos[2]).wallets && Apply(s2, dtos[2]).wallets[w].balance == 1400.0
  {
    var s := Collections(map[w := Wallet("user-123", 1000.0)], map[]);
    var dtos := MixedRequests(w);
    var s1 := Apply(s, dtos[0]);
    assert s1.wallets[w].balance == 1500.0;
    var s2 := Apply(s1, dtos[1]);
    assert s2.wallets[w].balance == 1200.0;
  }

  /** 1000, then +500, -300, +200 EGP: 1500, 1200, 1400. */
  lemma MixedDepositsAndWithdrawals(w: WalletId)
    ensures var s := Collections(map[w := Wallet("user-123", 1000.0)], map[]);
      var dtos := MixedRequests(w);
      && w in ProcessAll(s, dtos[..1]).wallets && ProcessAll(s, dtos[..1]).wallets[w].balance == 1500.0
      && w in ProcessAll(s, dtos[..2]).wallets && ProcessAll(s, dtos[..2]).wallets[w].balance == 1200.0
      && w in ProcessAll(s, dtos).wallets && ProcessAll(s, dtos).wallets[w].balance == 1400.0
  {
    var s := Collections(map[w := Wallet("user-123", 1000.0)], map[]);
    var dtos := MixedRequests(w);
    var d1, d2, d3 := dtos[0], dtos[1], dtos[2];
    var s1 := Apply(s, d1);
    var s2 := Apply(s1, d2);
    MixedSteps(w);
    ProcessAllCons(s, d1, []);
    ProcessAllCons(s, d1, [d2]);
    ProcessAllCons(s1, d2, []);
    ProcessAllCons(s, d1, [d2, d3]);
    ProcessAllCons(s1, d2, [d3]);
    ProcessAllCons(s2, d3, []);
    assert dtos[..1] == [d1] + [] && dtos[..2] == [d1] + [d2] && [d2] == [d2] + [];
    assert dtos == [d1] + [d2, d3] && [d2, d3] == [d2] + [d3] && [d3] == [d3] + [];
  }
}
