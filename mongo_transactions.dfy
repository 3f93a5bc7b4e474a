/** The unit of work around every ledger request: `runInTransaction` runs a
    callback inside a database transaction on a fresh session, commits when
    the callback succeeds, aborts and rethrows when it (or the commit) fails,
    and always ends the session; given a session the caller already holds,
    it runs the callback on that session and does nothing else. */
module MongoTransactions {
  import opened Wrappers
  import opened Stores

  /** What a callback did through its session: the contents of both
      collections after its writes, and its result or the error it threw. */
  datatype Step<T> = Step(db: Collections, outcome: Result<T>)

  /** The callback handed to `runInTransaction`. It sees both collections
      through the session and returns what it wrote and what it produced. */
  type Work<T> = Collections -> Step<T>

  /** Where the service's current session is in its life. */
  datatype SessionStatus = Idle | Started | InTransaction | Committed | Aborted | Ended

  /** The session calls the service makes, in the order it makes them. */
  datatype SessionCall =
    | StartSessionCall | StartTransactionCall | CommitCall | AbortCall | EndSessionCall

  /** The session calls of one `runInTransaction` on a new session, given
      whether the callback succeeded and whether the whole call failed. */
  function Lifecycle(workSucceeded: bool, failed: bool): (calls: seq<SessionCall>)
    ensures 3 <= |calls| <= 5
    ensures calls[0] == StartSessionCall && calls[1] == StartTransactionCall
    ensures calls[|calls| - 1] == EndSessionCall
    ensures CommitCall in calls <==> workSucceeded
    ensures AbortCall in calls <==> failed
  {
    [StartSessionCall, StartTransactionCall]
      + (if workSucceeded then [CommitCall] else [])
      + (if failed then [AbortCall] else [])
      + [EndSessionCall]
  }

  class MongoTransactionsService {
    /** Both collections as reached through the connection, including the
        writes of a transaction that is still open. */
    var db: Collections
    /** The state of the session this service started last. */
    var status: SessionStatus
    /** The contents of both collections when the current transaction began. */
    var snapshot: Collections
    /** Every session call made so far. */
    var calls: seq<SessionCall>

    /** No session of this service is open. */
    predicate Quiescent()
      reads this
    {
      status == Idle || status == Ended
    }

    constructor (initial: Collections)
      ensures db == initial && status == Idle && calls == []
    {
      db := initial;
      status := Idle;
      snapshot := initial;
      calls := [];
    }

    /** `connection.startSession()`. */
    method StartSession()
      requires Quiescent()
      modifies this
      ensures status == Started
      ensures calls == old(calls) + [StartSessionCall]
      ensures db == old(db) && snapshot == old(snapshot)
    {
      status := Started;
      calls := calls + [StartSessionCall];
    }

    /** `session.startTransaction()`: from here on, abort returns to the current contents. */
    method StartTransaction()
      requires status == Started
      modifies this
      ensures status == InTransaction
      ensures snapshot == db == old(db)
      ensures calls == old(calls) + [StartTransactionCall]
    {
      status := InTransaction;
      snapshot := db;
      calls := calls + [StartTransactionCall];
    }

    /** `session.commitTransaction()`: the writes stay. The store may make
        the commit throw; `failure` is the error it throws then, and the
        transaction is still open afterwards. */
    method CommitTransaction(failure: Option<Error>) returns (thrown: Option<Error>)
      requires status == InTransaction
      modifies this
      ensures thrown == failure
      ensures status == (if failure.None? then Committed else InTransaction)
      ensures db == old(db) && snapshot == old(snapshot)
      ensures calls == old(calls) + [CommitCall]
    {
      thrown := failure;
      if failure.None? {
        status := Committed;
      }
      calls := calls + [CommitCall];
    }

    /** `session.abortTransaction()`: every write since the transaction began is undone. */
    method AbortTransaction()
      requires status == InTransaction
      modifies this
      ensures status == Aborted
      ensures db == old(snapshot) && snapshot == old(snapshot)
      ensures calls == old(calls) + [AbortCall]
    {
      status := Aborted;
      db := snapshot;
      calls := calls + [AbortCall];
    }

    /** `session.endSession()`. */
    method EndSession()
      requires !Quiescent()
      modifies this
      ensures status == Ended
      ensures db == old(db) && snapshot == old(snapshot)
      ensures calls == old(calls) + [EndSessionCall]
    {
      status := Ended;
      calls := calls + [EndSessionCall];
    }

    /** `runInTransaction(fn, existingSession)`. `commitFailure` is what the
        store makes `commitTransaction` throw, if anything. */
    method RunInTransaction<T>(fn: Work<T>, existingSession: bool, commitFailure: Option<Error>)
      returns (r: Result<T>)
      requires Quiescent()
      modifies this
      ensures Quiescent()
      // With a session given, fn runs on it and its result or error comes back as is;
      // no session call is made.
      ensures existingSession ==>
        && r == fn(old(db)).outcome
        && db == fn(old(db)).db
        && status == old(status) && snapshot == old(snapshot) && calls == old(calls)
      // Otherwise: the result is fn's, unless fn or the commit threw, and then it is
      // that same error.
      ensures !existingSession ==>
        r == (if fn(old(db)).outcome.Err? then fn(old(db)).outcome
              else if commitFailure.Some? then Err(commitFailure.value)
              else fn(old(db)).outcome)
      // All or nothing: the writes of fn stay exactly when the call succeeds.
      ensures !existingSession ==> db == (if r.Ok? then fn(old(db)).db else old(db))
      // Start, begin, commit only after success, abort only on failure, end always.
      ensures !existingSession ==>
        && status == Ended
        && calls == old(calls) + Lifecycle(fn(old(db)).outcome.Ok?, r.Err?)
    {
      if existingSession {
        var step := fn(db);
        db := step.db;
        r := step.outcome;
        return;
      }
      StartSession();
      StartTransaction();
      var step := fn(db);
      db := step.db;
      var thrown: Option<Error>;
      if step.outcome.Ok? {
        thrown := CommitTransaction(commitFailure);
      } else {
        thrown := Some(step.outcome.error);
      }
      if thrown.Some? {
        AbortTransaction();
        r := Err(thrown.value);
      } else {
        r := step.outcome;
      }
      EndSession();
    }
  }
}
