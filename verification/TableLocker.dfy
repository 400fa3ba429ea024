/** The table-based locker (lock/internal/table/locker.go): a mutex held from Lock to Unlock, a bounded
    number of attempts, and a heartbeat that renews the lease in between, on either store. Other
    instances and the clock move the shared table between the statements of this one. */
module TableLocker {
  import opened Wrappers
  import opened LockRow
  import opened PostgresStore
  import opened MySQLStore

  /** The two stores: one statement at one time, or a transaction that reads the clock more than once. */
  datatype StoreKind = SingleStatements | Transactions

  /** What happens around one attempt: where others have brought the table, how much time has passed
      since the attempt before, how long a transaction of the attempt and one of its clean-up go on, and
      how the two fare. */
  datatype Attempt = Attempt(
    rows: Rows, elapsed: nat, micros: nat, cleanupMicros: nat, statement: Delivery, cleanup: Delivery)

  datatype LockError = TableFailed | NotAcquired(error: StoreError) | NotReleased(error: StoreError)

  /** A retry policy; without one every error is retried. */
  type RetryPolicy = Option<StoreError -> bool>

  function ShouldRetry(policy: RetryPolicy, e: StoreError): bool {
    match policy
    case Some(f) => f(e)
    case None => true
  }

  /** What a locker is made with. */
  datatype Setup = Setup(kind: StoreKind, id: int, who: string, lease: int, policy: RetryPolicy)

  datatype Goal = ToAcquire | ToRelease

  // ----- One attempt

  /** The time that passes in an operation of the store. */
  function Spent(kind: StoreKind, micros: nat): nat {
    if kind == Transactions then micros else 0
  }

  /** The time at which a lock that is taken is written: a transaction inserts a missing row with its
      first statement and updates one that exists with its second. */
  function WriteAt(s: Setup, rows: Rows, micros: nat, at: int): int {
    if s.id in rows then at + Spent(s.kind, micros) else at
  }

  function DoneAt(s: Setup, a: Attempt, at: int): int {
    at + Spent(s.kind, a.micros)
  }

  /** The time at which a failed attempt has ended, with its clean-up if it was one to acquire. */
  function EndOf(goal: Goal, s: Setup, a: Attempt, at: int): int {
    DoneAt(s, a, at) + if goal == ToAcquire then Spent(s.kind, a.cleanupMicros) else 0
  }

  /** What to say when the statement could do nothing, or when its effect goes unheard. */
  function Refused(s: Setup, d: Delivery, e: StoreError): StoreError {
    if s.kind == SingleStatements && d == ReplyLost then StatementFailed else e
  }

  /** The result of the operation of an attempt that begins at a time. */
  function Outcome(goal: Goal, s: Setup, a: Attempt, at: int): Result<int, StoreError> {
    if a.statement == NotExecuted then Err(StatementFailed)
    else if goal == ToAcquire then
      match Acquired(a.rows, s.id, s.who, s.lease, WriteAt(s, a.rows, a.micros, at)).1
      case Some(expiry) => if a.statement == Delivered then Ok(expiry) else Err(StatementFailed)
      case None => Err(Refused(s, a.statement, AlreadyHeld))
    else if Released(a.rows, s.id, s.who, DoneAt(s, a, at)).1 then
      if a.statement == Delivered then Ok(s.id) else Err(StatementFailed)
    else Err(Refused(s, a.statement, NotHeld))
  }

  /** The rows after the operation of an attempt. */
  function RowsAfter(goal: Goal, s: Setup, a: Attempt, at: int): Rows {
    if a.statement == NotExecuted then a.rows
    else if goal == ToAcquire then Acquired(a.rows, s.id, s.who, s.lease, WriteAt(s, a.rows, a.micros, at)).0
    else Released(a.rows, s.id, s.who, DoneAt(s, a, at)).0
  }

  /** What a failed attempt to acquire leaves, after the clean-up that follows it. */
  function AfterFailure(s: Setup, a: Attempt, at: int): Rows {
    var rows := RowsAfter(ToAcquire, s, a, at);
    if a.cleanup == NotExecuted then rows
    else Cleared(rows, StaleIds(rows, DoneAt(s, a, at)), EndOf(ToAcquire, s, a, at))
  }

  /** A successful attempt to acquire has written the row of this instance. */
  lemma AcquiringWrites(s: Setup, a: Attempt, at: int)
    requires Outcome(ToAcquire, s, a, at).Ok?
    ensures
      var writtenAt := WriteAt(s, a.rows, a.micros, at);
      && Outcome(ToAcquire, s, a, at) == Ok(writtenAt + LeaseMicros(s.lease))
      && RowsAfter(ToAcquire, s, a, at) == a.rows[s.id := TakenRow(s.who, s.lease, writtenAt)]
  {
    hide LeaseMicros, WriteAt;
  }

  // ----- The attempts of a call

  datatype Decision = Decision(attempt: nat, at: int, result: Result<int, StoreError>)

  /** The attempts from the k-th on, up to the one that decides. */
  function Decide(goal: Goal, s: Setup, attempts: seq<Attempt>, now: int, k: nat): Decision
    requires k < |attempts|
    decreases |attempts| - k
  {
    var at := now + attempts[k].elapsed;
    var result := Outcome(goal, s, attempts[k], at);
    if result.Ok? || !ShouldRetry(s.policy, result.error) || k == |attempts| - 1 then Decision(k, at, result)
    else Decide(goal, s, attempts, EndOf(goal, s, attempts[k], at), k + 1)
  }

  /** The server's clock at the beginning of the k-th attempt, if all before it fail. */
  function Clock(goal: Goal, s: Setup, attempts: seq<Attempt>, start: int, k: nat): int
    requires k < |attempts|
  {
    (if k == 0 then start else EndOf(goal, s, attempts[k - 1], Clock(goal, s, attempts, start, k - 1)))
    + attempts[k].elapsed
  }

  /** The attempt that decides is the first that succeeds or fails with an error that is not retried,
      or else the last: all before it failed and were retried. */
  lemma {:induction false} DecisionMeaning(goal: Goal, s: Setup, attempts: seq<Attempt>, start: int, k: nat)
    requires k < |attempts|
    ensures
      var now := Clock(goal, s, attempts, start, k) - attempts[k].elapsed;
      var d := Decide(goal, s, attempts, now, k);
      && k <= d.attempt < |attempts| && d.at == Clock(goal, s, attempts, start, d.attempt)
      && d.result == Outcome(goal, s, attempts[d.attempt], d.at)
      && (d.result.Ok? || !ShouldRetry(s.policy, d.result.error) || d.attempt == |attempts| - 1)
      && forall j: nat | k <= j < d.attempt ::
           var outcome := Outcome(goal, s, attempts[j], Clock(goal, s, attempts, start, j));
           outcome.Err? && ShouldRetry(s.policy, outcome.error)
    decreases |attempts| - k
  {
    hide Outcome, ShouldRetry, EndOf;
    var at := Clock(goal, s, attempts, start, k);
    var result := Outcome(goal, s, attempts[k], at);
    if !(result.Ok? || !ShouldRetry(s.policy, result.error) || k == |attempts| - 1) {
      DecisionMeaning(goal, s, attempts, start, k + 1);
    }
  }

  // ----- The locker

  /** How a transaction fares that is delivered, loses its reply, or does not take place. */
  function FaultOf(d: Delivery): TxFault {
    match d
    case Delivered => NoFault
    case ReplyLost => CommitReplyLost
    case NotExecuted => FailsAt(0)
  }

  class Locker {
    const table: LockTable
    const statements: PostgresStore
    const transactions: MySQLStore
    const kind: StoreKind
    const lockID: int
    const instanceID: string
    const leaseDuration: int
    const retryPolicy: RetryPolicy
    var mu: bool
    var heartbeats: nat        // heartbeats that are running
    var heartbeatCancel: bool  // whether one can be cancelled

    function SetupOf(): Setup {
      Setup(kind, lockID, instanceID, leaseDuration, retryPolicy)
    }

    ghost predicate Valid()
      reads this
    {
      && statements.table == table && transactions.table == table
      && heartbeats == (if heartbeatCancel then 1 else 0)
    }

    /** Between calls: nothing is held and nothing runs. */
    ghost predicate Unlocked()
      reads this
    {
      Valid() && !mu && heartbeats == 0
    }

    /** Between a successful Lock and its Unlock: the mutex is held and exactly one heartbeat runs. */
    ghost predicate LockedState()
      reads this
    {
      Valid() && mu && heartbeats == 1
    }

    constructor (table: LockTable, setup: Setup)
      ensures Unlocked() && fresh(statements) && fresh(transactions)
      ensures this.table == table && SetupOf() == setup
    {
      this.table, kind := table, setup.kind;
      lockID, instanceID, leaseDuration, retryPolicy := setup.id, setup.who, setup.lease, setup.policy;
      statements := new PostgresStore(table);
      transactions := new MySQLStore(table);
      mu, heartbeats, heartbeatCancel := false, 0, false;
    }

    // ----- One operation of the store

    method AcquireOnce(ghost a: Attempt, micros: nat, d: Delivery) returns (r: Result<int, StoreError>)
      requires Valid() && a.rows == table.rows && a.micros == micros && a.statement == d
      modifies table
      ensures r == Outcome(ToAcquire, SetupOf(), a, old(table.now))
      ensures table.rows == RowsAfter(ToAcquire, SetupOf(), a, old(table.now))
      ensures table.now == DoneAt(SetupOf(), a, old(table.now))
    {
      if kind == SingleStatements {
        r := statements.AcquireLock(lockID, instanceID, leaseDuration, d);
      } else {
        r := transactions.AcquireLock(
          lockID, instanceID, leaseDuration, table.now, table.now + micros, FaultOf(d));
      }
    }

    method ReleaseOnce(ghost a: Attempt, micros: nat, d: Delivery) returns (r: Result<int, StoreError>)
      requires Valid() && a.rows == table.rows && a.micros == micros && a.statement == d
      modifies table
      ensures r == Outcome(ToRelease, SetupOf(), a, old(table.now))
      ensures table.rows == RowsAfter(ToRelease, SetupOf(), a, old(table.now))
      ensures table.now == DoneAt(SetupOf(), a, old(table.now))
    {
      if kind == SingleStatements {
        r := statements.ReleaseLock(lockID, instanceID, d);
      } else {
        r := transactions.ReleaseLock(lockID, instanceID, table.now + micros, FaultOf(d));
      }
    }

    method CleanupOnce(micros: nat, d: Delivery)
      requires Valid()
      modifies table
      ensures table.now == old(table.now) + Spent(kind, micros)
      ensures table.rows ==
        if d == NotExecuted then old(table.rows)
        else Cleared(old(table.rows), StaleIds(old(table.rows), old(table.now)), table.now)
    {
      if kind == SingleStatements {
        var cleaned := statements.CleanupStaleLocks(d);
      } else {
        var cleaned := transactions.CleanupStaleLocks(table.now, table.now + micros, FaultOf(d));
      }
    }

    // ----- The heartbeat

    method StopHeartbeat()
      requires Valid()
      modifies this`heartbeats, this`heartbeatCancel
      ensures Valid() && heartbeats == 0
    {
      if heartbeatCancel {
        heartbeats := heartbeats - 1;
        heartbeatCancel := false;
      }
    }

    method StartHeartbeat()
      requires Valid()
      modifies this`heartbeats, this`heartbeatCancel
      ensures Valid() && heartbeats == 1
    {
      StopHeartbeat();
      heartbeatCancel := true;
      heartbeats := heartbeats + 1;
    }

    /** One tick of the heartbeat: renew the lease; a failure is only logged. */
    method Beat(micros: nat, d: Delivery)
      requires Valid() && heartbeats == 1
      modifies table
      ensures table.now == old(table.now) + Spent(kind, micros)
      ensures
        table.rows ==
        if d == NotExecuted then old(table.rows)
        else Renewed(old(table.rows), lockID, instanceID, leaseDuration, table.now).0
    {
      if kind == SingleStatements {
        var result := statements.UpdateLease(lockID, instanceID, leaseDuration, d);
      } else {
        var result := transactions.UpdateLease(
          lockID, instanceID, leaseDuration, table.now + micros, FaultOf(d));
      }
    }

    // ----- Lock and Unlock

    /** Lock takes the mutex and tries to acquire the lock, cleaning up stale locks after each failure.
        The attempts are those of the retry policy, at most one more than the failure threshold. The
        call succeeds exactly when the deciding attempt does; then the row is this instance's with
        the expiry it was told, the mutex stays held and exactly one heartbeat runs. After a failure
        neither, and the rows are as the deciding attempt and its clean-up leave them. */
    method Lock(tableOk: bool, attempts: seq<Attempt>) returns (r: Result<int, LockError>)
      requires Unlocked() && |attempts| > 0
      modifies this`mu, this`heartbeats, this`heartbeatCancel, table
      ensures r.Ok? ==> LockedState()
      ensures r.Err? ==> Unlocked()
      ensures !tableOk ==> r == Err(TableFailed) && table.rows == old(table.rows) && table.now == old(table.now)
      ensures tableOk ==>
        var s := SetupOf();
        var d := Decide(ToAcquire, s, attempts, old(table.now), 0);
        && d.attempt < |attempts|
        && var a := attempts[d.attempt];
           match d.result
           case Ok(expiry) =>
             var writtenAt := WriteAt(s, a.rows, a.micros, d.at);
             && r == Ok(expiry) && expiry == writtenAt + LeaseMicros(leaseDuration)
             && table.rows == a.rows[lockID := TakenRow(instanceID, leaseDuration, writtenAt)]
             && table.now == DoneAt(s, a, d.at)
           case Err(e) =>
             && r == Err(NotAcquired(e))
             && table.rows == AfterFailure(s, a, d.at)
             && table.now == EndOf(ToAcquire, s, a, d.at)
    {
      hide LeaseMicros, Outcome, RowsAfter, WriteAt, TakenRow, Cleared, StaleIds, ShouldRetry;
      mu := true;
      if !tableOk {
        mu := false;
        return Err(TableFailed);
      }
      ghost var d := Decide(ToAcquire, SetupOf(), attempts, table.now, 0);
      var k := 0;
      while true
        invariant 0 <= k < |attempts| && Valid() && mu && heartbeats == 0
        invariant d == Decide(ToAcquire, SetupOf(), attempts, table.now, k)
        decreases |attempts| - k
      {
        table.rows := attempts[k].rows;
        table.now := table.now + attempts[k].elapsed;
        var expiry := AcquireOnce(attempts[k], attempts[k].micros, attempts[k].statement);
        if expiry.Ok? {
          AcquiringWrites(SetupOf(), attempts[k], d.at);
          StartHeartbeat();
          return Ok(expiry.value);
        }
        CleanupOnce(attempts[k].cleanupMicros, attempts[k].cleanup);
        if !ShouldRetry(retryPolicy, expiry.error) || k == |attempts| - 1 {
          mu := false;
          return Err(NotAcquired(expiry.error));
        }
        k := k + 1;
      }
    }

    /** Unlock stops the heartbeat before it tries to release, and gives the mutex back whatever comes
        of it. The call succeeds exactly when the deciding attempt finds the row held by this instance
        and hears of its release; the rows are as that attempt leaves them. */
    method Unlock(attempts: seq<Attempt>) returns (r: Result<int, LockError>)
      requires LockedState() && |attempts| > 0
      modifies this`mu, this`heartbeats, this`heartbeatCancel, table
      ensures Unlocked()
      ensures
        var s := SetupOf();
        var d := Decide(ToRelease, s, attempts, old(table.now), 0);
        && d.attempt < |attempts|
        && var a := attempts[d.attempt];
           && r == (if d.result.Ok? then Ok(lockID) else Err(NotReleased(d.result.error)))
           && table.rows == RowsAfter(ToRelease, s, a, d.at)
           && (r.Ok? ==> table.rows == a.rows[lockID := ClearedRow(table.now)])
           && table.now == DoneAt(s, a, d.at)
    {
      StopHeartbeat();
      ghost var d := Decide(ToRelease, SetupOf(), attempts, table.now, 0);
      var k := 0;
      while true
        invariant 0 <= k < |attempts| && Valid() && mu && heartbeats == 0
        invariant d == Decide(ToRelease, SetupOf(), attempts, table.now, k)
        decreases |attempts| - k
      {
        table.rows := attempts[k].rows;
        table.now := table.now + attempts[k].elapsed;
        var released := ReleaseOnce(attempts[k], attempts[k].micros, attempts[k].statement);
        if released.Ok? || !ShouldRetry(retryPolicy, released.error) || k == |attempts| - 1 {
          mu := false;
          return if released.Ok? then Ok(released.value) else Err(NotReleased(released.error));
        }
        k := k + 1;
      }
    }
  }
}
