/** The four lock operations as transactions of several statements (lock/internal/store/mysql.go), each
    with its own reading of the clock, and their agreement with the single statements. Transactions
    are taken to be atomic, and affected rows to be matched rows. */
module MySQLStore {
  import opened Wrappers
  import opened LockRow

  /** A transaction goes through, fails at one of its statements and is rolled back, or fails in its
      commit after the fact. */
  datatype TxFault = NoFault | FailsAt(statement: nat) | CommitReplyLost

  class MySQLStore {
    const table: LockTable

    constructor (table: LockTable)
      ensures this.table == table
    {
      this.table := table;
    }

    /** INSERT IGNORE at one time, then perhaps a guarded UPDATE at another, then a read-back: the row
        and the outcome are those of the single statement at the time of the statement that wrote. */
    method AcquireLock(lockID: int, lockedBy: string, leaseDuration: int, insertAt: int, updateAt: int, fault: TxFault)
      returns (r: Result<int, StoreError>)
      requires table.now <= insertAt <= updateAt
      modifies table
      ensures table.now == updateAt
      ensures
        var writeAt := if lockID in old(table.rows) then updateAt else insertAt;
        var (rows, granted) := Acquired(old(table.rows), lockID, lockedBy, leaseDuration, writeAt);
        && (fault == NoFault ==>
              && table.rows == rows
              && r == if granted.None? then Err(AlreadyHeld) else Ok(granted.value))
        && (fault == CommitReplyLost ==>
              && table.rows == rows
              && r == Err(if granted.None? then AlreadyHeld else StatementFailed))
        && (fault.FailsAt? && fault.statement < 2 ==> r == Err(StatementFailed))
        && (fault.FailsAt? && r.Err? ==> table.rows == old(table.rows))
        && (r.Ok? ==> table.rows == rows && granted == Some(r.value))
    {
      var leaseSeconds := LeaseSeconds(leaseDuration);
      var saved := table.rows;
      table.now := updateAt;
      if fault == FailsAt(0) {
        return Err(StatementFailed);
      }
      var inserted := 0;
      if lockID !in table.rows {
        table.rows := table.rows[lockID :=
          Row(true, Some(insertAt), Some(lockedBy), Some(insertAt + leaseSeconds * MICROS_PER_SECOND), Some(insertAt))];
        inserted := 1;
      }
      if fault == FailsAt(1) {
        table.rows := saved;
        return Err(StatementFailed);
      }
      if inserted == 0 {
        var affected := 0;
        if lockID in table.rows && (!table.rows[lockID].locked || Expired(table.rows[lockID], updateAt)) {
          table.rows := table.rows[lockID :=
            Row(true, Some(updateAt), Some(lockedBy), Some(updateAt + leaseSeconds * MICROS_PER_SECOND), Some(updateAt))];
          affected := 1;
        }
        if fault == FailsAt(2) {
          table.rows := saved;
          return Err(StatementFailed);
        }
        if affected == 0 {
          table.rows := saved;
          return Err(AlreadyHeld);
        }
      }
      var returnedLockedBy, leaseExpiresAt := table.rows[lockID].lockedBy, table.rows[lockID].leaseExpiresAt;
      if fault == FailsAt(3) || fault == FailsAt(4) {
        table.rows := saved;
        return Err(StatementFailed);
      }
      if fault == CommitReplyLost || returnedLockedBy != Some(lockedBy) || leaseExpiresAt.None? {
        return Err(StatementFailed);
      }
      return Ok(leaseExpiresAt.value);
    }

    method ReleaseLock(lockID: int, lockedBy: string, updateAt: int, fault: TxFault)
      returns (r: Result<int, StoreError>)
      requires table.now <= updateAt
      modifies table
      ensures table.now == updateAt
      ensures
        var (rows, released) := Released(old(table.rows), lockID, lockedBy, updateAt);
        && (fault == NoFault ==> table.rows == rows && r == if released then Ok(lockID) else Err(NotHeld))
        && (fault == CommitReplyLost ==>
              table.rows == rows && r == Err(if released then StatementFailed else NotHeld))
        && (r.Err? && fault != CommitReplyLost ==> table.rows == old(table.rows))
        && (fault == FailsAt(0) ==> r == Err(StatementFailed))
    {
      var saved := table.rows;
      table.now := updateAt;
      if fault == FailsAt(0) {
        return Err(StatementFailed);
      }
      var affected := 0;
      if lockID in table.rows && table.rows[lockID].lockedBy == Some(lockedBy) {
        table.rows := table.rows[lockID := Row(false, None, None, None, Some(updateAt))];
        affected := 1;
      }
      if fault == FailsAt(1) {
        table.rows := saved;
        return Err(StatementFailed);
      }
      if affected == 0 {
        table.rows := saved;
        return Err(NotHeld);
      }
      if fault.FailsAt? {
        table.rows := saved;
        return Err(StatementFailed);
      }
      return if fault == CommitReplyLost then Err(StatementFailed) else Ok(lockID);
    }

    method UpdateLease(lockID: int, lockedBy: string, leaseDuration: int, updateAt: int, fault: TxFault)
      returns (r: Result<int, StoreError>)
      requires table.now <= updateAt
      modifies table
      ensures table.now == updateAt
      ensures
        var (rows, renewed) := Renewed(old(table.rows), lockID, lockedBy, leaseDuration, updateAt);
        && (fault == NoFault ==> table.rows == rows && r == if renewed.Some? then Ok(renewed.value) else Err(NotHeld))
        && (fault == CommitReplyLost ==>
              table.rows == rows && r == Err(if renewed.Some? then StatementFailed else NotHeld))
        && (r.Err? && fault != CommitReplyLost ==> table.rows == old(table.rows))
        && (fault == FailsAt(0) ==> r == Err(StatementFailed))
    {
      var leaseSeconds := LeaseSeconds(leaseDuration);
      var saved := table.rows;
      table.now := updateAt;
      if fault == FailsAt(0) {
        return Err(StatementFailed);
      }
      var affected := 0;
      if lockID in table.rows && table.rows[lockID].lockedBy == Some(lockedBy) && table.rows[lockID].locked {
        table.rows := table.rows[lockID := table.rows[lockID].(
          leaseExpiresAt := Some(updateAt + leaseSeconds * MICROS_PER_SECOND), updatedAt := Some(updateAt))];
        affected := 1;
      }
      if fault == FailsAt(1) {
        table.rows := saved;
        return Err(StatementFailed);
      }
      if affected == 0 {
        table.rows := saved;
        return Err(NotHeld);
      }
      var leaseExpiresAt := table.rows[lockID].leaseExpiresAt;
      if fault.FailsAt? || leaseExpiresAt.None? {
        table.rows := saved;
        return Err(StatementFailed);
      }
      return if fault == CommitReplyLost then Err(StatementFailed) else Ok(leaseExpiresAt.value);
    }

    /** SELECT ... FOR UPDATE at one time, then an UPDATE of the selected IDs at another: exactly the
        rows stale at the first time are cleared, and exactly their IDs are returned. */
    method CleanupStaleLocks(selectAt: int, updateAt: int, fault: TxFault) returns (r: Result<seq<int>, StoreError>)
      requires table.now <= selectAt <= updateAt
      modifies table
      ensures table.now == updateAt
      ensures
        var ids := StaleIds(old(table.rows), selectAt);
        && (fault == NoFault ==> r.Ok?)
        && (fault == FailsAt(0) ==> r.Err?)
        && (r.Ok? ==> Enumerates(r.value, ids) && table.rows == Cleared(old(table.rows), ids, updateAt))
        && (fault == CommitReplyLost ==> r.Err? && table.rows == Cleared(old(table.rows), ids, updateAt))
        && (r.Err? && fault != CommitReplyLost ==> table.rows == old(table.rows))
    {
      var saved := table.rows;
      table.now := updateAt;
      if fault == FailsAt(0) {
        return Err(StatementFailed);
      }
      var selected := StaleIds(table.rows, selectAt);
      ghost var all := selected;
      var cleanedLocks: seq<int> := [];
      while selected != {}
        invariant selected <= all
        invariant Enumerates(cleanedLocks, all - selected)
        decreases selected
      {
        var lockID :| lockID in selected;
        cleanedLocks := cleanedLocks + [lockID];
        selected := selected - {lockID};
      }
      if |cleanedLocks| > 0 {
        var args := new int[|cleanedLocks|];
        for i := 0 to |cleanedLocks|
          invariant table.now == updateAt && table.rows == saved
          invariant args[..i] == cleanedLocks[..i]
        {
          args[i] := cleanedLocks[i];
        }
        assert args[..] == cleanedLocks;
        assert (set id | id in cleanedLocks) == all;
        table.rows := Cleared(table.rows, (set id | id in args[..]), updateAt);
      } else {
        assert all == {} by {
          assert forall id :: id in all <==> id in cleanedLocks;
        }
        assert Cleared(table.rows, {}, updateAt) == table.rows;
      }
      if fault.FailsAt? {
        table.rows := saved;
        return Err(StatementFailed);
      }
      return if fault == CommitReplyLost then Err(StatementFailed) else Ok(cleanedLocks);
    }
  }
}
