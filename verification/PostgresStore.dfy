/** The four lock operations as single statements (lock/internal/store/postgres.go). */
module PostgresStore {
  import opened Wrappers
  import opened LockRow

  /** How a statement fares: its reply may be lost after it has taken effect. */
  datatype Delivery = Delivered | ReplyLost | NotExecuted

  class PostgresStore {
    const table: LockTable

    constructor (table: LockTable)
      ensures this.table == table
    {
      this.table := table;
    }

    /** INSERT ... ON CONFLICT DO UPDATE ... WHERE ... RETURNING. */
    method AcquireLock(lockID: int, lockedBy: string, leaseDuration: int, d: Delivery)
      returns (r: Result<int, StoreError>)
      modifies table`rows
      ensures
        var (rows, granted) := Acquired(old(table.rows), lockID, lockedBy, leaseDuration, table.now);
        && table.rows == (if d == NotExecuted then old(table.rows) else rows)
        && r == (if d != Delivered then Err(StatementFailed)
                 else if granted.None? then Err(AlreadyHeld) else Ok(granted.value))
    {
      if d == NotExecuted {
        return Err(StatementFailed);
      }
      var returned: Option<(string, int)> := None;
      if lockID !in table.rows || !table.rows[lockID].locked || Expired(table.rows[lockID], table.now) {
        var expiry := table.now + LeaseMicros(leaseDuration);
        table.rows := table.rows[lockID := Row(true, Some(table.now), Some(lockedBy), Some(expiry), Some(table.now))];
        returned := Some((lockedBy, expiry));
      }
      if d == ReplyLost {
        return Err(StatementFailed);
      }
      if returned.None? || returned.value.0 != lockedBy {
        return Err(AlreadyHeld);
      }
      return Ok(returned.value.1);
    }

    /** UPDATE ... WHERE lock_id AND locked_by RETURNING. */
    method ReleaseLock(lockID: int, lockedBy: string, d: Delivery) returns (r: Result<int, StoreError>)
      modifies table`rows
      ensures
        var (rows, released) := Released(old(table.rows), lockID, lockedBy, table.now);
        && table.rows == (if d == NotExecuted then old(table.rows) else rows)
        && r == (if d != Delivered then Err(StatementFailed) else if !released then Err(NotHeld) else Ok(lockID))
    {
      if d == NotExecuted {
        return Err(StatementFailed);
      }
      var returned: Option<int> := None;
      if lockID in table.rows && table.rows[lockID].lockedBy == Some(lockedBy) {
        table.rows := table.rows[lockID := Row(false, None, None, None, Some(table.now))];
        returned := Some(lockID);
      }
      if d == ReplyLost {
        return Err(StatementFailed);
      }
      return if returned.None? then Err(NotHeld) else Ok(returned.value);
    }

    /** UPDATE ... WHERE lock_id AND locked_by AND locked RETURNING. */
    method UpdateLease(lockID: int, lockedBy: string, leaseDuration: int, d: Delivery)
      returns (r: Result<int, StoreError>)
      modifies table`rows
      ensures
        var (rows, renewed) := Renewed(old(table.rows), lockID, lockedBy, leaseDuration, table.now);
        && table.rows == (if d == NotExecuted then old(table.rows) else rows)
        && r == (if d != Delivered then Err(StatementFailed)
                 else if renewed.None? then Err(NotHeld) else Ok(renewed.value))
    {
      if d == NotExecuted {
        return Err(StatementFailed);
      }
      var returned: Option<int> := None;
      if lockID in table.rows && table.rows[lockID].lockedBy == Some(lockedBy) && table.rows[lockID].locked {
        var expiry := table.now + LeaseMicros(leaseDuration);
        table.rows := table.rows[lockID :=
          table.rows[lockID].(leaseExpiresAt := Some(expiry), updatedAt := Some(table.now))];
        returned := Some(expiry);
      }
      if d == ReplyLost {
        return Err(StatementFailed);
      }
      return if returned.None? then Err(NotHeld) else Ok(returned.value);
    }

    /** UPDATE ... WHERE locked AND lease_expires_at < now() RETURNING, and a loop over the rows. */
    method CleanupStaleLocks(d: Delivery) returns (r: Result<seq<int>, StoreError>)
      modifies table`rows
      ensures
        var ids := StaleIds(old(table.rows), table.now);
        && table.rows == (if d == NotExecuted then old(table.rows) else Cleared(old(table.rows), ids, table.now))
        && (r.Err? <==> d != Delivered)
        && (r.Ok? ==> Enumerates(r.value, ids))
    {
      if d == NotExecuted {
        return Err(StatementFailed);
      }
      var returned := StaleIds(table.rows, table.now);
      ghost var all := returned;
      table.rows := Cleared(table.rows, returned, table.now);
      if d == ReplyLost {
        return Err(StatementFailed);
      }
      var cleanedLocks: seq<int> := [];
      while returned != {}
        invariant returned <= all
        invariant Enumerates(cleanedLocks, all - returned)
        decreases returned
      {
        var lockID :| lockID in returned;
        cleanedLocks := cleanedLocks + [lockID];
        returned := returned - {lockID};
      }
      return Ok(cleanedLocks);
    }
  }
}
