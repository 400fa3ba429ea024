/** The rows of the lock table and what the four lock statements mean for them
    (lock/internal/store/postgres.go). Times are microseconds of the server's clock, lease durations
    are nanoseconds. */
module LockRow {
  import opened Wrappers

  datatype Row = Row(
    locked: bool,
    lockedAt: Option<int>,
    lockedBy: Option<string>,
    leaseExpiresAt: Option<int>,
    updatedAt: Option<int>)

  type Rows = map<int, Row>

  const NANOS_PER_SECOND := 1_000_000_000
  const MICROS_PER_SECOND := 1_000_000

  /** A lease in whole seconds: the fraction is cut off, towards zero. */
  function LeaseSeconds(duration: int): int {
    if duration >= 0 then duration / NANOS_PER_SECOND else -(-duration / NANOS_PER_SECOND)
  }

  function LeaseMicros(duration: int): int {
    LeaseSeconds(duration) * MICROS_PER_SECOND
  }

  /** lease_expires_at < now(): no expiry compares as unknown, which is not true. */
  predicate Expired(row: Row, now: int) {
    row.leaseExpiresAt.Some? && row.leaseExpiresAt.value < now
  }

  predicate Takeable(rows: Rows, id: int, now: int) {
    id !in rows || !rows[id].locked || Expired(rows[id], now)
  }

  predicate HeldBy(rows: Rows, id: int, who: string) {
    id in rows && rows[id].lockedBy == Some(who)
  }

  predicate Stale(rows: Rows, id: int, now: int) {
    id in rows && rows[id].locked && Expired(rows[id], now)
  }

  function TakenRow(who: string, duration: int, now: int): Row {
    Row(true, Some(now), Some(who), Some(now + LeaseMicros(duration)), Some(now))
  }

  function ClearedRow(now: int): Row {
    Row(false, None, None, None, Some(now))
  }

  // ----- The statements

  datatype StoreError = AlreadyHeld | NotHeld | StatementFailed

  /** Take the lock: the new rows, and the expiry of the lease if it was granted. */
  function Acquired(rows: Rows, id: int, who: string, duration: int, now: int): (Rows, Option<int>) {
    if Takeable(rows, id, now) then
      (rows[id := TakenRow(who, duration, now)], Some(now + LeaseMicros(duration)))
    else (rows, None)
  }

  function Released(rows: Rows, id: int, who: string, now: int): (Rows, bool) {
    if HeldBy(rows, id, who) then (rows[id := ClearedRow(now)], true) else (rows, false)
  }

  /** Renew the lease; an expired lease that nobody has taken can be renewed too. */
  function Renewed(rows: Rows, id: int, who: string, duration: int, now: int): (Rows, Option<int>) {
    if HeldBy(rows, id, who) && rows[id].locked then
      var expiry := now + LeaseMicros(duration);
      (rows[id := rows[id].(leaseExpiresAt := Some(expiry), updatedAt := Some(now))], Some(expiry))
    else (rows, None)
  }

  function StaleIds(rows: Rows, now: int): set<int> {
    set id | id in rows && Stale(rows, id, now)
  }

  /** Clear the rows with the given IDs. */
  function Cleared(rows: Rows, ids: set<int>, now: int): Rows {
    map id | id in rows :: if id in ids then ClearedRow(now) else rows[id]
  }

  /** A list that names each member of a set once. */
  ghost predicate Enumerates(ids: seq<int>, s: set<int>) {
    && (forall id :: id in ids <==> id in s)
    && forall i, j :: 0 <= i < j < |ids| ==> ids[i] != ids[j]
  }

  /** The lock table on its server. */
  class LockTable {
    var rows: Rows
    var now: int

    constructor ()
      ensures rows == map[]
    {
      rows, now := map[], 0;
    }
  }
}
