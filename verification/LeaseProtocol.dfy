/** The lease protocol of the table lock, as steps of many instances on one table with one clock
    (lock/internal/table/locker.go, lock/internal/store/postgres.go, lock/internal/store/mysql.go).

    A statement of PostgreSQL reads the clock once. A transaction of MySQL reads it in each of its
    statements; while it goes on the clock moves and nobody else touches its rows.

    The locker throws away the expiry it is told, so what an instance has been granted is kept beside
    the table. A reply can be lost after its statement has taken effect; then the instance has been
    granted nothing. Each instance has its own lease duration. */
module LeaseProtocol {
  import opened Wrappers
  import opened LockRow
  import opened PostgresStore

  type Instance = string

  datatype World = World(rows: Rows, now: int, granted: map<(int, Instance), int>)

  datatype Event =
    | Acquire(id: int, who: Instance, d: Delivery)
    | Renew(id: int, who: Instance, d: Delivery)
    | Release(id: int, who: Instance, d: Delivery)
    | Cleanup(d: Delivery)
    | AcquireInTx(id: int, who: Instance, micros: nat, d: Delivery)
    | CleanupInTx(micros: nat, d: Delivery)
    | Tick(micros: nat)

  /** The lease duration of each instance, in nanoseconds. */
  type Leases = Instance -> int

  function Next(leases: Leases, w: World, e: Event): World {
    match e
    case Acquire(id, who, d) =>
      var (rows, granted) := Acquired(w.rows, id, who, leases(who), w.now);
      Granted(w, id, who, rows, granted, d)
    case Renew(id, who, d) =>
      var (rows, renewed) := Renewed(w.rows, id, who, leases(who), w.now);
      Granted(w, id, who, rows, renewed, d)
    case Release(id, who, d) =>
      // the instance has given its lease up, whatever becomes of the statement
      var given := w.(granted := w.granted - {(id, who)});
      if d == NotExecuted then given else given.(rows := Released(w.rows, id, who, w.now).0)
    case Cleanup(d) =>
      if d == NotExecuted then w else w.(rows := Cleared(w.rows, StaleIds(w.rows, w.now), w.now))
    case AcquireInTx(id, who, micros, d) =>
      // a missing row is inserted by the first statement, a row that exists is updated by the second
      var (rows, granted) := Acquired(w.rows, id, who, leases(who), WriteTime(w, e));
      Granted(w.(now := w.now + micros), id, who, rows, granted, d)
    case CleanupInTx(micros, d) =>
      var later := w.(now := w.now + micros);
      if d == NotExecuted then later else later.(rows := Cleared(w.rows, StaleIds(w.rows, w.now), later.now))
    case Tick(micros) => w.(now := w.now + micros)
  }

  function Granted(w: World, id: int, who: Instance, rows: Rows, expiry: Option<int>, d: Delivery): World {
    match d
    case NotExecuted => w
    case ReplyLost => w.(rows := rows)
    case Delivered =>
      if expiry.Some? then w.(rows := rows, granted := w.granted[(id, who) := expiry.value]) else w.(rows := rows)
  }

  function After(leases: Leases, w: World, events: seq<Event>): World {
    if events == [] then w else Next(leases, After(leases, w, events[..|events| - 1]), events[|events| - 1])
  }

  /** The lock is taken by this instance until the given time. */
  predicate LockedUntil(rows: Rows, id: int, who: Instance, expiry: int) {
    id in rows && rows[id].locked && rows[id].lockedBy == Some(who) && rows[id].leaseExpiresAt == Some(expiry)
  }

  /** An instance relies on a lease for as long as what it was granted has not passed. */
  predicate Relies(w: World, id: int, who: Instance) {
    (id, who) in w.granted && w.now <= w.granted[(id, who)]
  }

  // ----- Safety

  /** A lease that is relied on is in the table, with an expiry no earlier than what was granted. */
  ghost predicate Safe(leases: Leases, w: World) {
    && (forall key | key in w.granted :: w.granted[key] <= w.now + LeaseMicros(leases(key.1)))
    && forall id, who | Relies(w, id, who) ::
         exists expiry :: LockedUntil(w.rows, id, who, expiry) && w.granted[(id, who)] <= expiry
  }

  /** The time at which a transaction that acquires writes its row. */
  function WriteTime(w: World, e: Event): int
    requires e.AcquireInTx?
  {
    if e.id in w.rows then w.now + e.micros else w.now
  }

  predicate TakesSlowly(w: World, e: Event, id: int, who: Instance) {
    e.AcquireInTx? && e.id == id && e.who == who && e.d != NotExecuted && Takeable(w.rows, id, WriteTime(w, e))
  }

  predicate OwnBeat(e: Event, id: int, who: Instance) {
    e.Renew? && e.id == id && e.who == who && e.d != NotExecuted
  }

  /** No single step that ends in time takes an unexpired lease away from an instance that does not release it. */
  lemma StepHolds(leases: Leases, w: World, e: Event, id: int, who: Instance, expiry: int)
    requires LockedUntil(w.rows, id, who, expiry) && w.now <= expiry
    requires OwnBeat(e, id, who) || Next(leases, w, e).now <= expiry
    requires !(e.Release? && e.id == id && e.who == who)
    ensures LockedUntil(Next(leases, w, e).rows, id, who,
                        if OwnBeat(e, id, who) then w.now + LeaseMicros(leases(who)) else expiry)
  {
    hide LeaseMicros;
  }

  /** The step tells the instance of a lease. */
  predicate Grants(leases: Leases, w: World, e: Event, id: int, who: Instance) {
    match e
    case Acquire(_, _, d) => e.id == id && e.who == who && d == Delivered && Takeable(w.rows, id, w.now)
    case AcquireInTx(_, _, _, d) => d == Delivered && TakesSlowly(w, e, id, who)
    case Renew(_, _, d) => d == Delivered && OwnBeat(e, id, who) && HeldBy(w.rows, id, who) && w.rows[id].locked
    case _ => false
  }

  /** A lease that has just been granted is in the table as granted. */
  lemma GrantIsRecorded(leases: Leases, w: World, e: Event, id: int, who: Instance)
    requires Grants(leases, w, e, id, who)
    ensures
      var next := Next(leases, w, e);
      (id, who) in next.granted && LockedUntil(next.rows, id, who, next.granted[(id, who)])
  {
    hide LeaseMicros;
  }

  /** Any other step leaves what the instance was told, or it has given the lease up. */
  lemma NoGrantNoChange(leases: Leases, w: World, e: Event, id: int, who: Instance)
    requires !Grants(leases, w, e, id, who) && (id, who) in Next(leases, w, e).granted
    ensures (id, who) in w.granted && w.granted[(id, who)] == Next(leases, w, e).granted[(id, who)]
    ensures w.now <= Next(leases, w, e).now && !(e.Release? && e.id == id && e.who == who)
  {
    hide LeaseMicros;
  }

  /** A step that leaves an instance with a lease to rely on leaves that lease in the table. */
  lemma LeaseIsKept(leases: Leases, w: World, e: Event, id: int, who: Instance)
    requires Safe(leases, w) && Relies(Next(leases, w, e), id, who)
    ensures
      var next := Next(leases, w, e);
      exists expiry :: LockedUntil(next.rows, id, who, expiry) && next.granted[(id, who)] <= expiry
  {
    hide LeaseMicros, Next, LockedUntil, Grants;
    var next := Next(leases, w, e);
    if Grants(leases, w, e, id, who) {
      GrantIsRecorded(leases, w, e, id, who);
    } else {
      NoGrantNoChange(leases, w, e, id, who);
      assert Relies(w, id, who);
      var expiry :| LockedUntil(w.rows, id, who, expiry) && w.granted[(id, who)] <= expiry;
      StepHolds(leases, w, e, id, who, expiry);
    }
  }

  lemma NextIsSafe(leases: Leases, w: World, e: Event)
    requires Safe(leases, w)
    ensures Safe(leases, Next(leases, w, e))
  {
    hide LeaseMicros;
    var next := Next(leases, w, e);
    forall id, who | Relies(next, id, who)
      ensures exists expiry :: LockedUntil(next.rows, id, who, expiry) && next.granted[(id, who)] <= expiry
    {
      LeaseIsKept(leases, w, e, id, who);
    }
  }

  /** Lease safety: over every interleaving of acquiring, renewing, releasing, cleaning up and the
      clock, lost replies included, a granted lease that has neither passed nor been given up is in
      the table under the name of its holder. */
  lemma {:induction false} LeaseSafety(leases: Leases, w: World, events: seq<Event>)
    requires w.granted == map[]
    ensures Safe(leases, After(leases, w, events))
  {
    hide Next, LeaseMicros;
    if events != [] {
      LeaseSafety(leases, w, events[..|events| - 1]);
      NextIsSafe(leases, After(leases, w, events[..|events| - 1]), events[|events| - 1]);
    }
  }

  /** So no two instances ever rely on a lease of the same lock. */
  lemma MutualExclusion(leases: Leases, w: World, events: seq<Event>, id: int, a: Instance, b: Instance)
    requires w.granted == map[]
    requires Relies(After(leases, w, events), id, a) && Relies(After(leases, w, events), id, b)
    ensures a == b
  {
    LeaseSafety(leases, w, events);
  }

  /** As long as no reply is lost, the expiry in the table is the one that was granted. */
  ghost predicate Exact(w: World) {
    forall id, who | Relies(w, id, who) :: LockedUntil(w.rows, id, who, w.granted[(id, who)])
  }

  lemma {:induction false} GrantedIsExact(leases: Leases, w: World, events: seq<Event>)
    requires w.granted == map[]
    requires forall e | e in events :: e.Tick? || e.d != ReplyLost
    ensures Exact(After(leases, w, events))
  {
    hide Next, LeaseMicros;
    if events != [] {
      var front, last := events[..|events| - 1], events[|events| - 1];
      assert last in events;
      GrantedIsExact(leases, w, front);
      NextIsExact(leases, After(leases, w, front), last);
    }
  }

  lemma NextIsExact(leases: Leases, w: World, e: Event)
    requires Exact(w) && (e.Tick? || e.d != ReplyLost)
    ensures Exact(Next(leases, w, e))
  {
    hide LeaseMicros;
    var next := Next(leases, w, e);
    forall id, who | Relies(next, id, who)
      ensures LockedUntil(next.rows, id, who, next.granted[(id, who)])
    {
      assert Relies(w, id, who) ==> LockedUntil(w.rows, id, who, w.granted[(id, who)]);
    }
  }

  // ----- The heartbeat

  /** The time of the last renewal of an instance that took effect, or the given time. */
  function LastBeat(leases: Leases, w: World, events: seq<Event>, id: int, who: Instance, start: int): int {
    if events == [] then start
    else
      var front, last := events[..|events| - 1], events[|events| - 1];
      if OwnBeat(last, id, who) then After(leases, w, front).now
      else LastBeat(leases, w, front, id, who, start)
  }

  /** At no time has more than a lease passed since the last renewal. */
  ghost predicate InTime(leases: Leases, w: World, events: seq<Event>, id: int, who: Instance, start: int) {
    events == [] ||
    var front := events[..|events| - 1];
    && InTime(leases, w, front, id, who, start)
    && After(leases, w, events).now <= LastBeat(leases, w, events, id, who, start) + LeaseMicros(leases(who))
  }

  lemma {:induction false} HeartbeatHolds(
    leases: Leases, w: World, events: seq<Event>, id: int, who: Instance, start: int)
    requires LockedUntil(w.rows, id, who, start + LeaseMicros(leases(who)))
    requires w.now <= start + LeaseMicros(leases(who))
    requires forall e | e in events :: !(e.Release? && e.id == id && e.who == who)
    requires InTime(leases, w, events, id, who, start)
    ensures
      var after := After(leases, w, events);
      var beat := LastBeat(leases, w, events, id, who, start);
      && LockedUntil(after.rows, id, who, beat + LeaseMicros(leases(who)))
      && after.now <= beat + LeaseMicros(leases(who))
  {
    hide LeaseMicros, Next, LockedUntil;
    if events != [] {
      var front, last := events[..|events| - 1], events[|events| - 1];
      assert last in events;
      HeartbeatHolds(leases, w, front, id, who, start);
      var beat := LastBeat(leases, w, front, id, who, start);
      StepHolds(leases, After(leases, w, front), last, id, who, beat + LeaseMicros(leases(who)));
    }
  }

  /** What an event does to the holder of a lock. */
  predicate TakesOrClears(leases: Leases, w: World, e: Event, id: int, who: Instance) {
    || (e.Acquire? && e.id == id && Acquired(w.rows, id, e.who, leases(e.who), w.now).1.Some?)
    || (e.Cleanup? && id in StaleIds(w.rows, w.now))
    || (e.Release? && e.id == id && Released(w.rows, id, e.who, w.now).1)
    || (e.AcquireInTx? && e.id == id && Acquired(w.rows, id, e.who, leases(e.who), w.now + e.micros).1.Some?)
    || (e.CleanupInTx? && id in StaleIds(w.rows, w.now))
  }

  /** The event of an instance that locks, whichever store it uses. */
  predicate Locks(e: Event, id: int, who: Instance) {
    (e.Acquire? || e.AcquireInTx?) && e.id == id && e.who == who && e.d == Delivered
  }

  /** The time from which the lease of that event runs. */
  function LeaseStart(w: World, e: Event): int {
    if e.AcquireInTx? then WriteTime(w, e) else w.now
  }

  /** The heartbeat guarantee: from the moment an instance has locked, for as long as it does not
      unlock and each of its renewals lands within one lease of the one before, the row stays its own,
      nobody's acquire succeeds and no cleanup clears the row, on every trace. */
  lemma HeartbeatGuarantee(
    leases: Leases, w: World, lock: Event, events: seq<Event>, id: int, who: Instance, k: nat)
    requires Locks(lock, id, who) && Acquired(w.rows, id, who, leases(who), LeaseStart(w, lock)).1.Some?
    requires Next(leases, w, lock).now <= LeaseStart(w, lock) + LeaseMicros(leases(who))
    requires InTime(leases, Next(leases, w, lock), events, id, who, LeaseStart(w, lock))
    requires k < |events|
    requires forall e | e in events :: !(e.Release? && e.id == id && e.who == who)
    ensures
      var before := After(leases, Next(leases, w, lock), events[..k]);
      && HeldBy(before.rows, id, who)
      && !TakesOrClears(leases, before, events[k], id, who)
  {
    hide LeaseMicros, InTime, Next, TakesOrClears;
    var locked, start := Next(leases, w, lock), LeaseStart(w, lock);
    LockingLocks(leases, w, lock, id, who);
    InTimePrefix(leases, locked, events, id, who, start, k);
    InTimePrefix(leases, locked, events, id, who, start, k + 1);
    HeartbeatHolds(leases, locked, events[..k], id, who, start);
    assert events[k] in events;
    LastInTime(leases, locked, events[..k + 1], id, who, start);
    assert events[..k + 1][..k] == events[..k];
    NothingTaken(leases, After(leases, locked, events[..k]), events[k], id, who,
                 LastBeat(leases, locked, events[..k], id, who, start) + LeaseMicros(leases(who)));
  }

  lemma LockingLocks(leases: Leases, w: World, lock: Event, id: int, who: Instance)
    requires Locks(lock, id, who) && Acquired(w.rows, id, who, leases(who), LeaseStart(w, lock)).1.Some?
    ensures LockedUntil(Next(leases, w, lock).rows, id, who, LeaseStart(w, lock) + LeaseMicros(leases(who)))
  {
    hide LeaseMicros;
  }

  lemma LastInTime(leases: Leases, w: World, events: seq<Event>, id: int, who: Instance, start: int)
    requires events != [] && InTime(leases, w, events, id, who, start)
    ensures
      var front, last := events[..|events| - 1], events[|events| - 1];
      && (OwnBeat(last, id, who) ||
          Next(leases, After(leases, w, front), last).now <=
          LastBeat(leases, w, front, id, who, start) + LeaseMicros(leases(who)))
  {
    hide LeaseMicros, Next;
  }

  /** A step that ends while the lease runs takes nothing. */
  lemma NothingTaken(leases: Leases, w: World, e: Event, id: int, who: Instance, expiry: int)
    requires LockedUntil(w.rows, id, who, expiry) && w.now <= expiry
    requires OwnBeat(e, id, who) || Next(leases, w, e).now <= expiry
    requires !(e.Release? && e.id == id && e.who == who)
    ensures !TakesOrClears(leases, w, e, id, who) && HeldBy(w.rows, id, who)
  {
    hide LeaseMicros;
  }

  lemma {:induction false} InTimePrefix(
    leases: Leases, w: World, events: seq<Event>, id: int, who: Instance, start: int, k: nat)
    requires k <= |events| && InTime(leases, w, events, id, who, start)
    ensures InTime(leases, w, events[..k], id, who, start)
  {
    hide LeaseMicros;
    if k == |events| {
      assert events[..k] == events;
    } else {
      var front := events[..|events| - 1];
      InTimePrefix(leases, w, front, id, who, start, k);
      assert front[..k] == events[..k];
    }
  }

  // ----- Leases that end

  /** Whether another instance can take the lock after a grant and some time without a renewal. */
  predicate TakenOver(w: World, leases: Leases, id: int, who: Instance, other: Instance, micros: nat) {
    var locked := Next(leases, w, Acquire(id, who, Delivered));
    var later := Next(leases, locked, Tick(micros));
    Acquired(later.rows, id, other, leases(other), later.now).1.Some?
  }

  /** A holder that never renews keeps the lock for its lease in whole seconds, and not longer. */
  lemma TakenOverIff(w: World, leases: Leases, id: int, who: Instance, other: Instance, micros: nat)
    requires Acquired(w.rows, id, who, leases(who), w.now).1.Some?
    ensures TakenOver(w, leases, id, who, other, micros) <==> micros > LeaseMicros(leases(who))
  {
    hide LeaseMicros;
  }

  /** So a lease protects for all of its duration if and only if it has no fraction of a second that
      the clock can tell; a lease of less than a second protects for no time at all. */
  lemma LeaseProtectsIff(w: World, leases: Leases, id: int, who: Instance, other: Instance)
    requires Acquired(w.rows, id, who, leases(who), w.now).1.Some? && leases(who) >= 0
    ensures (forall micros: nat | micros * 1000 <= leases(who) :: !TakenOver(w, leases, id, who, other, micros))
            <==> leases(who) % NANOS_PER_SECOND < 1000
  {
    hide TakenOver;
    var d := leases(who);
    var seconds := d / NANOS_PER_SECOND;
    assert d == seconds * NANOS_PER_SECOND + d % NANOS_PER_SECOND;
    forall micros: nat
      ensures TakenOver(w, leases, id, who, other, micros) <==> micros > seconds * MICROS_PER_SECOND
    {
      TakenOverIff(w, leases, id, who, other, micros);
    }
    if d % NANOS_PER_SECOND >= 1000 {
      var micros := seconds * MICROS_PER_SECOND + 1;
      assert micros * 1000 <= d && TakenOver(w, leases, id, who, other, micros);
    }
  }
}
