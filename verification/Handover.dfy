/** A lock that is given up can be had again (lock/internal/store/postgres.go, lock/internal/store/mysql.go,
    lock/internal/table/locker.go): who is granted a lock that has been released, cleaned up, or whose
    lease has run out, over every interleaving with the steps of others. */
module Handover {
  import opened Wrappers
  import opened LockRow
  import opened PostgresStore
  import opened LeaseProtocol
  import T = TableLocker

  // ----- Who is granted a lock

  /** There is no row, nobody holds it, or its lease has run out at the time. A held row without an
      expiry is held for good. */
  predicate Available(rows: Rows, id: int, at: int) {
    if id !in rows || rows[id].locked == false then true
    else
      match rows[id].leaseExpiresAt
      case Some(expiry) => expiry < at
      case None => false
  }

  /** A step in which an instance tries to acquire a lock and hears the answer. */
  predicate Asks(e: Event, id: int, who: Instance) {
    (e.Acquire? || e.AcquireInTx?) && e.id == id && e.who == who && e.d == Delivered
  }

  /** The time at which its row is written: a transaction that finds a row writes it at its end. */
  function AskedAt(w: World, e: Event): int
    requires e.Acquire? || e.AcquireInTx?
  {
    if e.AcquireInTx? && e.id in w.rows then w.now + e.micros else w.now
  }

  /** An instance that asks for a lock gets it if and only if the lock is available. If it does, the row is
      its own, locked, with the expiry it is told, which is its lease in whole seconds from then. If it
      does not, no row changes and nobody is told of a lease. Other rows are never touched. */
  lemma GrantedIff(leases: Leases, w: World, e: Event, id: int, who: Instance)
    requires Asks(e, id, who)
    ensures
      var next := Next(leases, w, e);
      var at := AskedAt(w, e);
      if Available(w.rows, id, at) then
        && next.rows.Keys == w.rows.Keys + {id}
        && next.rows[id] == Row(true, Some(at), Some(who), Some(at + LeaseMicros(leases(who))), Some(at))
        && (forall other | other in w.rows && other != id :: next.rows[other] == w.rows[other])
        && next.granted == w.granted[(id, who) := at + LeaseMicros(leases(who))]
      else next.rows == w.rows && next.granted == w.granted
  {
    hide LeaseMicros;
  }

  // ----- What makes a lock available

  /** Nobody holds the row, nor could renew it. */
  predicate Free(rows: Rows, id: int) {
    id !in rows || (rows[id].locked == false && rows[id].lockedBy == None)
  }

  /** A step that may take the lock. */
  predicate Takes(e: Event, id: int) {
    (e.Acquire? || e.AcquireInTx?) && e.id == id && e.d != NotExecuted
  }

  /** A step that may prolong a lease of the lock. */
  predicate Prolongs(e: Event, id: int) {
    e.Renew? && e.id == id && e.d != NotExecuted
  }

  lemma StepStaysFree(leases: Leases, w: World, e: Event, id: int)
    requires Free(w.rows, id) && !Takes(e, id)
    ensures Free(Next(leases, w, e).rows, id)
  {
    hide LeaseMicros;
  }

  /** A free row stays free until somebody takes it: no renewal, late or not, brings it back. */
  lemma {:induction false} StaysFree(leases: Leases, w: World, events: seq<Event>, id: int)
    requires Free(w.rows, id) && forall e | e in events :: !Takes(e, id)
    ensures Free(After(leases, w, events).rows, id)
  {
    hide Next, Free, Takes;
    if events != [] {
      var front, last := events[..|events| - 1], events[|events| - 1];
      assert last in events;
      StaysFree(leases, w, front, id);
      StepStaysFree(leases, After(leases, w, front), last, id);
    }
  }

  lemma FreeIsAvailable(rows: Rows, id: int, at: int)
    requires Free(rows, id)
    ensures Available(rows, id, at)
  {
  }

  /** A release that takes place frees the row of its holder and of nobody else, even if its reply is
      lost. */
  lemma ReleaseFreesIff(leases: Leases, w: World, id: int, who: Instance, d: Delivery)
    requires id in w.rows && w.rows[id].lockedBy.Some?
    ensures
      var next := Next(leases, w, Release(id, who, d));
      && (Free(next.rows, id) <==> d != NotExecuted && w.rows[id].lockedBy == Some(who))
      && (Free(next.rows, id) ==> next.rows == w.rows[id := Row(false, None, None, None, Some(w.now))])
      && (!Free(next.rows, id) ==> next.rows == w.rows)
      && (id, who) !in next.granted
  {
  }

  /** A clean-up that takes place frees exactly the locked rows whose lease has run out when it looks, and
      leaves all others as they are. */
  lemma CleanupFreesIff(leases: Leases, w: World, e: Event, id: int)
    requires (e.Cleanup? || e.CleanupInTx?) && id in w.rows
    ensures
      var next := Next(leases, w, e);
      var row := w.rows[id];
      && next.rows.Keys == w.rows.Keys && next.granted == w.granted
      && next.rows[id] ==
         if e.d != NotExecuted && row.locked && row.leaseExpiresAt.Some? && row.leaseExpiresAt.value < w.now
         then Row(false, None, None, None, Some(next.now))
         else row
  {
  }

  lemma ClearedIsFree(rows: Rows, id: int)
    requires id in rows && !rows[id].locked && rows[id].lockedBy == None
    ensures Free(rows, id)
  {
  }

  /** The holder of the row releases it, or a clean-up finds its lease run out. */
  predicate GivesUp(row: Row, now: int, e: Event, id: int) {
    match e
    case Release(id', who, d) => id' == id && row.lockedBy == Some(who) && d != NotExecuted
    case Cleanup(d) => row.leaseExpiresAt.Some? && row.leaseExpiresAt.value < now && d != NotExecuted
    case CleanupInTx(_, d) => row.leaseExpiresAt.Some? && row.leaseExpiresAt.value < now && d != NotExecuted
    case _ => false
  }

  /** Handover: a held lock that is released, or whose stale row is cleaned up, is granted to the next who
      asks, whoever that is, whatever others have done in between short of taking it. */
  lemma HandedOver(leases: Leases, w: World, giveUp: Event, events: seq<Event>, ask: Event, id: int, other: Instance)
    requires id in w.rows && w.rows[id].locked && GivesUp(w.rows[id], w.now, giveUp, id)
    requires forall e | e in events :: !Takes(e, id)
    requires Asks(ask, id, other)
    ensures
      var before := After(leases, Next(leases, w, giveUp), events);
      var after := Next(leases, before, ask);
      && (id, other) in after.granted
      && after.granted[(id, other)] == AskedAt(before, ask) + LeaseMicros(leases(other))
      && LockedUntil(after.rows, id, other, after.granted[(id, other)])
  {
    hide Next, LeaseMicros, AskedAt, Free, Available, Takes;
    if giveUp.Release? {
      ReleaseFreesIff(leases, w, id, giveUp.who, giveUp.d);
    } else {
      CleanupFreesIff(leases, w, giveUp, id);
      ClearedIsFree(Next(leases, w, giveUp).rows, id);
    }
    var next := Next(leases, w, giveUp);
    StaysFree(leases, next, events, id);
    var before := After(leases, next, events);
    FreeIsAvailable(before.rows, id, AskedAt(before, ask));
    GrantedIff(leases, before, ask, id, other);
  }

  // ----- Leases that run out

  /** The row is free or its lease ends at the given time at the latest. */
  predicate EndsBy(rows: Rows, id: int, expiry: int) {
    || id !in rows || rows[id].locked == false
    || (rows[id].leaseExpiresAt.Some? && rows[id].leaseExpiresAt.value <= expiry)
  }

  lemma StepEndsBy(leases: Leases, w: World, e: Event, id: int, expiry: int)
    requires EndsBy(w.rows, id, expiry) && !Takes(e, id) && !Prolongs(e, id)
    ensures EndsBy(Next(leases, w, e).rows, id, expiry) && w.now <= Next(leases, w, e).now
  {
    hide LeaseMicros;
  }

  lemma {:induction false} StaysEnding(leases: Leases, w: World, events: seq<Event>, id: int, expiry: int)
    requires EndsBy(w.rows, id, expiry) && forall e | e in events :: !Takes(e, id) && !Prolongs(e, id)
    ensures EndsBy(After(leases, w, events).rows, id, expiry)
  {
    hide Next, EndsBy, Takes, Prolongs;
    if events != [] {
      var front, last := events[..|events| - 1], events[|events| - 1];
      assert last in events;
      StaysEnding(leases, w, front, id, expiry);
      StepEndsBy(leases, After(leases, w, front), last, id, expiry);
    }
  }

  /** No lock is lost with its holder: without a renewal, and without a release or a clean-up either, it is
      granted to whoever asks once the lease has passed. */
  lemma LostHolderIsReplaced(
    leases: Leases, w: World, events: seq<Event>, ask: Event, id: int, other: Instance, expiry: int)
    requires EndsBy(w.rows, id, expiry)
    requires forall e | e in events :: !Takes(e, id) && !Prolongs(e, id)
    requires Asks(ask, id, other) && expiry < After(leases, w, events).now
    ensures
      var before := After(leases, w, events);
      var after := Next(leases, before, ask);
      && (id, other) in after.granted
      && LockedUntil(after.rows, id, other, AskedAt(before, ask) + LeaseMicros(leases(other)))
  {
    hide Next, LeaseMicros, Takes, Prolongs;
    StaysEnding(leases, w, events, id, expiry);
    GrantedIff(leases, After(leases, w, events), ask, id, other);
  }

  /** A renewal that is heard of is granted if and only if the row is locked by the instance, even if the
      lease has passed; then the row has the new expiry and the same holder. */
  lemma RenewedIff(leases: Leases, w: World, id: int, who: Instance)
    requires (id, who) !in w.granted
    ensures
      var next := Next(leases, w, Renew(id, who, Delivered));
      var holds := id in w.rows && w.rows[id].locked && w.rows[id].lockedBy == Some(who);
      var expiry := w.now + LeaseMicros(leases(who));
      && ((id, who) in next.granted <==> holds)
      && (holds ==>
            && next.granted[(id, who)] == expiry
            && next.rows[id] == w.rows[id].(leaseExpiresAt := Some(expiry), updatedAt := Some(w.now)))
      && (!holds ==> next == w)
      && forall other | other in w.rows && other != id :: other in next.rows && next.rows[other] == w.rows[other]
  {
    hide LeaseMicros;
  }

  // ----- The locker

  /** What an attempt needs of the rows: the lock is available when it writes the row, or held by the
      instance that releases it. */
  predicate Finds(goal: T.Goal, s: T.Setup, a: T.Attempt, at: int) {
    if goal == T.ToAcquire then
      Available(a.rows, s.id, if s.kind == T.Transactions && s.id in a.rows then at + a.micros else at)
    else s.id in a.rows && a.rows[s.id].lockedBy == Some(s.who)
  }

  /** And it is heard of. */
  predicate Gets(goal: T.Goal, s: T.Setup, a: T.Attempt, at: int) {
    a.statement == Delivered && Finds(goal, s, a, at)
  }

  /** The error of an attempt that does not succeed: a transaction knows that it has found nothing before
      its commit could be lost. */
  function ErrorOf(goal: T.Goal, s: T.Setup, a: T.Attempt, at: int): StoreError {
    if a.statement == Delivered || (a.statement == ReplyLost && s.kind == T.Transactions && !Finds(goal, s, a, at))
    then if goal == T.ToAcquire then AlreadyHeld else NotHeld
    else StatementFailed
  }

  lemma OutcomeIs(goal: T.Goal, s: T.Setup, a: T.Attempt, at: int)
    ensures
      var result := T.Outcome(goal, s, a, at);
      if Gets(goal, s, a, at) then result.Ok? else result == Err(ErrorOf(goal, s, a, at))
  {
    hide LeaseMicros;
  }

  /** All attempts before the i-th fail with an error that the policy retries. */
  ghost predicate Reaches(goal: T.Goal, s: T.Setup, attempts: seq<T.Attempt>, start: int, i: nat) {
    i < |attempts| && forall j: nat | j < i ::
      var at := T.Clock(goal, s, attempts, start, j);
      && !Gets(goal, s, attempts[j], at)
      && (match s.policy
          case Some(retries) => retries(ErrorOf(goal, s, attempts[j], at))
          case None => true)
  }

  lemma ClockStarts(goal: T.Goal, s: T.Setup, attempts: seq<T.Attempt>, start: int)
    requires attempts != []
    ensures T.Clock(goal, s, attempts, start, 0) == start + attempts[0].elapsed
  {
  }

  lemma DecisionIs(goal: T.Goal, s: T.Setup, attempts: seq<T.Attempt>, start: int)
    requires attempts != []
    ensures
      var d := T.Decide(goal, s, attempts, start, 0);
      && Reaches(goal, s, attempts, start, d.attempt)
      && (d.result.Ok? <==> Gets(goal, s, attempts[d.attempt], T.Clock(goal, s, attempts, start, d.attempt)))
      && (d.result.Ok? || d.attempt == |attempts| - 1 ||
          !T.ShouldRetry(s.policy, ErrorOf(goal, s, attempts[d.attempt], T.Clock(goal, s, attempts, start, d.attempt))))
  {
    hide T.Outcome, Gets, ErrorOf, T.Decide, T.Clock;
    ClockStarts(goal, s, attempts, start);
    T.DecisionMeaning(goal, s, attempts, start, 0);
    var d := T.Decide(goal, s, attempts, start, 0);
    forall j: nat | j < |attempts| ensures
      var at := T.Clock(goal, s, attempts, start, j);
      var result := T.Outcome(goal, s, attempts[j], at);
      if Gets(goal, s, attempts[j], at) then result.Ok? else result == Err(ErrorOf(goal, s, attempts[j], at))
    {
      OutcomeIs(goal, s, attempts[j], T.Clock(goal, s, attempts, start, j));
    }
  }

  /** Lock and Unlock succeed if and only if one of their attempts finds what it needs and is heard of,
      and the policy retries the errors of all before it. */
  lemma CallSucceedsIff(goal: T.Goal, s: T.Setup, attempts: seq<T.Attempt>, start: int)
    requires attempts != []
    ensures
      T.Decide(goal, s, attempts, start, 0).result.Ok? <==>
      exists i: nat ::
        Reaches(goal, s, attempts, start, i) && Gets(goal, s, attempts[i], T.Clock(goal, s, attempts, start, i))
  {
    hide Gets, ErrorOf, T.Clock, T.Decide;
    DecisionIs(goal, s, attempts, start);
    var d := T.Decide(goal, s, attempts, start, 0);
    if i: nat :|
      Reaches(goal, s, attempts, start, i) && Gets(goal, s, attempts[i], T.Clock(goal, s, attempts, start, i))
    {
      assert d.attempt <= i;
    }
  }

  /** If the first attempt gets the lock it decides, and the row is the instance's. */
  lemma FirstGets(s: T.Setup, attempts: seq<T.Attempt>, now: int)
    requires attempts != [] && Gets(T.ToAcquire, s, attempts[0], now + attempts[0].elapsed)
    ensures
      var d := T.Decide(T.ToAcquire, s, attempts, now, 0);
      && d.attempt == 0 && d.result.Ok?
      && LockedUntil(T.RowsAfter(T.ToAcquire, s, attempts[0], d.at), s.id, s.who, d.result.value)
  {
    hide LeaseMicros, T.Outcome, Gets, T.RowsAfter, T.WriteAt, ErrorOf;
    var at := now + attempts[0].elapsed;
    OutcomeIs(T.ToAcquire, s, attempts[0], at);
    T.AcquiringWrites(s, attempts[0], at);
  }

  lemma ReleasingFrees(s: T.Setup, a: T.Attempt, at: int)
    requires T.Outcome(T.ToRelease, s, a, at).Ok?
    ensures Free(T.RowsAfter(T.ToRelease, s, a, at), s.id)
  {
  }

  lemma FreeIsGot(s: T.Setup, a: T.Attempt, at: int)
    requires Free(a.rows, s.id) && a.statement == Delivered
    ensures Gets(T.ToAcquire, s, a, at)
  {
  }

  /** After a successful Unlock, with the rows left alone, the first attempt of a Lock that is heard of
      succeeds, for whatever instance, on whatever store and at whatever time. */
  lemma LockAfterUnlock(
    s: T.Setup, releases: seq<T.Attempt>, start: int, other: T.Setup, attempts: seq<T.Attempt>, now: int)
    requires releases != [] && attempts != [] && other.id == s.id && attempts[0].statement == Delivered
    requires
      var d := T.Decide(T.ToRelease, s, releases, start, 0);
      && d.result.Ok? && d.attempt < |releases|
      && attempts[0].rows == T.RowsAfter(T.ToRelease, s, releases[d.attempt], d.at)
    ensures
      var d := T.Decide(T.ToAcquire, other, attempts, now, 0);
      && d.attempt == 0 && d.result.Ok?
      && LockedUntil(T.RowsAfter(T.ToAcquire, other, attempts[0], d.at), s.id, other.who, d.result.value)
  {
    hide T.Outcome, T.Decide, T.RowsAfter, Free, Gets, LockedUntil, T.ShouldRetry, T.EndOf;
    T.DecisionMeaning(T.ToRelease, s, releases, start, 0);
    var d := T.Decide(T.ToRelease, s, releases, start, 0);
    ReleasingFrees(s, releases[d.attempt], d.at);
    FreeIsGot(other, attempts[0], now + attempts[0].elapsed);
    FirstGets(other, attempts, now);
  }
}
