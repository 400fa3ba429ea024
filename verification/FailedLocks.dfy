/** What a failed Lock or Unlock leaves behind (lock/internal/table/locker.go). The reply of an attempt can
    be lost after the attempt has taken or cleared the row; the attempts that follow meet the row in that
    state and fail on it, and so does the call. */
module FailedLocks {
  import opened Wrappers
  import opened LockRow
  import opened PostgresStore
  import opened TableLocker
  import P = LeaseProtocol

  // ----- One failed attempt to acquire

  /** The attempt takes the row, and nobody hears of it. */
  predicate TakesUnheard(s: Setup, a: Attempt, at: int) {
    a.statement == ReplyLost && Takeable(a.rows, s.id, WriteAt(s, a.rows, a.micros, at))
  }

  /** The clean-up of the attempt clears the row of the lock. */
  predicate ClearsOwn(s: Setup, a: Attempt, at: int) {
    a.cleanup != NotExecuted && Stale(RowsAfter(ToAcquire, s, a, at), s.id, DoneAt(s, a, at))
  }

  /** After a failed attempt the row is this instance's if and only if the attempt took it unheard or it
      was this instance's before, and the clean-up has not cleared it. */
  lemma FailedAttemptHoldsIff(s: Setup, a: Attempt, at: int)
    requires Outcome(ToAcquire, s, a, at).Err?
    ensures HeldBy(AfterFailure(s, a, at), s.id, s.who) <==>
            (TakesUnheard(s, a, at) || HeldBy(a.rows, s.id, s.who)) && !ClearsOwn(s, a, at)
  {
    hide LeaseMicros, WriteAt;
    var rows := RowsAfter(ToAcquire, s, a, at);
    assert s.id in StaleIds(rows, DoneAt(s, a, at)) <==> Stale(rows, s.id, DoneAt(s, a, at));
  }

  // ----- A failed Lock

  /** The first n + 1 attempts all fail. */
  ghost predicate AllFail(goal: Goal, s: Setup, attempts: seq<Attempt>, start: int, n: nat) {
    && n < |attempts|
    && forall k: nat | k <= n :: Outcome(goal, s, attempts[k], Clock(goal, s, attempts, start, k)).Err?
  }

  /** A call that fails does so with all attempts up to the one that decides. */
  lemma FailedCall(goal: Goal, s: Setup, attempts: seq<Attempt>, start: int)
    requires attempts != [] && Decide(goal, s, attempts, start, 0).result.Err?
    ensures
      var d := Decide(goal, s, attempts, start, 0);
      AllFail(goal, s, attempts, start, d.attempt) && d.at == Clock(goal, s, attempts, start, d.attempt)
  {
    hide Outcome, Clock, Decide;
    assert Clock(goal, s, attempts, start, 0) == start + attempts[0].elapsed by {
      ClockStarts(goal, s, attempts, start);
    }
    DecisionMeaning(goal, s, attempts, start, 0);
  }

  lemma ClockStarts(goal: Goal, s: Setup, attempts: seq<Attempt>, start: int)
    requires attempts != []
    ensures Clock(goal, s, attempts, start, 0) == start + attempts[0].elapsed
  {
  }

  function At(s: Setup, attempts: seq<Attempt>, start: int, k: nat): int
    requires k < |attempts|
  {
    Clock(ToAcquire, s, attempts, start, k)
  }

  function Left(s: Setup, attempts: seq<Attempt>, start: int, k: nat): Rows
    requires k < |attempts|
  {
    AfterFailure(s, attempts[k], At(s, attempts, start, k))
  }

  /** What others do between two attempts: they write nothing under this instance's name, and they do
      not touch a lease of it that has not expired. */
  ghost predicate Undisturbed(id: int, who: string, before: Rows, rows: Rows, at: int) {
    && (HeldBy(rows, id, who) ==> HeldBy(before, id, who) && rows[id] == before[id])
    && (HeldBy(before, id, who) && before[id].locked && !Expired(before[id], at) ==>
          id in rows && rows[id] == before[id])
  }

  ghost predicate OthersBehave(s: Setup, attempts: seq<Attempt>, start: int, n: nat)
    requires n < |attempts|
  {
    forall k: nat | 0 < k <= n ::
      Undisturbed(s.id, s.who, Left(s, attempts, start, k - 1), attempts[k].rows, At(s, attempts, start, k))
  }

  /** From the j-th attempt on, nobody has taken or cleared the row: neither others before a later
      attempt nor a clean-up of this instance. */
  ghost predicate LastsFrom(s: Setup, attempts: seq<Attempt>, start: int, j: nat, n: nat) {
    forall k: nat | j <= k <= n && k < |attempts| ::
      && !ClearsOwn(s, attempts[k], At(s, attempts, start, k))
      && (k > j ==> HeldBy(attempts[k].rows, s.id, s.who))
  }

  /** After a failed Lock that the n-th attempt decides, the row is this instance's if and only if some
      attempt took it unheard, or it was this instance's from the start, and nobody has taken or cleared
      it since. */
  lemma {:induction false} FailedLockHoldsIff(s: Setup, attempts: seq<Attempt>, start: int, n: nat)
    requires AllFail(ToAcquire, s, attempts, start, n) && OthersBehave(s, attempts, start, n)
    ensures HeldBy(Left(s, attempts, start, n), s.id, s.who) <==>
            || (HeldBy(attempts[0].rows, s.id, s.who) && LastsFrom(s, attempts, start, 0, n))
            || (exists j: nat :: j <= n && TakesUnheard(s, attempts[j], At(s, attempts, start, j)) &&
                                 LastsFrom(s, attempts, start, j, n))
  {
    hide Outcome, Clock, AfterFailure, TakesUnheard, ClearsOwn, RowsAfter;
    FailedAttemptHoldsIff(s, attempts[n], At(s, attempts, start, n));
    if n > 0 {
      FailedLockHoldsIff(s, attempts, start, n - 1);
      assert Undisturbed(s.id, s.who, Left(s, attempts, start, n - 1), attempts[n].rows, At(s, attempts, start, n));
      forall j: nat | j < n
        ensures LastsFrom(s, attempts, start, j, n) <==>
                LastsFrom(s, attempts, start, j, n - 1) && HeldBy(attempts[n].rows, s.id, s.who) &&
                !ClearsOwn(s, attempts[n], At(s, attempts, start, n))
      {
        LastsOneMore(s, attempts, start, j, n);
      }
    }
    assert LastsFrom(s, attempts, start, n, n) <==> !ClearsOwn(s, attempts[n], At(s, attempts, start, n));
  }

  lemma LastsOneMore(s: Setup, attempts: seq<Attempt>, start: int, j: nat, n: nat)
    requires j < n < |attempts|
    ensures LastsFrom(s, attempts, start, j, n) <==>
            LastsFrom(s, attempts, start, j, n - 1) && HeldBy(attempts[n].rows, s.id, s.who) &&
            !ClearsOwn(s, attempts[n], At(s, attempts, start, n))
  {
    hide Clock, ClearsOwn;
  }

  // ----- A failed Lock that is over within one lease

  lemma {:induction false} ClockGoesOn(s: Setup, attempts: seq<Attempt>, start: int, j: nat, n: nat)
    requires j <= n < |attempts|
    ensures At(s, attempts, start, j) <= At(s, attempts, start, n)
    ensures j < n ==> DoneAt(s, attempts[j], At(s, attempts, start, j)) <= At(s, attempts, start, n)
  {
    if j < n {
      ClockGoesOn(s, attempts, start, j, n - 1);
    }
  }

  function WrittenAt(s: Setup, attempts: seq<Attempt>, start: int, k: nat): int
    requires k < |attempts|
  {
    WriteAt(s, attempts[k].rows, attempts[k].micros, At(s, attempts, start, k))
  }

  /** One attempt leaves a row as it is that this instance has taken and whose lease goes on. */
  lemma AttemptLeavesLease(s: Setup, a: Attempt, at: int, row: Row)
    requires s.id in a.rows && a.rows[s.id] == row && row.locked
    requires row.leaseExpiresAt.Some? && EndOf(ToAcquire, s, a, at) <= row.leaseExpiresAt.value
    ensures !TakesUnheard(s, a, at)
    ensures s.id in AfterFailure(s, a, at) && AfterFailure(s, a, at)[s.id] == row
  {
    hide LeaseMicros;
  }

  lemma TakingRecords(s: Setup, a: Attempt, at: int)
    requires TakesUnheard(s, a, at)
    requires EndOf(ToAcquire, s, a, at) <= WriteAt(s, a.rows, a.micros, at) + LeaseMicros(s.lease)
    ensures
      var rows := AfterFailure(s, a, at);
      s.id in rows && rows[s.id] == TakenRow(s.who, s.lease, WriteAt(s, a.rows, a.micros, at))
  {
    hide LeaseMicros;
  }

  /** If the call is over within one lease of its first attempt, a row that has been taken stays taken
      under the lease of the attempt that took it. */
  lemma {:induction false} TakenStays(s: Setup, attempts: seq<Attempt>, start: int, j: nat, n: nat)
    requires j <= n && AllFail(ToAcquire, s, attempts, start, n) && OthersBehave(s, attempts, start, n)
    requires TakesUnheard(s, attempts[j], At(s, attempts, start, j))
    requires EndOf(ToAcquire, s, attempts[n], At(s, attempts, start, n)) <=
             At(s, attempts, start, 0) + LeaseMicros(s.lease)
    ensures
      var rows := Left(s, attempts, start, n);
      s.id in rows && rows[s.id] == TakenRow(s.who, s.lease, WrittenAt(s, attempts, start, j))
    decreases n
  {
    hide Clock, AfterFailure, TakesUnheard, LeaseMicros, Outcome, RowsAfter;
    ClockGoesOn(s, attempts, start, 0, j);
    if j == n {
      TakingRecords(s, attempts[n], At(s, attempts, start, n));
    } else {
      EndsBefore(s, attempts, start, n);
      TakenStays(s, attempts, start, j, n - 1);
      assert Undisturbed(s.id, s.who, Left(s, attempts, start, n - 1), attempts[n].rows, At(s, attempts, start, n));
      AttemptLeavesLease(s, attempts[n], At(s, attempts, start, n),
                         TakenRow(s.who, s.lease, WrittenAt(s, attempts, start, j)));
    }
  }

  lemma EndsBefore(s: Setup, attempts: seq<Attempt>, start: int, n: nat)
    requires 0 < n < |attempts|
    ensures EndOf(ToAcquire, s, attempts[n - 1], At(s, attempts, start, n - 1)) <= At(s, attempts, start, n)
    ensures At(s, attempts, start, n) <= EndOf(ToAcquire, s, attempts[n], At(s, attempts, start, n))
  {
  }

  /** So a failed Lock that is over within one lease, by an instance that did not have the row before,
      leaves the row taken by this instance if and only if some attempt took it and its reply was
      lost, whatever the attempts after it have met. */
  lemma FailedLockTakesIff(s: Setup, attempts: seq<Attempt>, start: int)
    requires attempts != [] && Decide(ToAcquire, s, attempts, start, 0).result.Err?
    requires !HeldBy(attempts[0].rows, s.id, s.who)
    requires
      var d := Decide(ToAcquire, s, attempts, start, 0);
      d.attempt < |attempts| && OthersBehave(s, attempts, start, d.attempt) &&
      EndOf(ToAcquire, s, attempts[d.attempt], d.at) <= start + attempts[0].elapsed + LeaseMicros(s.lease)
    ensures
      var d := Decide(ToAcquire, s, attempts, start, 0);
      var rows := AfterFailure(s, attempts[d.attempt], d.at);
      && (HeldBy(rows, s.id, s.who) <==>
            exists j: nat :: j <= d.attempt && TakesUnheard(s, attempts[j], At(s, attempts, start, j)))
      && forall j: nat | j <= d.attempt && TakesUnheard(s, attempts[j], At(s, attempts, start, j)) ::
           s.id in rows && rows[s.id] == TakenRow(s.who, s.lease, WrittenAt(s, attempts, start, j))
  {
    hide Decide, Outcome, Clock, AfterFailure, TakesUnheard, LeaseMicros, LastsFrom, EndOf;
    FailedCall(ToAcquire, s, attempts, start);
    ClockStarts(ToAcquire, s, attempts, start);
    var n := Decide(ToAcquire, s, attempts, start, 0).attempt;
    FailedLockHoldsIff(s, attempts, start, n);
    forall j: nat | j <= n && TakesUnheard(s, attempts[j], At(s, attempts, start, j))
      ensures s.id in Left(s, attempts, start, n)
      ensures Left(s, attempts, start, n)[s.id] == TakenRow(s.who, s.lease, WrittenAt(s, attempts, start, j))
    {
      TakenStays(s, attempts, start, j, n);
    }
  }

  /** At two attempts: the first takes the row and its reply is lost, the second meets the row and is
      told that the lock is already held, and the call fails with the row taken. */
  lemma OwnRowRefusesLock(s: Setup, first: Attempt, second: Attempt, start: int)
    requires s.policy == None && LeaseMicros(s.lease) >= 0
    requires TakesUnheard(s, first, start + first.elapsed) && first.cleanup == NotExecuted
    requires second.statement == Delivered && second.rows == AfterFailure(s, first, start + first.elapsed)
    requires
      var firstEnd := EndOf(ToAcquire, s, first, start + first.elapsed);
      EndOf(ToAcquire, s, second, firstEnd + second.elapsed) <= start + first.elapsed + LeaseMicros(s.lease)
    ensures
      var d := Decide(ToAcquire, s, [first, second], start, 0);
      var rows := AfterFailure(s, second, d.at);
      && d.attempt == 1 && d.result == Err(AlreadyHeld) && second.statement != ReplyLost
      && s.id in rows
      && rows[s.id] == TakenRow(s.who, s.lease, WriteAt(s, first.rows, first.micros, start + first.elapsed))
  {
    hide LeaseMicros;
    var at := start + first.elapsed;
    TakingRecords(s, first, at);
    AttemptLeavesLease(s, second, EndOf(ToAcquire, s, first, at) + second.elapsed, second.rows[s.id]);
  }

  // ----- What others do

  /** Whatever other instances, clean-ups and the clock do in the meantime, they behave so. */
  lemma {:induction false} OthersAreUndisturbing(
    leases: P.Leases, w: P.World, events: seq<P.Event>, id: int, who: string)
    requires forall e | e in events :: ByOthers(e, who)
    ensures w.now <= P.After(leases, w, events).now
    ensures Undisturbed(id, who, w.rows, P.After(leases, w, events).rows, P.After(leases, w, events).now)
  {
    hide P.Next, ByOthers, Expired;
    if events != [] {
      var front, last := events[..|events| - 1], events[|events| - 1];
      assert last in events;
      OthersAreUndisturbing(leases, w, front, id, who);
      var before := P.After(leases, w, front);
      OtherStep(leases, before, last, id, who);
      if HeldBy(w.rows, id, who) {
        ExpiredStays(w.rows[id], before.now, P.Next(leases, before, last).now);
      }
    }
  }

  predicate ByOthers(e: P.Event, who: string) {
    match e
    case Acquire(_, other, _) => other != who
    case Renew(_, other, _) => other != who
    case Release(_, other, _) => other != who
    case AcquireInTx(_, other, _, _) => other != who
    case _ => true
  }

  lemma OtherStep(leases: P.Leases, w: P.World, e: P.Event, id: int, who: string)
    requires ByOthers(e, who)
    ensures w.now <= P.Next(leases, w, e).now
    ensures Undisturbed(id, who, w.rows, P.Next(leases, w, e).rows, P.Next(leases, w, e).now)
  {
    hide LeaseMicros;
  }

  lemma ExpiredStays(row: Row, earlier: int, later: int)
    requires earlier <= later
    ensures Expired(row, earlier) ==> Expired(row, later)
  {
  }

  // ----- A failed Unlock

  lemma FailedReleaseHoldsIff(s: Setup, a: Attempt, at: int)
    requires Outcome(ToRelease, s, a, at).Err?
    ensures HeldBy(RowsAfter(ToRelease, s, a, at), s.id, s.who) <==>
            HeldBy(a.rows, s.id, s.who) && a.statement == NotExecuted
    ensures Outcome(ToRelease, s, a, at) == Err(NotHeld) ==> !HeldBy(a.rows, s.id, s.who)
  {
  }

  /** After a failed Unlock the row is still this instance's if and only if it was before the deciding
      attempt and that did not take place. */
  lemma FailedUnlockHoldsIff(s: Setup, attempts: seq<Attempt>, start: int)
    requires attempts != [] && Decide(ToRelease, s, attempts, start, 0).result.Err?
    ensures
      var d := Decide(ToRelease, s, attempts, start, 0);
      && d.attempt < |attempts|
      && var a := attempts[d.attempt];
         && (HeldBy(RowsAfter(ToRelease, s, a, d.at), s.id, s.who) <==>
               HeldBy(a.rows, s.id, s.who) && a.statement == NotExecuted)
         && (d.result == Err(NotHeld) ==> !HeldBy(a.rows, s.id, s.who))
  {
    hide Decide, Outcome, RowsAfter, Clock;
    ClockStarts(ToRelease, s, attempts, start);
    DecisionMeaning(ToRelease, s, attempts, start, 0);
    var d := Decide(ToRelease, s, attempts, start, 0);
    FailedReleaseHoldsIff(s, attempts[d.attempt], d.at);
  }

  /** If others write nothing under this instance's name, then a failed Unlock that began with the row
      held by this instance leaves it so if and only if no attempt took place and nobody else has taken
      or cleared the row in between. */
  lemma {:induction false} FailedUnlockKeepsIff(s: Setup, attempts: seq<Attempt>, start: int, n: nat)
    requires AllFail(ToRelease, s, attempts, start, n)
    requires forall k: nat | 0 < k <= n ::
      HeldBy(attempts[k].rows, s.id, s.who) ==>
      HeldBy(RowsAfter(ToRelease, s, attempts[k - 1], Clock(ToRelease, s, attempts, start, k - 1)), s.id, s.who)
    ensures
      HeldBy(RowsAfter(ToRelease, s, attempts[n], Clock(ToRelease, s, attempts, start, n)), s.id, s.who) <==>
      forall k: nat | k <= n :: attempts[k].statement == NotExecuted && HeldBy(attempts[k].rows, s.id, s.who)
  {
    hide Outcome, Clock, RowsAfter, HeldBy;
    FailedReleaseHoldsIff(s, attempts[n], Clock(ToRelease, s, attempts, start, n));
    if n > 0 {
      FailedUnlockKeepsIff(s, attempts, start, n - 1);
    }
  }

  /** At two attempts: the first clears the row and its reply is lost, the second finds the row not held,
      and the call fails although the lock has been released. */
  lemma ReleasedButFailed(s: Setup, first: Attempt, second: Attempt, start: int)
    requires s.policy == None
    requires HeldBy(first.rows, s.id, s.who) && first.statement == ReplyLost
    requires second.statement == Delivered && second.rows == RowsAfter(ToRelease, s, first, start + first.elapsed)
    ensures
      var d := Decide(ToRelease, s, [first, second], start, 0);
      var rows := RowsAfter(ToRelease, s, second, d.at);
      && d.attempt == 1 && d.result == Err(NotHeld)
      && s.id in rows && rows[s.id] == ClearedRow(DoneAt(s, first, start + first.elapsed))
  {
  }
}
