/** When operations are refused, and what the options change: the pending check, the gate of UpTo, the
    isolation of DDL and the single attempt at creating the table (provider.go, provider_run.go). */
module Gates {
  import opened Wrappers
  import opened Versions
  import opened UpVersions
  import opened Migrator
  import opened Batches
  import opened Traces
  import opened Stepwise

  // ----- The pending check and the status

  datatype Status = StatePending | StateApplied

  /** The status of each migration: applied if its version is recorded. */
  function StatusOf<S>(migrations: seq<Migration<S>>, rows: seq<int>): (r: seq<Status>)
    ensures |r| == |migrations|
    ensures forall i :: 0 <= i < |r| ==> r[i] == if migrations[i].version in rows then StateApplied else StatePending
  {
    seq(|migrations|, i requires 0 <= i < |migrations| =>
      if migrations[i].version in rows then StateApplied else StatePending)
  }

  lemma PlanIffStatusPending<S>(cfg: Config<S>, rows: seq<int>)
    requires Numbered(cfg)
    ensures
      var versions := VersionsOf(cfg.migrations);
      var plan := UpPlan(versions, rows, MAX_INT64, cfg.allowMissing);
      && (plan.Err? <==> !cfg.allowMissing && exists v :: OutOfOrder(v, versions, rows, MAX_INT64))
      && (plan.Ok? ==> (plan.value != [] <==> StatePending in StatusOf(cfg.migrations, rows)))
  {
    hide UpPlan, Numbered;
    var versions, status := VersionsOf(cfg.migrations), StatusOf(cfg.migrations, rows);
    VersionsArePositive(cfg);
    UpPlanMeaning(versions, rows, MAX_INT64, cfg.allowMissing);
    if UpPlan(versions, rows, MAX_INT64, cfg.allowMissing).Ok? {
      PlanMeaning(versions, rows, MAX_INT64, cfg.allowMissing);
      var plan := UpPlan(versions, rows, MAX_INT64, cfg.allowMissing).value;
      if plan != [] {
        assert plan[0] in plan;
        var i :| 0 <= i < |versions| && versions[i] == plan[0];
        assert status[i] == StatePending;
      }
      if StatePending in status {
        var i :| 0 <= i < |status| && status[i] == StatePending;
        assert versions[i] in versions;
        assert versions[i] in plan;
      }
    }
  }

  /** The pending check of any provider, its first call or not: once the table is there and can be
      listed, it fails exactly when out-of-order versions are refused and there is one; when it does
      not fail, it is true exactly when the status shows a pending migration. */
  lemma PendingIffStatusPending<S>(cfg: Config<S>, st: State<S>, env: Env)
    requires Numbered(cfg)
    ensures
      var (failure, next) := Initialize(cfg, st, false, env);
      var (r, after) := HasPending(cfg, st, env);
      var rows := next.db.rows;
      && after == next
      && (failure.Some? ==> r == Err(failure.value))
      && (failure.None? && !(next.db.created && env.lists) ==> r == Err(StoreFailed))
      && (failure.None? && next.db.created && env.lists ==>
            && (r.Err? <==> !cfg.allowMissing && exists v :: OutOfOrder(v, VersionsOf(cfg.migrations), rows, MAX_INT64))
            && (r.Ok? ==> (r.value <==> StatePending in StatusOf(cfg.migrations, rows))))
  {
    hide UpPlan, Numbered, Initialize, StatusOf;
    PlanIffStatusPending(cfg, Initialize(cfg, st, false, env).1.db.rows);
  }

  /** UpTo is gated by a check without its target: from any state that still has or can get its table,
      it is refused for a missing version above the target although its own plan has no fault. */
  lemma UpToGate<S>(cfg: Config<S>, st: State<S>, target: int)
    requires Numbered(cfg) && 1 <= target <= MAX_INT64
    ensures
      var versions, p := VersionsOf(cfg.migrations), Prepared(st);
      var r := Exec(cfg, st, UpTo(target, CLEAN, CLEAN)).0;
      && (r.Err? && r.error.MissingMigrations? <==>
            Ready(p) && !cfg.allowMissing && exists v :: OutOfOrder(v, versions, p.db.rows, MAX_INT64))
      && (UpPlan(versions, p.db.rows, target, cfg.allowMissing).Err? <==>
            !cfg.allowMissing && exists v :: OutOfOrder(v, versions, p.db.rows, MAX_INT64) && v <= target)
  {
    hide UpPlan, Numbered, RunUp, HasPending, Exec;
    var versions, p := VersionsOf(cfg.migrations), Prepared(st);
    VersionsArePositive(cfg);
    StartsPrepared(cfg, st, target, CLEAN);
    UpPlanMeaning(versions, p.db.rows, target, cfg.allowMissing);
    forall v ensures OutOfOrder(v, versions, p.db.rows, target) <==>
                     OutOfOrder(v, versions, p.db.rows, MAX_INT64) && v <= target {
    }
    GateOfPrepared(cfg, p, target);
  }

  lemma GateOfPrepared<S>(cfg: Config<S>, st: State<S>, target: int)
    requires Numbered(cfg) && st.ensured && 1 <= target <= MAX_INT64
    ensures
      var r := Exec(cfg, st, UpTo(target, CLEAN, CLEAN)).0;
      r.Err? && r.error.MissingMigrations? <==>
      Ready(st) && !cfg.allowMissing && exists v :: OutOfOrder(v, VersionsOf(cfg.migrations), st.db.rows, MAX_INT64)
  {
    hide UpPlan, Numbered, RunUp;
    PlanIffStatusPending(cfg, st.db.rows);
    if cfg.allowMissing || forall v :: !OutOfOrder(v, VersionsOf(cfg.migrations), st.db.rows, MAX_INT64) {
      RunMigrationsRefusesNothing(cfg, st, target);
    }
  }

  lemma RunMigrationsRefusesNothing<S>(cfg: Config<S>, st: State<S>, target: int)
    requires Numbered(cfg) && st.ensured && target <= MAX_INT64
    requires cfg.allowMissing || forall v :: !OutOfOrder(v, VersionsOf(cfg.migrations), st.db.rows, MAX_INT64)
    ensures
      var r := RunUp(cfg, st, false, target, CLEAN).0;
      r.Err? ==> !r.error.MissingMigrations?
  {
    hide UpPlan, Numbered, RunBatch, FindAll, Unprepared;
    var versions := VersionsOf(cfg.migrations);
    VersionsArePositive(cfg);
    UpPlanMeaning(versions, st.db.rows, target, cfg.allowMissing);
    forall v ensures OutOfOrder(v, versions, st.db.rows, target) ==> OutOfOrder(v, versions, st.db.rows, MAX_INT64) {
    }
  }

  /** A missing version 3 above the target 2 refuses UpTo(2), which has a plan. */
  lemma UpToRefusedAboveTarget<S>(cfg: Config<S>, st: State<S>)
    requires Numbered(cfg) && !cfg.allowMissing
    requires VersionsOf(cfg.migrations) == [1, 3, 4] && st.db.created && st.db.rows == [0, 1, 4]
    ensures
      var r := Exec(cfg, st, UpTo(2, CLEAN, CLEAN)).0;
      && r.Err? && r.error.MissingMigrations?
      && UpPlan(VersionsOf(cfg.migrations), st.db.rows, 2, false).Ok?
  {
    hide Exec, UpPlan, Numbered;
    UpToGate(cfg, st, 2);
    assert 4 in st.db.rows;
    assert OutOfOrder(3, VersionsOf(cfg.migrations), st.db.rows, MAX_INT64);
  }

  // ----- A store failure after the work

  /** A store failure of an upward call on a table that is there leaves all or nothing of its plan, and
      the error does not tell which. */
  lemma StoreFailureIsAllOrNothing<S>(cfg: Config<S>, st: State<S>, byOne: bool, target: int, env: Env)
    requires Numbered(cfg) && Ready(st) && st.db.rows != []
    requires RunUp(cfg, st, byOne, target, env).0 == Err(StoreFailed)
    ensures
      var after := RunUp(cfg, st, byOne, target, env).1;
      var plan := UpPlan(VersionsOf(cfg.migrations), st.db.rows, target, cfg.allowMissing);
      after == st || (!byOne && plan.Ok? && after.db.rows == st.db.rows + plan.value)
  {
    hide UpPlan, RunMigrations, FindAll, Numbered, RecordAll, Complete;
    var versions := VersionsOf(cfg.migrations);
    var plan := UpPlan(versions, st.db.rows, target, cfg.allowMissing);
    if plan.Ok? {
      FindAllMeaning(cfg.migrations, plan.value);
      var apply := FindAll(cfg.migrations, plan.value);
      if apply.Some? {
        if apply.value == [] {
          EmptyRunKeeps(cfg, st.db, byOne, env);
        } else {
          CompleteBatchFailsIff(cfg, st.db, apply.value, true, byOne, env);
          RecordAllUp(st.db.rows, plan.value);
        }
      }
    }
  }

  lemma EmptyRunKeeps<S>(cfg: Config<S>, db: Database<S>, byOne: bool, env: Env)
    ensures RunMigrations(cfg, db, [], true, byOne, env).1 == db
  {
  }

  /** Both happen: the listing fails, or the largest version cannot be read at the end. */
  lemma StoreFailureAfterAll<S>(cfg: Config<S>, st: State<S>)
    requires Numbered(cfg) && Ready(st) && st.db.rows != []
    requires Exec(cfg, st, Up(CLEAN, CLEAN)).0.Ok? && Exec(cfg, st, Up(CLEAN, CLEAN)).0.value != []
    ensures Exec(cfg, st, Up(CLEAN, CLEAN.(lists := false))) == (Err(StoreFailed), st)
    ensures Exec(cfg, st, Up(CLEAN, CLEAN.(maxes := false))) ==
            (Err(StoreFailed), Exec(cfg, st, Up(CLEAN, CLEAN)).1)
  {
    hide UpPlan, FindAll, RunBatch, Unprepared;
    var plan := UpPlan(VersionsOf(cfg.migrations), st.db.rows, MAX_INT64, cfg.allowMissing).value;
    FindAllMeaning(cfg.migrations, plan);
    ReadyUp(cfg, st);
    var apply := FindAll(cfg.migrations, plan).value;
    UpBatchRows(cfg, st.db, apply, CLEAN.faults, |apply|);
  }

  // ----- Isolated DDL and Go migrations

  /** The function that a Go migration names for a direction, or the statements of an SQL migration. */
  function Intended<S>(m: Migration<S>, up: bool): seq<Effect<S>> {
    match m.body
    case SqlBody(_, _, _, stmtsUp, stmtsDown) => if up then stmtsUp else stmtsDown
    case GoBody(goUp, goDown, _) =>
      var f := if up then goUp else goDown;
      (match f.runTx case Some(e) => [e] case None => []) +
      (match f.runDB case Some(e) => [e] case None => [])
  }

  /** At most one function is set, and the mode is the one inferred from it. */
  predicate Inferred<S>(f: GoFunc<S>) {
    match (f.runTx, f.runDB)
    case (Some(_), Some(_)) => false
    case (Some(_), None) => f.mode == TransactionEnabled
    case (None, Some(_)) => f.mode == TransactionDisabled
    case (None, None) => f.mode != Unset
  }

  predicate WellFormed<S>(m: Migration<S>) {
    match m.body
    case SqlBody(upParses, downParses, _, _, _) => upParses && downParses
    case GoBody(goUp, goDown, _) => Inferred(goUp) && Inferred(goDown)
  }

  predicate RunsInTxOnly<S>(m: Migration<S>, up: bool) {
    m.body.GoBody? && (if up then m.body.goUp else m.body.goDown).runTx.Some?
  }

  /** A migration runs what it names if and only if DDL is not isolated or it is no Go migration that
      has a function for a transaction. */
  lemma RunsWhatItNamesIff<S>(cfg: Config<S>, m: Migration<S>, up: bool)
    requires WellFormed(m)
    ensures UseTx(m, up).Some?
    ensures EffectsOf(m, up, UseTx(m, up).value && !cfg.isolateDDL) == Intended(m, up) <==>
            !(cfg.isolateDDL && RunsInTxOnly(m, up))
  {
  }

  /** With isolated DDL such a migration is recorded although nothing of it has run. */
  lemma RecordedWithoutRunning<S>(cfg: Config<S>, db: Database<S>, m: Migration<S>)
    requires WellFormed(m) && cfg.isolateDDL && RunsInTxOnly(m, true)
    ensures RunIndividually(cfg, db, m, true, NoFault) == (true, db.(rows := db.rows + [m.version]))
  {
  }

  // ----- The table is attempted once

  /** A provider whose only attempt at the version table has failed never creates it: every later call
      finds no table, whatever it is and whatever the database does. */
  lemma {:induction false} NoSecondAttempt<S>(cfg: Config<S>, st: State<S>, ops: seq<Op>)
    requires st.ensured && !st.db.created
    ensures After(cfg, st, ops) == st
    ensures forall op :: Exec(cfg, st, op).0.Err? || cfg.migrations == []
  {
    hide TryEnsure, UpPlan, FindAll, RunMigrations;
    if ops != [] {
      NoSecondAttempt(cfg, st, ops[..|ops| - 1]);
    }
  }

  /** A missing version table can be created by a call if and only if the provider has not tried before. */
  lemma TableIsCreatedIff<S>(cfg: Config<S>, st: State<S>)
    requires !st.db.created && cfg.migrations != []
    ensures (exists op :: Exec(cfg, st, op).1.db.created) <==> !st.ensured
  {
    if st.ensured {
      forall op ensures !Exec(cfg, st, op).1.db.created {
        AfterOne(cfg, st, op);
        NoSecondAttempt(cfg, st, [op]);
      }
    } else {
      CleanEnsureCreates(cfg.isolateDDL, st.db);
      CleanDownToEnsures(cfg, st, 0);
      assert Exec(cfg, st, DownTo(0, CLEAN)).1.db.created;
    }
  }

  lemma AfterOne<S>(cfg: Config<S>, st: State<S>, op: Op)
    ensures After(cfg, st, [op]) == Exec(cfg, st, op).1
  {
    hide Exec;
    assert [op][..0] == [];
  }

  lemma CleanDownToEnsures<S>(cfg: Config<S>, st: State<S>, version: nat)
    requires !st.db.created && !st.ensured && cfg.migrations != []
    requires TryEnsure(cfg.isolateDDL, st.db, CLEAN.attempts, 0) == (true, st.db.(created := true, rows := [0]))
    ensures Exec(cfg, st, DownTo(version, CLEAN)) == (Ok([]), State(true, st.db.(created := true, rows := [0])))
  {
    hide TryEnsure;
  }

  /** The first call attempts, and a failed attempt is not repeated. */
  lemma FailedAttemptIsFinal<S>(cfg: Config<S>, st: State<S>, env: Env, ops: seq<Op>)
    requires Sound(cfg) && Untouched(st) && !st.ensured
    requires Initialize(cfg, st, false, env).0 == Some(TableFailed)
    ensures !After(cfg, Initialize(cfg, st, false, env).1, ops).db.created
  {
    hide TryEnsure, Numbered, After;
    FailedEnsureKeepsDatabase(cfg, st.db, env.attempts, 0);
    NoSecondAttempt(cfg, Initialize(cfg, st, false, env).1, ops);
  }

  lemma {:induction false} FailedEnsureKeepsDatabase<S>(cfg: Config<S>, db: Database<S>, attempts: nat -> Attempt, k: nat)
    requires !cfg.isolateDDL && k <= MAX_ATTEMPTS && !TryEnsure(cfg.isolateDDL, db, attempts, k).0
    ensures TryEnsure(cfg.isolateDDL, db, attempts, k).1 == db
    decreases MAX_ATTEMPTS - k
  {
    if k < MAX_ATTEMPTS && EnsureOnce(cfg.isolateDDL, db, attempts(k)).0.Retry? {
      FailedEnsureKeepsDatabase(cfg, db, attempts, k + 1);
    }
  }

  /** An attempt that finds the table that is there, or creates the one that is not. */
  predicate Suits<S>(a: Attempt, db: Database<S>) {
    if db.created then a.check == Answered || (a.check == Unsupported && a.lookupOk && 0 in db.rows)
    else a.createOk && a.insertOk && a.commitOk
  }

  /** One of the first four attempts, the k-th or a later one, is such, and no check up to it fails. */
  ghost predicate OneSuits<S>(db: Database<S>, attempts: nat -> Attempt, k: nat) {
    exists i: nat | k <= i < 4 ::
      Suits(attempts(i), db) && forall j: nat | k <= j <= i :: attempts(j).check != CheckFails
  }

  /** A call makes at most four attempts at the version table. A missing table is created, with version 0
      alone, if and only if all statements of one of them succeed and no check up to it fails; a table
      that is there is accepted if and only if one of them finds it, and nothing is changed. */
  lemma {:induction false} FourAttempts<S>(isolateDDL: bool, db: Database<S>, attempts: nat -> Attempt, k: nat)
    requires k <= 4 && (isolateDDL ==> db.created)
    ensures
      var (ok, after) := TryEnsure(isolateDDL, db, attempts, k);
      && (ok <==> OneSuits(db, attempts, k))
      && after == if ok && !db.created then db.(created := true, rows := [0]) else db
    decreases 4 - k
  {
    if k < 4 {
      FourAttempts(isolateDDL, db, attempts, k + 1);
      OneSuitsFrom(db, attempts, k);
    }
  }

  lemma OneSuitsFrom<S>(db: Database<S>, attempts: nat -> Attempt, k: nat)
    requires k < 4
    ensures OneSuits(db, attempts, k) <==>
            attempts(k).check != CheckFails && (Suits(attempts(k), db) || OneSuits(db, attempts, k + 1))
  {
    hide Suits;
    if OneSuits(db, attempts, k) && !Suits(attempts(k), db) {
      var i: nat :| k <= i < 4 && Suits(attempts(i), db) && forall j: nat | k <= j <= i :: attempts(j).check != CheckFails;
      assert i > k;
    }
    if attempts(k).check != CheckFails && OneSuits(db, attempts, k + 1) {
      var i: nat :| k + 1 <= i < 4 && Suits(attempts(i), db) &&
        forall j: nat | k + 1 <= j <= i :: attempts(j).check != CheckFails;
      assert k <= i;
    }
  }

  // ----- Isolated DDL and version 0

  /** Without isolation a call that reports success has left version 0 in the table. */
  lemma {:induction false} EnsuredHasZero<S>(db: Database<S>, attempts: nat -> Attempt, k: nat)
    requires k <= MAX_ATTEMPTS && (db.created ==> 0 in db.rows)
    requires TryEnsure(false, db, attempts, k).0
    ensures
      var after := TryEnsure(false, db, attempts, k).1;
      after.created && 0 in after.rows
    decreases MAX_ATTEMPTS - k
  {
    if EnsureOnce(false, db, attempts(k)).0.Retry? {
      EnsuredHasZero(db, attempts, k + 1);
    }
  }

  /** On a database without a version table, success means that version 0 is recorded, whatever
      fails on the way, if and only if DDL is not isolated. */
  lemma SuccessMeansZeroIff<S>(isolateDDL: bool, schema: S)
    ensures
      var untouched := Database(false, [], schema);
      (forall attempts: nat -> Attempt ::
         var (ok, after) := TryEnsure(isolateDDL, untouched, attempts, 0);
         ok ==> after.created && 0 in after.rows)
      <==> !isolateDDL
  {
    var untouched := Database(false, [], schema);
    if !isolateDDL {
      forall attempts: nat -> Attempt | TryEnsure(isolateDDL, untouched, attempts, 0).0
        ensures 0 in TryEnsure(isolateDDL, untouched, attempts, 0).1.rows &&
                TryEnsure(isolateDDL, untouched, attempts, 0).1.created
      {
        EnsuredHasZero(untouched, attempts, 0);
      }
    } else {
      // the table is created, its first row is refused, and the retry finds the table
      var insertFailsOnce: nat -> Attempt := k => CLEAN_ATTEMPT.(insertOk := k > 0);
      var blank := Database(true, [], schema);
      assert EnsureOnce(true, untouched, insertFailsOnce(0)) == (Retry, blank);
      assert EnsureOnce(true, blank, insertFailsOnce(1)) == (Settled, blank);
      assert TryEnsure(true, blank, insertFailsOnce, 1) == (true, blank);
      assert TryEnsure(true, untouched, insertFailsOnce, 0) == (true, blank);
    }
  }
}
