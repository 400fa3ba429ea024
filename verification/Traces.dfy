/** Every provider operation is a sequence of small steps, each of which is one of few kinds
    (provider.go, provider_run.go). What every small step keeps, every run of operations keeps. */
module Traces {
  import opened Wrappers
  import opened Versions
  import opened UpVersions
  import opened Migrator
  import opened Batches

  /** The version table is created with its first row, or one migration is run, perhaps in vain. */
  datatype Step<!S> = CreateTable | Run(m: Migration<S>, up: bool, fault: Fault)

  function Do<S>(cfg: Config<S>, db: Database<S>, s: Step<S>): Database<S> {
    match s
    case CreateTable => db.(created := true, rows := [0])
    case Run(m, up, fault) => RunIndividually(cfg, db, m, up, fault).1
  }

  function DoAll<S>(cfg: Config<S>, db: Database<S>, steps: seq<Step<S>>): Database<S> {
    if steps == [] then db
    else Do(cfg, DoAll(cfg, db, steps[..|steps| - 1]), steps[|steps| - 1])
  }

  /** The table is created once; a migration is run upwards if its version is not recorded and
      downwards if it is. */
  ghost predicate Allowed<S>(cfg: Config<S>, db: Database<S>, s: Step<S>) {
    match s
    case CreateTable => !db.created
    case Run(m, up, _) =>
      && db.created && m in cfg.migrations && Find(cfg.migrations, m.version) == Some(m)
      && (up <==> m.version !in db.rows)
  }

  /** Upwards the least unrecorded version is next, downwards the newest row. */
  ghost predicate InOrder<S>(cfg: Config<S>, db: Database<S>, s: Step<S>) {
    match s
    case CreateTable => true
    case Run(m, up, _) =>
      if up then forall v | v in VersionsOf(cfg.migrations) :: v !in db.rows ==> m.version <= v
      else db.rows != [] && m.version == db.rows[|db.rows| - 1]
  }

  ghost predicate AllAllowed<S>(cfg: Config<S>, db: Database<S>, steps: seq<Step<S>>) {
    steps == [] ||
    var front := steps[..|steps| - 1];
    AllAllowed(cfg, db, front) && Allowed(cfg, DoAll(cfg, db, front), steps[|steps| - 1])
  }

  ghost predicate AllInOrder<S>(cfg: Config<S>, db: Database<S>, steps: seq<Step<S>>) {
    steps == [] ||
    var front := steps[..|steps| - 1];
    AllInOrder(cfg, db, front) && InOrder(cfg, DoAll(cfg, db, front), steps[|steps| - 1])
  }

  /** A trace from one database to another. */
  ghost predicate Connects<S>(cfg: Config<S>, db: Database<S>, steps: seq<Step<S>>, after: Database<S>) {
    AllAllowed(cfg, db, steps) && DoAll(cfg, db, steps) == after
  }

  lemma EmptyTrace<S>(cfg: Config<S>, db: Database<S>)
    ensures Connects(cfg, db, [], db) && AllInOrder(cfg, db, [])
  {
  }

  lemma DoAppend<S>(cfg: Config<S>, db: Database<S>, steps: seq<Step<S>>, s: Step<S>)
    ensures DoAll(cfg, db, steps + [s]) == Do(cfg, DoAll(cfg, db, steps), s)
    ensures AllAllowed(cfg, db, steps + [s]) <==>
            AllAllowed(cfg, db, steps) && Allowed(cfg, DoAll(cfg, db, steps), s)
    ensures AllInOrder(cfg, db, steps + [s]) <==>
            AllInOrder(cfg, db, steps) && InOrder(cfg, DoAll(cfg, db, steps), s)
  {
    hide Do, Allowed, InOrder;
    assert (steps + [s])[..|steps|] == steps;
  }

  lemma {:induction false} DoConcat<S>(cfg: Config<S>, db: Database<S>, a: seq<Step<S>>, b: seq<Step<S>>)
    requires AllAllowed(cfg, db, a) && AllAllowed(cfg, DoAll(cfg, db, a), b)
    ensures Connects(cfg, db, a + b, DoAll(cfg, DoAll(cfg, db, a), b))
    ensures AllInOrder(cfg, db, a) && AllInOrder(cfg, DoAll(cfg, db, a), b) ==> AllInOrder(cfg, db, a + b)
  {
    hide Do, Allowed, InOrder;
    if b == [] {
      assert a + b == a;
    } else {
      var front, last := b[..|b| - 1], b[|b| - 1];
      DoConcat(cfg, db, a, front);
      assert a + b == (a + front) + [last];
      DoAppend(cfg, db, a + front, last);
    }
  }

  // ----- What holds of every version table

  /** Version 0 comes first, no version is recorded twice, all others are positive. */
  ghost predicate GoodRows(rows: seq<int>) {
    rows != [] && rows[0] == 0 && Distinct(rows) && forall i :: 0 < i < |rows| ==> rows[i] > 0
  }

  ghost predicate GoodTable<S>(db: Database<S>) {
    if db.created then GoodRows(db.rows) else db.rows == []
  }

  /** Migrations have positive and distinct versions. */
  ghost predicate Numbered<S>(cfg: Config<S>) {
    Positive(VersionsOf(cfg.migrations)) && Distinct(VersionsOf(cfg.migrations))
  }

  /** And the table is created in one transaction. */
  ghost predicate Sound<S>(cfg: Config<S>) {
    !cfg.isolateDDL && Numbered(cfg)
  }

  lemma {:induction false} RemoveVersionMeaning(rows: seq<int>, v: int)
    requires GoodRows(rows) && v > 0
    ensures GoodRows(RemoveVersion(rows, v))
    ensures forall w :: w in RemoveVersion(rows, v) <==> w in rows && w != v
  {
    var front, last := rows[..|rows| - 1], rows[|rows| - 1];
    FrontMembers(rows, front);
    if front == [] {
      assert RemoveVersion(rows, v) == [] + [0];
    } else {
      RemoveVersionMeaning(front, v);
      assert last !in front;
    }
  }

  lemma VersionsArePositive<S>(cfg: Config<S>)
    requires Numbered(cfg)
    ensures forall v | v in VersionsOf(cfg.migrations) :: 0 < v <= MAX_INT64
    ensures Distinct(VersionsOf(cfg.migrations))
  {
  }

  lemma MigrationIsPositive<S>(cfg: Config<S>, m: Migration<S>)
    requires Numbered(cfg) && m in cfg.migrations
    ensures 0 < m.version <= MAX_INT64
  {
    var i :| 0 <= i < |cfg.migrations| && cfg.migrations[i] == m;
    assert VersionsOf(cfg.migrations)[i] in VersionsOf(cfg.migrations);
  }

  /** One step keeps the table good. */
  lemma StepKeepsTable<S>(cfg: Config<S>, db: Database<S>, s: Step<S>)
    requires Numbered(cfg) && GoodTable(db) && Allowed(cfg, db, s)
    ensures GoodTable(Do(cfg, db, s))
  {
    hide RunIndividually;
    match s
    case CreateTable =>
    case Run(m, up, fault) =>
      MigrationIsPositive(cfg, m);
      RunKeepsTable(cfg, db, m, up, fault);
      if !up {
        RemoveVersionMeaning(db.rows, m.version);
      }
  }

  lemma {:induction false} TraceKeepsTable<S>(cfg: Config<S>, db: Database<S>, steps: seq<Step<S>>)
    requires Numbered(cfg) && GoodTable(db) && AllAllowed(cfg, db, steps)
    ensures GoodTable(DoAll(cfg, db, steps))
  {
    hide Numbered, GoodTable, Allowed, Do;
    if steps != [] {
      TraceKeepsTable(cfg, db, steps[..|steps| - 1]);
      StepKeepsTable(cfg, DoAll(cfg, db, steps[..|steps| - 1]), steps[|steps| - 1]);
    }
  }

  // ----- From operations to traces

  lemma {:induction false} EnsureIsTrace<S>(cfg: Config<S>, db: Database<S>, attempts: nat -> Attempt, k: nat)
    requires !cfg.isolateDDL && k <= MAX_ATTEMPTS
    ensures
      var (ok, after) := TryEnsure(cfg.isolateDDL, db, attempts, k);
      after == db || (!db.created && after == db.(created := true, rows := [0]))
    decreases MAX_ATTEMPTS - k
  {
    if k < MAX_ATTEMPTS && EnsureOnce(cfg.isolateDDL, db, attempts(k)).0.Retry? {
      EnsureIsTrace(cfg, db, attempts, k + 1);
    }
  }

  lemma CleanEnsureCreates<S>(isolateDDL: bool, db: Database<S>)
    requires !db.created
    ensures TryEnsure(isolateDDL, db, CLEAN.attempts, 0) == (true, db.(created := true, rows := [0]))
  {
    assert EnsureOnce(isolateDDL, db, CLEAN.attempts(0)) == (Settled, db.(created := true, rows := [0]));
  }

  lemma CleanEnsureFinds<S>(isolateDDL: bool, db: Database<S>)
    requires db.created
    ensures TryEnsure(isolateDDL, db, CLEAN.attempts, 0) == (true, db)
  {
    assert EnsureOnce(isolateDDL, db, CLEAN.attempts(0)) == (Settled, db);
  }

  lemma InitializeIsTrace<S>(cfg: Config<S>, st: State<S>, useLocker: bool, env: Env) returns (steps: seq<Step<S>>)
    requires Sound(cfg)
    ensures Connects(cfg, st.db, steps, Initialize(cfg, st, useLocker, env).1.db)
    ensures AllInOrder(cfg, st.db, steps)
  {
    EnsureIsTrace(cfg, st.db, env.attempts, 0);
    var after := Initialize(cfg, st, useLocker, env).1.db;
    if after == st.db {
      steps := [];
    } else {
      steps := [CreateTable];
      DoAppend(cfg, st.db, [], CreateTable);
      assert [] + [CreateTable] == steps;
    }
  }

  /** A batch of pending versions in ascending order, least first. */
  ghost predicate PendingBatch<S>(cfg: Config<S>, rows: seq<int>, target: int, apply: seq<Migration<S>>) {
    var plan := VersionsOf(apply);
    && Ascending(plan) && Distinct(plan)
    && (forall v :: v in plan <==> v in VersionsOf(cfg.migrations) && v !in rows && v <= target)
    && forall m | m in apply :: m in cfg.migrations && Find(cfg.migrations, m.version) == Some(m)
  }

  lemma FoundAreKnown<S>(cfg: Config<S>, versions: seq<int>)
    requires FindAll(cfg.migrations, versions).Some?
    ensures
      var apply := FindAll(cfg.migrations, versions).value;
      && VersionsOf(apply) == versions
      && forall i | 0 <= i < |apply| :: apply[i] in cfg.migrations && Find(cfg.migrations, apply[i].version) == Some(apply[i])
  {
    hide FindAll, Find;
    FindAllMeaning(cfg.migrations, versions);
    var apply := FindAll(cfg.migrations, versions).value;
    forall i | 0 <= i < |apply|
      ensures apply[i] in cfg.migrations && Find(cfg.migrations, apply[i].version) == Some(apply[i])
    {
      FindMeaning(cfg.migrations, versions[i]);
      assert VersionsOf(apply)[i] == apply[i].version;
    }
  }

  lemma PlanIsPendingBatch<S>(cfg: Config<S>, rows: seq<int>, target: int)
    requires Numbered(cfg) && UpPlan(VersionsOf(cfg.migrations), rows, target, cfg.allowMissing).Ok?
    ensures
      var plan := UpPlan(VersionsOf(cfg.migrations), rows, target, cfg.allowMissing).value;
      && FindAll(cfg.migrations, plan).Some?
      && VersionsOf(FindAll(cfg.migrations, plan).value) == plan
      && PendingBatch(cfg, rows, target, FindAll(cfg.migrations, plan).value)
  {
    hide Ascending, Distinct, UpPlan, FindAll, Find, Numbered;
    PlanMeaning(VersionsOf(cfg.migrations), rows, target, cfg.allowMissing) by { VersionsArePositive(cfg); }
    var plan := UpPlan(VersionsOf(cfg.migrations), rows, target, cfg.allowMissing).value;
    FindAllMeaning(cfg.migrations, plan);
    FoundAreKnown(cfg, plan);
    var apply := FindAll(cfg.migrations, plan).value;
    forall m | m in apply ensures m in cfg.migrations && Find(cfg.migrations, m.version) == Some(m) {
      var i :| 0 <= i < |apply| && apply[i] == m;
    }
  }

  /** The next migration of a pending batch is pending and least. */
  lemma NextIsLeast<S>(cfg: Config<S>, rows: seq<int>, target: int, apply: seq<Migration<S>>, n: nat)
    requires PendingBatch(cfg, rows, target, apply) && n < |apply|
    ensures
      var recorded := rows + VersionsOf(apply)[..n];
      && apply[n].version !in recorded
      && forall v | v in VersionsOf(cfg.migrations) :: v !in recorded ==> apply[n].version <= v
  {
    var plan := VersionsOf(apply);
    var recorded := rows + plan[..n];
    assert plan[n] in plan;
    forall i | 0 <= i < n ensures plan[i] in recorded {
      assert plan[..n][i] == plan[i];
    }
    forall v | v in VersionsOf(cfg.migrations) && v !in recorded ensures apply[n].version <= v {
      if v <= target {
        assert v in plan;
        var i :| 0 <= i < |plan| && plan[i] == v;
      }
    }
  }

  lemma {:induction false} UpBatchIsTrace<S>(
    cfg: Config<S>, db: Database<S>, target: int, apply: seq<Migration<S>>, faults: nat -> Fault, n: nat)
    returns (steps: seq<Step<S>>)
    requires db.created && n <= |apply| && PendingBatch(cfg, db.rows, target, apply)
    ensures Connects(cfg, db, steps, RunBatch(cfg, db, apply, true, faults, n).db)
    ensures AllInOrder(cfg, db, steps)
  {
    hide RunIndividually, PendingBatch, RecordAll, AllAllowed, AllInOrder, DoAll;
    if n == 0 {
      EmptyTrace(cfg, db);
      steps := [];
    } else {
      steps := UpBatchIsTrace(cfg, db, target, apply, faults, n - 1);
      var before := RunBatch(cfg, db, apply, true, faults, n - 1);
      if before.failed.None? {
        UpBatchRows(cfg, db, apply, faults, n - 1);
        NextIsLeast(cfg, db.rows, target, apply, n - 1);
        MemberOfBatch(cfg, db.rows, target, apply, n - 1);
        var s := Run(apply[n - 1], true, faults(n - 1));
        DoAppend(cfg, db, steps, s);
        steps := steps + [s];
      }
    }
  }

  lemma MemberOfBatch<S>(cfg: Config<S>, rows: seq<int>, target: int, apply: seq<Migration<S>>, i: nat)
    requires PendingBatch(cfg, rows, target, apply) && i < |apply|
    ensures apply[i] in cfg.migrations && Find(cfg.migrations, apply[i].version) == Some(apply[i])
  {
    assert apply[i] in apply;
  }

  /** A batch that rolls back the newest rows. */
  ghost predicate NewestBatch<S>(cfg: Config<S>, rows: seq<int>, apply: seq<Migration<S>>) {
    && Newest(rows, VersionsOf(apply))
    && forall i | 0 <= i < |apply| :: apply[i] in cfg.migrations && Find(cfg.migrations, apply[i].version) == Some(apply[i])
  }

  /** The next migration of such a batch is the newest of the rows that are left. */
  lemma NextIsNewest<S>(cfg: Config<S>, rows: seq<int>, apply: seq<Migration<S>>, n: nat)
    requires NewestBatch(cfg, rows, apply) && n < |apply|
    ensures Newest(rows, VersionsOf(apply)) && n < |rows|
    ensures rows[..|rows| - n][|rows| - n - 1] == apply[n].version
    ensures apply[n] in cfg.migrations && Find(cfg.migrations, apply[n].version) == Some(apply[n])
  {
    hide Find;
    assert VersionsOf(apply)[n] == apply[n].version;
  }

  lemma {:induction false} DownBatchIsTrace<S>(
    cfg: Config<S>, db: Database<S>, apply: seq<Migration<S>>, faults: nat -> Fault, n: nat)
    returns (steps: seq<Step<S>>)
    requires db.created && n <= |apply| && Distinct(db.rows) && NewestBatch(cfg, db.rows, apply)
    ensures Connects(cfg, db, steps, RunBatch(cfg, db, apply, false, faults, n).db)
    ensures AllInOrder(cfg, db, steps)
  {
    hide RunIndividually, Distinct, RecordAll, AllAllowed, AllInOrder, DoAll, Newest, NewestBatch, Find;
    if n == 0 {
      EmptyTrace(cfg, db);
      steps := [];
    } else {
      steps := DownBatchIsTrace(cfg, db, apply, faults, n - 1);
      var before := RunBatch(cfg, db, apply, false, faults, n - 1);
      if before.failed.None? {
        NextIsNewest(cfg, db.rows, apply, n - 1);
        DownBatchRows(cfg, db, apply, faults, n - 1);
        var s := Run(apply[n - 1], false, faults(n - 1));
        DoAppend(cfg, db, steps, s);
        steps := steps + [s];
      }
    }
  }

  lemma DownPlanIsNewestBatch<S>(cfg: Config<S>, rows: seq<int>, target: int)
    requires FindAll(cfg.migrations, DownPlan(rows, target)).Some?
    ensures NewestBatch(cfg, rows, FindAll(cfg.migrations, DownPlan(rows, target)).value)
  {
    hide FindAll, DownPlan;
    DownPlanMeaning(rows, target);
    FoundAreKnown(cfg, DownPlan(rows, target));
  }

  /** What runMigrations leaves is what some beginning of the batch leaves. */
  lemma RunMigrationsIsBatch<S>(
    cfg: Config<S>, db: Database<S>, migrations: seq<Migration<S>>, up: bool, byOne: bool, env: Env)
    returns (n: nat)
    ensures n <= |migrations|
    ensures RunMigrations(cfg, db, migrations, up, byOne, env).1 == RunBatch(cfg, db, migrations, up, env.faults, n).db
  {
    hide RunIndividually;
    n := 0;
    if migrations != [] {
      var apply := if byOne then migrations[..1] else migrations;
      if Unprepared(cfg, apply, up).None? {
        n := |apply|;
        BatchOfPrefix(cfg, db, migrations, n, up, env.faults, n);
        assert migrations[..n] == apply;
      }
    }
  }

  lemma UpIsTrace<S>(cfg: Config<S>, st: State<S>, byOne: bool, target: int, env: Env) returns (steps: seq<Step<S>>)
    requires Sound(cfg)
    ensures Connects(cfg, st.db, steps, RunUp(cfg, st, byOne, target, env).1.db)
    ensures AllInOrder(cfg, st.db, steps)
  {
    hide Initialize, RunMigrations, RunBatch, FindAll, UpPlan, DoAll, AllAllowed, AllInOrder, PendingBatch;
    var after := RunUp(cfg, st, byOne, target, env).1.db;
    if after == st.db {
      steps := [];
      EmptyTrace(cfg, st.db);
      return;
    }
    steps := InitializeIsTrace(cfg, st, true, env);
    var next := Initialize(cfg, st, true, env).1;
    if after != next.db {
      PlanIsPendingBatch(cfg, next.db.rows, target);
      var plan := UpPlan(VersionsOf(cfg.migrations), next.db.rows, target, cfg.allowMissing).value;
      var apply := FindAll(cfg.migrations, plan).value;
      var n := RunMigrationsIsBatch(cfg, next.db, apply, true, byOne, env);
      var more := UpBatchIsTrace(cfg, next.db, target, apply, env.faults, n);
      DoConcat(cfg, st.db, steps, more);
      steps := steps + more;
    }
  }

  lemma DownIsTrace<S>(cfg: Config<S>, st: State<S>, byOne: bool, target: int, env: Env) returns (steps: seq<Step<S>>)
    requires Sound(cfg) && GoodTable(st.db)
    ensures Connects(cfg, st.db, steps, RunDown(cfg, st, byOne, target, env).1.db)
    ensures AllInOrder(cfg, st.db, steps)
  {
    hide Initialize, RunMigrations, RunBatch, FindAll, DownPlan, DoAll, AllAllowed, AllInOrder, NewestBatch, Numbered;
    var after := RunDown(cfg, st, byOne, target, env).1.db;
    steps := InitializeIsTrace(cfg, st, true, env);
    var next := Initialize(cfg, st, true, env).1;
    if after != next.db {
      TraceKeepsTable(cfg, st.db, steps);
      DownPlanIsNewestBatch(cfg, next.db.rows, target);
      var apply := FindAll(cfg.migrations, DownPlan(next.db.rows, target)).value;
      NewestBatchBounds(cfg, next.db.rows, apply);
      var n := RunMigrationsIsBatch(cfg, next.db, apply, false, byOne, env);
      var more := DownBatchIsTrace(cfg, next.db, apply, env.faults, n);
      DoConcat(cfg, st.db, steps, more);
      steps := steps + more;
    }
  }

  lemma NewestBatchBounds<S>(cfg: Config<S>, rows: seq<int>, apply: seq<Migration<S>>)
    requires NewestBatch(cfg, rows, apply)
    ensures |apply| <= |rows|
  {
  }

  lemma ApplyIsTrace<S>(cfg: Config<S>, st: State<S>, version: int, up: bool, env: Env) returns (steps: seq<Step<S>>)
    requires Sound(cfg)
    ensures Connects(cfg, st.db, steps, RunApply(cfg, st, version, up, env).1.db)
  {
    hide Initialize, RunMigrations, RunIndividually, Find, DoAll, AllAllowed, Numbered;
    var after := RunApply(cfg, st, version, up, env).1.db;
    if after == st.db {
      steps := [];
      EmptyTrace(cfg, st.db);
      return;
    }
    steps := InitializeIsTrace(cfg, st, true, env);
    var next := Initialize(cfg, st, true, env).1;
    if after != next.db {
      FindMeaning(cfg.migrations, version);
      var m := Find(cfg.migrations, version).value;
      var n := RunMigrationsIsBatch(cfg, next.db, [m], up, true, env);
      assert n == 1 by {
        BatchOfOne(cfg, next.db, m, up, env.faults);
      }
      BatchOfOne(cfg, next.db, m, up, env.faults);
      var s := Run(m, up, env.faults(0));
      DoAppend(cfg, st.db, steps, s);
      steps := steps + [s];
    }
  }

  lemma BatchOfOne<S>(cfg: Config<S>, db: Database<S>, m: Migration<S>, up: bool, faults: nat -> Fault)
    ensures RunBatch(cfg, db, [m], up, faults, 0).db == db
    ensures RunBatch(cfg, db, [m], up, faults, 1).db == RunIndividually(cfg, db, m, up, faults(0)).1
  {
  }

  /** Every call is a trace; all but ApplyVersion go in order. */
  lemma CallIsTrace<S>(cfg: Config<S>, st: State<S>, op: Op) returns (steps: seq<Step<S>>)
    requires Sound(cfg) && GoodTable(st.db)
    ensures Connects(cfg, st.db, steps, Exec(cfg, st, op).1.db)
    ensures !op.ApplyVersion? ==> AllInOrder(cfg, st.db, steps)
  {
    hide Initialize, RunUp, RunDown, RunApply, HasPending, DoAll, AllAllowed, AllInOrder, Numbered, GoodTable;
    match op
    case Up(gate, env) => steps := GatedIsTrace(cfg, st, false, MAX_INT64, gate, env);
    case UpTo(version, gate, env) => steps := GatedIsTrace(cfg, st, false, version, gate, env);
    case UpByOne(gate, env) => steps := GatedIsTrace(cfg, st, true, MAX_INT64, gate, env);
    case Down(env) => steps := DownIsTrace(cfg, st, true, 0, env);
    case DownTo(version, env) =>
      if version < 0 {
        steps := [];
        EmptyTrace(cfg, st.db);
      } else {
        steps := DownIsTrace(cfg, st, false, version, env);
      }
    case ApplyVersion(version, up, env) => steps := ApplyIsTrace(cfg, st, version, up, env);
  }

  lemma GatedIsTrace<S>(cfg: Config<S>, st: State<S>, byOne: bool, target: int, gate: Env, env: Env)
    returns (steps: seq<Step<S>>)
    requires Sound(cfg)
    ensures Connects(cfg, st.db, steps, Gated(cfg, st, byOne, target, gate, env).1.db)
    ensures AllInOrder(cfg, st.db, steps)
  {
    hide Initialize, RunUp, DoAll, AllAllowed, AllInOrder, Numbered, UpPlan;
    steps := InitializeIsTrace(cfg, st, false, gate);
    var (pending, next) := HasPending(cfg, st, gate);
    assert next == Initialize(cfg, st, false, gate).1;
    if pending == Ok(true) {
      var more := UpIsTrace(cfg, next, byOne, target, env);
      DoConcat(cfg, st.db, steps, more);
      steps := steps + more;
    }
  }

  /** The version-table invariant: whatever calls are made, with whatever faults, the table is absent
      or begins with version 0, which is never removed, and records no version twice. */
  lemma {:induction false} TableStaysGood<S>(cfg: Config<S>, st: State<S>, ops: seq<Op>)
    requires Sound(cfg) && GoodTable(st.db)
    ensures GoodTable(After(cfg, st, ops).db)
  {
    hide Numbered, GoodTable, Exec;
    if ops != [] {
      var before := After(cfg, st, ops[..|ops| - 1]);
      TableStaysGood(cfg, st, ops[..|ops| - 1]);
      var steps := CallIsTrace(cfg, before, ops[|ops| - 1]);
      TraceKeepsTable(cfg, before.db, steps);
    }
  }
}
