/** The schema is always the one that the recorded migrations, replayed in the order of their rows,
    build from the start; so rolling everything back restores the start (provider.go, provider_run.go). */
module SchemaReplay {
  import opened Wrappers
  import opened Versions
  import opened Migrator
  import opened Batches
  import opened Traces
  import opened Gates

  /** The ups of the recorded versions, in insertion order. */
  function Replay<S>(cfg: Config<S>, rows: seq<int>, start: S): Option<S> {
    if rows == [] then Some(start)
    else
      match Replay(cfg, rows[..|rows| - 1], start)
      case None => None
      case Some(s) =>
        var v := rows[|rows| - 1];
        if v == 0 then Some(s)
        else
          match Find(cfg.migrations, v)
          case None => None
          case Some(m) =>
            var ran := RunEffects(EffectsOf(m, true, true), NoFault, s);
            if ran.ok then Some(ran.schema) else None
  }

  /** Each migration is transactional in both directions, and its down undoes its up. */
  ghost predicate Undoes<S(!new)>(m: Migration<S>) {
    && UseTx(m, true) == UseTx(m, false) == Some(true)
    && forall s: S ::
         var ran := RunEffects(EffectsOf(m, true, true), NoFault, s);
         ran.ok ==> RunEffects(EffectsOf(m, false, true), NoFault, ran.schema) == Ran(true, s)
  }

  ghost predicate Reversible<S(!new)>(cfg: Config<S>) {
    Sound(cfg) && forall m | m in cfg.migrations :: Undoes(m)
  }

  ghost predicate Replays<S>(cfg: Config<S>, db: Database<S>, start: S) {
    GoodTable(db) && Replay(cfg, db.rows, start) == Some(db.schema)
  }

  /** A run that succeeds under a fault has not met it. */
  lemma {:induction false} SuccessMeetsNoFault<S>(effects: seq<Effect<S>>, fault: Fault, s: S, n: nat)
    requires n <= |effects| && RunFirst(effects, fault, s, n).ok
    ensures RunFirst(effects, fault, s, n) == RunFirst(effects, NoFault, s, n)
  {
    if n > 0 {
      SuccessMeetsNoFault(effects, fault, s, n - 1);
    }
  }

  lemma UpReplays<S(!new)>(cfg: Config<S>, db: Database<S>, m: Migration<S>, fault: Fault, start: S)
    requires Reversible(cfg) && Replays(cfg, db, start) && Allowed(cfg, db, Run(m, true, fault))
    requires RunIndividually(cfg, db, m, true, fault).0
    ensures
      var after := RunIndividually(cfg, db, m, true, fault).1;
      Replay(cfg, after.rows, start) == Some(after.schema)
  {
    hide EffectsOf, RunFirst;
    assert Undoes(m);
    MigrationIsPositive(cfg, m);
    SuccessMeetsNoFault(EffectsOf(m, true, true), fault, db.schema, |EffectsOf(m, true, true)|);
    assert (db.rows + [m.version])[..|db.rows|] == db.rows;
  }

  lemma DownReplays<S(!new)>(cfg: Config<S>, db: Database<S>, m: Migration<S>, fault: Fault, start: S)
    requires Reversible(cfg) && Replays(cfg, db, start)
    requires Allowed(cfg, db, Run(m, false, fault)) && InOrder(cfg, db, Run(m, false, fault))
    requires RunIndividually(cfg, db, m, false, fault).0
    ensures
      var after := RunIndividually(cfg, db, m, false, fault).1;
      Replay(cfg, after.rows, start) == Some(after.schema)
  {
    hide EffectsOf, RunFirst;
    assert Undoes(m);
    MigrationIsPositive(cfg, m);
    SuccessMeetsNoFault(EffectsOf(m, false, true), fault, db.schema, |EffectsOf(m, false, true)|);
    RemoveLast(db.rows);
    var front := db.rows[..|db.rows| - 1];
    var before := Replay(cfg, front, start).value;
    assert RunEffects(EffectsOf(m, true, true), NoFault, before) == Ran(true, db.schema);
  }

  lemma StepReplays<S(!new)>(cfg: Config<S>, db: Database<S>, s: Step<S>, start: S)
    requires Reversible(cfg) && Replays(cfg, db, start) && Allowed(cfg, db, s) && InOrder(cfg, db, s)
    ensures Replays(cfg, Do(cfg, db, s), start)
  {
    hide RunIndividually, Reversible, InOrder;
    StepKeepsTable(cfg, db, s) by { SoundOf(cfg); }
    match s
    case CreateTable =>
      assert [0][..0] == [];
      assert Replay(cfg, [0], start) == Some(start);
    case Run(m, up, fault) =>
      if RunIndividually(cfg, db, m, up, fault).0 {
        if up {
          UpReplays(cfg, db, m, fault, start);
        } else {
          DownReplays(cfg, db, m, fault, start);
        }
      } else {
        FailureReplays(cfg, db, m, up, fault);
      }
  }

  lemma SoundOf<S(!new)>(cfg: Config<S>)
    requires Reversible(cfg)
    ensures Sound(cfg)
  {
  }

  lemma FailureReplays<S(!new)>(cfg: Config<S>, db: Database<S>, m: Migration<S>, up: bool, fault: Fault)
    requires Reversible(cfg) && m in cfg.migrations && !RunIndividually(cfg, db, m, up, fault).0
    ensures RunIndividually(cfg, db, m, up, fault).1 == db
  {
    assert Undoes(m);
    FailureLeavesNoTrace(cfg, db, m, up, fault);
  }

  lemma {:induction false} TraceReplays<S(!new)>(cfg: Config<S>, db: Database<S>, steps: seq<Step<S>>, start: S)
    requires Reversible(cfg) && Replays(cfg, db, start)
    requires AllAllowed(cfg, db, steps) && AllInOrder(cfg, db, steps)
    ensures Replays(cfg, DoAll(cfg, db, steps), start)
  {
    hide Reversible, Replays, Allowed, InOrder, Do;
    if steps != [] {
      var front := steps[..|steps| - 1];
      TraceReplays(cfg, db, front, start);
      StepReplays(cfg, DoAll(cfg, db, front), steps[|steps| - 1], start);
    }
  }

  /** After any run of Up, UpTo, UpByOne, Down and DownTo, failures and out-of-order runs included, the
      schema is the replay of the recorded rows in insertion order. */
  lemma {:induction false} SchemaIsReplay<S(!new)>(cfg: Config<S>, st: State<S>, ops: seq<Op>, start: S)
    requires Reversible(cfg) && Replays(cfg, st.db, start)
    requires forall op | op in ops :: !op.ApplyVersion?
    ensures Replays(cfg, After(cfg, st, ops).db, start)
  {
    hide Reversible, Exec, Replay;
    if ops != [] {
      var front, last := ops[..|ops| - 1], ops[|ops| - 1];
      assert last in ops;
      SchemaIsReplay(cfg, st, front, start);
      var before := After(cfg, st, front);
      SoundOf(cfg);
      var steps := CallIsTrace(cfg, before, last);
      TraceReplays(cfg, before.db, steps, start);
    }
  }

  /** From an untouched database, any such run followed by a successful DownTo(0) restores the schema
      that was there at the start, and leaves version 0 alone in the table. */
  lemma DownToZeroRestores<S(!new)>(cfg: Config<S>, st: State<S>, ops: seq<Op>, env: Env)
    requires Reversible(cfg) && Untouched(st)
    requires forall op | op in ops :: !op.ApplyVersion?
    requires cfg.migrations != []
    requires Exec(cfg, After(cfg, st, ops), DownTo(0, env)).0.Ok?
    ensures
      var after := Exec(cfg, After(cfg, st, ops), DownTo(0, env)).1;
      after.db.schema == st.db.schema && after.db.rows == [0]
  {
    hide Reversible, After, Exec;
    SoundOf(cfg);
    SchemaIsReplay(cfg, st, ops, st.db.schema);
    var before := After(cfg, st, ops);
    var all := ops + [DownTo(0, env)];
    AfterAppend(cfg, st, ops, DownTo(0, env));
    SchemaIsReplay(cfg, st, all, st.db.schema);
    DownToZeroLeavesZero(cfg, before, env);
    assert [0][..0] == [];
    assert Replay(cfg, [0], st.db.schema) == Some(st.db.schema);
  }

  lemma AfterAppend<S>(cfg: Config<S>, st: State<S>, ops: seq<Op>, op: Op)
    ensures After(cfg, st, ops + [op]) == Exec(cfg, After(cfg, st, ops), op).1
  {
    hide Exec;
    assert (ops + [op])[..|ops|] == ops;
  }

  lemma DownToZeroLeavesZero<S>(cfg: Config<S>, st: State<S>, env: Env)
    requires Sound(cfg) && GoodTable(st.db) && cfg.migrations != []
    requires Exec(cfg, st, DownTo(0, env)).0.Ok?
    ensures Exec(cfg, st, DownTo(0, env)).1.db.rows == [0]
  {
    hide Initialize, RunMigrations, FindAll, Numbered;
    var steps := InitializeIsTrace(cfg, st, true, env);
    TraceKeepsTable(cfg, st.db, steps);
    var next := Initialize(cfg, st, true, env).1;
    var rows := next.db.rows;
    assert GoodRows(rows);
    if rows[|rows| - 1] != 0 {
      var plan := DownPlan(rows, 0);
      DownPlanMeaning(rows, 0);
      DownPlanIsNewestBatch(cfg, rows, 0);
      FoundAreKnown(cfg, plan);
      RunMigrationsDown(cfg, next.db, FindAll(cfg.migrations, plan).value, false, env);
      assert |plan| > 0 ==> plan[|plan| - 1] in plan;
      assert |plan| == |rows| - 1;
      assert rows[..1] == [0];
    } else {
      assert rows == [0];
    }
  }

  /** A downward batch that succeeds has removed exactly its rows. */
  lemma RunMigrationsDown<S>(cfg: Config<S>, db: Database<S>, apply: seq<Migration<S>>, byOne: bool, env: Env)
    requires GoodRows(db.rows) && Newest(db.rows, VersionsOf(apply))
    requires RunMigrations(cfg, db, apply, false, byOne, env).0.Ok?
    ensures
      var (r, after) := RunMigrations(cfg, db, apply, false, byOne, env);
      && r.value == VersionsOf(if byOne && apply != [] then apply[..1] else apply)
      && after.created == db.created
      && after.rows == db.rows[..|db.rows| - |r.value|]
  {
    hide RunBatch;
    if apply == [] {
      assert db.rows[..|db.rows|] == db.rows;
    } else {
      var batch := if byOne then apply[..1] else apply;
      assert VersionsOf(batch) == VersionsOf(apply)[..|batch|];
      DownBatchRows(cfg, db, batch, env.faults, |batch|);
    }
  }

  // ----- Rolling back without faults

  /** A replayed row has a migration, and rolling it back without faults succeeds. */
  lemma NewestRollsBack<S(!new)>(cfg: Config<S>, db: Database<S>, start: S)
    requires Reversible(cfg) && Replays(cfg, db, start) && db.created && db.rows[|db.rows| - 1] != 0
    ensures
      var m := Find(cfg.migrations, db.rows[|db.rows| - 1]);
      && m.Some? && m.value in cfg.migrations && m.value.version == db.rows[|db.rows| - 1]
      && Prepares(cfg, m.value, false)
      && var (ok, after) := RunIndividually(cfg, db, m.value, false, NoFault);
         ok && Replays(cfg, after, start) && after.created && after.rows == db.rows[..|db.rows| - 1]
  {
    hide EffectsOf, RunFirst, Numbered, RemoveVersion;
    var last := db.rows[|db.rows| - 1];
    FindMeaning(cfg.migrations, last);
    var m := Find(cfg.migrations, last).value;
    assert Undoes(m);
    var before := Replay(cfg, db.rows[..|db.rows| - 1], start).value;
    assert RunEffects(EffectsOf(m, true, true), NoFault, before) == Ran(true, db.schema);
    RemoveLast(db.rows);
    UndoneIsPrepared(cfg, m);
    var s := Run(m, false, NoFault);
    assert Allowed(cfg, db, s);
    StepKeepsTable(cfg, db, s);
  }

  lemma UndoneIsPrepared<S(!new)>(cfg: Config<S>, m: Migration<S>)
    requires Undoes(m)
    ensures Prepares(cfg, m, false)
  {
  }

  /** Every front of a replayed table is replayed by the rollbacks that lead to it. */
  lemma {:induction false} CleanDownBatch<S(!new)>(cfg: Config<S>, db: Database<S>, start: S, target: nat, n: nat)
    requires Reversible(cfg) && Replays(cfg, db, start) && db.created && n <= |DownPlan(db.rows, target)|
    ensures
      var found := FindAll(cfg.migrations, DownPlan(db.rows, target)[..n]);
      && found.Some? && |found.value| == n
      && (forall i | 0 <= i < n :: Prepares(cfg, found.value[i], false))
      && var p := RunBatch(cfg, db, found.value, false, CLEAN.faults, n);
         && p.failed.None? && Replays(cfg, p.db, start) && p.db.created
         && p.db.rows == db.rows[..|db.rows| - n]
  {
    hide RunIndividually, Reversible, Replays, Find, DownPlan, Prepares, FindAll, RunBatch;
    var plan := DownPlan(db.rows, target);
    DownPlanMeaning(db.rows, target);
    if n == 0 {
      assert plan[..0] == [] && db.rows[..|db.rows|] == db.rows;
      FindAllNone(cfg.migrations);
      StartOfBatch(cfg, db, [], false, CLEAN.faults);
    } else {
      CleanDownBatch(cfg, db, start, target, n - 1);
      var front := FindAll(cfg.migrations, plan[..n - 1]).value;
      var before := RunBatch(cfg, db, front, false, CLEAN.faults, n - 1);
      assert plan[n - 1] in plan;
      assert before.db.rows[|db.rows| - n] == plan[n - 1] && before.db.rows[..|db.rows| - n] == db.rows[..|db.rows| - n];
      NewestRollsBack(cfg, before.db, start);
      assert plan[..n] == plan[..n - 1] + [plan[n - 1]];
      FindAllAppend(cfg.migrations, plan[..n - 1], plan[n - 1]);
      var found := FindAll(cfg.migrations, plan[..n]).value;
      assert found[..n - 1] == front;
      BatchOfPrefix(cfg, db, found, n - 1, false, CLEAN.faults, n - 1);
      NextOfBatch(cfg, db, found, false, CLEAN.faults, n - 1);
    }
  }

  lemma ReplayedIsGood<S>(cfg: Config<S>, db: Database<S>, start: S)
    requires Replays(cfg, db, start)
    ensures GoodTable(db)
  {
  }

  /** A DownTo without faults succeeds on a replayed table. */
  lemma CleanDownTo<S(!new)>(cfg: Config<S>, st: State<S>, start: S, version: nat)
    requires Reversible(cfg) && Replays(cfg, st.db, start) && cfg.migrations != [] && st.db.created
    ensures Exec(cfg, st, DownTo(version, CLEAN)).0.Ok?
  {
    hide Reversible, Replays, RunBatch, FindAll, DownPlan, Find;
    ReplayedIsGood(cfg, st.db, start);
    CleanEnsureFinds(cfg.isolateDDL, st.db);
    var plan := DownPlan(st.db.rows, version);
    CleanDownBatch(cfg, st.db, start, version, |plan|);
    DownPlanMeaning(st.db.rows, version);
    assert plan[..|plan|] == plan;
    assert plan != [] ==> plan[|plan| - 1] in plan;
  }

  /** A DownTo without faults succeeds if and only if the version table is there or can still be
      created. */
  lemma DownToSucceedsIff<S(!new)>(cfg: Config<S>, st: State<S>, start: S, version: nat)
    requires Reversible(cfg) && Replays(cfg, st.db, start) && cfg.migrations != []
    ensures Exec(cfg, st, DownTo(version, CLEAN)).0.Ok? <==> st.db.created || !st.ensured
  {
    hide Reversible, Replays, Exec;
    if st.db.created {
      CleanDownTo(cfg, st, start, version);
    } else if st.ensured {
      NoSecondAttempt(cfg, st, []);
    } else {
      CleanEnsureCreates(cfg.isolateDDL, st.db);
      CleanDownToEnsures(cfg, st, version);
    }
  }

  /** So from an untouched database, after any such run, a DownTo(0) without faults restores the start
      if and only if the provider has not failed its attempt at the version table. */
  lemma RunThenDownToZero<S(!new)>(cfg: Config<S>, st: State<S>, ops: seq<Op>)
    requires Reversible(cfg) && Untouched(st) && cfg.migrations != []
    requires forall op | op in ops :: !op.ApplyVersion?
    ensures
      var before := After(cfg, st, ops);
      var (r, after) := Exec(cfg, before, DownTo(0, CLEAN));
      && (r.Ok? <==> before.db.created || !before.ensured)
      && (r.Ok? ==> after.db.schema == st.db.schema && after.db.rows == [0])
  {
    hide Reversible, After, Exec;
    assert Replays(cfg, st.db, st.db.schema) by {
      assert Replay(cfg, [], st.db.schema) == Some(st.db.schema);
    }
    SchemaIsReplay(cfg, st, ops, st.db.schema);
    DownToSucceedsIff(cfg, After(cfg, st, ops), st.db.schema, 0);
    if Exec(cfg, After(cfg, st, ops), DownTo(0, CLEAN)).0.Ok? {
      DownToZeroRestores(cfg, st, ops, CLEAN);
    }
  }
}
