/** Applying pending migrations one call at a time comes to the same as applying them at once
    (UpByOne and Up in provider.go). */
module Stepwise {
  import opened Wrappers
  import opened Versions
  import opened UpVersions
  import opened Migrator
  import opened Batches
  import opened Traces

  /** The state after n calls of UpByOne without faults. */
  function UpByOnes<S>(cfg: Config<S>, st: State<S>, n: nat): State<S> {
    if n == 0 then st else Exec(cfg, UpByOnes(cfg, st, n - 1), UpByOne(CLEAN, CLEAN)).1
  }

  /** The state that a call without faults starts its work from: the version table is there, unless an
      attempt at it has failed before. */
  function Prepared<S>(st: State<S>): State<S> {
    State(true, if st.db.created || st.ensured then st.db else st.db.(created := true, rows := [0]))
  }

  predicate Ready<S>(st: State<S>) {
    st.ensured && st.db.created
  }

  /** The pending check prepares the table, and finds the same as on a prepared one. */
  lemma CheckPrepares<S>(cfg: Config<S>, st: State<S>)
    ensures HasPending(cfg, st, CLEAN) == HasPending(cfg, Prepared(st), CLEAN)
    ensures HasPending(cfg, st, CLEAN).1 == Prepared(st)
  {
    hide TryEnsure, UpPlan;
    if st.db.created {
      CleanEnsureFinds(cfg.isolateDDL, st.db);
    } else {
      CleanEnsureCreates(cfg.isolateDDL, st.db);
    }
  }

  /** So a call without faults is the call from the prepared state. */
  lemma StartsPrepared<S>(cfg: Config<S>, st: State<S>, target: int, env: Env)
    ensures Exec(cfg, st, Up(CLEAN, env)) == Exec(cfg, Prepared(st), Up(CLEAN, env))
    ensures Exec(cfg, st, UpTo(target, CLEAN, env)) == Exec(cfg, Prepared(st), UpTo(target, CLEAN, env))
    ensures Exec(cfg, st, UpByOne(CLEAN, env)) == Exec(cfg, Prepared(st), UpByOne(CLEAN, env))
  {
    hide HasPending, RunUp, Prepared;
    CheckPrepares(cfg, st);
  }

  lemma SuccessIsReady<S>(cfg: Config<S>, st: State<S>)
    requires Exec(cfg, st, Up(CLEAN, CLEAN)).0.Ok?
    ensures Ready(Prepared(st))
  {
    hide UpPlan, RunUp, TryEnsure;
    CheckPrepares(cfg, st);
  }

  lemma CleanBatchPrefix<S>(cfg: Config<S>, db: Database<S>, apply: seq<Migration<S>>, i: nat, n: nat)
    requires i <= n <= |apply| && RunBatch(cfg, db, apply, true, CLEAN.faults, n).failed.None?
    ensures RunBatch(cfg, db, apply, true, CLEAN.faults, i).failed.None?
    decreases n
  {
    if i < n {
      CleanBatchPrefix(cfg, db, apply, i, n - 1);
    }
  }

  lemma ReadyUp<S>(cfg: Config<S>, st: State<S>)
    requires Numbered(cfg) && Ready(st)
    requires Exec(cfg, st, Up(CLEAN, CLEAN)).0.Ok?
    ensures
      var versions := VersionsOf(cfg.migrations);
      var plan := UpPlan(versions, st.db.rows, MAX_INT64, cfg.allowMissing);
      var (r, after) := Exec(cfg, st, Up(CLEAN, CLEAN));
      && plan.Ok? && r == Ok(plan.value)
      && FindAll(cfg.migrations, plan.value).Some?
      && var apply := FindAll(cfg.migrations, plan.value).value;
         && Unprepared(cfg, apply, true).None?
         && RunBatch(cfg, st.db, apply, true, CLEAN.faults, |apply|).failed.None?
         && after == st.(db := RunBatch(cfg, st.db, apply, true, CLEAN.faults, |apply|).db)
  {
    hide UpPlan, RunBatch, Numbered, Unprepared;
    var plan := UpPlan(VersionsOf(cfg.migrations), st.db.rows, MAX_INT64, cfg.allowMissing).value;
    FindAllMeaning(cfg.migrations, plan);
    if plan == [] {
      NothingToRun(cfg, st.db);
    } else {
      VersionsArePositive(cfg);
      PlanMeaning(VersionsOf(cfg.migrations), st.db.rows, MAX_INT64, cfg.allowMissing);
      var apply := FindAll(cfg.migrations, plan).value;
      AppliedIsPrefix(cfg, st.db, apply, true, CLEAN.faults, |apply|);
      assert plan[..|plan|] == plan;
    }
  }

  /** What a successful Up without faults has done, from whatever state. */
  lemma CleanUp<S>(cfg: Config<S>, st: State<S>)
    requires Numbered(cfg) && Exec(cfg, st, Up(CLEAN, CLEAN)).0.Ok?
    ensures
      var p := Prepared(st);
      var versions := VersionsOf(cfg.migrations);
      var plan := UpPlan(versions, p.db.rows, MAX_INT64, cfg.allowMissing);
      var (r, after) := Exec(cfg, st, Up(CLEAN, CLEAN));
      && plan.Ok? && r == Ok(plan.value)
      && FindAll(cfg.migrations, plan.value).Some?
      && var apply := FindAll(cfg.migrations, plan.value).value;
         && Unprepared(cfg, apply, true).None?
         && RunBatch(cfg, p.db, apply, true, CLEAN.faults, |apply|).failed.None?
         && after == p.(db := RunBatch(cfg, p.db, apply, true, CLEAN.faults, |apply|).db)
  {
    hide UpPlan, RunBatch, Numbered, Unprepared, Exec, FindAll;
    StartsPrepared(cfg, st, 0, CLEAN);
    SuccessIsReady(cfg, st);
    ReadyUp(cfg, Prepared(st));
  }

  lemma NothingToRun<S>(cfg: Config<S>, db: Database<S>)
    ensures RunBatch(cfg, db, [], true, CLEAN.faults, 0) == Progress([], None, db)
    ensures Unprepared(cfg, [], true).None?
  {
  }

  /** The plan of a call from a state, and the migrations for it. */
  ghost predicate Plans<S>(cfg: Config<S>, st: State<S>, apply: seq<Migration<S>>) {
    var plan := UpPlan(VersionsOf(cfg.migrations), Prepared(st).db.rows, MAX_INT64, cfg.allowMissing);
    plan.Ok? && FindAll(cfg.migrations, plan.value) == Some(apply)
  }

  lemma WorkNeedsRows<S>(cfg: Config<S>, st: State<S>, apply: seq<Migration<S>>)
    requires Ready(st) && Exec(cfg, st, Up(CLEAN, CLEAN)).0.Ok? && Plans(cfg, st, apply) && apply != []
    ensures st.db.rows != [] && cfg.migrations != []
  {
    hide UpPlan, RunMigrations;
    FindAllMeaning(cfg.migrations, UpPlan(VersionsOf(cfg.migrations), st.db.rows, MAX_INT64, cfg.allowMissing).value);
  }

  /** The i-th UpByOne applies the i-th migration of the plan. */
  lemma OneMore<S>(cfg: Config<S>, st: State<S>, apply: seq<Migration<S>>, i: nat)
    requires Numbered(cfg) && Exec(cfg, st, Up(CLEAN, CLEAN)).0.Ok? && Plans(cfg, st, apply)
    requires i < |apply|
    ensures
      var p := Prepared(st);
      var here := p.(db := RunBatch(cfg, p.db, apply, true, CLEAN.faults, i).db);
      Exec(cfg, here, UpByOne(CLEAN, CLEAN)) ==
      (Ok([apply[i].version]), p.(db := RunBatch(cfg, p.db, apply, true, CLEAN.faults, i + 1).db))
  {
    hide UpPlan, RunIndividually, Numbered, Exec, FindAll;
    var versions, p := VersionsOf(cfg.migrations), Prepared(st);
    var plan := UpPlan(versions, p.db.rows, MAX_INT64, cfg.allowMissing).value;
    StartsPrepared(cfg, st, 0, CLEAN);
    SuccessIsReady(cfg, st);
    ReadyUp(cfg, p);
    WorkNeedsRows(cfg, p, apply);
    CleanBatchPrefix(cfg, p.db, apply, i, |apply|);
    CleanBatchPrefix(cfg, p.db, apply, i + 1, |apply|);
    FindAllMeaning(cfg.migrations, plan);
    var before := RunBatch(cfg, p.db, apply, true, CLEAN.faults, i);
    UpBatchRows(cfg, p.db, apply, CLEAN.faults, i);
    VersionsArePositive(cfg);
    PlanTail(versions, p.db.rows, MAX_INT64, cfg.allowMissing, i);
    FindSuffix(cfg.migrations, plan, i);
    ExecUpByOne(cfg, p.(db := before.db), plan[i..], apply[i..]);
  }

  lemma {:induction false} FindSuffix<S>(migrations: seq<Migration<S>>, versions: seq<int>, i: nat)
    requires i <= |versions| && FindAll(migrations, versions).Some?
    ensures |FindAll(migrations, versions).value| == |versions|
    ensures FindAll(migrations, versions[i..]) == Some(FindAll(migrations, versions).value[i..])
    decreases |versions|
  {
    FindAllMeaning(migrations, versions);
    if i < |versions| {
      var front := versions[..|versions| - 1];
      FindSuffix(migrations, front, i);
      var found, rest := FindAll(migrations, versions).value, versions[i..];
      assert rest[..|rest| - 1] == front[i..] && rest[|rest| - 1] == versions[|versions| - 1];
      assert found[i..] == FindAll(migrations, front).value[i..] + [found[|found| - 1]];
    } else {
      assert versions[i..] == [] && FindAll(migrations, versions).value[i..] == [];
    }
  }

  lemma ExecUpByOne<S>(cfg: Config<S>, st: State<S>, plan: seq<int>, apply: seq<Migration<S>>)
    requires Ready(st) && st.db.rows != [] && plan != [] && apply != [] && Unprepared(cfg, apply[..1], true).None?
    requires UpPlan(VersionsOf(cfg.migrations), st.db.rows, MAX_INT64, cfg.allowMissing) == Ok(plan)
    requires FindAll(cfg.migrations, plan) == Some(apply) && cfg.migrations != []
    requires RunIndividually(cfg, st.db, apply[0], true, NoFault).0
    ensures Exec(cfg, st, UpByOne(CLEAN, CLEAN)) ==
            (Ok([apply[0].version]), st.(db := RunIndividually(cfg, st.db, apply[0], true, NoFault).1))
  {
    hide UpPlan, RunIndividually, FindAll, Unprepared;
    var one := apply[..1];
    assert RunBatch(cfg, st.db, one, true, CLEAN.faults, 0) == Progress([], None, st.db);
    assert RunBatch(cfg, st.db, one, true, CLEAN.faults, 1).applied == [] + [apply[0].version];
    assert [] + [apply[0].version] == [apply[0].version];
  }

  /** If Up succeeds, from whatever state, then calling UpByOne over and over applies the same migrations
      in the same order; the next call then reports that there is no next version and leaves the state
      that Up leaves. */
  lemma UpByOnesAreUp<S>(cfg: Config<S>, st: State<S>, n: nat)
    requires Numbered(cfg) && Exec(cfg, st, Up(CLEAN, CLEAN)).0.Ok?
    requires n <= |Exec(cfg, st, Up(CLEAN, CLEAN)).0.value|
    ensures
      var (r, after) := Exec(cfg, st, Up(CLEAN, CLEAN));
      var (next, left) := Exec(cfg, UpByOnes(cfg, st, n), UpByOne(CLEAN, CLEAN));
      if n < |r.value| then next == Ok([r.value[n]]) else next == Err(NoNextVersion) && left == after
  {
    hide UpPlan, RunIndividually, Numbered, Exec, FindAll, RunBatch, UpByOnes;
    var p := Prepared(st);
    CleanUp(cfg, st);
    SuccessIsReady(cfg, st);
    var plan := UpPlan(VersionsOf(cfg.migrations), p.db.rows, MAX_INT64, cfg.allowMissing).value;
    var apply := FindAll(cfg.migrations, plan).value;
    FindAllMeaning(cfg.migrations, plan);
    UpByOnesAreBatch(cfg, st, apply, n);
    var here := p.(db := RunBatch(cfg, p.db, apply, true, CLEAN.faults, n).db);
    if n < |plan| {
      OneMore(cfg, st, apply, n);
      assert VersionsOf(apply)[n] == apply[n].version;
    } else {
      UpBatchRows(cfg, p.db, apply, CLEAN.faults, n);
      VersionsArePositive(cfg);
      PlanTail(VersionsOf(cfg.migrations), p.db.rows, MAX_INT64, cfg.allowMissing, n);
      assert plan[n..] == [];
      NothingPending(cfg, here);
    }
  }

  lemma NothingPending<S>(cfg: Config<S>, st: State<S>)
    requires Ready(st)
    requires UpPlan(VersionsOf(cfg.migrations), st.db.rows, MAX_INT64, cfg.allowMissing) == Ok([])
    ensures Exec(cfg, st, UpByOne(CLEAN, CLEAN)) == (Err(NoNextVersion), st)
  {
    hide UpPlan;
  }

  /** After n calls the next call goes on from where n migrations of the batch have led. */
  lemma {:induction false} UpByOnesAreBatch<S>(cfg: Config<S>, st: State<S>, apply: seq<Migration<S>>, n: nat)
    requires Numbered(cfg) && Exec(cfg, st, Up(CLEAN, CLEAN)).0.Ok? && Plans(cfg, st, apply)
    requires n <= |apply|
    ensures
      var p := Prepared(st);
      var here := p.(db := RunBatch(cfg, p.db, apply, true, CLEAN.faults, n).db);
      && (n > 0 ==> UpByOnes(cfg, st, n) == here)
      && Exec(cfg, UpByOnes(cfg, st, n), UpByOne(CLEAN, CLEAN)) == Exec(cfg, here, UpByOne(CLEAN, CLEAN))
  {
    hide UpPlan, RunIndividually, Numbered, Exec, FindAll, Prepared, Plans, RunBatch;
    var p := Prepared(st);
    if n == 0 {
      StartsPrepared(cfg, st, 0, CLEAN);
      StartOfBatch(cfg, p.db, apply, true, CLEAN.faults);
    } else {
      UpByOnesAreBatch(cfg, st, apply, n - 1);
      OneMore(cfg, st, apply, n - 1);
    }
  }
}
