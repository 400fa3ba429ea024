/** What one call of a provider reports and does, told by the rows of the table and the versions of the
    migrations (provider.go): Down rolls back the newest row, ApplyVersion runs the one migration it
    names, and an upward call applies what is pending up to its target. */
module SingleCalls {
  import opened Wrappers
  import opened Versions
  import opened UpVersions
  import opened Migrator
  import opened Batches
  import opened Traces
  import opened Stepwise
  import opened StatementRuns

  // ----- The start of a call

  /** The rows that a call can start on: those of the table that is there, or version 0 in a new one.
      With isolated DDL a new table can be left without version 0. */
  predicate StartRows<S>(cfg: Config<S>, db: Database<S>, rows: seq<int>) {
    if db.created then rows == db.rows else rows == [0] || (cfg.isolateDDL && rows == [])
  }

  /** A table that is there is left alone by whatever attempts to create one. */
  lemma {:induction false} EnsureKeepsTable<S>(isolateDDL: bool, db: Database<S>, attempts: nat -> Attempt, k: nat)
    requires k <= MAX_ATTEMPTS && db.created
    ensures TryEnsure(isolateDDL, db, attempts, k).1 == db
    decreases MAX_ATTEMPTS - k
  {
    if k < MAX_ATTEMPTS && EnsureOnce(isolateDDL, db, attempts(k)).0.Retry? {
      EnsureKeepsTable(isolateDDL, db, attempts, k + 1);
    }
  }

  lemma {:induction false} EnsureLeaves<S>(cfg: Config<S>, db: Database<S>, attempts: nat -> Attempt, k: nat)
    requires k <= MAX_ATTEMPTS
    ensures
      var after := TryEnsure(cfg.isolateDDL, db, attempts, k).1;
      || after == db
      || (StartRows(cfg, db, after.rows) && after == db.(created := true, rows := after.rows))
    decreases MAX_ATTEMPTS - k
  {
    if k < MAX_ATTEMPTS {
      var (outcome, next) := EnsureOnce(cfg.isolateDDL, db, attempts(k));
      if outcome.Retry? {
        if next.created {
          EnsureKeepsTable(cfg.isolateDDL, next, attempts, k + 1);
        } else {
          EnsureLeaves(cfg, db, attempts, k + 1);
        }
      }
    }
  }

  lemma StartsOnRows<S>(cfg: Config<S>, st: State<S>, useLocker: bool, env: Env)
    ensures
      var (failure, after) := Initialize(cfg, st, useLocker, env);
      var next := after.db;
      && failure != Some(NoNextVersion)
      && (next.created ==> StartRows(cfg, st.db, next.rows) && next == st.db.(created := true, rows := next.rows))
      && (!next.created ==> next == st.db)
  {
    hide TryEnsure;
    EnsureLeaves(cfg, st.db, env.attempts, 0);
  }

  lemma StartIsGood<S>(cfg: Config<S>, db: Database<S>, rows: seq<int>)
    requires GoodTable(db) && StartRows(cfg, db, rows)
    ensures GoodRows(rows) || rows == []
  {
  }

  /** A call that runs a single migration. */
  lemma RunsOne<S>(cfg: Config<S>, db: Database<S>, migrations: seq<Migration<S>>, up: bool, env: Env)
    requires migrations != []
    ensures
      var m := migrations[0];
      var (ok, after) := RunIndividually(cfg, db, m, up, env.faults(0));
      RunMigrations(cfg, db, migrations, up, true, env) ==
      if !Prepares(cfg, m, up) then (Err(PrepareFailed(m.version)), db)
      else if ok then (Ok([m.version]), after)
      else (Err(PartialError([], m.version)), after)
  {
    hide RunIndividually, Prepares;
    var one := migrations[..1];
    assert Unprepared(cfg, one, up) == if Prepares(cfg, one[0], up) then None else Some(one[0].version) by {
      assert one[..0] == [];
      assert Unprepared(cfg, [], up) == None;
    }
    StartOfBatch(cfg, db, one, up, env.faults);
    NextOfBatch(cfg, db, one, up, env.faults, 0);
    assert [] + [migrations[0].version] == [migrations[0].version];
  }

  /** The migration with a version, if there is one. */
  ghost predicate Names<S>(cfg: Config<S>, m: Migration<S>, version: int) {
    m in cfg.migrations && m.version == version
  }

  // ----- Refused before anything is done

  /** The database during the first thing that a call does. */
  function FirstEnv(op: Op): Env {
    match op
    case Up(gate, _) => gate
    case UpTo(_, gate, _) => gate
    case UpByOne(gate, _) => gate
    case Down(env) => env
    case DownTo(_, env) => env
    case ApplyVersion(_, _, env) => env
  }

  predicate GoesUp(op: Op) {
    op.Up? || op.UpTo? || op.UpByOne?
  }

  /** A call with a version that cannot be is refused, a call that gets no connection fails, and so does a
      downward or single call that cannot take the lock, all without any change. */
  lemma RefusedAtOnce<S>(cfg: Config<S>, st: State<S>, op: Op)
    ensures
      var refused :=
        if (op.DownTo? && op.version < 0) || (op.ApplyVersion? && op.version < 1) then Some(InvalidVersion)
        else if op.ApplyVersion? && op.version !in VersionsOf(cfg.migrations) then Some(VersionNotFound)
        else if !FirstEnv(op).connects then Some(ConnFailed)
        else if !GoesUp(op) && cfg.lockEnabled && !FirstEnv(op).locks then Some(LockFailed)
        else None;
      refused.Some? ==> Exec(cfg, st, op) == (Err(refused.value), st)
  {
    hide TryEnsure, RunMigrations, Find, FindAll, UpPlan;
    if op.ApplyVersion? {
      FindMeaning(cfg.migrations, op.version);
    }
  }

  /** An upward call that has found something pending is still refused for a target below 1, and it fails
      without a connection, without the lock, and on a table without version 0, all with the table
      that the check has left. */
  lemma RefusedAfterCheck<S>(cfg: Config<S>, st: State<S>, target: int, gate: Env, env: Env)
    requires HasPending(cfg, st, gate).0 == Ok(true)
    ensures
      var next := HasPending(cfg, st, gate).1;
      var refused :=
        if target < 1 then Some(InvalidVersion)
        else if !env.connects then Some(ConnFailed)
        else if cfg.lockEnabled && !env.locks then Some(LockFailed)
        else if !env.lists then Some(StoreFailed)
        else if next.db.rows == [] then Some(MissingZeroVersion)
        else None;
      refused.Some? ==>
        && Exec(cfg, st, UpTo(target, gate, env)) == (Err(refused.value), next)
        && (target == MAX_INT64 ==>
              && Exec(cfg, st, Up(gate, env)) == (Err(refused.value), next)
              && Exec(cfg, st, UpByOne(gate, env)) == (Err(refused.value), next))
  {
    hide TryEnsure, RunMigrations, FindAll, UpPlan;
    if cfg.migrations == [] {
      NothingIsPending(cfg, st, gate);
    }
  }

  lemma NothingIsPending<S>(cfg: Config<S>, st: State<S>, gate: Env)
    requires cfg.migrations == []
    ensures HasPending(cfg, st, gate).0 != Ok(true)
  {
    hide TryEnsure;
    var rows := HasPending(cfg, st, gate).1.db.rows;
    assert VersionsOf(cfg.migrations) == [];
    assert UpPlan([], rows, MAX_INT64, cfg.allowMissing) == Ok([]);
  }

  /** A call on a table that is there, by a provider that is past its attempt at it, reports what stands in
      its way, and changes nothing. */
  lemma RefusedOnTable<S>(cfg: Config<S>, st: State<S>, env: Env, version: int, up: bool)
    requires st.ensured && env.connects && (cfg.lockEnabled ==> env.locks)
    ensures
      var refused :=
        if cfg.migrations == [] then Some(NoNextVersion)
        else if !st.db.created || !env.lists then Some(StoreFailed)
        else if st.db.rows == [] then Some(MissingZeroVersion)
        else None;
      && (refused.Some? ==> Exec(cfg, st, Down(env)) == (Err(refused.value), st))
      && (refused.Some? && version >= 0 ==>
            Exec(cfg, st, DownTo(version, env)) ==
            (if refused == Some(NoNextVersion) then Ok([]) else Err(refused.value), st))
    ensures version >= 1 && version in VersionsOf(cfg.migrations) && (!st.db.created || !env.gets) ==>
              Exec(cfg, st, ApplyVersion(version, up, env)) == (Err(StoreFailed), st)
  {
    hide TryEnsure, RunMigrations, Find, FindAll, DownPlan;
    FindMeaning(cfg.migrations, version);
  }

  /** An upward call that is refused for missing migrations lists exactly the versions that are out of
      order, in ascending order, those above its target included. */
  lemma MissingAreListed<S>(cfg: Config<S>, st: State<S>, target: int, gate: Env, env: Env)
    requires Numbered(cfg) && st.db.created && target <= MAX_INT64
    ensures
      var r := Exec(cfg, st, UpTo(target, gate, env)).0;
      r.Err? && r.error.MissingMigrations? ==>
        && !cfg.allowMissing && Ascending(r.error.missing)
        && forall v :: v in r.error.missing <==> OutOfOrder(v, VersionsOf(cfg.migrations), st.db.rows, MAX_INT64)
  {
    hide TryEnsure, RunMigrations, FindAll, UpPlan, Numbered, Ascending;
    var versions, rows := VersionsOf(cfg.migrations), st.db.rows;
    VersionsArePositive(cfg);
    EnsureKeepsTable(cfg.isolateDDL, st.db, gate.attempts, 0);
    EnsureKeepsTable(cfg.isolateDDL, st.db, env.attempts, 0);
    UpPlanMeaning(versions, rows, MAX_INT64, cfg.allowMissing);
    UpPlanMeaning(versions, rows, target, cfg.allowMissing);
    if UpPlan(versions, rows, MAX_INT64, cfg.allowMissing).Err? {
      RefusalListsMissing(versions, rows, MAX_INT64, cfg.allowMissing);
    } else {
      forall v ensures OutOfOrder(v, versions, rows, target) ==> OutOfOrder(v, versions, rows, MAX_INT64) {
      }
      if UpPlan(versions, rows, target, cfg.allowMissing).Ok? {
        var found := FindAll(cfg.migrations, UpPlan(versions, rows, target, cfg.allowMissing).value);
        if found.Some? {
          RunRefusesNoVersion(cfg, st.db, found.value, true, false, env);
        }
      }
    }
  }

  lemma RunRefusesNoVersion<S>(
    cfg: Config<S>, db: Database<S>, migrations: seq<Migration<S>>, up: bool, byOne: bool, env: Env)
    ensures
      var r := RunMigrations(cfg, db, migrations, up, byOne, env).0;
      r.Err? ==> !r.error.MissingMigrations?
  {
    hide RunBatch, Unprepared;
  }

  // ----- Down

  function NewestRow(rows: seq<int>): int
    requires rows != []
  {
    rows[|rows| - 1]
  }

  /** All recorded versions but version 0 have a migration. */
  ghost predicate AllKnown<S>(cfg: Config<S>, rows: seq<int>) {
    forall v | v in rows && v > 0 :: v in VersionsOf(cfg.migrations)
  }

  /** What the plan of a Down finds: its first migration is that of the newest row. */
  lemma DownPlanFinds<S>(cfg: Config<S>, rows: seq<int>)
    requires GoodRows(rows) && NewestRow(rows) != 0
    ensures
      var found := FindAll(cfg.migrations, DownPlan(rows, 0));
      && (found.Some? <==> AllKnown(cfg, rows))
      && (found.Some? ==> found.value != [] && Names(cfg, found.value[0], NewestRow(rows)))
  {
    hide FindAll, DownPlan, Find;
    DownPlanMeaning(rows, 0);
    var plan := DownPlan(rows, 0);
    FindAllMeaning(cfg.migrations, plan);
    assert |plan| > 0 ==> plan[|plan| - 1] in plan;
    assert |plan| == |rows| - 1;
    forall v ensures v in plan <==> v in rows && v > 0 {
      if v in rows && v > 0 {
        var i :| 0 <= i < |rows| && rows[i] == v;
        assert plan[|rows| - 1 - i] == v;
      }
    }
    var found := FindAll(cfg.migrations, plan);
    if found.Some? {
      FoundAreKnown(cfg, plan);
      assert VersionsOf(found.value)[0] == found.value[0].version;
    }
  }

  /** What the engine does for Down from a good table, once it has got as far as its plan. */
  lemma DownFromPlan<S>(cfg: Config<S>, st: State<S>, env: Env)
    requires Numbered(cfg) && GoodTable(st.db)
    ensures
      var (r, after) := Exec(cfg, st, Down(env));
      var next := Initialize(cfg, st, true, env).1;
      || (r.Err? && after == next)
      || (st.db.created && next.db == st.db && NewestRow(st.db.rows) != 0
          && exists m ::
               && Names(cfg, m, NewestRow(st.db.rows))
               && var (ok, db) := RunIndividually(cfg, st.db, m, false, env.faults(0));
                  && after.db == db
                  && (ok ==> r == Ok([m.version]))
                  && (!ok ==> r == Err(PartialError([], m.version))))
  {
    hide Initialize, RunMigrations, FindAll, DownPlan, RunIndividually, Numbered, GoodRows, Names;
    StartsOnRows(cfg, st, true, env);
    var next := Initialize(cfg, st, true, env).1;
    var (r, after) := Exec(cfg, st, Down(env));
    if !(r.Err? && after == next) {
      var rows := next.db.rows;
      StartIsGood(cfg, st.db, rows);
      assert st.db.created && NewestRow(rows) != 0;
      DownPlanFinds(cfg, rows);
      var apply := FindAll(cfg.migrations, DownPlan(rows, 0)).value;
      RunsOne(cfg, next.db, apply, false, env);
      var m := apply[0];
      NamesVersion(cfg, m, NewestRow(rows));
      assert (r, after.db) == RunMigrations(cfg, next.db, apply, false, true, env);
      assert Names(cfg, m, NewestRow(st.db.rows));
    }
  }

  lemma GoodIsNotEmpty(rows: seq<int>)
    requires GoodRows(rows)
    ensures rows != []
  {
  }

  lemma NamesVersion<S>(cfg: Config<S>, m: Migration<S>, version: int)
    requires Names(cfg, m, version)
    ensures m.version == version
  {
  }

  /** Down, whatever the database does: if it succeeds there was a table whose newest row is not
      version 0, it returns the version of that row and no other, the row is gone and the others are
      there, and its migration, and no other, has been run downwards. If it fails, a table that was there
      keeps its rows. */
  lemma DownMeaning<S>(cfg: Config<S>, st: State<S>, env: Env)
    requires Numbered(cfg) && GoodTable(st.db)
    ensures
      var (r, after) := Exec(cfg, st, Down(env));
      var rows := st.db.rows;
      && (r.Ok? ==>
            && st.db.created && NewestRow(rows) != 0
            && r.value == [NewestRow(rows)]
            && after.db.created && after.db.rows == rows[..|rows| - 1]
            && forall m | Names(cfg, m, NewestRow(rows)) ::
                 RunIndividually(cfg, st.db, m, false, env.faults(0)) == (true, after.db))
      && (r.Err? && st.db.created ==> after.db.created && after.db.rows == rows)
  {
    hide Exec, RunIndividually, Initialize;
    DownFromPlan(cfg, st, env);
    StartsOnRows(cfg, st, true, env);
    var (r, after) := Exec(cfg, st, Down(env));
    if r.Ok? || after != Initialize(cfg, st, true, env).1 {
      var m :|
        && Names(cfg, m, NewestRow(st.db.rows))
        && var (ok, db) := RunIndividually(cfg, st.db, m, false, env.faults(0));
           && after.db == db
           && (ok ==> r == Ok([m.version]))
           && (!ok ==> r == Err(PartialError([], m.version)));
      RunKeepsTable(cfg, st.db, m, false, env.faults(0));
      RemoveLast(st.db.rows);
      forall m' | Names(cfg, m', NewestRow(st.db.rows)) ensures m' == m {
        FindsItself(cfg.migrations, m);
        FindsItself(cfg.migrations, m');
      }
    }
  }

  /** Down without faults on a table that is there, in full. It needs a migration for every recorded
      version, although it rolls back one. */
  lemma CleanDown<S>(cfg: Config<S>, st: State<S>, m: Migration<S>)
    requires Numbered(cfg) && st.db.created && GoodRows(st.db.rows) && cfg.migrations != []
    requires NewestRow(st.db.rows) in VersionsOf(cfg.migrations) ==> Names(cfg, m, NewestRow(st.db.rows))
    ensures
      var (r, after) := Exec(cfg, st, Down(CLEAN));
      var newest := NewestRow(st.db.rows);
      var (ok, db) := RunIndividually(cfg, st.db, m, false, NoFault);
      && (r == Err(NoNextVersion) <==> newest == 0)
      && (r == Err(VersionNotFound) <==> newest != 0 && !AllKnown(cfg, st.db.rows))
      && (newest != 0 && AllKnown(cfg, st.db.rows) ==>
            (r, after.db) ==
            if !Prepares(cfg, m, false) then (Err(PrepareFailed(newest)), st.db)
            else if ok then (Ok([newest]), db)
            else (Err(PartialError([], newest)), db))
  {
    hide TryEnsure, RunMigrations, FindAll, DownPlan, RunIndividually, Numbered, GoodRows, Prepares, Names, AllKnown;
    CleanEnsureFinds(cfg.isolateDDL, st.db);
    GoodIsNotEmpty(st.db.rows);
    var newest := NewestRow(st.db.rows);
    if newest != 0 {
      DownPlanFinds(cfg, st.db.rows);
      var found := FindAll(cfg.migrations, DownPlan(st.db.rows, 0));
      if found.Some? {
        NamedIsFound(cfg, st.db.rows, found.value[0], m);
        RunsOne(cfg, st.db, found.value, false, CLEAN);
      }
    }
  }

  lemma NamedIsFound<S>(cfg: Config<S>, rows: seq<int>, found: Migration<S>, m: Migration<S>)
    requires Numbered(cfg) && rows != [] && Names(cfg, found, NewestRow(rows))
    requires NewestRow(rows) in VersionsOf(cfg.migrations) ==> Names(cfg, m, NewestRow(rows))
    ensures found == m && m.version == NewestRow(rows)
  {
    FindsItself(cfg.migrations, found);
    var i :| 0 <= i < |cfg.migrations| && cfg.migrations[i] == found;
    assert VersionsOf(cfg.migrations)[i] == NewestRow(rows);
    FindsItself(cfg.migrations, m);
  }

  // ----- ApplyVersion

  /** What the engine does for ApplyVersion once it has got as far as its migration. */
  lemma ApplyFromFound<S>(cfg: Config<S>, st: State<S>, version: int, up: bool, env: Env)
    requires Numbered(cfg)
    ensures
      var (r, after) := Exec(cfg, st, ApplyVersion(version, up, env));
      var next := Initialize(cfg, st, true, env).1;
      || (r.Err? && (after == next || after == st))
      || (next.db.created && (up <==> version !in next.db.rows)
          && exists m ::
               && Names(cfg, m, version)
               && var (ok, db) := RunIndividually(cfg, next.db, m, up, env.faults(0));
                  && after.db == db
                  && (ok ==> r == Ok([version]))
                  && (!ok ==> r == Err(PartialError([], version))))
  {
    hide Initialize, RunMigrations, RunIndividually, Find;
    var next := Initialize(cfg, st, true, env).1;
    var (r, after) := Exec(cfg, st, ApplyVersion(version, up, env));
    if !(r.Err? && (after == next || after == st)) {
      FindMeaning(cfg.migrations, version);
      var m := Find(cfg.migrations, version).value;
      RunsOne(cfg, next.db, [m], up, env);
      assert (r, after.db) == RunMigrations(cfg, next.db, [m], up, true, env);
      assert Names(cfg, m, version);
    }
  }

  /** The rows without the one of a version, the others in their order. */
  ghost predicate Without(rows: seq<int>, version: int, after: seq<int>) {
    exists k | 0 <= k < |rows| :: rows[k] == version && after == rows[..k] + rows[k + 1..]
  }

  /** ApplyVersion, whatever the database does: if it succeeds it returns the version and no other; all
      statements of its migration have run in their order from the schema that was there; upwards the
      version was not recorded and is now the newest row; downwards it was and its row alone is gone. If
      it fails, a table that was there keeps its rows, and the schema too if the migration runs in a
      transaction. */
  lemma ApplyMeaning<S(!new)>(
    cfg: Config<S>, st: State<S>, version: int, up: bool, env: Env,
    m: Migration<S>, effects: seq<Effect<S>>, inTx: bool, states: seq<S>)
    requires Numbered(cfg) && GoodTable(st.db)
    requires Names(cfg, m, version) && Runs(cfg, m, up, effects, inTx) && Path(effects, st.db.schema, states)
    ensures
      var (r, after) := Exec(cfg, st, ApplyVersion(version, up, env));
      && (r.Ok? ==>
            && r.value == [version] && after.db.created
            && |states| == |effects| + 1 && after.db.schema == states[|effects|]
            && exists rows :: StartRows(cfg, st.db, rows) &&
                 if up then version !in rows && after.db.rows == rows + [version]
                 else Without(rows, version, after.db.rows))
      && (r.Err? && st.db.created ==>
            after.db.created && after.db.rows == st.db.rows && (inTx ==> after.db.schema == st.db.schema))
  {
    hide Exec, RunIndividually, Initialize, Runs, Path, RemoveVersion;
    ApplyFromFound(cfg, st, version, up, env);
    StartsOnRows(cfg, st, true, env);
    var (r, after) := Exec(cfg, st, ApplyVersion(version, up, env));
    var next := Initialize(cfg, st, true, env).1;
    if r.Ok? || (after != next && after != st) {
      var m' :|
        && Names(cfg, m', version)
        && var (ok, db) := RunIndividually(cfg, next.db, m', up, env.faults(0));
           && after.db == db
           && (ok ==> r == Ok([version]))
           && (!ok ==> r == Err(PartialError([], version)));
      FindsItself(cfg.migrations, m);
      FindsItself(cfg.migrations, m');
      RunMeaning(cfg, next.db, m, up, env.faults(0), effects, inTx, states);
      assert StartRows(cfg, st.db, next.db.rows);
      if !up && r.Ok? {
        var k :| 0 <= k < |next.db.rows| && next.db.rows[k] == version;
        StartIsGood(cfg, st.db, next.db.rows);
        RemovedAlone(next.db.rows, k);
      }
    }
  }

  /** ApplyVersion without faults on a table that is there, in full: it reports AlreadyApplied exactly if
      the version is recorded and NotApplied exactly if it is not. */
  lemma CleanApply<S>(cfg: Config<S>, st: State<S>, version: int, up: bool, m: Migration<S>)
    requires Numbered(cfg) && st.db.created
    requires version in VersionsOf(cfg.migrations) ==> Names(cfg, m, version)
    ensures
      var (r, after) := Exec(cfg, st, ApplyVersion(version, up, CLEAN));
      var (ok, db) := RunIndividually(cfg, st.db, m, up, NoFault);
      (r, after.db) ==
      if version < 1 then (Err(InvalidVersion), st.db)
      else if version !in VersionsOf(cfg.migrations) then (Err(VersionNotFound), st.db)
      else if up && version in st.db.rows then (Err(AlreadyApplied), st.db)
      else if !up && version !in st.db.rows then (Err(NotApplied), st.db)
      else if !Prepares(cfg, m, up) then (Err(PrepareFailed(version)), st.db)
      else if ok then (Ok([version]), db)
      else (Err(PartialError([], version)), db)
  {
    hide TryEnsure, RunMigrations, RunIndividually, Find, Prepares;
    CleanEnsureFinds(cfg.isolateDDL, st.db);
    FindMeaning(cfg.migrations, version);
    if version in VersionsOf(cfg.migrations) {
      FindsItself(cfg.migrations, m);
      RunsOne(cfg, st.db, [m], up, CLEAN);
    }
  }

  // ----- Upward calls

  predicate Unapplied<S>(cfg: Config<S>, rows: seq<int>, target: int, v: int) {
    v in VersionsOf(cfg.migrations) && v !in rows && v <= target
  }

  /** The least of the unapplied versions up to the target, in ascending order. */
  ghost predicate Least<S>(cfg: Config<S>, rows: seq<int>, target: int, done: seq<int>) {
    && Ascending(done) && Distinct(done)
    && (forall v | v in done :: Unapplied(cfg, rows, target, v))
    && forall v, w | Unapplied(cfg, rows, target, v) && v !in done && w in done :: w < v
  }

  /** And these are all. */
  ghost predicate All<S>(cfg: Config<S>, rows: seq<int>, target: int, done: seq<int>) {
    && Ascending(done) && Distinct(done)
    && forall v :: v in done <==> Unapplied(cfg, rows, target, v)
  }

  lemma FrontOfAscending(s: seq<int>, n: nat)
    requires Ascending(s) && Distinct(s) && n <= |s|
    ensures Ascending(s[..n]) && Distinct(s[..n])
    ensures forall v | v in s[..n] :: v in s
    ensures forall v, w | v in s && v !in s[..n] && w in s[..n] :: w < v
  {
    assert forall i | 0 <= i < n :: s[..n][i] == s[i];
    forall v, w | v in s && v !in s[..n] && w in s[..n] ensures w < v {
      var i :| 0 <= i < |s| && s[i] == v;
      var j :| 0 <= j < n && s[j] == w;
      assert s[..n][j] == w;
    }
  }

  lemma FrontIsLeast<S>(cfg: Config<S>, rows: seq<int>, target: int, plan: seq<int>, n: nat)
    requires All(cfg, rows, target, plan) && n <= |plan|
    ensures Least(cfg, rows, target, plan[..n])
  {
    hide Ascending, Distinct, Unapplied;
    FrontOfAscending(plan, n);
  }

  /** The migrations of the plan. */
  lemma PlanIsAll<S>(cfg: Config<S>, rows: seq<int>, target: int)
    requires Numbered(cfg) && UpPlan(VersionsOf(cfg.migrations), rows, target, cfg.allowMissing).Ok?
    ensures
      var plan := UpPlan(VersionsOf(cfg.migrations), rows, target, cfg.allowMissing).value;
      && All(cfg, rows, target, plan)
      && FindAll(cfg.migrations, plan).Some?
      && VersionsOf(FindAll(cfg.migrations, plan).value) == plan
  {
    hide UpPlan, FindAll, Ascending, Distinct, Numbered;
    PlanIsPendingBatch(cfg, rows, target);
  }

  /** What an upward call does on a table that is there. */
  lemma UpwardMeaning<S>(cfg: Config<S>, st: State<S>, byOne: bool, target: int, env: Env)
    requires Numbered(cfg) && st.db.created
    ensures
      var (r, after) := RunUp(cfg, st, byOne, target, env);
      var rows := st.db.rows;
      && after.db.created
      && (r.Ok? && !byOne ==> All(cfg, rows, target, r.value) && after.db.rows == rows + r.value)
      && (r.Ok? && byOne ==> |r.value| <= 1 && Least(cfg, rows, target, r.value) && after.db.rows == rows + r.value)
      && (r == Ok([]) ==> All(cfg, rows, target, []))
      && (r.Err? ==> exists done :: Least(cfg, rows, target, done) && after.db.rows == rows + done)
      && r != Err(NoNextVersion)
  {
    hide TryEnsure, UpPlan, FindAll, RunMigrations, Numbered, All, Least, RunIndividually;
    EnsureKeepsTable(cfg.isolateDDL, st.db, env.attempts, 0);
    var rows := st.db.rows;
    NothingAtAll(cfg, rows, target);
    assert rows + [] == rows;
    var (r, after) := RunUp(cfg, st, byOne, target, env);
    var plan := UpPlan(VersionsOf(cfg.migrations), rows, target, cfg.allowMissing);
    if plan.Ok? {
      PlanIsAll(cfg, rows, target);
      var apply := FindAll(cfg.migrations, plan.value).value;
      FrontIsLeast(cfg, rows, target, plan.value, 0);
      UpwardBatch(cfg, st.db, apply, target, byOne, env);
    }
  }

  lemma NothingAtAll<S>(cfg: Config<S>, rows: seq<int>, target: int)
    ensures Least(cfg, rows, target, [])
    ensures cfg.migrations == [] ==> All(cfg, rows, target, [])
  {
  }

  lemma UpwardBatch<S>(cfg: Config<S>, db: Database<S>, apply: seq<Migration<S>>, target: int, byOne: bool, env: Env)
    requires All(cfg, db.rows, target, VersionsOf(apply))
    ensures
      var (r, after) := RunMigrations(cfg, db, apply, true, byOne, env);
      && after.created == db.created
      && (r.Ok? && !byOne ==> All(cfg, db.rows, target, r.value) && after.rows == db.rows + r.value)
      && (r.Ok? && byOne ==> |r.value| <= 1 && Least(cfg, db.rows, target, r.value) && after.rows == db.rows + r.value)
      && (r == Ok([]) ==> All(cfg, db.rows, target, []))
      && (r.Err? ==> exists done :: Least(cfg, db.rows, target, done) && after.rows == db.rows + done)
      && r != Err(NoNextVersion)
  {
    hide RunBatch, All, Least, RunIndividually, Unprepared;
    var versions := VersionsOf(apply);
    NothingAtAll(cfg, db.rows, target);
    assert db.rows + [] == db.rows;
    var batch := if byOne && apply != [] then apply[..1] else apply;
    if apply == [] {
      assert versions == [];
    } else {
      UpBatchRows(cfg, db, batch, env.faults, |batch|);
      var applied := RunBatch(cfg, db, batch, true, env.faults, |batch|).applied;
      assert VersionsOf(batch) == versions[..|batch|];
      assert applied == versions[..|applied|];
      FrontIsLeast(cfg, db.rows, target, versions, |applied|);
      assert versions[..|versions|] == versions;
    }
  }

  /** The pending check leaves the table that the work starts on, and its answer is whether any version
      is unapplied. */
  lemma CheckMeaning<S>(cfg: Config<S>, st: State<S>, gate: Env)
    requires Numbered(cfg)
    ensures
      var (r, next) := HasPending(cfg, st, gate);
      && (next.db.created ==>
            StartRows(cfg, st.db, next.db.rows) && next.db == st.db.(created := true, rows := next.db.rows))
      && (!next.db.created ==> next.db == st.db && r.Err?)
      && (r.Ok? ==> (r.value <==> exists v :: Unapplied(cfg, next.db.rows, MAX_INT64, v)))
      && r != Err(NoNextVersion)
  {
    hide Initialize, UpPlan, Numbered;
    StartsOnRows(cfg, st, false, gate);
    var (r, next) := HasPending(cfg, st, gate);
    var plan := UpPlan(VersionsOf(cfg.migrations), next.db.rows, MAX_INT64, cfg.allowMissing);
    if r.Ok? {
      PlanIsAll(cfg, next.db.rows, MAX_INT64);
      if r.value {
        assert plan.value[0] in plan.value;
      }
    }
  }

  /** Without an unapplied version there is nothing up to any target. */
  lemma NothingUnapplied<S>(cfg: Config<S>, rows: seq<int>, target: int)
    requires Numbered(cfg) && forall v :: !Unapplied(cfg, rows, MAX_INT64, v)
    ensures All(cfg, rows, target, [])
  {
    hide Numbered;
    VersionsArePositive(cfg);
    forall v ensures Unapplied(cfg, rows, target, v) ==> Unapplied(cfg, rows, MAX_INT64, v) {
    }
  }

  /** UpTo, whatever the database does: if it succeeds it returns exactly the versions up to its target
      that were not recorded, in ascending order, and they are the new rows, in that order, after those
      that were there. Nothing above the target is touched. If it fails, the new rows are the least of
      these versions, again in ascending order. */
  lemma UpToMeaning<S>(cfg: Config<S>, st: State<S>, target: int, gate: Env, env: Env)
    requires Numbered(cfg)
    ensures
      var (r, after) := Exec(cfg, st, UpTo(target, gate, env));
      && (r.Ok? ==>
            after.db.created && exists rows ::
              StartRows(cfg, st.db, rows) && All(cfg, rows, target, r.value) && after.db.rows == rows + r.value)
      && (r.Err? && after.db.created ==>
            exists rows, done ::
              StartRows(cfg, st.db, rows) && Least(cfg, rows, target, done) && after.db.rows == rows + done)
      && (st.db.created ==> after.db.created)
  {
    hide RunUp, HasPending, Numbered, Least, All;
    CheckMeaning(cfg, st, gate);
    var (pending, next) := HasPending(cfg, st, gate);
    var rows := next.db.rows;
    NothingAtAll(cfg, rows, target);
    assert rows + [] == rows;
    if pending == Ok(true) {
      UpwardMeaning(cfg, next, false, target, env);
    } else if pending == Ok(false) {
      NothingUnapplied(cfg, rows, target);
    }
  }

  /** Up is UpTo the largest version there can be. */
  lemma UpMeaning<S>(cfg: Config<S>, st: State<S>, gate: Env, env: Env)
    requires Numbered(cfg)
    ensures
      var (r, after) := Exec(cfg, st, Up(gate, env));
      r.Ok? ==>
        && Ascending(r.value) && Distinct(r.value)
        && (exists rows :: StartRows(cfg, st.db, rows) && after.db.rows == rows + r.value &&
              forall v :: v in r.value <==> v in VersionsOf(cfg.migrations) && v !in rows)
        && forall v | v in VersionsOf(cfg.migrations) :: v in after.db.rows
  {
    hide RunUp, HasPending, Numbered;
    UpToMeaning(cfg, st, MAX_INT64, gate, env);
    VersionsArePositive(cfg);
  }

  /** The least version that is not recorded. */
  ghost predicate LeastOf<S>(cfg: Config<S>, rows: seq<int>, v: int) {
    && v in VersionsOf(cfg.migrations) && v !in rows
    && forall w | w in VersionsOf(cfg.migrations) && w !in rows :: v <= w
  }

  /** UpByOne, whatever the database does: if it succeeds it returns the least version that was not
      recorded, and that is the one new row, at the end. It reports NoNextVersion only if nothing is
      unapplied, and without faults exactly then. */
  lemma UpByOneMeaning<S>(cfg: Config<S>, st: State<S>, gate: Env, env: Env)
    requires Numbered(cfg)
    ensures
      var (r, after) := Exec(cfg, st, UpByOne(gate, env));
      && (r.Ok? ==>
            && |r.value| == 1
            && exists rows ::
                 StartRows(cfg, st.db, rows) && LeastOf(cfg, rows, r.value[0]) && after.db.rows == rows + r.value)
      && (r == Err(NoNextVersion) ==>
            && StartRows(cfg, st.db, after.db.rows) && after.db.created && after.db.schema == st.db.schema
            && forall v | v in VersionsOf(cfg.migrations) :: v in after.db.rows)
      && (gate == CLEAN && st.db.created && (forall v | v in VersionsOf(cfg.migrations) :: v in st.db.rows) ==>
            r == Err(NoNextVersion))
  {
    hide RunUp, HasPending, Numbered, All;
    CheckMeaning(cfg, st, gate);
    VersionsArePositive(cfg);
    var (pending, next) := HasPending(cfg, st, gate);
    var rows := next.db.rows;
    assert forall v :: v in VersionsOf(cfg.migrations) && v !in rows ==> Unapplied(cfg, rows, MAX_INT64, v);
    if pending == Ok(true) {
      UpwardMeaning(cfg, next, true, MAX_INT64, env);
      SomethingUnapplied(cfg, rows, MAX_INT64);
      var r := RunUp(cfg, next, true, MAX_INT64, env).0;
      assert r.Ok? && r.value != [] ==> r.value[0] in r.value;
    }
    if gate == CLEAN && st.db.created && forall v | v in VersionsOf(cfg.migrations) :: v in st.db.rows {
      NothingIsRefused(cfg, st);
    }
  }

  lemma SomethingUnapplied<S>(cfg: Config<S>, rows: seq<int>, target: int)
    requires exists v :: Unapplied(cfg, rows, target, v)
    ensures !All(cfg, rows, target, [])
  {
  }

  lemma NothingIsRefused<S>(cfg: Config<S>, st: State<S>)
    requires Numbered(cfg) && st.db.created && forall v | v in VersionsOf(cfg.migrations) :: v in st.db.rows
    ensures HasPending(cfg, st, CLEAN).0 == Ok(false)
  {
    hide TryEnsure, UpPlan, Numbered;
    CleanEnsureFinds(cfg.isolateDDL, st.db);
    VersionsArePositive(cfg);
    UpPlanMeaning(VersionsOf(cfg.migrations), st.db.rows, MAX_INT64, cfg.allowMissing);
    assert forall v :: !OutOfOrder(v, VersionsOf(cfg.migrations), st.db.rows, MAX_INT64);
    PlanIsAll(cfg, st.db.rows, MAX_INT64);
    var v := HasMember(UpPlan(VersionsOf(cfg.migrations), st.db.rows, MAX_INT64, cfg.allowMissing).value);
  }

  lemma HasMember(s: seq<int>) returns (v: int)
    ensures s != [] ==> v in s
  {
    v := if s != [] then s[0] else 0;
  }
}
