/** When the older DownTo and the provider's DownTo do the same: the older code parses a file in one
    direction and chooses the transaction of a Go migration by one flag for both directions
    (migration.go, down.go, provider.go). */
module DownAgreement {
  import opened Wrappers
  import opened Versions
  import opened UpVersions
  import opened Migrator
  import opened Batches
  import opened Traces
  import opened SchemaReplay
  import opened Gates
  import opened LegacyDown

  /** A table of distinct applied rows whose migrations exist. */
  ghost predicate KnownTable<S>(cfg: Config<S>, db: Database<S>) {
    db.created && GoodRows(db.rows) && forall v | v in db.rows :: v > 0 ==> v in VersionsOf(cfg.migrations)
  }

  function WithFaults(faults: nat -> Fault): Env {
    CLEAN.(faults := faults)
  }

  /** Both report the same rolled-back versions and the same failure, and leave the same database. */
  ghost predicate Agrees<S>(cfg: Config<S>, db: Database<S>, version: nat, faults: nat -> Fault) {
    var (r, after) := Exec(cfg, State(true, db), DownTo(version, WithFaults(faults)));
    (r, after.db) == OlderDownTo(cfg.migrations, db, version, faults)
  }

  /** The provider can prepare the migration, and both codes choose alike whether its down function runs
      in a transaction. */
  predicate SameDown<S>(cfg: Config<S>, m: Migration<S>) {
    Prepares(cfg, m, false) && UseTx(AsOlder(m), false) == UseTx(m, false)
  }

  // ----- Alike migrations

  lemma SameRun<S>(cfg: Config<S>, migrations: seq<Migration<S>>, db: Database<S>, m: Migration<S>, fault: Fault)
    requires !cfg.isolateDDL && SameDown(cfg, m)
    ensures RunIndividually(OlderEngine(migrations), db, AsOlder(m), false, fault) ==
            RunIndividually(cfg, db, m, false, fault)
  {
    hide RunFirst;
  }

  lemma {:induction false} SameBatch<S>(
    cfg: Config<S>, migrations: seq<Migration<S>>, db: Database<S>, apply: seq<Migration<S>>, faults: nat -> Fault,
    n: nat)
    requires !cfg.isolateDDL && n <= |apply| && forall m | m in apply :: SameDown(cfg, m)
    ensures RunBatch(OlderEngine(migrations), db, AllAsOlder(apply), false, faults, n) ==
            RunBatch(cfg, db, apply, false, faults, n)
  {
    hide RunIndividually, SameDown, AsOlder, OlderEngine;
    if n > 0 {
      SameBatch(cfg, migrations, db, apply, faults, n - 1);
      SameRun(cfg, migrations, RunBatch(cfg, db, apply, false, faults, n - 1).db, apply[n - 1], faults(n - 1));
      SameVersion(apply[n - 1]);
    }
  }

  lemma SameVersion<S>(m: Migration<S>)
    ensures AsOlder(m).version == m.version
  {
  }

  lemma {:induction false} FindAllAsOlder<S>(migrations: seq<Migration<S>>, versions: seq<int>)
    ensures FindAll(AllAsOlder(migrations), versions) ==
      match FindAll(migrations, versions)
      case None => None
      case Some(found) => Some(AllAsOlder(found))
  {
    hide Find, AsOlder;
    if versions == [] {
      assert AllAsOlder<S>([]) == [];
    } else {
      var v := versions[|versions| - 1];
      FindAllAsOlder(migrations, versions[..|versions| - 1]);
      FindAsOlder(migrations, v);
      if FindAll(migrations, versions).Some? {
        var found := FindAll(migrations, versions).value;
        assert AllAsOlder(found) == AllAsOlder(found[..|found| - 1]) + [AsOlder(found[|found| - 1])];
      }
    }
  }

  /** What a downward plan of a known table finds. */
  lemma PlanIsFound<S>(cfg: Config<S>, db: Database<S>, version: nat)
    requires KnownTable(cfg, db)
    ensures
      var plan := DownPlan(db.rows, version);
      && |plan| < |db.rows| && Newest(db.rows, plan)
      && FindAll(cfg.migrations, plan).Some?
      && var apply := FindAll(cfg.migrations, plan).value;
         && VersionsOf(apply) == plan && forall m | m in apply :: m in cfg.migrations
  {
    hide FindAll, DownPlan, Find;
    var plan := DownPlan(db.rows, version);
    DownPlanMeaning(db.rows, version);
    assert plan != [] ==> plan[|plan| - 1] in plan;
    FindAllMeaning(cfg.migrations, plan);
    forall v | v in plan ensures v in VersionsOf(cfg.migrations) {
      var i :| 0 <= i < |plan| && plan[i] == v;
      assert db.rows[|db.rows| - 1 - i] == v && v in db.rows;
    }
    FoundAreKnown(cfg, plan);
    var apply := FindAll(cfg.migrations, plan).value;
    forall m | m in apply ensures m in cfg.migrations {
      var i :| 0 <= i < |apply| && apply[i] == m;
    }
  }

  /** What the provider's DownTo comes to if its migrations can be prepared. */
  lemma ProviderDownTo<S>(cfg: Config<S>, db: Database<S>, version: nat, faults: nat -> Fault)
    requires KnownTable(cfg, db)
    requires
      var apply := FindAll(cfg.migrations, DownPlan(db.rows, version));
      apply.Some? && Unprepared(cfg, apply.value, false).None?
    ensures
      var apply := FindAll(cfg.migrations, DownPlan(db.rows, version)).value;
      var p := RunBatch(cfg, db, apply, false, faults, |apply|);
      var (r, after) := Exec(cfg, State(true, db), DownTo(version, WithFaults(faults)));
      && r == (if p.failed.None? then Ok(p.applied) else Err(PartialError(p.applied, p.failed.value)))
      && after.db == p.db
  {
    hide RunIndividually, FindAll, DownPlan, Unprepared, Distinct;
    PlanIsFound(cfg, db, version);
    var plan := DownPlan(db.rows, version);
    var apply := FindAll(cfg.migrations, plan).value;
    DownBatchRows(cfg, db, apply, faults, |apply|);
    var rows := db.rows;
    if rows[|rows| - 1] == 0 || plan == [] {
      assert plan == [] by { NothingToRollBack(rows, version); }
      assert apply == [];
      assert RunBatch(cfg, db, apply, false, faults, 0) == Progress([], None, db);
    }
    NoneKnownNoneRecorded(cfg, db);
  }

  lemma NothingToRollBack(rows: seq<int>, version: nat)
    requires rows != []
    ensures rows[|rows| - 1] == 0 ==> DownPlan(rows, version) == []
  {
  }

  lemma NoneKnownNoneRecorded<S>(cfg: Config<S>, db: Database<S>)
    requires KnownTable(cfg, db)
    ensures cfg.migrations == [] ==> db.rows[|db.rows| - 1] == 0
  {
    assert db.rows[|db.rows| - 1] in db.rows;
  }

  lemma AlikeAgrees<S>(cfg: Config<S>, db: Database<S>, version: nat, faults: nat -> Fault)
    requires !cfg.isolateDDL && KnownTable(cfg, db)
    requires forall m | m in cfg.migrations :: SameDown(cfg, m)
    ensures Agrees(cfg, db, version, faults)
  {
    hide RunBatch, FindAll, DownPlan, Exec, SameDown, OlderEngine, AllAsOlder, KnownTable, RunIndividually;
    PlanIsFound(cfg, db, version);
    var plan := DownPlan(db.rows, version);
    var apply := FindAll(cfg.migrations, plan).value;
    forall i | 0 <= i < |apply| ensures Prepares(cfg, apply[i], false) {
      assert apply[i] in apply;
      SameDownPrepares(cfg, apply[i]);
    }
    ProviderDownTo(cfg, db, version, faults);
    FindAllAsOlder(cfg.migrations, plan);
    SameBatch(cfg, cfg.migrations, db, apply, faults, |apply|);
    assert |AllAsOlder(apply)| == |apply|;
  }

  lemma SameDownPrepares<S>(cfg: Config<S>, m: Migration<S>)
    requires SameDown(cfg, m)
    ensures Prepares(cfg, m, false)
  {
  }

  // ----- Migrations that differ

  /** As NewGoMigration and its check leave a Go migration: at most one function for each direction, and
      the mode inferred from it. */
  predicate Constructed<S>(m: Migration<S>) {
    m.body.GoBody? ==> Inferred(m.body.goUp) && Inferred(m.body.goDown)
  }

  /** The table on which a single migration is rolled back. */
  function OneRow<S>(m: Migration<S>, start: S): Database<S> {
    Database(true, [0, m.version], start)
  }

  lemma OneRowPlan<S>(cfg: Config<S>, m: Migration<S>, start: S)
    requires Numbered(cfg) && m in cfg.migrations
    ensures KnownTable(cfg, OneRow(m, start))
    ensures DownPlan([0, m.version], 0) == [m.version]
    ensures FindAll(cfg.migrations, [m.version]) == Some([m])
    ensures FindAll(AllAsOlder(cfg.migrations), [m.version]) == Some([AsOlder(m)])
  {
    hide AsOlder, Find;
    MigrationIsPositive(cfg, m);
    assert [0, m.version][..1] == [0];
    FindsItself(cfg.migrations, m);
    FindMeaning(cfg.migrations, m.version);
    assert [m.version][..0] == [] && [] + [m] == [m];
    FindAllAsOlder(cfg.migrations, [m.version]);
    assert AllAsOlder([m]) == [AsOlder(m)];
  }

  /** On that table the two agree exactly if the two runs of the migration do. */
  lemma OneRowAgrees<S>(cfg: Config<S>, m: Migration<S>, start: S, fault: Fault)
    requires Numbered(cfg) && m in cfg.migrations && Agrees(cfg, OneRow(m, start), 0, _ => fault)
    ensures Prepares(cfg, m, false)
    ensures RunIndividually(cfg, OneRow(m, start), m, false, fault) ==
            RunIndividually(OlderEngine(cfg.migrations), OneRow(m, start), AsOlder(m), false, fault)
  {
    hide RunIndividually, AsOlder, FindAll, DownPlan, KnownTable;
    var db := OneRow(m, start);
    var faults: nat -> Fault := _ => fault;
    OneRowPlan(cfg, m, start);
    var p := RunBatch(OlderEngine(cfg.migrations), db, [AsOlder(m)], false, faults, 1);
    SameVersion(m);
    if Prepares(cfg, m, false) {
      assert Unprepared(cfg, [m], false).None?;
      ProviderDownTo(cfg, db, 0, faults);
      OneBatch(cfg, db, m, faults);
      OneBatch(OlderEngine(cfg.migrations), db, AsOlder(m), faults);
    } else {
      UnpreparedDisagrees(cfg, m, start, faults);
    }
  }

  lemma UnpreparedIsRefused<S>(cfg: Config<S>, m: Migration<S>, start: S, faults: nat -> Fault)
    requires Numbered(cfg) && m in cfg.migrations && !Prepares(cfg, m, false)
    ensures Exec(cfg, State(true, OneRow(m, start)), DownTo(0, WithFaults(faults))) ==
            (Err(PrepareFailed(m.version)), State(true, OneRow(m, start)))
  {
    hide FindAll, DownPlan, Prepares, RunBatch;
    OneRowPlan(cfg, m, start);
    MigrationIsPositive(cfg, m);
    assert [m][..0] == [];
    assert Unprepared(cfg, [m], false) == Some(m.version);
  }

  /** A refusal to prepare is no failure of the older code. */
  lemma UnpreparedDisagrees<S>(cfg: Config<S>, m: Migration<S>, start: S, faults: nat -> Fault)
    requires Numbered(cfg) && m in cfg.migrations && !Prepares(cfg, m, false)
    ensures !Agrees(cfg, OneRow(m, start), 0, faults)
  {
    hide Exec, FindAll, DownPlan, RunBatch;
    UnpreparedIsRefused(cfg, m, start, faults);
  }

  lemma OneBatch<S>(cfg: Config<S>, db: Database<S>, m: Migration<S>, faults: nat -> Fault)
    ensures
      var (ok, after) := RunIndividually(cfg, db, m, false, faults(0));
      RunBatch(cfg, db, [m], false, faults, 1) ==
      if ok then Progress([m.version], None, after) else Progress([], Some(m.version), after)
  {
    hide RunIndividually;
    assert RunBatch(cfg, db, [m], false, faults, 0) == Progress([], None, db);
    assert [] + [m.version] == [m.version];
  }

  /** A migration that agrees without faults and when no transaction can begin chooses alike. */
  lemma AgreesIsAlike<S>(cfg: Config<S>, m: Migration<S>, start: S)
    requires !cfg.isolateDDL && Constructed(m) && Prepares(cfg, m, false)
    requires forall fault | fault == NoFault || fault == BeginFails ::
      RunIndividually(cfg, OneRow(m, start), m, false, fault) ==
      RunIndividually(OlderEngine(cfg.migrations), OneRow(m, start), AsOlder(m), false, fault)
    ensures SameDown(cfg, m)
  {
    var db := OneRow(m, start);
    assert RunIndividually(cfg, db, m, false, NoFault) ==
           RunIndividually(OlderEngine(cfg.migrations), db, AsOlder(m), false, NoFault);
    assert RunIndividually(cfg, db, m, false, BeginFails) ==
           RunIndividually(OlderEngine(cfg.migrations), db, AsOlder(m), false, BeginFails);
    if m.body.GoBody? {
      RunOne(m.body.goDown.runTx, start);
      RunOne(m.body.goDown.runDB, start);
    }
  }

  /** A function, or none, run without statement faults. */
  lemma RunOne<S>(fn: Option<Effect<S>>, s: S)
    ensures
      var effects := match fn case Some(e) => [e] case None => [];
      && RunEffects(effects, NoFault, s) == RunEffects(effects, BeginFails, s)
      && (fn.None? ==> RunEffects(effects, NoFault, s) == Ran(true, s))
  {
    var effects := match fn case Some(e) => [e] case None => [];
    assert RunFirst(effects, NoFault, s, 0) == RunFirst(effects, BeginFails, s, 0) == Ran(true, s);
    if fn.Some? {
      assert RunFirst(effects, NoFault, s, 1) == RunFirst(effects, BeginFails, s, 1) == fn.value(s);
    }
  }

  /** The older DownTo and the provider's report the same and leave the same database, on every table
      of distinct applied rows whose migrations exist, for every target and every fault, if and only
      if for every migration the provider can prepare it and both choose alike whether its down
      function runs in a transaction. */
  lemma OlderAgreesIff<S(!new)>(cfg: Config<S>, start: S)
    requires Numbered(cfg) && !cfg.isolateDDL && forall m | m in cfg.migrations :: Constructed(m)
    ensures
      (forall db, version: nat, faults: nat -> Fault | KnownTable(cfg, db) :: Agrees(cfg, db, version, faults))
      <==> (forall m | m in cfg.migrations :: SameDown(cfg, m))
  {
    hide Agrees, SameDown, KnownTable, RunIndividually, Constructed, Numbered;
    if forall m | m in cfg.migrations :: SameDown(cfg, m) {
      forall db, version: nat, faults: nat -> Fault | KnownTable(cfg, db) ensures Agrees(cfg, db, version, faults) {
        AlikeAgrees(cfg, db, version, faults);
      }
    }
    if forall db, version: nat, faults: nat -> Fault | KnownTable(cfg, db) :: Agrees(cfg, db, version, faults) {
      forall m | m in cfg.migrations ensures SameDown(cfg, m) {
        OneRowPlan(cfg, m, start);
        forall fault | fault == NoFault || fault == BeginFails
          ensures Prepares(cfg, m, false)
          ensures RunIndividually(cfg, OneRow(m, start), m, false, fault) ==
                  RunIndividually(OlderEngine(cfg.migrations), OneRow(m, start), AsOlder(m), false, fault)
        {
          assert Agrees(cfg, OneRow(m, start), 0, _ => fault);
          OneRowAgrees(cfg, m, start, fault);
        }
        assert Prepares(cfg, m, false) by {
          assert Agrees(cfg, OneRow(m, start), 0, _ => NoFault);
          OneRowAgrees(cfg, m, start, NoFault);
        }
        AgreesIsAlike(cfg, m, start);
      }
    }
  }

  // ----- Go migrations of two kinds

  /** The flag as NewGoMigration sets it: one function for a transaction is enough. */
  predicate FlagOfEither<S>(m: Migration<S>) {
    m.body.GoBody? && m.body.olderTx == (m.body.goUp.runTx.Some? || m.body.goDown.runTx.Some?)
  }

  /** With a function for each direction, both codes choose alike for the down function unless the up
      function is the one for a transaction and the down function is not. */
  lemma MixedIff<S>(m: Migration<S>)
    requires Constructed(m) && FlagOfEither(m)
    requires m.body.goUp.runTx.Some? || m.body.goUp.runDB.Some?
    requires m.body.goDown.runTx.Some? || m.body.goDown.runDB.Some?
    ensures UseTx(AsOlder(m), false) == UseTx(m, false) <==>
            !(m.body.goUp.runTx.Some? && m.body.goDown.runDB.Some?)
  {
  }

  /** Such a migration is rolled back by the older code without its down function being run, which the
      provider does run. */
  lemma MixedIsNotRun<S>(cfg: Config<S>, db: Database<S>, m: Migration<S>)
    requires Constructed(m) && FlagOfEither(m)
    requires m.body.goUp.runTx.Some? && m.body.goDown.runDB.Some?
    ensures
      var ran := m.body.goDown.runDB.value(db.schema);
      var rows := RemoveVersion(db.rows, m.version);
      && RunIndividually(OlderEngine(cfg.migrations), db, AsOlder(m), false, NoFault) == (true, db.(rows := rows))
      && RunIndividually(cfg, db, m, false, NoFault) ==
         if ran.ok then (true, db.(rows := rows, schema := ran.schema)) else (false, db.(schema := ran.schema))
  {
    RunOne(m.body.goDown.runTx, db.schema);
    var effects := [m.body.goDown.runDB.value];
    assert RunFirst(effects, NoFault, db.schema, 0) == Ran(true, db.schema);
    assert RunFirst(effects, NoFault, db.schema, 1) == m.body.goDown.runDB.value(db.schema);
  }

  /** A file that parses downwards alone is rolled back by the older code and refused by the provider,
      which then rolls back nothing. */
  lemma DownOnlyFile<S>(cfg: Config<S>, m: Migration<S>, start: S)
    requires Numbered(cfg) && m in cfg.migrations
    requires m.body.SqlBody? && !m.body.upParses && m.body.downParses && m.body.down == []
    ensures OlderDownTo(cfg.migrations, OneRow(m, start), 0, _ => NoFault) ==
            (Ok([m.version]), Database(true, [0], start))
    ensures Exec(cfg, State(true, OneRow(m, start)), DownTo(0, CLEAN)) ==
            (Err(PrepareFailed(m.version)), State(true, OneRow(m, start)))
  {
    hide FindAll, DownPlan, Exec;
    OneRowPlan(cfg, m, start);
    UnpreparedIsRefused(cfg, m, start, CLEAN.faults);
    assert WithFaults(CLEAN.faults) == CLEAN;
    OneBatch(OlderEngine(cfg.migrations), OneRow(m, start), AsOlder(m), _ => NoFault);
    MigrationIsPositive(cfg, m);
    RemoveLast([0, m.version]);
    assert [0, m.version][..1] == [0];
  }
}
