/** Several providers share one database and take turns under a lock that excludes (provider.go,
    provider_run.go). The pending check takes no lock, so it is a turn of its own and may come between
    any two others; each provider has its own single attempt at the version table. */
module Fleet {
  import opened Versions
  import opened Migrator
  import opened Batches
  import opened Traces
  import opened SchemaReplay
  import opened NoGaps

  /** The providers that have tried to create the table, and the database. */
  datatype World<S> = World(tried: set<nat>, db: Database<S>)

  datatype Turn =
    | CheckPending(i: nat, env: Env)
    | ApplyPending(i: nat, byOne: bool, target: int, env: Env)
    | RollBack(i: nat, byOne: bool, target: int, env: Env)
    | ApplyOne(i: nat, version: int, up: bool, env: Env)

  function StateOf<S>(w: World<S>, i: nat): State<S> {
    State(i in w.tried, w.db)
  }

  /** The state of a provider after its turn. */
  function TakeTurn<S>(cfg: Config<S>, st: State<S>, t: Turn): State<S> {
    match t
    case CheckPending(_, env) => HasPending(cfg, st, env).1
    case ApplyPending(_, byOne, target, env) => RunUp(cfg, st, byOne, target, env).1
    case RollBack(_, byOne, target, env) => RunDown(cfg, st, byOne, target, env).1
    case ApplyOne(_, version, up, env) => RunApply(cfg, st, version, up, env).1
  }

  function Next<S>(cfgs: nat -> Config<S>, w: World<S>, t: Turn): World<S> {
    var after := TakeTurn(cfgs(t.i), StateOf(w, t.i), t);
    World(if after.ensured then w.tried + {t.i} else w.tried, after.db)
  }

  function AfterTurns<S>(cfgs: nat -> Config<S>, w: World<S>, turns: seq<Turn>): World<S> {
    if turns == [] then w
    else Next(cfgs, AfterTurns(cfgs, w, turns[..|turns| - 1]), turns[|turns| - 1])
  }

  /** Every provider has positive and distinct versions and creates the table in one transaction. */
  ghost predicate AllSound<S(!new)>(cfgs: nat -> Config<S>) {
    forall i :: Sound(cfgs(i))
  }

  lemma TurnIsTrace<S>(cfg: Config<S>, st: State<S>, t: Turn) returns (steps: seq<Step<S>>)
    requires Sound(cfg) && GoodTable(st.db)
    ensures Connects(cfg, st.db, steps, TakeTurn(cfg, st, t).db)
    ensures !t.ApplyOne? ==> AllInOrder(cfg, st.db, steps)
  {
    hide Numbered, GoodTable, AllAllowed, AllInOrder, DoAll, RunUp, RunDown, RunApply, Initialize;
    match t
    case CheckPending(_, env) => steps := InitializeIsTrace(cfg, st, false, env);
    case ApplyPending(_, byOne, target, env) => steps := UpIsTrace(cfg, st, byOne, target, env);
    case RollBack(_, byOne, target, env) => steps := DownIsTrace(cfg, st, byOne, target, env);
    case ApplyOne(_, version, up, env) => steps := ApplyIsTrace(cfg, st, version, up, env);
  }

  /** The version-table invariant for any number of providers, with migrations of their own, over all
      turns and faults: version 0 is never removed and no version is recorded twice. */
  lemma {:induction false} FleetKeepsTable<S(!new)>(cfgs: nat -> Config<S>, w: World<S>, turns: seq<Turn>)
    requires AllSound(cfgs) && GoodTable(w.db)
    ensures GoodTable(AfterTurns(cfgs, w, turns).db)
  {
    hide Numbered, GoodTable, TakeTurn;
    if turns != [] {
      var front, last := turns[..|turns| - 1], turns[|turns| - 1];
      FleetKeepsTable(cfgs, w, front);
      var before := AfterTurns(cfgs, w, front);
      var cfg := cfgs(last.i);
      assert Sound(cfg);
      var steps := TurnIsTrace(cfg, StateOf(before, last.i), last);
      TraceKeepsTable(cfg, before.db, steps);
    }
  }

  /** All providers have the same migrations. */
  ghost predicate SameMigrations<S(!new)>(cfgs: nat -> Config<S>, migrations: seq<Migration<S>>) {
    forall i :: cfgs(i).migrations == migrations
  }

  lemma GaplessByMigrations<S>(a: Config<S>, b: Config<S>, db: Database<S>)
    requires a.migrations == b.migrations && GaplessTable(a, db)
    ensures GaplessTable(b, db)
  {
  }

  /** With the same migrations and without ApplyVersion, the table of any number of providers has no
      gaps. */
  lemma {:induction false} FleetIsGapless<S(!new)>(
    cfgs: nat -> Config<S>, cfg: Config<S>, w: World<S>, turns: seq<Turn>)
    requires AllSound(cfgs) && SameMigrations(cfgs, cfg.migrations) && GaplessTable(cfg, w.db)
    requires forall t | t in turns :: !t.ApplyOne?
    ensures GaplessTable(cfg, AfterTurns(cfgs, w, turns).db)
  {
    hide Numbered, GoodTable, TakeTurn, GaplessTable;
    if turns != [] {
      var front, last := turns[..|turns| - 1], turns[|turns| - 1];
      assert last in turns;
      FleetIsGapless(cfgs, cfg, w, front);
      var before := AfterTurns(cfgs, w, front);
      var own := cfgs(last.i);
      assert Sound(own);
      GaplessByMigrations(cfg, own, before.db);
      GaplessIsGood(own, before.db);
      var steps := TurnIsTrace(own, StateOf(before, last.i), last);
      TraceKeepsGapless(own, before.db, steps);
      GaplessByMigrations(own, cfg, DoAll(own, before.db, steps));
    }
  }

  lemma {:induction false} ReplayByMigrations<S>(a: Config<S>, b: Config<S>, rows: seq<int>, start: S)
    requires a.migrations == b.migrations
    ensures Replay(a, rows, start) == Replay(b, rows, start)
  {
    if rows != [] {
      ReplayByMigrations(a, b, rows[..|rows| - 1], start);
    }
  }

  /** And if downs undo ups, the schema is the replay of the recorded rows. */
  lemma {:induction false} FleetReplays<S(!new)>(
    cfgs: nat -> Config<S>, cfg: Config<S>, w: World<S>, turns: seq<Turn>, start: S)
    requires AllSound(cfgs) && SameMigrations(cfgs, cfg.migrations) && Reversible(cfg) && Replays(cfg, w.db, start)
    requires forall t | t in turns :: !t.ApplyOne?
    ensures Replays(cfg, AfterTurns(cfgs, w, turns).db, start)
  {
    hide Numbered, GoodTable, TakeTurn, Undoes, Replay;
    if turns != [] {
      var front, last := turns[..|turns| - 1], turns[|turns| - 1];
      assert last in turns;
      FleetReplays(cfgs, cfg, w, front, start);
      var before := AfterTurns(cfgs, w, front);
      var own := cfgs(last.i);
      assert Sound(own) && own.migrations == cfg.migrations;
      ReplayByMigrations(own, cfg, before.db.rows, start);
      var steps := TurnIsTrace(own, StateOf(before, last.i), last);
      TraceReplays(own, before.db, steps, start);
      ReplayByMigrations(own, cfg, DoAll(own, before.db, steps).rows, start);
    }
  }
}
