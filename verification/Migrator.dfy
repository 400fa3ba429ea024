/** The migration engine on values: what each provider operation does to the version table and the
    schema, faults included (provider.go, provider_run.go). The class Provider is proved to do this;
    the properties of the engine are proved about it.

    The version table holds its rows in insertion order. A schema is any value that the migrations
    transform. Faults of the database are part of the environment of an operation. */
module Migrator {
  import opened Wrappers
  import opened Versions
  import opened UpVersions

  // ----- Migrations

  /** What running a piece of a migration did: a failure may leave something behind. */
  datatype Ran<S> = Ran(ok: bool, schema: S)

  type Effect<!S> = S -> Ran<S>

  datatype TxMode = Unset | TransactionEnabled | TransactionDisabled

  datatype GoFunc<!S> = GoFunc(runTx: Option<Effect<S>>, runDB: Option<Effect<S>>, mode: TxMode)

  /** A file may parse in one direction only. A Go migration has a mode for each of its functions, and
      one flag for both that only the older code reads. */
  datatype Body<!S> =
    | SqlBody(upParses: bool, downParses: bool, useTx: bool, up: seq<Effect<S>>, down: seq<Effect<S>>)
    | GoBody(goUp: GoFunc<S>, goDown: GoFunc<S>, olderTx: bool)

  datatype Migration<!S> = Migration(version: int, body: Body<S>)

  datatype Config<!S> = Config(
    migrations: seq<Migration<S>>,
    allowMissing: bool,
    isolateDDL: bool,
    lockEnabled: bool,
    oneSessionConn: bool)  // a session lock on a pool of one connection

  function VersionsOf<S>(migrations: seq<Migration<S>>): (r: seq<int>)
    ensures |r| == |migrations| && forall i :: 0 <= i < |r| ==> r[i] == migrations[i].version
  {
    seq(|migrations|, i requires 0 <= i < |migrations| => migrations[i].version)
  }

  /** useTx: None stands for its error. */
  function UseTx<S>(m: Migration<S>, up: bool): Option<bool> {
    match m.body
    case SqlBody(upParses, downParses, useTx, _, _) => if upParses && downParses then Some(useTx) else None
    case GoBody(goUp, goDown, _) =>
      if goUp.mode == Unset || goDown.mode == Unset then None
      else Some((if up then goUp else goDown).mode == TransactionEnabled)
  }

  /** prepareMigration. */
  predicate Prepares<S>(cfg: Config<S>, m: Migration<S>, up: bool) {
    match m.body
    case SqlBody(upParses, downParses, _, _, _) => upParses && downParses
    case GoBody(goUp, goDown, _) =>
      && goUp.mode != Unset && goDown.mode != Unset
      && (cfg.lockEnabled && cfg.oneSessionConn ==> (if up then goUp else goDown).mode == TransactionEnabled)
  }

  /** What runs for a migration: a Go migration has one function for a transaction and another for a
      plain connection, and either may be absent. */
  function EffectsOf<S>(m: Migration<S>, up: bool, inTx: bool): seq<Effect<S>> {
    match m.body
    case SqlBody(_, _, _, stmtsUp, stmtsDown) => if up then stmtsUp else stmtsDown
    case GoBody(goUp, goDown, _) =>
      var f := if up then goUp else goDown;
      match if inTx then f.runTx else f.runDB
      case Some(effect) => [effect]
      case None => []
  }

  // ----- The database and its faults

  datatype Database<S> = Database(created: bool, rows: seq<int>, schema: S)

  /** What can go wrong while one migration runs. */
  datatype Fault = NoFault | BeginFails | StatementFails(at: nat) | RecordFails | CommitFails

  /** How the store answers whether the version table exists. */
  datatype Check = Answered | Unsupported | CheckFails

  datatype Attempt = Attempt(check: Check, lookupOk: bool, createOk: bool, insertOk: bool, commitOk: bool)

  /** What the database does during one operation. */
  datatype Env = Env(
    connects: bool,
    locks: bool,
    attempts: nat -> Attempt,
    lists: bool,
    gets: bool,
    maxes: bool,
    faults: nat -> Fault)

  const CLEAN_ATTEMPT := Attempt(Answered, true, true, true, true)
  const CLEAN := Env(true, true, _ => CLEAN_ATTEMPT, true, true, true, _ => NoFault)

  datatype Failure =
    | InvalidVersion
    | ConnFailed
    | LockFailed
    | TableFailed
    | StoreFailed
    | MissingZeroVersion
    | MissingMigrations(missing: seq<int>)
    | VersionNotFound
    | AlreadyApplied
    | NotApplied
    | NoNextVersion
    | PrepareFailed(version: int)
    | PartialError(applied: seq<int>, failed: int)

  // ----- Running one migration

  /** The first n effects, up to the first that fails. */
  function RunFirst<S>(effects: seq<Effect<S>>, fault: Fault, s: S, n: nat): Ran<S>
    requires n <= |effects|
  {
    if n == 0 then Ran(true, s)
    else
      var before := RunFirst(effects, fault, s, n - 1);
      if !before.ok then before
      else if fault == StatementFails(n - 1) then Ran(false, before.schema)
      else effects[n - 1](before.schema)
  }

  function RunEffects<S>(effects: seq<Effect<S>>, fault: Fault, s: S): Ran<S> {
    RunFirst(effects, fault, s, |effects|)
  }

  function RemoveVersion(rows: seq<int>, v: int): seq<int> {
    if rows == [] then []
    else RemoveVersion(rows[..|rows| - 1], v) + if rows[|rows| - 1] == v then [] else [rows[|rows| - 1]]
  }

  function Record(rows: seq<int>, v: int, up: bool): seq<int> {
    if up then rows + [v] else RemoveVersion(rows, v)
  }

  /** runIndividually: in a transaction all or nothing happens; otherwise the effects stay even if
      they fail or their version cannot be recorded. */
  function RunIndividually<S>(cfg: Config<S>, db: Database<S>, m: Migration<S>, up: bool, fault: Fault): (bool, Database<S>) {
    match UseTx(m, up)
    case None => (false, db)
    case Some(useTx) =>
      var inTx := useTx && !cfg.isolateDDL;
      var ran := RunEffects(EffectsOf(m, up, inTx), fault, db.schema);
      var done := db.(rows := Record(db.rows, m.version, up), schema := ran.schema);
      if inTx then
        if ran.ok && fault != BeginFails && fault != RecordFails && fault != CommitFails then (true, done) else (false, db)
      else if ran.ok && fault != RecordFails then (true, done)
      else (false, db.(schema := ran.schema))
  }

  // ----- Running a batch

  datatype Progress<S> = Progress(applied: seq<int>, failed: Option<int>, db: Database<S>)

  /** The first n migrations of a batch, up to the first that fails. */
  function RunBatch<S>(cfg: Config<S>, db: Database<S>, apply: seq<Migration<S>>, up: bool, faults: nat -> Fault, n: nat)
    : Progress<S>
    requires n <= |apply|
  {
    if n == 0 then Progress([], None, db)
    else
      var before := RunBatch(cfg, db, apply, up, faults, n - 1);
      var m := apply[n - 1];
      if before.failed.Some? then before
      else
        var (ok, after) := RunIndividually(cfg, before.db, m, up, faults(n - 1));
        if ok then Progress(before.applied + [m.version], None, after)
        else Progress(before.applied, Some(m.version), after)
  }

  /** The first migration, if any, that cannot be prepared. */
  function Unprepared<S>(cfg: Config<S>, apply: seq<Migration<S>>, up: bool): (r: Option<int>)
    ensures r.None? <==> forall i | 0 <= i < |apply| :: Prepares(cfg, apply[i], up)
  {
    if apply == [] then None
    else
      match Unprepared(cfg, apply[..|apply| - 1], up)
      case Some(v) => Some(v)
      case None =>
        if Prepares(cfg, apply[|apply| - 1], up) then None else Some(apply[|apply| - 1].version)
  }

  /** getDBMaxVersion on an open connection. */
  function MaxVersion<S>(db: Database<S>, env: Env): Option<Failure> {
    if !db.created || !env.maxes then Some(StoreFailed)
    else if db.rows == [] then Some(MissingZeroVersion)
    else None
  }

  /** runMigrations. */
  function RunMigrations<S>(cfg: Config<S>, db: Database<S>, migrations: seq<Migration<S>>, up: bool, byOne: bool, env: Env)
    : (Result<seq<int>, Failure>, Database<S>)
  {
    if migrations == [] then
      match MaxVersion(db, env)
      case Some(f) => (Err(f), db)
      case None => (Ok([]), db)
    else
      var apply := if byOne then migrations[..1] else migrations;
      match Unprepared(cfg, apply, up)
      case Some(v) => (Err(PrepareFailed(v)), db)
      case None =>
        var p := RunBatch(cfg, db, apply, up, env.faults, |apply|);
        match p.failed
        case Some(v) => (Err(PartialError(p.applied, v)), p.db)
        case None =>
          match if byOne then None else MaxVersion(p.db, env)
          case Some(f) => (Err(f), p.db)
          case None => (Ok(p.applied), p.db)
  }

  // ----- The version table

  datatype Ensured = Settled | Retry | Fatal

  /** One attempt of tryEnsureVersionTable. Creating an existing table fails. */
  function EnsureOnce<S>(isolateDDL: bool, db: Database<S>, a: Attempt): (Ensured, Database<S>) {
    if a.check == CheckFails then (Fatal, db)
    else if a.check == Answered && db.created then (Settled, db)
    else if a.check == Unsupported && db.created && a.lookupOk && 0 in db.rows then (Settled, db)
    else if db.created || !a.createOk then (Retry, db)
    else
      var blank := db.(created := true, rows := []);
      if isolateDDL then
        if a.insertOk then (Settled, blank.(rows := [0])) else (Retry, blank)
      else if a.insertOk && a.commitOk then (Settled, blank.(rows := [0]))
      else (Retry, db)
  }

  const MAX_ATTEMPTS := 4  // one try and three retries

  function TryEnsure<S>(isolateDDL: bool, db: Database<S>, attempts: nat -> Attempt, k: nat): (bool, Database<S>)
    requires k <= MAX_ATTEMPTS
    decreases MAX_ATTEMPTS - k
  {
    if k == MAX_ATTEMPTS then (false, db)
    else
      var (outcome, next) := EnsureOnce(isolateDDL, db, attempts(k));
      match outcome
      case Settled => (true, next)
      case Fatal => (false, next)
      case Retry => TryEnsure(isolateDDL, next, attempts, k + 1)
  }

  // ----- Operations

  /** What a provider keeps: the database it works on and whether it has tried to create the table. */
  datatype State<S> = State(ensured: bool, db: Database<S>)

  function Initialize<S>(cfg: Config<S>, st: State<S>, useLocker: bool, env: Env): (Option<Failure>, State<S>) {
    if !env.connects then (Some(ConnFailed), st)
    else if useLocker && cfg.lockEnabled && !env.locks then (Some(LockFailed), st)
    else if st.ensured then (None, st)
    else
      var (ok, db) := TryEnsure(cfg.isolateDDL, st.db, env.attempts, 0);
      (if ok then None else Some(TableFailed), State(true, db))
  }

  function HasPending<S>(cfg: Config<S>, st: State<S>, env: Env): (Result<bool, Failure>, State<S>) {
    var (failure, next) := Initialize(cfg, st, false, env);
    if failure.Some? then (Err(failure.value), next)
    else if !next.db.created || !env.lists then (Err(StoreFailed), next)
    else
      match UpPlan(VersionsOf(cfg.migrations), next.db.rows, MAX_INT64, cfg.allowMissing)
      case Err(missing) => (Err(MissingMigrations(missing)), next)
      case Ok(plan) => (Ok(plan != []), next)
  }

  /** getMigration for each version. */
  function Find<S>(migrations: seq<Migration<S>>, v: int): Option<Migration<S>> {
    if migrations == [] then None
    else if migrations[0].version == v then Some(migrations[0])
    else Find(migrations[1..], v)
  }

  function FindAll<S>(migrations: seq<Migration<S>>, versions: seq<int>): Option<seq<Migration<S>>> {
    if versions == [] then Some([])
    else
      match FindAll(migrations, versions[..|versions| - 1])
      case None => None
      case Some(found) =>
        match Find(migrations, versions[|versions| - 1])
        case None => None
        case Some(m) => Some(found + [m])
  }

  function RunUp<S>(cfg: Config<S>, st: State<S>, byOne: bool, target: int, env: Env): (Result<seq<int>, Failure>, State<S>) {
    if target < 1 then (Err(InvalidVersion), st)
    else
      var (failure, next) := Initialize(cfg, st, true, env);
      if failure.Some? then (Err(failure.value), next)
      else if cfg.migrations == [] then (Ok([]), next)
      else if !next.db.created || !env.lists then (Err(StoreFailed), next)
      else if next.db.rows == [] then (Err(MissingZeroVersion), next)
      else
        match UpPlan(VersionsOf(cfg.migrations), next.db.rows, target, cfg.allowMissing)
        case Err(missing) => (Err(MissingMigrations(missing)), next)
        case Ok(plan) =>
          match FindAll(cfg.migrations, plan)
          case None => (Err(VersionNotFound), next)
          case Some(apply) =>
            var (r, db) := RunMigrations(cfg, next.db, apply, true, byOne, env);
            (r, next.(db := db))
  }

  /** The rows to roll back, newest first, down to the first at or below the target. */
  function DownPlan(rows: seq<int>, target: int): (plan: seq<int>)
    ensures |plan| <= |rows|
  {
    if rows == [] || rows[|rows| - 1] <= target then []
    else [rows[|rows| - 1]] + DownPlan(rows[..|rows| - 1], target)
  }

  function RunDown<S>(cfg: Config<S>, st: State<S>, byOne: bool, target: int, env: Env): (Result<seq<int>, Failure>, State<S>) {
    var (failure, next) := Initialize(cfg, st, true, env);
    if failure.Some? then (Err(failure.value), next)
    else if cfg.migrations == [] then (Ok([]), next)
    else if !next.db.created || !env.lists then (Err(StoreFailed), next)
    else if next.db.rows == [] then (Err(MissingZeroVersion), next)
    else if next.db.rows[|next.db.rows| - 1] == 0 then (Ok([]), next)
    else
      match FindAll(cfg.migrations, DownPlan(next.db.rows, target))
      case None => (Err(VersionNotFound), next)
      case Some(apply) =>
        var (r, db) := RunMigrations(cfg, next.db, apply, false, byOne, env);
        (r, next.(db := db))
  }

  function RunApply<S>(cfg: Config<S>, st: State<S>, version: int, up: bool, env: Env): (Result<seq<int>, Failure>, State<S>) {
    if version < 1 then (Err(InvalidVersion), st)
    else
      match Find(cfg.migrations, version)
      case None => (Err(VersionNotFound), st)
      case Some(m) =>
        var (failure, next) := Initialize(cfg, st, true, env);
        if failure.Some? then (Err(failure.value), next)
        else if !next.db.created || !env.gets then (Err(StoreFailed), next)
        else if up && version in next.db.rows then (Err(AlreadyApplied), next)
        else if !up && version !in next.db.rows then (Err(NotApplied), next)
        else
          var (r, db) := RunMigrations(cfg, next.db, [m], up, true, env);
          (r, next.(db := db))
  }

  datatype Op =
    | Up(gate: Env, env: Env)
    | UpTo(version: int, gate: Env, env: Env)
    | UpByOne(gate: Env, env: Env)
    | Down(env: Env)
    | DownTo(version: int, env: Env)
    | ApplyVersion(version: int, up: bool, env: Env)

  /** An upward operation looks for pending migrations before it takes the lock. */
  function Gated<S>(cfg: Config<S>, st: State<S>, byOne: bool, target: int, gate: Env, env: Env)
    : (Result<seq<int>, Failure>, State<S>)
  {
    var (pending, next) := HasPending(cfg, st, gate);
    match pending
    case Err(f) => (Err(f), next)
    case Ok(false) => (if byOne then Err(NoNextVersion) else Ok([]), next)
    case Ok(true) => RunUp(cfg, next, byOne, target, env)
  }

  function NonEmpty<S>(r: (Result<seq<int>, Failure>, State<S>)): (Result<seq<int>, Failure>, State<S>) {
    if r.0 == Ok([]) then (Err(NoNextVersion), r.1) else r
  }

  /** One call of a provider: the versions of its results, or its error. */
  function Exec<S>(cfg: Config<S>, st: State<S>, op: Op): (Result<seq<int>, Failure>, State<S>) {
    match op
    case Up(gate, env) => Gated(cfg, st, false, MAX_INT64, gate, env)
    case UpTo(version, gate, env) => Gated(cfg, st, false, version, gate, env)
    case UpByOne(gate, env) => NonEmpty(Gated(cfg, st, true, MAX_INT64, gate, env))
    case Down(env) => NonEmpty(RunDown(cfg, st, true, 0, env))
    case DownTo(version, env) =>
      if version < 0 then (Err(InvalidVersion), st) else RunDown(cfg, st, false, version, env)
    case ApplyVersion(version, up, env) => RunApply(cfg, st, version, up, env)
  }

  /** The state after a sequence of calls. */
  function After<S>(cfg: Config<S>, st: State<S>, ops: seq<Op>): State<S> {
    if ops == [] then st else Exec(cfg, After(cfg, st, ops[..|ops| - 1]), ops[|ops| - 1]).1
  }

  /** A database without a version table. */
  predicate Untouched<S>(st: State<S>) {
    !st.db.created && st.db.rows == []
  }
}
