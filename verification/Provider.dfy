/** The provider as the source has it: an object with a mutex and a single attempt at the version table,
    working on a shared database through a connection and perhaps a lock (provider.go,
    provider_run.go). Every call does what the module Migrator says, and gives back the mutex, the
    connection and the lock on every path. */
module Provider {
  import opened Wrappers
  import opened Versions
  import opened UpVersions
  import B = Batches
  import M = Migrator
  import opened Gates

  /** The database server: the database itself, and what callers have taken and given back. */
  class Server<S> {
    var db: M.Database<S>
    var openConns: nat
    var locksTaken: nat
    var unlocksTried: nat

    constructor (db: M.Database<S>)
      ensures this.db == db && openConns == 0 && locksTaken == 0 && unlocksTried == 0
    {
      this.db, openConns, locksTaken, unlocksTried := db, 0, 0, 0;
    }
  }

  datatype LockerKind = NoLocker | SessionLocker | GeneralLocker

  /** The cleanup closure of initialize. */
  datatype Cleanup = CloseOnly | SessionUnlockAndClose | UnlockAndClose

  class Provider<S> {
    const cfg: M.Config<S>
    const locker: LockerKind
    const server: Server<S>
    var mu: bool
    var versionTableOnce: bool

    ghost predicate Configured() {
      && (cfg.lockEnabled <==> locker != NoLocker)
      && forall m | m in cfg.migrations :: m.version > 0
    }

    ghost function StateOf(): M.State<S>
      reads this, server
    {
      M.State(versionTableOnce, server.db)
    }

    /** The mutex is free, and whatever was taken since has been given back. */
    twostate predicate Balanced()
      reads this, server
    {
      && !mu
      && server.openConns == old(server.openConns)
      && server.locksTaken - old(server.locksTaken) == server.unlocksTried - old(server.unlocksTried)
    }

    /** The mutex and one connection are held, and the lock if the cleanup gives one back. */
    twostate predicate Holds(cleanup: Cleanup)
      reads this, server
    {
      && mu
      && server.openConns == old(server.openConns) + 1
      && server.locksTaken - old(server.locksTaken) ==
         server.unlocksTried - old(server.unlocksTried) + if cleanup == CloseOnly then 0 else 1
    }

    constructor (cfg: M.Config<S>, locker: LockerKind, server: Server<S>)
      requires cfg.lockEnabled <==> locker != NoLocker
      requires forall m | m in cfg.migrations :: m.version > 0
      ensures Configured() && !mu && !versionTableOnce
      ensures this.cfg == cfg && this.locker == locker && this.server == server
    {
      this.cfg, this.locker, this.server := cfg, locker, server;
      mu, versionTableOnce := false, false;
    }

    // ----- Setting up and cleaning up

    method RunCleanup(cleanup: Cleanup)
      requires mu && server.openConns > 0
      modifies this`mu, server
      ensures !mu && server.db == old(server.db) && server.openConns == old(server.openConns) - 1
      ensures server.locksTaken == old(server.locksTaken)
      ensures server.unlocksTried == old(server.unlocksTried) + if cleanup == CloseOnly then 0 else 1
    {
      mu := false;
      if cleanup == SessionUnlockAndClose {
        server.unlocksTried := server.unlocksTried + 1;
      } else if cleanup == UnlockAndClose {
        server.unlocksTried := server.unlocksTried + 1;
      }
      server.openConns := server.openConns - 1;
    }

    /** One try and up to three retries. */
    method TryEnsureVersionTable(env: M.Env) returns (ok: bool)
      modifies server`db
      ensures (ok, server.db) == M.TryEnsure(cfg.isolateDDL, old(server.db), env.attempts, 0)
    {
      var k := 0;
      while k < M.MAX_ATTEMPTS
        invariant 0 <= k <= M.MAX_ATTEMPTS
        invariant M.TryEnsure(cfg.isolateDDL, old(server.db), env.attempts, 0) ==
                  M.TryEnsure(cfg.isolateDDL, server.db, env.attempts, k)
      {
        var outcome, next := M.EnsureOnce(cfg.isolateDDL, server.db, env.attempts(k)).0,
                             M.EnsureOnce(cfg.isolateDDL, server.db, env.attempts(k)).1;
        server.db := next;
        if outcome != M.Retry {
          return outcome == M.Settled;
        }
        k := k + 1;
      }
      return false;
    }

    method Initialize(useLocker: bool, env: M.Env) returns (failure: Option<M.Failure>, cleanup: Cleanup)
      requires Configured() && !mu
      modifies this`mu, this`versionTableOnce, server
      ensures (failure, StateOf()) == M.Initialize(cfg, old(StateOf()), useLocker, env)
      ensures failure.None? ==> Holds(cleanup) && (cleanup == CloseOnly <==> !(useLocker && cfg.lockEnabled))
      ensures failure.Some? ==> Balanced()
      ensures !useLocker ==> server.locksTaken == old(server.locksTaken)
    {
      mu := true;
      cleanup := CloseOnly;
      if !env.connects {
        mu := false;
        return Some(M.ConnFailed), cleanup;
      }
      server.openConns := server.openConns + 1;
      if useLocker && cfg.lockEnabled {
        if !env.locks {
          RunCleanup(cleanup);
          return Some(M.LockFailed), cleanup;
        }
        server.locksTaken := server.locksTaken + 1;
        cleanup := if locker == SessionLocker then SessionUnlockAndClose else UnlockAndClose;
      }
      if !versionTableOnce {
        versionTableOnce := true;
        var ok := TryEnsureVersionTable(env);
        if !ok {
          RunCleanup(cleanup);
          return Some(M.TableFailed), cleanup;
        }
      }
      return None, cleanup;
    }

    // ----- Running migrations

    method RunIndividually(m: M.Migration<S>, up: bool, fault: M.Fault) returns (ok: bool)
      requires mu
      modifies server`db
      ensures (ok, server.db) == M.RunIndividually(cfg, old(server.db), m, up, fault)
    {
      var useTx := M.UseTx(m, up);
      if useTx.None? {
        return false;
      }
      if useTx.value && !cfg.isolateDDL {
        // beginTx: a snapshot to go back to unless everything succeeds
        var snapshot := server.db;
        var ran := M.RunEffects(M.EffectsOf(m, up, true), fault, server.db.schema);
        server.db := server.db.(schema := ran.schema, rows := M.Record(server.db.rows, m.version, up));
        if fault == M.BeginFails || !ran.ok || fault == M.RecordFails || fault == M.CommitFails {
          server.db := snapshot;
          return false;
        }
        return true;
      }
      var ran := M.RunEffects(M.EffectsOf(m, up, false), fault, server.db.schema);
      server.db := server.db.(schema := ran.schema);
      if !ran.ok || fault == M.RecordFails {
        return false;
      }
      server.db := server.db.(rows := M.Record(server.db.rows, m.version, up));
      return true;
    }

    /** Prepares all migrations before the first is run. */
    method PrepareAll(apply: seq<M.Migration<S>>, up: bool) returns (unprepared: Option<int>)
      ensures unprepared == M.Unprepared(cfg, apply, up)
    {
      for i := 0 to |apply|
        invariant M.Unprepared(cfg, apply[..i], up) == None
      {
        assert apply[..i + 1][..i] == apply[..i];
        if !M.Prepares(cfg, apply[i], up) {
          UnpreparedPrefix(cfg, apply, i + 1, up);
          return Some(apply[i].version);
        }
      }
      assert apply[..|apply|] == apply;
      return None;
    }

    method RunMigrations(migrations: seq<M.Migration<S>>, up: bool, byOne: bool, env: M.Env)
      returns (r: Result<seq<int>, M.Failure>)
      requires mu
      modifies server`db
      ensures (r, server.db) == M.RunMigrations(cfg, old(server.db), migrations, up, byOne, env)
    {
      hide M.RunIndividually, M.Unprepared;
      if |migrations| == 0 {
        var failure := M.MaxVersion(server.db, env);
        return if failure.Some? then Err(failure.value) else Ok([]);
      }
      var apply := if byOne then migrations[..1] else migrations;
      var unprepared := PrepareAll(apply, up);
      if unprepared.Some? {
        return Err(M.PrepareFailed(unprepared.value));
      }
      ghost var start := server.db;
      var results: seq<int> := [];
      for i := 0 to |apply|
        invariant M.RunBatch(cfg, start, apply, up, env.faults, i) == M.Progress(results, None, server.db)
      {
        var ok := RunIndividually(apply[i], up, env.faults(i));
        if !ok {
          B.FailedBatchStops(cfg, start, apply, up, env.faults, i + 1);
          return Err(M.PartialError(results, apply[i].version));
        }
        results := results + [apply[i].version];
      }
      if !byOne {
        var failure := M.MaxVersion(server.db, env);
        if failure.Some? {
          return Err(failure.value);
        }
      }
      return Ok(results);
    }

    // ----- Operations

    method PlanUp(target: int) returns (r: Result<seq<int>, seq<int>>)
      requires Configured()
      ensures r == UpPlan(M.VersionsOf(cfg.migrations), server.db.rows, target, cfg.allowMissing)
    {
      var versions := M.VersionsOf(cfg.migrations);
      var fsys := new int[|versions|](i requires 0 <= i < |versions| => versions[i]);
      assert fsys[..] == versions;
      r := ResolveUpVersions(fsys, server.db.rows, target, cfg.allowMissing);
    }

    method HasPending(env: M.Env) returns (r: Result<bool, M.Failure>)
      requires Configured() && !mu
      modifies this`mu, this`versionTableOnce, server
      ensures (r, StateOf()) == M.HasPending(cfg, old(StateOf()), env)
      ensures Balanced()
      ensures server.locksTaken == old(server.locksTaken)
    {
      hide UpPlan, M.TryEnsure;
      var failure, cleanup := Initialize(false, env);
      if failure.Some? {
        return Err(failure.value);
      }
      if !server.db.created || !env.lists {
        RunCleanup(cleanup);
        return Err(M.StoreFailed);
      }
      var plan := PlanUp(MAX_INT64);
      RunCleanup(cleanup);
      return if plan.Err? then Err(M.MissingMigrations(plan.error)) else Ok(|plan.value| > 0);
    }

    method UpInternal(byOne: bool, version: int, env: M.Env) returns (r: Result<seq<int>, M.Failure>)
      requires Configured() && !mu
      modifies this`mu, this`versionTableOnce, server
      ensures (r, StateOf()) == M.RunUp(cfg, old(StateOf()), byOne, version, env)
      ensures Balanced()
    {
      hide UpPlan, M.TryEnsure, M.RunMigrations, M.FindAll;
      if version < 1 {
        return Err(M.InvalidVersion);
      }
      var failure, cleanup := Initialize(true, env);
      if failure.Some? {
        return Err(failure.value);
      }
      if |cfg.migrations| == 0 {
        r := Ok([]);
      } else if !server.db.created || !env.lists {
        r := Err(M.StoreFailed);
      } else if |server.db.rows| == 0 {
        r := Err(M.MissingZeroVersion);
      } else {
        var plan := PlanUp(version);
        if plan.Err? {
          r := Err(M.MissingMigrations(plan.error));
        } else {
          var apply := M.FindAll(cfg.migrations, plan.value);
          if apply.None? {
            r := Err(M.VersionNotFound);
          } else {
            r := RunMigrations(apply.value, true, byOne, env);
          }
        }
      }
      RunCleanup(cleanup);
    }

    /** The rows newest first, down to the first at or below the target, and their migrations. */
    method PlanDown(version: int) returns (apply: Option<seq<M.Migration<S>>>)
      ensures apply == M.FindAll(cfg.migrations, M.DownPlan(server.db.rows, version))
    {
      hide M.FindAll, M.Find;
      var rows := server.db.rows;
      ghost var plan := M.DownPlan(rows, version);
      var found: seq<M.Migration<S>> := [];
      var k := |rows|;
      assert rows[..|rows|] == rows;
      assert plan[..0] == [] && M.FindAll(cfg.migrations, []) == Some([]) by { B.FindAllNone(cfg.migrations); }
      while k > 0 && rows[k - 1] > version
        invariant 0 <= |rows| - k <= |plan|
        invariant plan[|rows| - k..] == M.DownPlan(rows[..k], version)
        invariant M.FindAll(cfg.migrations, plan[..|rows| - k]) == Some(found)
      {
        ghost var n := |rows| - k;
        assert rows[..k][..k - 1] == rows[..k - 1];
        assert plan[n..][0] == rows[k - 1] && plan[n + 1..] == plan[n..][1..];
        B.FindAllAppend(cfg.migrations, plan[..n], rows[k - 1]);
        assert plan[..n + 1] == plan[..n] + [rows[k - 1]];
        var m := M.Find(cfg.migrations, rows[k - 1]);
        if m.None? {
          FindAllPrefix(cfg.migrations, plan, n + 1);
          return None;
        }
        found := found + [m.value];
        k := k - 1;
      }
      assert plan[..|rows| - k] == plan;
      return Some(found);
    }

    method DownInternal(byOne: bool, version: int, env: M.Env) returns (r: Result<seq<int>, M.Failure>)
      requires Configured() && !mu
      modifies this`mu, this`versionTableOnce, server
      ensures (r, StateOf()) == M.RunDown(cfg, old(StateOf()), byOne, version, env)
      ensures Balanced()
    {
      hide M.TryEnsure, M.RunMigrations, M.FindAll, M.DownPlan;
      var failure, cleanup := Initialize(true, env);
      if failure.Some? {
        return Err(failure.value);
      }
      if |cfg.migrations| == 0 {
        r := Ok([]);
      } else if !server.db.created || !env.lists {
        r := Err(M.StoreFailed);
      } else if |server.db.rows| == 0 {
        r := Err(M.MissingZeroVersion);
      } else if server.db.rows[|server.db.rows| - 1] == 0 {
        // version zero is never rolled back
        r := Ok([]);
      } else {
        var apply := PlanDown(version);
        if apply.None? {
          r := Err(M.VersionNotFound);
        } else {
          r := RunMigrations(apply.value, false, byOne, env);
        }
      }
      RunCleanup(cleanup);
    }

    method ApplyInternal(version: int, up: bool, env: M.Env) returns (r: Result<seq<int>, M.Failure>)
      requires Configured() && !mu
      modifies this`mu, this`versionTableOnce, server
      ensures (r, StateOf()) == M.RunApply(cfg, old(StateOf()), version, up, env)
      ensures Balanced()
    {
      hide M.TryEnsure, M.RunMigrations;
      if version < 1 {
        return Err(M.InvalidVersion);
      }
      var m := M.Find(cfg.migrations, version);
      if m.None? {
        return Err(M.VersionNotFound);
      }
      var failure, cleanup := Initialize(true, env);
      if failure.Some? {
        return Err(failure.value);
      }
      if !server.db.created || !env.gets {
        r := Err(M.StoreFailed);
      } else if up && version in server.db.rows {
        r := Err(M.AlreadyApplied);
      } else if !up && version !in server.db.rows {
        r := Err(M.NotApplied);
      } else {
        r := RunMigrations([m.value], up, true, env);
      }
      RunCleanup(cleanup);
    }

    /** The calls of the API: each does what Migrator.Exec says and gives back what it has taken. */
    method Call(op: M.Op) returns (r: Result<seq<int>, M.Failure>)
      requires Configured() && !mu
      modifies this`mu, this`versionTableOnce, server
      ensures (r, StateOf()) == M.Exec(cfg, old(StateOf()), op)
      ensures Balanced()
    {
      hide M.RunUp, M.RunDown, M.RunApply, M.HasPending;
      match op
      case Up(gate, env) =>
        r := Gated(false, MAX_INT64, gate, env);
      case UpTo(version, gate, env) =>
        r := Gated(false, version, gate, env);
      case UpByOne(gate, env) =>
        r := Gated(true, MAX_INT64, gate, env);
        if r.Ok? && |r.value| == 0 {
          r := Err(M.NoNextVersion);
        }
      case Down(env) =>
        r := DownInternal(true, 0, env);
        if r.Ok? && |r.value| == 0 {
          r := Err(M.NoNextVersion);
        }
      case DownTo(version, env) =>
        if version < 0 {
          return Err(M.InvalidVersion);
        }
        r := DownInternal(false, version, env);
      case ApplyVersion(version, up, env) =>
        r := ApplyInternal(version, up, env);
    }

    /** Up, UpTo and UpByOne: the pending check comes first and takes no lock. */
    method Gated(byOne: bool, version: int, gate: M.Env, env: M.Env) returns (r: Result<seq<int>, M.Failure>)
      requires Configured() && !mu
      modifies this`mu, this`versionTableOnce, server
      ensures (r, StateOf()) == M.Gated(cfg, old(StateOf()), byOne, version, gate, env)
      ensures Balanced()
    {
      hide M.RunUp, M.HasPending;
      var pending := HasPending(gate);
      if pending.Err? {
        return Err(pending.error);
      }
      if !pending.value {
        return if byOne then Err(M.NoNextVersion) else Ok([]);
      }
      r := UpInternal(byOne, version, env);
    }

    /** Status: what the table says of each migration, in the order of the migrations. Each lookup may
        fail on its own, and the first that does fails the call. */
    method StatusAll(env: M.Env, lookups: nat -> bool) returns (r: Result<seq<Status>, M.Failure>)
      requires Configured() && !mu
      modifies this`mu, this`versionTableOnce, server
      ensures Balanced()
      ensures
        var (failure, next) := M.Initialize(cfg, old(StateOf()), true, env);
        var finds := next.db.created || cfg.migrations == [];
        && StateOf() == next
        && r == (if failure.Some? then Err(failure.value)
                 else if finds && forall i | 0 <= i < |cfg.migrations| :: lookups(i)
                 then Ok(StatusOf(cfg.migrations, next.db.rows))
                 else Err(M.StoreFailed))
    {
      hide M.TryEnsure;
      var failure, cleanup := Initialize(true, env);
      if failure.Some? {
        return Err(failure.value);
      }
      var status: seq<Status> := [];
      for i := 0 to |cfg.migrations|
        invariant |status| == i && mu && server.openConns > 0
        invariant i > 0 ==> server.db.created
        invariant forall j :: 0 <= j < i ==> lookups(j)
        invariant forall j :: 0 <= j < i ==>
          status[j] == if cfg.migrations[j].version in server.db.rows then StateApplied else StatePending
      {
        if !server.db.created || !lookups(i) {
          RunCleanup(cleanup);
          return Err(M.StoreFailed);
        }
        status := status + [if cfg.migrations[i].version in server.db.rows then StateApplied else StatePending];
      }
      assert status == StatusOf(cfg.migrations, server.db.rows);
      RunCleanup(cleanup);
      return Ok(status);
    }
  }

  // ----- Facts about the specification

  lemma {:induction false} UnpreparedPrefix<S>(cfg: M.Config<S>, apply: seq<M.Migration<S>>, i: nat, up: bool)
    requires i <= |apply| && M.Unprepared(cfg, apply[..i], up).Some?
    ensures M.Unprepared(cfg, apply, up) == M.Unprepared(cfg, apply[..i], up)
    decreases |apply| - i
  {
    if i == |apply| {
      assert apply[..i] == apply;
    } else {
      assert apply[..i + 1][..i] == apply[..i];
      UnpreparedPrefix(cfg, apply, i + 1, up);
    }
  }

  lemma {:induction false} FindAllPrefix<S>(migrations: seq<M.Migration<S>>, versions: seq<int>, i: nat)
    requires i <= |versions| && M.FindAll(migrations, versions[..i]).None?
    ensures M.FindAll(migrations, versions).None?
    decreases |versions| - i
  {
    if i == |versions| {
      assert versions[..i] == versions;
    } else {
      assert versions[..i + 1][..i] == versions[..i];
      FindAllPrefix(migrations, versions, i + 1);
    }
  }
}
