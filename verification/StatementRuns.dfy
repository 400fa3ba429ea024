/** What running migrations does, statement by statement (provider_run.go): which functions and
    statements run, in which order, and what stays of them when one of them fails. */
module StatementRuns {
  import opened Wrappers
  import opened Versions
  import opened Migrator
  import opened Batches

  /** What a migration runs in a direction, and whether it runs in a transaction: an SQL migration its
      statements, a Go migration one of two functions, if it has that one. Isolated DDL rules
      transactions out. A migration that does not parse or whose mode is unknown runs nothing. */
  ghost predicate Runs<S(!new)>(cfg: Config<S>, m: Migration<S>, up: bool, effects: seq<Effect<S>>, inTx: bool) {
    match m.body
    case SqlBody(upParses, downParses, useTx, upwards, downwards) =>
      && upParses && downParses
      && (inTx <==> useTx && !cfg.isolateDDL)
      && (up ==> effects == upwards) && (!up ==> effects == downwards)
    case GoBody(goUp, goDown, _) =>
      var f := if up then goUp else goDown;
      && goUp.mode != Unset && goDown.mode != Unset
      && (inTx <==> f.mode == TransactionEnabled && !cfg.isolateDDL)
      && (match if inTx then f.runTx else f.runDB
          case Some(e) => effects == [e]
          case None => effects == [])
  }

  /** The states that the statements go through, each running on what the one before it has left, up
      to the first that fails or to the end. */
  ghost predicate Path<S(!new)>(effects: seq<Effect<S>>, start: S, states: seq<S>) {
    && 0 < |states| <= |effects| + 1 && states[0] == start
    && (forall i | 0 <= i < |states| - 1 :: effects[i](states[i]) == Ran(true, states[i + 1]))
    && (|states| <= |effects| ==> !effects[|states| - 1](states[|states| - 1]).ok)
  }

  /** There is always such a path. */
  lemma {:induction false} PathExists<S(!new)>(effects: seq<Effect<S>>, start: S) returns (states: seq<S>)
    ensures Path(effects, start, states)
  {
    if effects == [] || !effects[0](start).ok {
      states := [start];
    } else {
      var rest := PathExists(effects[1..], effects[0](start).schema);
      states := [start] + rest;
    }
  }

  lemma {:induction false} FirstAlongPath<S(!new)>(effects: seq<Effect<S>>, fault: Fault, start: S, states: seq<S>, n: nat)
    requires Path(effects, start, states) && n <= |effects|
    ensures RunFirst(effects, fault, start, n) ==
      if fault.StatementFails? && fault.at < n && fault.at < |states| then Ran(false, states[fault.at])
      else if n < |states| then Ran(true, states[n])
      else effects[|states| - 1](states[|states| - 1])
  {
    if n > 0 {
      FirstAlongPath(effects, fault, start, states, n - 1);
    }
  }

  /** The database refuses a statement that there is. */
  predicate Strikes(fault: Fault, count: nat) {
    fault.StatementFails? && fault.at < count
  }

  /** Running one migration: its statements run in their order, each on the state that the one before it
      has left. The run succeeds if and only if all of them do and its version is recorded, and in a
      transaction if that begins and is committed. Then the schema is the last of the states. If it
      fails in a transaction nothing has happened; outside of one, exactly what the statements up to the
      failing one have left is there, and no version is recorded or removed. */
  lemma RunMeaning<S(!new)>(
    cfg: Config<S>, db: Database<S>, m: Migration<S>, up: bool, fault: Fault,
    effects: seq<Effect<S>>, inTx: bool, states: seq<S>)
    requires Runs(cfg, m, up, effects, inTx) && Path(effects, db.schema, states)
    ensures
      var (ok, after) := RunIndividually(cfg, db, m, up, fault);
      var last := |states| - 1;
      && (ok <==>
            && last == |effects| && !Strikes(fault, |effects|) && fault != RecordFails
            && !(inTx && (fault == BeginFails || fault == CommitFails)))
      && (ok && up ==> after == Database(db.created, db.rows + [m.version], states[last]))
      && (ok && !up ==> after == Database(db.created, RemoveVersion(db.rows, m.version), states[last]))
      && (!ok && inTx ==> after == db)
      && (!ok && !inTx ==>
            && after.created == db.created && after.rows == db.rows
            && after.schema ==
               if Strikes(fault, |effects|) && fault.at <= last then states[fault.at]
               else if last == |effects| then states[last]
               else effects[last](states[last]).schema)
  {
    hide RunFirst, RemoveVersion, Path;
    assert 0 < |states| <= |effects| + 1 && (|states| <= |effects| ==> !effects[|states| - 1](states[|states| - 1]).ok) by {
      PathLength(effects, db.schema, states);
    }
    WhatRuns(cfg, m, up, effects, inTx);
    FirstAlongPath(effects, fault, db.schema, states, |effects|);
  }

  lemma PathLength<S(!new)>(effects: seq<Effect<S>>, start: S, states: seq<S>)
    requires Path(effects, start, states)
    ensures 0 < |states| <= |effects| + 1
    ensures |states| <= |effects| ==> !effects[|states| - 1](states[|states| - 1]).ok
  {
  }

  lemma WhatRuns<S(!new)>(cfg: Config<S>, m: Migration<S>, up: bool, effects: seq<Effect<S>>, inTx: bool)
    requires Runs(cfg, m, up, effects, inTx)
    ensures UseTx(m, up).Some? && (inTx <==> UseTx(m, up).value && !cfg.isolateDDL)
    ensures EffectsOf(m, up, inTx) == effects
  {
  }

  /** A migration that runs nothing in this sense fails and changes nothing. */
  lemma RunsOrFails<S(!new)>(cfg: Config<S>, db: Database<S>, m: Migration<S>, up: bool, fault: Fault)
    ensures (exists effects, inTx :: Runs(cfg, m, up, effects, inTx)) || RunIndividually(cfg, db, m, up, fault) == (false, db)
  {
    if UseTx(m, up).Some? {
      var inTx := UseTx(m, up).value && !cfg.isolateDDL;
      assert Runs(cfg, m, up, EffectsOf(m, up, inTx), inTx);
    }
  }

  /** What can be prepared can be run. The preparation asks for more in one case only: a Go migration
      must use a transaction where the session lock sits on the only connection. */
  lemma PreparesIffRuns<S(!new)>(cfg: Config<S>, m: Migration<S>, up: bool)
    ensures
      var needsTx := cfg.lockEnabled && cfg.oneSessionConn && m.body.GoBody?;
      Prepares(cfg, m, up) <==>
      && (exists effects, inTx :: Runs(cfg, m, up, effects, inTx))
      && (needsTx ==> exists effects, inTx :: inTx && Runs(cfg.(isolateDDL := false), m, up, effects, inTx))
  {
    if UseTx(m, up).Some? {
      var inTx := UseTx(m, up).value && !cfg.isolateDDL;
      assert Runs(cfg, m, up, EffectsOf(m, up, inTx), inTx);
      if UseTx(m, up).value {
        assert Runs(cfg.(isolateDDL := false), m, up, EffectsOf(m, up, true), true);
      }
    }
  }

  /** Removing a version takes its row out and leaves the others in their order. */
  lemma {:induction false} RemovedAlone(rows: seq<int>, k: nat)
    requires Distinct(rows) && k < |rows|
    ensures RemoveVersion(rows, rows[k]) == rows[..k] + rows[k + 1..]
  {
    var front := rows[..|rows| - 1];
    if k == |rows| - 1 {
      RemoveAbsent(front, rows[k]);
      assert rows[..k] + rows[k + 1..] == front;
    } else {
      RemovedAlone(front, k);
      assert rows[k + 1..] == front[k + 1..] + [rows[|rows| - 1]];
    }
  }

  // ----- Batches

  /** The databases that a batch goes through, each migration running on what the one before it has
      left, up to the first that fails or to the end. */
  ghost predicate BatchPath<S>(
    cfg: Config<S>, db: Database<S>, apply: seq<Migration<S>>, up: bool, faults: nat -> Fault, dbs: seq<Database<S>>)
  {
    && 0 < |dbs| <= |apply| + 1 && dbs[0] == db
    && (forall i | 0 <= i < |dbs| - 1 :: RunIndividually(cfg, dbs[i], apply[i], up, faults(i)) == (true, dbs[i + 1]))
    && var last := |dbs| - 1;
       last < |apply| ==> !RunIndividually(cfg, dbs[last], apply[last], up, faults(last)).0
  }

  lemma {:induction false} BatchAlongPath<S>(
    cfg: Config<S>, db: Database<S>, apply: seq<Migration<S>>, up: bool, faults: nat -> Fault,
    dbs: seq<Database<S>>, n: nat)
    requires BatchPath(cfg, db, apply, up, faults, dbs) && n <= |apply|
    ensures
      var p := RunBatch(cfg, db, apply, up, faults, n);
      var last := |dbs| - 1;
      && (n <= last ==> p.failed.None? && p.db == dbs[n])
      && (n > last ==> p.failed.Some? && p.db == RunIndividually(cfg, dbs[last], apply[last], up, faults(last)).1)
  {
    hide RunIndividually;
    if n > 0 {
      BatchAlongPath(cfg, db, apply, up, faults, dbs, n - 1);
      if n < |dbs| {
        assert RunIndividually(cfg, dbs[n - 1], apply[n - 1], up, faults(n - 1)) == (true, dbs[n - 1 + 1]);
      }
    }
  }

  /** A call that runs migrations: without one that cannot be prepared, they run in their order, each on
      what the one before it has left. It reports the versions of those that succeeded, in its error if
      one failed. If none did it is a success, unless it is no single step and the largest version
      cannot be read afterwards. */
  lemma RunMigrationsMeaning<S>(
    cfg: Config<S>, db: Database<S>, migrations: seq<Migration<S>>, up: bool, byOne: bool, env: Env,
    dbs: seq<Database<S>>)
    requires forall i | 0 <= i < |migrations| :: Prepares(cfg, migrations[i], up)
    requires BatchPath(cfg, db, if byOne && migrations != [] then migrations[..1] else migrations, up, env.faults, dbs)
    ensures
      var (r, after) := RunMigrations(cfg, db, migrations, up, byOne, env);
      var done, one := |dbs| - 1, byOne && migrations != [];
      var all := if one then 1 else |migrations|;
      var versions := VersionsOf(migrations)[..done];
      && (done < all ==>
            && r == Err(PartialError(versions, migrations[done].version))
            && after == RunIndividually(cfg, dbs[done], migrations[done], up, env.faults(done)).1)
      && (done == all ==>
            && after == dbs[done]
            && r == if one then Ok(versions)
                    else if !env.maxes || !after.created then Err(StoreFailed)
                    else if after.rows == [] then Err(MissingZeroVersion)
                    else Ok(versions))
  {
    hide RunIndividually, RunBatch, Prepares;
    var apply := if byOne && migrations != [] then migrations[..1] else migrations;
    BatchAlongPath(cfg, db, apply, up, env.faults, dbs, |apply|);
    AppliedIsPrefix(cfg, db, apply, up, env.faults, |apply|);
    BatchDone(cfg, db, apply, up, env.faults, dbs);
    assert VersionsOf(apply) == VersionsOf(migrations)[..|apply|];
    assert VersionsOf(apply)[..|dbs| - 1] == VersionsOf(migrations)[..|dbs| - 1];
  }

  /** As many migrations are listed as applied as the path has steps. */
  lemma BatchDone<S>(
    cfg: Config<S>, db: Database<S>, apply: seq<Migration<S>>, up: bool, faults: nat -> Fault, dbs: seq<Database<S>>)
    requires BatchPath(cfg, db, apply, up, faults, dbs)
    ensures |RunBatch(cfg, db, apply, up, faults, |apply|).applied| == |dbs| - 1
  {
    hide RunIndividually;
    var last := |dbs| - 1;
    BatchAlongPath(cfg, db, apply, up, faults, dbs, last);
    AppliedIsPrefix(cfg, db, apply, up, faults, last);
    if last < |apply| {
      BatchAlongPath(cfg, db, apply, up, faults, dbs, last + 1);
      FailedBatchStops(cfg, db, apply, up, faults, last + 1);
    }
  }
}
