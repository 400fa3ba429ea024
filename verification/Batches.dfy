/** What a batch of migrations leaves behind when it stops early (provider_run.go, provider_errors.go),
    and which rows a downward batch removes. */
module Batches {
  import opened Wrappers
  import opened Versions
  import opened UpVersions
  import opened Migrator

  /** However a batch ends, what is listed as applied is its beginning, in order, and the failed
      migration is the next one. */
  lemma {:induction false} AppliedIsPrefix<S>(
    cfg: Config<S>, db: Database<S>, apply: seq<Migration<S>>, up: bool, faults: nat -> Fault, n: nat)
    requires n <= |apply|
    ensures
      var p := RunBatch(cfg, db, apply, up, faults, n);
      && |p.applied| <= n && p.applied == VersionsOf(apply)[..|p.applied|]
      && (p.failed.None? ==> |p.applied| == n)
      && (p.failed.Some? ==> |p.applied| < n && p.failed.value == apply[|p.applied|].version)
      && p.db.created == db.created
  {
    hide RunIndividually;
    if n > 0 {
      AppliedIsPrefix(cfg, db, apply, up, faults, n - 1);
      var before := RunBatch(cfg, db, apply, up, faults, n - 1);
      RunKeepsTable(cfg, before.db, apply[n - 1], up, faults(n - 1));
      assert VersionsOf(apply)[..n] == VersionsOf(apply)[..n - 1] + [apply[n - 1].version];
    }
  }

  lemma RunKeepsTable<S>(cfg: Config<S>, db: Database<S>, m: Migration<S>, up: bool, fault: Fault)
    ensures
      var (ok, after) := RunIndividually(cfg, db, m, up, fault);
      && after.created == db.created
      && after.rows == if ok then Record(db.rows, m.version, up) else db.rows
  {
  }

  /** Recording a list of versions, one after the other. */
  function RecordAll(rows: seq<int>, versions: seq<int>, up: bool): seq<int> {
    if versions == [] then rows
    else Record(RecordAll(rows, versions[..|versions| - 1], up), versions[|versions| - 1], up)
  }

  /** The version table changes by exactly the versions that are listed as applied. */
  lemma {:induction false} BatchRecordsApplied<S>(
    cfg: Config<S>, db: Database<S>, apply: seq<Migration<S>>, up: bool, faults: nat -> Fault, n: nat)
    requires n <= |apply|
    ensures
      var p := RunBatch(cfg, db, apply, up, faults, n);
      p.db.rows == RecordAll(db.rows, p.applied, up)
  {
    hide RunIndividually, Record;
    if n > 0 {
      BatchRecordsApplied(cfg, db, apply, up, faults, n - 1);
      var before := RunBatch(cfg, db, apply, up, faults, n - 1);
      RunKeepsTable(cfg, before.db, apply[n - 1], up, faults(n - 1));
      var v := apply[n - 1].version;
      assert (before.applied + [v])[..|before.applied|] == before.applied;
    }
  }

  /** A transactional migration that fails leaves no trace. */
  lemma FailureLeavesNoTrace<S>(cfg: Config<S>, db: Database<S>, m: Migration<S>, up: bool, fault: Fault)
    requires !cfg.isolateDDL && UseTx(m, up) == Some(true)
    requires !RunIndividually(cfg, db, m, up, fault).0
    ensures RunIndividually(cfg, db, m, up, fault).1 == db
  {
  }

  /** A migration outside a transaction whose version cannot be recorded has taken effect all the
      same. */
  lemma UnrecordedEffectsStay<S>(cfg: Config<S>, db: Database<S>, m: Migration<S>, up: bool)
    requires UseTx(m, up).Some? && (cfg.isolateDDL || UseTx(m, up) == Some(false))
    requires RunEffects(EffectsOf(m, up, false), RecordFails, db.schema).ok
    ensures
      var (ok, after) := RunIndividually(cfg, db, m, up, RecordFails);
      && !ok && after.rows == db.rows
      && after.schema == RunEffects(EffectsOf(m, up, false), NoFault, db.schema).schema
  {
    OtherFaultsPass(EffectsOf(m, up, false), RecordFails, db.schema, |EffectsOf(m, up, false)|);
  }

  /** Whether a migration runs in a transaction, which its error or an isolated DDL excludes. */
  predicate RunsInTx<S>(cfg: Config<S>, m: Migration<S>, up: bool) {
    UseTx(m, up) == Some(true) && !cfg.isolateDDL
  }

  /** However far its effects are run, they leave every schema as it was. */
  ghost predicate ChangesNothing<S(!new)>(effects: seq<Effect<S>>) {
    forall s: S, n: nat | n <= |effects| :: RunFirst(effects, NoFault, s, n).schema == s
  }

  /** Up to the statement that fails a run goes as one without faults, and then it stays. */
  lemma {:induction false} StatementFailureStops<S>(effects: seq<Effect<S>>, at: nat, s: S, n: nat)
    requires n <= |effects|
    ensures
      var k := if n <= at then n else at;
      && RunFirst(effects, StatementFails(at), s, n).schema == RunFirst(effects, NoFault, s, k).schema
      && (n > at ==> !RunFirst(effects, StatementFails(at), s, n).ok)
      && (n <= at ==> RunFirst(effects, StatementFails(at), s, n) == RunFirst(effects, NoFault, s, n))
  {
    if n > 0 {
      StatementFailureStops(effects, at, s, n - 1);
    }
  }

  /** Any other fault leaves the effects alone. */
  lemma {:induction false} OtherFaultsPass<S>(effects: seq<Effect<S>>, fault: Fault, s: S, n: nat)
    requires n <= |effects| && !fault.StatementFails?
    ensures RunFirst(effects, fault, s, n) == RunFirst(effects, NoFault, s, n)
  {
    if n > 0 {
      OtherFaultsPass(effects, fault, s, n - 1);
    }
  }

  /** A migration that fails leaves no trace, on any database and for any fault, if and only if it runs
      in a transaction, cannot be run at all, or changes nothing anyway. */
  lemma FailureLeavesNoTraceIff<S(!new)>(cfg: Config<S>, m: Migration<S>, up: bool)
    ensures
      (forall db: Database<S>, fault ::
         var (ok, after) := RunIndividually(cfg, db, m, up, fault);
         !ok ==> after == db)
      <==> UseTx(m, up).None? || RunsInTx(cfg, m, up) || ChangesNothing(EffectsOf(m, up, false))
  {
    hide RunFirst, EffectsOf, UseTx;
    var effects := EffectsOf(m, up, false);
    if UseTx(m, up).Some? && !RunsInTx(cfg, m, up) {
      if ChangesNothing(effects) {
        forall db: Database<S>, fault ensures RunEffects(effects, fault, db.schema).schema == db.schema {
          if fault.StatementFails? {
            StatementFailureStops(effects, fault.at, db.schema, |effects|);
          } else {
            OtherFaultsPass(effects, fault, db.schema, |effects|);
          }
        }
      } else {
        var s: S, n: nat :| n <= |effects| && RunFirst(effects, NoFault, s, n).schema != s;
        var db := Database(true, [], s);
        var fault := if n < |effects| then StatementFails(n) else RecordFails;
        if n < |effects| {
          StatementFailureStops(effects, n, s, |effects|);
        } else {
          OtherFaultsPass(effects, RecordFails, s, n);
        }
        assert !RunIndividually(cfg, db, m, up, fault).0 && RunIndividually(cfg, db, m, up, fault).1 != db;
      }
    }
  }

  /** The state in which a batch stops: the one its last successful migration left, if the failed one
      is transactional. */
  lemma {:induction false} BatchStopsAtLastSuccess<S>(
    cfg: Config<S>, db: Database<S>, apply: seq<Migration<S>>, up: bool, faults: nat -> Fault, n: nat)
    requires n <= |apply| && !cfg.isolateDDL
    requires forall i | 0 <= i < n :: UseTx(apply[i], up) == Some(true)
    ensures
      var p := RunBatch(cfg, db, apply, up, faults, n);
      |p.applied| <= n && p.db == RunBatch(cfg, db, apply, up, faults, |p.applied|).db
  {
    hide RunIndividually, UseTx;
    AppliedIsPrefix(cfg, db, apply, up, faults, n);
    if n > 0 {
      BatchStopsAtLastSuccess(cfg, db, apply, up, faults, n - 1);
      AppliedIsPrefix(cfg, db, apply, up, faults, n - 1);
      var before := RunBatch(cfg, db, apply, up, faults, n - 1);
      if before.failed.None? && RunBatch(cfg, db, apply, up, faults, n).failed.Some? {
        FailureLeavesNoTrace(cfg, before.db, apply[n - 1], up, faults(n - 1));
      }
    }
  }

  /** Partial failure of a call: if a migration cannot be prepared nothing has run; a PartialError
      lists the beginning of the batch and names the next migration, and exactly the listed versions
      have been recorded; if the migrations are transactional the database is as the listed ones
      alone have left it. */
  lemma PartialFailure<S>(
    cfg: Config<S>, db: Database<S>, migrations: seq<Migration<S>>, up: bool, byOne: bool, env: Env)
    ensures
      var (r, after) := RunMigrations(cfg, db, migrations, up, byOne, env);
      && (r.Err? && r.error.PrepareFailed? ==> after == db)
      && (r.Err? && r.error.PartialError? ==>
            var done := |r.error.applied|;
            && done < |migrations| && (byOne ==> done == 0)
            && r.error.applied == VersionsOf(migrations)[..done]
            && r.error.failed == migrations[done].version
            && after.rows == RecordAll(db.rows, r.error.applied, up)
            && (!cfg.isolateDDL && (forall m | m in migrations :: UseTx(m, up) == Some(true)) ==>
                  after == RunBatch(cfg, db, migrations, up, env.faults, done).db))
  {
    hide RunIndividually;
    if migrations != [] {
      var apply := if byOne then migrations[..1] else migrations;
      AppliedIsPrefix(cfg, db, apply, up, env.faults, |apply|);
      BatchRecordsApplied(cfg, db, apply, up, env.faults, |apply|);
      var p := RunBatch(cfg, db, apply, up, env.faults, |apply|);
      assert VersionsOf(apply) == VersionsOf(migrations)[..|apply|];
      if !cfg.isolateDDL && forall m | m in migrations :: UseTx(m, up) == Some(true) {
        BatchStopsAtLastSuccess(cfg, db, apply, up, env.faults, |apply|);
        BatchOfPrefix(cfg, db, migrations, |apply|, up, env.faults, |p.applied|);
        assert migrations[..|migrations|] == migrations;
      }
    }
  }

  /** All migrations of a call could be prepared and have been applied. */
  predicate Complete<S>(cfg: Config<S>, db: Database<S>, apply: seq<Migration<S>>, up: bool, env: Env) {
    Unprepared(cfg, apply, up).None? && RunBatch(cfg, db, apply, up, env.faults, |apply|).failed.None?
  }

  /** Which error follows which outcome: a refusal to prepare follows nothing, a PartialError part of the
      batch, and any other error the whole of it. A batch that has been applied to its end is reported
      as an error if and only if it is not a single step and the largest version cannot be read
      afterwards. */
  lemma CompleteBatchFailsIff<S>(
    cfg: Config<S>, db: Database<S>, migrations: seq<Migration<S>>, up: bool, byOne: bool, env: Env)
    requires migrations != []
    ensures
      var apply := if byOne then migrations[..1] else migrations;
      var (r, after) := RunMigrations(cfg, db, migrations, up, byOne, env);
      && (Complete(cfg, db, apply, up, env) <==> r.Ok? || !(r.error.PrepareFailed? || r.error.PartialError?))
      && (Complete(cfg, db, apply, up, env) ==>
            && after == RunBatch(cfg, db, apply, up, env.faults, |apply|).db
            && after.rows == RecordAll(db.rows, VersionsOf(apply), up)
            && (r.Err? <==> !byOne && (!env.maxes || !after.created || after.rows == []))
            && (r.Err? ==> r.error == StoreFailed || r.error == MissingZeroVersion))
  {
    hide RunBatch, Unprepared, RecordAll;
    var apply := if byOne then migrations[..1] else migrations;
    AppliedIsPrefix(cfg, db, apply, up, env.faults, |apply|);
    BatchRecordsApplied(cfg, db, apply, up, env.faults, |apply|);
    assert VersionsOf(apply)[..|apply|] == VersionsOf(apply);
  }

  lemma StartOfBatch<S>(cfg: Config<S>, db: Database<S>, apply: seq<Migration<S>>, up: bool, faults: nat -> Fault)
    ensures RunBatch(cfg, db, apply, up, faults, 0) == Progress([], None, db)
  {
  }

  lemma NextOfBatch<S>(
    cfg: Config<S>, db: Database<S>, apply: seq<Migration<S>>, up: bool, faults: nat -> Fault, k: nat)
    requires k < |apply| && RunBatch(cfg, db, apply, up, faults, k).failed.None?
    ensures
      var before := RunBatch(cfg, db, apply, up, faults, k);
      var (ok, after) := RunIndividually(cfg, before.db, apply[k], up, faults(k));
      RunBatch(cfg, db, apply, up, faults, k + 1) ==
      if ok then Progress(before.applied + [apply[k].version], None, after)
      else Progress(before.applied, Some(apply[k].version), after)
  {
    hide RunIndividually;
  }

  lemma FindAllNone<S>(migrations: seq<Migration<S>>)
    ensures FindAll(migrations, []) == Some([])
  {
  }

  lemma FindAllAppend<S>(migrations: seq<Migration<S>>, versions: seq<int>, v: int)
    requires FindAll(migrations, versions).Some?
    ensures FindAll(migrations, versions + [v]) ==
      match Find(migrations, v)
      case None => None
      case Some(m) => Some(FindAll(migrations, versions).value + [m])
  {
    hide Find;
    assert (versions + [v])[..|versions|] == versions;
  }

  lemma {:induction false} FailedBatchStops<S>(
    cfg: Config<S>, db: Database<S>, apply: seq<Migration<S>>, up: bool, faults: nat -> Fault, n: nat)
    requires n <= |apply| && RunBatch(cfg, db, apply, up, faults, n).failed.Some?
    ensures RunBatch(cfg, db, apply, up, faults, |apply|) == RunBatch(cfg, db, apply, up, faults, n)
    decreases |apply| - n
  {
    hide RunIndividually;
    if n < |apply| {
      FailedBatchStops(cfg, db, apply, up, faults, n + 1);
    }
  }

  lemma {:induction false} BatchOfPrefix<S>(
    cfg: Config<S>, db: Database<S>, apply: seq<Migration<S>>, k: nat, up: bool, faults: nat -> Fault, n: nat)
    requires n <= k <= |apply|
    ensures RunBatch(cfg, db, apply[..k], up, faults, n) == RunBatch(cfg, db, apply, up, faults, n)
  {
    hide RunIndividually;
    if n > 0 {
      BatchOfPrefix(cfg, db, apply, k, up, faults, n - 1);
    }
  }

  // ----- Rows

  lemma {:induction false} RecordAllUp(rows: seq<int>, versions: seq<int>)
    ensures RecordAll(rows, versions, true) == rows + versions
  {
    if versions == [] {
      assert rows + versions == rows;
    } else {
      RecordAllUp(rows, versions[..|versions| - 1]);
      assert versions == versions[..|versions| - 1] + [versions[|versions| - 1]];
    }
  }

  lemma {:induction false} RemoveAbsent(rows: seq<int>, v: int)
    requires v !in rows
    ensures RemoveVersion(rows, v) == rows
  {
    if rows != [] {
      var front, last := rows[..|rows| - 1], rows[|rows| - 1];
      assert rows == front + [last] && last in rows;
      RemoveAbsent(front, v);
    }
  }

  lemma RemoveLast(rows: seq<int>)
    requires rows != [] && Distinct(rows)
    ensures RemoveVersion(rows, rows[|rows| - 1]) == rows[..|rows| - 1]
  {
    RemoveAbsent(rows[..|rows| - 1], rows[|rows| - 1]);
  }

  /** The versions are the newest rows, newest first. */
  predicate Newest(rows: seq<int>, versions: seq<int>) {
    |versions| <= |rows| && forall i :: 0 <= i < |versions| ==> versions[i] == rows[|rows| - 1 - i]
  }

  lemma {:induction false} RecordAllDown(rows: seq<int>, versions: seq<int>)
    requires Distinct(rows) && Newest(rows, versions)
    ensures RecordAll(rows, versions, false) == rows[..|rows| - |versions|]
  {
    if versions == [] {
      assert rows[..|rows|] == rows;
    } else {
      var n := |versions| - 1;
      RecordAllDown(rows, versions[..n]);
      RemoveLast(rows[..|rows| - n]);
      assert rows[..|rows| - n][..|rows| - n - 1] == rows[..|rows| - n - 1];
    }
  }

  /** The rows after part of an upward batch: the applied versions have been appended. */
  lemma UpBatchRows<S>(cfg: Config<S>, db: Database<S>, apply: seq<Migration<S>>, faults: nat -> Fault, n: nat)
    requires n <= |apply|
    ensures
      var p := RunBatch(cfg, db, apply, true, faults, n);
      && p.db.created == db.created && p.db.rows == db.rows + p.applied
      && |p.applied| <= n && p.applied == VersionsOf(apply)[..|p.applied|]
      && (p.failed.None? ==> |p.applied| == n)
  {
    hide RunBatch, RecordAll;
    AppliedIsPrefix(cfg, db, apply, true, faults, n);
    BatchRecordsApplied(cfg, db, apply, true, faults, n);
    RecordAllUp(db.rows, RunBatch(cfg, db, apply, true, faults, n).applied);
  }

  /** The rows after part of a batch that rolls back the newest rows: the applied ones are gone. */
  lemma DownBatchRows<S>(cfg: Config<S>, db: Database<S>, apply: seq<Migration<S>>, faults: nat -> Fault, n: nat)
    requires n <= |apply| && Distinct(db.rows) && Newest(db.rows, VersionsOf(apply))
    ensures
      var p := RunBatch(cfg, db, apply, false, faults, n);
      && p.db.created == db.created && |p.applied| <= n <= |db.rows|
      && p.db.rows == db.rows[..|db.rows| - |p.applied|]
      && p.applied == VersionsOf(apply)[..|p.applied|]
      && (p.failed.None? ==> |p.applied| == n)
  {
    hide RunBatch, RecordAll;
    AppliedIsPrefix(cfg, db, apply, false, faults, n);
    BatchRecordsApplied(cfg, db, apply, false, faults, n);
    RecordAllDown(db.rows, RunBatch(cfg, db, apply, false, faults, n).applied);
  }

  /** The plan of a downward call takes the newest rows down to the first at or below the target. */
  lemma {:induction false} DownPlanMeaning(rows: seq<int>, target: int)
    ensures
      var plan := DownPlan(rows, target);
      && Newest(rows, plan)
      && (forall v | v in plan :: v > target)
      && (|plan| < |rows| ==> rows[|rows| - 1 - |plan|] <= target)
  {
    if !(rows == [] || rows[|rows| - 1] <= target) {
      DownPlanMeaning(rows[..|rows| - 1], target);
    }
  }

  lemma {:induction false} FindMeaning<S>(migrations: seq<Migration<S>>, v: int)
    ensures Find(migrations, v).Some? <==> v in VersionsOf(migrations)
    ensures Find(migrations, v).Some? ==>
              Find(migrations, v).value in migrations && Find(migrations, v).value.version == v
  {
    if migrations == [] {
    } else if migrations[0].version == v {
      assert VersionsOf(migrations)[0] == v;
    } else {
      FindMeaning(migrations[1..], v);
      assert VersionsOf(migrations) == [migrations[0].version] + VersionsOf(migrations[1..]);
    }
  }

  lemma {:induction false} FindsItself<S>(migrations: seq<Migration<S>>, m: Migration<S>)
    requires m in migrations && Distinct(VersionsOf(migrations))
    ensures Find(migrations, m.version) == Some(m)
  {
    var k :| 0 <= k < |migrations| && migrations[k] == m;
    var versions := VersionsOf(migrations);
    if k > 0 {
      assert versions[0] != versions[k];
      var rest := migrations[1..];
      assert rest[k - 1] == m;
      assert VersionsOf(rest) == versions[1..];
      FindsItself(rest, m);
    }
  }

  /** Looking versions up gives their migrations in the same order, unless one is unknown. */
  lemma {:induction false} FindAllMeaning<S>(migrations: seq<Migration<S>>, versions: seq<int>)
    ensures FindAll(migrations, versions).Some? <==> forall v | v in versions :: v in VersionsOf(migrations)
    ensures FindAll(migrations, versions).Some? ==>
      var found := FindAll(migrations, versions).value;
      && |found| == |versions|
      && VersionsOf(found) == versions
      && forall i | 0 <= i < |found| :: Find(migrations, versions[i]) == Some(found[i])
  {
    if versions != [] {
      var front, v := versions[..|versions| - 1], versions[|versions| - 1];
      FrontMembers(versions, front);
      FindAllMeaning(migrations, front);
      FindMeaning(migrations, v);
      if FindAll(migrations, versions).Some? {
        assert versions == front + [v];
      }
    }
  }
}
