/** The older rollback loop of DownToContext, which looks up the current version again in every round
    (down.go, migrate.go), does what the provider's precomputed plan does. */
module LegacyDown {
  import opened Wrappers
  import opened Versions
  import opened UpVersions
  import opened Migrator
  import opened Batches
  import opened Traces

  /** A row of the version table as the older code reads it. */
  datatype Row = Row(version: int, isApplied: bool)

  datatype LegacyError = NoAppliedVersion | NoCurrentVersion | DownFailed(version: int)

  /** The newest row of its version, and an applied one. */
  ghost predicate Current(rows: seq<Row>, i: int) {
    0 <= i < |rows| && rows[i].isApplied && forall j :: i < j < |rows| ==> rows[j].version != rows[i].version
  }

  class LegacyStore<S> {
    var rows: seq<Row>  // in insertion order
    var schema: S

    constructor (rows: seq<Row>, schema: S)
      ensures this.rows == rows && this.schema == schema
    {
      this.rows, this.schema := rows, schema;
    }

    /** EnsureDBVersionContext on an existing table: the version of the newest applied row whose
        version has no newer row. */
    method EnsureDBVersion() returns (r: Result<int, LegacyError>)
      ensures r.Ok? ==> exists i :: Current(rows, i) && r.value == rows[i].version && forall j :: i < j ==> !Current(rows, j)
      ensures r.Err? ==> r.error == NoAppliedVersion && forall i :: !Current(rows, i)
    {
      var skipLookup: set<int> := {};
      var k := |rows|;
      while k > 0
        invariant 0 <= k <= |rows|
        invariant forall v :: v in skipLookup <==> exists j :: k <= j < |rows| && rows[j].version == v
        invariant forall j :: k <= j ==> !Current(rows, j)
      {
        k := k - 1;
        var m := rows[k];
        if m.version in skipLookup {
          continue;
        }
        if m.isApplied {
          assert Current(rows, k);
          return Ok(m.version);
        }
        skipLookup := skipLookup + {m.version};
      }
      return Err(NoAppliedVersion);
    }

    /** Deletes every row of a version. */
    method DeleteVersion(version: int)
      modifies this`rows
      ensures rows == WithoutVersion(old(rows), version)
    {
      rows := WithoutVersion(rows, version);
    }
  }

  function WithoutVersion(rows: seq<Row>, version: int): seq<Row> {
    if rows == [] then []
    else
      WithoutVersion(rows[..|rows| - 1], version) +
      if rows[|rows| - 1].version == version then [] else [rows[|rows| - 1]]
  }

  /** The rows that the provider writes: all applied. */
  function Applied(versions: seq<int>): (rows: seq<Row>)
    ensures |rows| == |versions| && forall i :: 0 <= i < |rows| ==> rows[i] == Row(versions[i], true)
  {
    seq(|versions|, i requires 0 <= i < |versions| => Row(versions[i], true))
  }

  lemma {:induction false} WithoutVersionOfApplied(versions: seq<int>, v: int)
    ensures WithoutVersion(Applied(versions), v) == Applied(RemoveVersion(versions, v))
  {
    if versions != [] {
      var front := versions[..|versions| - 1];
      WithoutVersionOfApplied(front, v);
      assert Applied(versions)[..|versions| - 1] == Applied(front);
    }
  }

  /** The table of a provider as the older code sees it. */
  ghost predicate Shows<S>(store: LegacyStore<S>, db: Database<S>)
    reads store
  {
    store.rows == Applied(db.rows) && store.schema == db.schema
  }

  // ----- What the older code runs

  /** A migration as the older code runs it downwards: it parses a file in that direction alone, and it
      chooses transaction and function of a Go migration by the one flag for both directions. */
  function AsOlder<S>(m: Migration<S>): Migration<S> {
    match m.body
    case SqlBody(_, downParses, useTx, up, down) =>
      Migration(m.version, SqlBody(downParses, downParses, useTx, up, down))
    case GoBody(goUp, goDown, olderTx) =>
      var mode := if olderTx then TransactionEnabled else TransactionDisabled;
      Migration(m.version, GoBody(goUp.(mode := mode), goDown.(mode := mode), olderTx))
  }

  function AllAsOlder<S>(migrations: seq<Migration<S>>): (r: seq<Migration<S>>)
    ensures |r| == |migrations| && forall i :: 0 <= i < |r| ==> r[i] == AsOlder(migrations[i])
  {
    seq(|migrations|, i requires 0 <= i < |migrations| => AsOlder(migrations[i]))
  }

  /** The older code as an engine: it runs these migrations and knows neither options nor locks. */
  function OlderEngine<S>(migrations: seq<Migration<S>>): Config<S> {
    Config(AllAsOlder(migrations), false, false, false, false)
  }

  lemma {:induction false} FindAsOlder<S>(migrations: seq<Migration<S>>, v: int)
    ensures Find(AllAsOlder(migrations), v) ==
      match Find(migrations, v)
      case None => None
      case Some(m) => Some(AsOlder(m))
  {
    if migrations != [] {
      FindAsOlder(migrations[1..], v);
      assert AllAsOlder(migrations)[1..] == AllAsOlder(migrations[1..]);
    }
  }

  // ----- The source

  /** Migration.Down for one migration: run it and delete its version. */
  method RunDown<S>(store: LegacyStore<S>, migrations: seq<Migration<S>>, m: Migration<S>, fault: Fault,
                    ghost db: Database<S>)
    returns (ok: bool)
    requires Shows(store, db)
    modifies store
    ensures
      var (succeeds, after) := RunIndividually(OlderEngine(migrations), db, AsOlder(m), false, fault);
      ok == succeeds && Shows(store, after)
  {
    var inTx: bool, effects: seq<Effect<S>>;
    match m.body {
      case SqlBody(_, downParses, useTx, _, down) =>
        if !downParses {
          return false;
        }
        inTx, effects := useTx, down;
      case GoBody(_, goDown, olderTx) =>
        var fn := if olderTx then goDown.runTx else goDown.runDB;
        inTx, effects := olderTx, if fn.Some? then [fn.value] else [];
    }
    var ran := RunEffects(effects, fault, store.schema);
    WithoutVersionOfApplied(db.rows, m.version);
    if inTx {
      if !ran.ok || fault == BeginFails || fault == RecordFails || fault == CommitFails {
        return false;
      }
      store.schema := ran.schema;
      store.DeleteVersion(m.version);
      return true;
    }
    store.schema := ran.schema;
    if !ran.ok || fault == RecordFails {
      return false;
    }
    store.DeleteVersion(m.version);
    return true;
  }

  datatype Round = Stop | RolledBack(version: int) | Failed(error: LegacyError)

  /** Version 0 is never rolled back, whatever the target. */
  function Floor(target: int): nat {
    if target < 0 then 0 else target
  }

  /** What DownToContext comes to, with the provider's names for failures: the provider's precomputed
      plan, each migration as the older code runs it. */
  function OlderDownTo<S>(migrations: seq<Migration<S>>, db: Database<S>, version: nat, faults: nat -> Fault)
    : (Result<seq<int>, Failure>, Database<S>)
  {
    match FindAll(AllAsOlder(migrations), DownPlan(db.rows, version))
    case None => (Err(VersionNotFound), db)
    case Some(apply) =>
      var p := RunBatch(OlderEngine(migrations), db, apply, false, faults, |apply|);
      (if p.failed.None? then Ok(p.applied) else Err(PartialError(p.applied, p.failed.value)), p.db)
  }

  /** One round: find the current version, stop at the target, roll back one migration. */
  method RollBackOnce<S>(store: LegacyStore<S>, migrations: seq<Migration<S>>, version: int, fault: Fault,
                         ghost db: Database<S>)
    returns (round: Round)
    requires Shows(store, db) && GoodRows(db.rows)
    requires forall v | v in db.rows :: v > 0 ==> Find(AllAsOlder(migrations), v).Some?
    modifies store
    ensures
      var last := db.rows[|db.rows| - 1];
      if last <= Floor(version) then round == Stop && Shows(store, db)
      else
        && last in db.rows && last > 0
        && var m := Find(AllAsOlder(migrations), last).value;
           var (ok, after) := RunIndividually(OlderEngine(migrations), db, m, false, fault);
           && Shows(store, after) && round == if ok then RolledBack(last) else Failed(DownFailed(last))
  {
    hide RunIndividually, Distinct, AsOlder, AllAsOlder, OlderEngine;
    var current := store.EnsureDBVersion();
    NewestIsCurrent(db.rows);
    var last := |db.rows| - 1;
    assert db.rows[last] in db.rows;
    assert Current(store.rows, last);
    if current.Err? {
      return Failed(NoAppliedVersion);
    }
    if current.value == 0 {
      return Stop;
    }
    var m := Find(migrations, current.value);
    FindAsOlder(migrations, current.value);
    if m.None? {
      return Failed(NoCurrentVersion);
    }
    FindMeaning(migrations, current.value);
    if m.value.version <= version {
      return Stop;
    }
    var ok := RunDown(store, migrations, m.value, fault, db);
    return if ok then RolledBack(m.value.version) else Failed(DownFailed(m.value.version));
  }

  /** The loop of DownToContext ends, and on a table of distinct applied rows whose migrations exist
      it runs the provider's precomputed plan: the same rows, newest first, each as the older code runs
      it, up to the first failure. */
  method DownToContext<S>(store: LegacyStore<S>, migrations: seq<Migration<S>>, version: int, faults: nat -> Fault,
                          ghost db: Database<S>)
    returns (rolledBack: seq<int>, err: Option<LegacyError>)
    requires Shows(store, db) && GoodRows(db.rows)
    requires forall v | v in db.rows :: v > 0 ==> Find(AllAsOlder(migrations), v).Some?
    modifies store
    ensures
      var (r, after) := OlderDownTo(migrations, db, Floor(version), faults);
      && Shows(store, after)
      && (err.Some? ==> err.value.DownFailed?)
      && r == if err.None? then Ok(rolledBack) else Err(PartialError(rolledBack, err.value.version))
  {
    hide RunBatch, FindAll, DownPlan, RunIndividually, GoodRows, AllAsOlder, AsOlder, Shows, Find;
    ghost var cfg, target := OlderEngine(migrations), Floor(version);
    ghost var plan := DownPlan(db.rows, target);
    PlanIsKnown(cfg, db.rows, target);
    ghost var apply := FindAll(cfg.migrations, plan).value;
    rolledBack := [];
    ghost var here := db;
    StartOfBatch(cfg, db, apply, false, faults);
    assert db.rows[..|db.rows|] == db.rows;
    while true
      invariant |rolledBack| <= |plan| == |apply|
      invariant RunBatch(cfg, db, apply, false, faults, |rolledBack|) == Progress(rolledBack, None, here)
      invariant Shows(store, here) && here.rows == db.rows[..|db.rows| - |rolledBack|]
      decreases |plan| - |rolledBack|
    {
      ghost var k := |rolledBack|;
      PlanStep(cfg, db.rows, target, k);
      var round := RollBackOnce(store, migrations, version, faults(|rolledBack|), here);
      match round {
        case Stop =>
          return rolledBack, None;
        case Failed(e) =>
          NextOfBatch(cfg, db, apply, false, faults, k);
          FailedBatchStops(cfg, db, apply, false, faults, k + 1);
          return rolledBack, Some(e);
        case RolledBack(v) =>
          NextOfBatch(cfg, db, apply, false, faults, k);
          rolledBack := rolledBack + [v];
          here := RunIndividually(cfg, here, apply[k], false, faults(k)).1;
          RowsAfter(cfg, db, target, apply, faults, k + 1);
      }
    }
  }

  lemma RowsAfter<S>(cfg: Config<S>, db: Database<S>, target: int, apply: seq<Migration<S>>, faults: nat -> Fault, n: nat)
    requires n <= |apply| && GoodRows(db.rows) && VersionsOf(apply) == DownPlan(db.rows, target)
    requires RunBatch(cfg, db, apply, false, faults, n).failed.None?
    ensures RunBatch(cfg, db, apply, false, faults, n).db.rows == db.rows[..|db.rows| - n]
  {
    DownPlanMeaning(db.rows, target);
    DownBatchRows(cfg, db, apply, faults, n);
  }

  lemma PlanIsKnown<S>(cfg: Config<S>, rows: seq<int>, target: int)
    requires target >= 0 && forall v | v in rows :: v > 0 ==> Find(cfg.migrations, v).Some?
    ensures FindAll(cfg.migrations, DownPlan(rows, target)).Some?
    ensures |FindAll(cfg.migrations, DownPlan(rows, target)).value| == |DownPlan(rows, target)|
    ensures VersionsOf(FindAll(cfg.migrations, DownPlan(rows, target)).value) == DownPlan(rows, target)
  {
    hide FindAll, DownPlan;
    DownPlanMeaning(rows, target);
    var plan := DownPlan(rows, target);
    FindAllMeaning(cfg.migrations, plan);
    forall v | v in plan ensures v in VersionsOf(cfg.migrations) {
      var i :| 0 <= i < |plan| && plan[i] == v;
      assert v == rows[|rows| - 1 - i] && v in rows;
      FindMeaning(cfg.migrations, v);
    }
  }

  /** What the plan says about the table after k rollbacks: either it is not finished and its next
      migration is that of the newest row, or it is finished and the newest row is at the target. */
  lemma PlanStep<S>(cfg: Config<S>, rows: seq<int>, target: int, k: nat)
    requires target >= 0 && GoodRows(rows) && k <= |DownPlan(rows, target)|
    requires FindAll(cfg.migrations, DownPlan(rows, target)).Some?
    ensures k < |rows| && GoodRows(rows[..|rows| - k])
    ensures forall v | v in rows[..|rows| - k] :: v in rows
    ensures rows[|rows| - 1 - k] > target <==> k < |DownPlan(rows, target)|
    ensures k < |DownPlan(rows, target)| ==>
              && |FindAll(cfg.migrations, DownPlan(rows, target)).value| == |DownPlan(rows, target)|
              && Find(cfg.migrations, rows[|rows| - 1 - k]) == Some(FindAll(cfg.migrations, DownPlan(rows, target)).value[k])
              && FindAll(cfg.migrations, DownPlan(rows, target)).value[k].version == rows[|rows| - 1 - k]
  {
    hide DownPlan, FindAll, Find;
    DownPlanMeaning(rows, target);
    var plan := DownPlan(rows, target);
    FindAllMeaning(cfg.migrations, plan);
    if k < |plan| {
      assert plan[k] in plan;
      FindMeaning(cfg.migrations, plan[k]);
    }
    assert plan == [] || plan[|plan| - 1] in plan;
  }

  lemma NewestIsCurrent(rows: seq<int>)
    requires GoodRows(rows)
    ensures forall i :: Current(Applied(rows), i) <==> 0 <= i < |rows|
  {
    hide Applied;
  }
}
