/** With out-of-order versions refused, the table never has a gap; with them allowed, DownTo can leave
    versions above its target (provider.go, internal/gooseutil/resolve.go). */
module NoGaps {
  import opened Wrappers
  import opened Versions
  import opened UpVersions
  import opened Migrator
  import opened Batches
  import opened Traces
  import opened SchemaReplay
  import opened Stepwise

  /** Version 0 followed by the first versions in ascending order. */
  ghost predicate Gapless<S>(cfg: Config<S>, rows: seq<int>) {
    var sorted := Sort(VersionsOf(cfg.migrations));
    0 < |rows| <= |sorted| + 1 && rows == [0] + sorted[..|rows| - 1]
  }

  ghost predicate GaplessTable<S>(cfg: Config<S>, db: Database<S>) {
    if db.created then Gapless(cfg, db.rows) else db.rows == []
  }

  lemma SortedVersions<S>(cfg: Config<S>)
    requires Numbered(cfg)
    ensures
      var sorted := Sort(VersionsOf(cfg.migrations));
      && Ascending(sorted) && Distinct(sorted)
      && (forall v :: v in sorted <==> v in VersionsOf(cfg.migrations))
      && forall v | v in sorted :: v > 0
  {
    hide Sort;
    var versions := VersionsOf(cfg.migrations);
    SortIsOrdered(versions);
    SortSameMembers(versions);
    SortDistinct(versions);
  }

  /** The least unrecorded version is the next one of the sorted list. */
  lemma LeastIsNext<S>(cfg: Config<S>, rows: seq<int>, v: int)
    requires Numbered(cfg) && Gapless(cfg, rows)
    requires v in VersionsOf(cfg.migrations) && v !in rows
    requires forall w | w in VersionsOf(cfg.migrations) :: w !in rows ==> v <= w
    ensures Gapless(cfg, rows + [v])
  {
    hide Sort, Numbered;
    var sorted := Sort(VersionsOf(cfg.migrations));
    var k := |rows| - 1;
    SortedVersions(cfg);
    var i :| 0 <= i < |sorted| && sorted[i] == v;
    forall j | 0 <= j < k ensures sorted[j] in rows {
      assert rows[j + 1] == sorted[j];
    }
    assert i >= k;
    assert sorted[k] in sorted;
    forall j | 0 <= j < |rows| ensures rows[j] != sorted[k] {
      assert j > 0 ==> rows[j] == sorted[j - 1];
    }
    assert sorted[k] in VersionsOf(cfg.migrations);
    assert sorted[k] == v;
    assert rows + [v] == [0] + sorted[..k + 1];
  }

  lemma StepKeepsGapless<S>(cfg: Config<S>, db: Database<S>, s: Step<S>)
    requires Numbered(cfg) && GaplessTable(cfg, db) && GoodTable(db)
    requires Allowed(cfg, db, s) && InOrder(cfg, db, s)
    ensures GaplessTable(cfg, Do(cfg, db, s))
  {
    hide RunIndividually, Sort;
    match s
    case CreateTable =>
    case Run(m, up, fault) =>
      RunKeepsTable(cfg, db, m, up, fault);
      if RunIndividually(cfg, db, m, up, fault).0 {
        if up {
          FindMeaning(cfg.migrations, m.version);
          LeastIsNext(cfg, db.rows, m.version);
        } else {
          MigrationIsPositive(cfg, m);
          RemoveLast(db.rows);
          assert db.rows[..|db.rows| - 1] == [0] + Sort(VersionsOf(cfg.migrations))[..|db.rows| - 2];
        }
      }
  }

  lemma {:induction false} TraceKeepsGapless<S>(cfg: Config<S>, db: Database<S>, steps: seq<Step<S>>)
    requires Numbered(cfg) && GaplessTable(cfg, db) && GoodTable(db)
    requires AllAllowed(cfg, db, steps) && AllInOrder(cfg, db, steps)
    ensures GaplessTable(cfg, DoAll(cfg, db, steps))
  {
    hide Numbered, GaplessTable, GoodTable, Allowed, InOrder, Do;
    if steps != [] {
      var front := steps[..|steps| - 1];
      TraceKeepsGapless(cfg, db, front);
      TraceKeepsTable(cfg, db, front);
      StepKeepsGapless(cfg, DoAll(cfg, db, front), steps[|steps| - 1]);
    }
  }

  lemma GaplessIsGood<S>(cfg: Config<S>, db: Database<S>)
    requires Numbered(cfg) && GaplessTable(cfg, db)
    ensures GoodTable(db)
  {
    hide Sort, Numbered;
    SortedVersions(cfg);
    if db.created {
      var sorted := Sort(VersionsOf(cfg.migrations));
      forall i | 0 < i < |db.rows| ensures db.rows[i] > 0 && db.rows[i] == sorted[i - 1] {
        assert sorted[i - 1] in sorted;
      }
    }
  }

  /** No gaps: from an untouched database, after any calls but ApplyVersion, partial failures
      included, the table is version 0 followed by an ascending prefix of the sorted migrations. Even
      allowing out-of-order versions opens no gap, as long as the migrations stay the same. */
  lemma {:induction false} TableIsGapless<S>(cfg: Config<S>, st: State<S>, ops: seq<Op>)
    requires Sound(cfg) && GaplessTable(cfg, st.db)
    requires forall op | op in ops :: !op.ApplyVersion?
    ensures GaplessTable(cfg, After(cfg, st, ops).db)
  {
    hide Numbered, GaplessTable, GoodTable, Exec;
    if ops != [] {
      var front, last := ops[..|ops| - 1], ops[|ops| - 1];
      assert last in ops;
      TableIsGapless(cfg, st, front);
      var before := After(cfg, st, front);
      GaplessIsGood(cfg, before.db);
      var steps := CallIsTrace(cfg, before, last);
      TraceKeepsGapless(cfg, before.db, steps);
    }
  }

  // ----- DownTo

  /** What a successful DownTo leaves: the rows up to the newest one at or below the target. */
  function UpToNewestAtMost(rows: seq<int>, target: int): seq<int> {
    rows[..|rows| - |DownPlan(rows, target)|]
  }

  lemma DownToLeaves<S>(cfg: Config<S>, st: State<S>, target: int, env: Env)
    requires Sound(cfg) && GoodTable(st.db) && st.db.created && cfg.migrations != [] && target >= 0
    requires Exec(cfg, st, DownTo(target, env)).0.Ok?
    ensures
      var (r, after) := Exec(cfg, st, DownTo(target, env));
      && r.value == DownPlan(st.db.rows, target)
      && after.db.rows == UpToNewestAtMost(st.db.rows, target)
  {
    hide RunMigrations, FindAll, Numbered, TryEnsure;
    EnsureIsTrace(cfg, st.db, env.attempts, 0);
    var next := Initialize(cfg, st, true, env).1;
    assert next.db == st.db;
    var rows := st.db.rows;
    if rows[|rows| - 1] == 0 {
      assert DownPlan(rows, target) == [];
      assert rows[..|rows|] == rows;
    } else {
      var plan := DownPlan(rows, target);
      DownPlanMeaning(rows, target);
      DownPlanIsNewestBatch(cfg, rows, target);
      FoundAreKnown(cfg, plan);
      RunMigrationsDown(cfg, next.db, FindAll(cfg.migrations, plan).value, false, env);
    }
  }

  /** A version above the target stands below a version at or below it. */
  ghost predicate Buried(rows: seq<int>, target: int) {
    exists i, j :: 0 <= i < j < |rows| && rows[i] > target && rows[j] <= target
  }

  /** A successful DownTo leaves exactly the recorded versions at or below its target if and only if
      no version above the target was recorded before one at or below it. */
  lemma DownToLeavesExactlyIff<S>(cfg: Config<S>, st: State<S>, target: int, env: Env)
    requires Sound(cfg) && GoodTable(st.db) && st.db.created && cfg.migrations != [] && target >= 0
    requires Exec(cfg, st, DownTo(target, env)).0.Ok?
    ensures
      var after := Exec(cfg, st, DownTo(target, env)).1;
      (forall v :: v in after.db.rows <==> v in st.db.rows && v <= target) <==> !Buried(st.db.rows, target)
  {
    hide Exec, Numbered, Distinct;
    DownToLeaves(cfg, st, target, env);
    var rows := st.db.rows;
    var left := UpToNewestAtMost(rows, target);
    var n := |rows| - |DownPlan(rows, target)|;
    DownPlanMeaning(rows, target);
    if !Buried(rows, target) {
      forall v ensures v in left <==> v in rows && v <= target {
        CutExactly(rows, target, n, v);
      }
    } else {
      var i, j :| 0 <= i < j < |rows| && rows[i] > target && rows[j] <= target;
      CutAbove(rows, target, j);
      assert left[i] == rows[i] && rows[i] in left;
    }
  }

  lemma {:induction false} CutAbove(rows: seq<int>, target: int, j: nat)
    requires j < |rows| && rows[j] <= target
    ensures j < |rows| - |DownPlan(rows, target)|
  {
    if rows[|rows| - 1] > target {
      CutAbove(rows[..|rows| - 1], target, j);
    }
  }

  lemma CutExactly(rows: seq<int>, target: int, n: nat, v: int)
    requires n <= |rows| && n == |rows| - |DownPlan(rows, target)|
    requires !Buried(rows, target)
    ensures v in rows[..n] <==> v in rows && v <= target
  {
    hide DownPlan;
    DownPlanMeaning(rows, target);
    if v in rows[..n] {
      var i :| 0 <= i < n && rows[..n][i] == v;
      assert rows[i] == v && rows[n - 1] <= target;
    }
    if v in rows && v <= target {
      var j :| 0 <= j < |rows| && rows[j] == v;
      CutAbove(rows, target, j);
      assert rows[..n][j] == v;
    }
  }

  /** A table without gaps buries nothing, so there DownTo leaves exactly the versions at or below
      its target. */
  lemma GaplessBuriesNothing<S>(cfg: Config<S>, rows: seq<int>, target: int)
    requires Numbered(cfg) && Gapless(cfg, rows)
    ensures target >= 0 ==> !Buried(rows, target)
  {
    hide Sort, Numbered;
    SortedVersions(cfg);
    var sorted := Sort(VersionsOf(cfg.migrations));
    if target >= 0 {
      forall i, j | 0 <= i < j < |rows| && rows[i] > target ensures rows[j] > target {
        assert rows[i] == sorted[i - 1] && rows[j] == sorted[j - 1];
      }
    }
  }

  /** So after any calls but ApplyVersion, partial failures included, a successful DownTo leaves exactly
      the applied versions at or below its target. */
  lemma DownToAfterAnyCalls<S>(cfg: Config<S>, st: State<S>, ops: seq<Op>, target: int, env: Env)
    requires Sound(cfg) && GaplessTable(cfg, st.db) && cfg.migrations != [] && target >= 0
    requires forall op | op in ops :: !op.ApplyVersion?
    requires After(cfg, st, ops).db.created && Exec(cfg, After(cfg, st, ops), DownTo(target, env)).0.Ok?
    ensures
      var before := After(cfg, st, ops);
      var after := Exec(cfg, before, DownTo(target, env)).1;
      forall v :: v in after.db.rows <==> v in before.db.rows && v <= target
  {
    hide Exec, After, Numbered, Gapless, Buried, GoodRows;
    var before := After(cfg, st, ops);
    TableIsGapless(cfg, st, ops);
    GaplessIsGood(cfg, before.db);
    DownToLeavesExactlyIff(cfg, before, target, env);
    GaplessBuriesNothing(cfg, before.db.rows, target);
  }

  lemma MissingPlan<S>(cfg: Config<S>, rows: seq<int>)
    requires Numbered(cfg) && VersionsOf(cfg.migrations) == [2, 3] && rows == [0, 3]
    ensures UpPlan(VersionsOf(cfg.migrations), rows, MAX_INT64, true) == Ok([2])
  {
    var versions := VersionsOf(cfg.migrations);
    assert UpPlan(versions, rows, MAX_INT64, true).Ok?;
    hide Numbered, UpPlan;
    VersionsArePositive(cfg);
    PlanMeaning(versions, rows, MAX_INT64, true);
    SameMembersSameList(UpPlan(versions, rows, MAX_INT64, true).value, [2]);
  }

  lemma UpAddsMissing<S>(cfg: Config<S>, st: State<S>)
    requires Numbered(cfg) && cfg.allowMissing && VersionsOf(cfg.migrations) == [2, 3]
    requires st.ensured && st.db.created && st.db.rows == [0, 3]
    requires Exec(cfg, st, Up(CLEAN, CLEAN)).0.Ok?
    ensures Exec(cfg, st, Up(CLEAN, CLEAN)).1.db.created
    ensures Exec(cfg, st, Up(CLEAN, CLEAN)).1.db.rows == [0, 3, 2]
  {
    hide Exec, Numbered, UpPlan, RunBatch, Unprepared, FindAll;
    CleanUp(cfg, st);
    MissingPlan(cfg, st.db.rows);
    FindAllMeaning(cfg.migrations, [2]);
    var apply := FindAll(cfg.migrations, [2]).value;
    UpBatchRows(cfg, st.db, apply, CLEAN.faults, |apply|);
    assert VersionsOf(apply)[..|apply|] == [2];
  }

  /** An out-of-order run that DownTo(2) does not take back: with 3 recorded, Up adds the missing 2
      after it, and DownTo(2) then finds 2 on top and stops with 3 still applied. */
  lemma DownToCanLeaveHigherVersions<S>(cfg: Config<S>, st: State<S>, env: Env)
    requires Sound(cfg) && cfg.allowMissing && VersionsOf(cfg.migrations) == [2, 3]
    requires st.ensured && st.db.created && st.db.rows == [0, 3]
    requires Exec(cfg, st, Up(CLEAN, CLEAN)).0.Ok?
    requires Exec(cfg, Exec(cfg, st, Up(CLEAN, CLEAN)).1, DownTo(2, env)).0.Ok?
    ensures Exec(cfg, st, Up(CLEAN, CLEAN)).1.db.rows == [0, 3, 2]
    ensures Exec(cfg, Exec(cfg, st, Up(CLEAN, CLEAN)).1, DownTo(2, env)).1.db.rows == [0, 3, 2]
  {
    hide Exec, Numbered;
    UpAddsMissing(cfg, st);
    var mid := Exec(cfg, st, Up(CLEAN, CLEAN)).1;
    DownToLeaves(cfg, mid, 2, env);
    assert DownPlan([0, 3, 2], 2) == [];
    assert [0, 3, 2][..3] == [0, 3, 2];
  }
}
