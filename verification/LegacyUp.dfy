/** The older planner of UpToContext (up.go, migrate.go) and its agreement with UpVersions. */
module LegacyUp {
  import opened Wrappers
  import opened Versions
  import opened UpVersions

  datatype LegacyError = NoMigrationFiles | NoNextVersion | FoundMissing(versions: seq<int>)

  predicate VersionFilter(v: int, current: int, target: int) {
    if target > current then current < v <= target
    else if target < current then target < v <= current
    else false
  }

  function Within(versions: seq<int>, target: int): seq<int> {
    if versions == [] then []
    else
      var v := versions[|versions| - 1];
      Within(versions[..|versions| - 1], target) + if VersionFilter(v, 0, target) then [v] else []
  }

  /** CollectMigrations: the migrations up to the target, sorted. */
  method CollectMigrations(files: seq<int>, target: int) returns (found: seq<int>)
    ensures found == Sort(Within(files, target))
  {
    var migrations: seq<int> := [];
    for i := 0 to |files|
      invariant migrations == Within(files[..i], target)
    {
      assert files[..i + 1][..i] == files[..i];
      if VersionFilter(files[i], 0, target) {
        migrations := migrations + [files[i]];
      }
    }
    assert files[..|files|] == files;
    return Sort(migrations);
  }

  method FindMissingMigrations(known: seq<int>, newMigrations: seq<int>, dbMaxVersion: int) returns (missing: seq<int>)
    ensures missing == Sort(Below(newMigrations, known, dbMaxVersion))
  {
    missing := [];
    for i := 0 to |newMigrations|
      invariant missing == Below(newMigrations[..i], known, dbMaxVersion)
    {
      assert newMigrations[..i + 1][..i] == newMigrations[..i];
      if newMigrations[i] !in known && newMigrations[i] < dbMaxVersion {
        missing := missing + [newMigrations[i]];
      }
    }
    assert newMigrations[..|newMigrations|] == newMigrations;
    missing := Sort(missing);
  }

  function Below(versions: seq<int>, known: seq<int>, dbMaxVersion: int): seq<int> {
    if versions == [] then []
    else
      var v := versions[|versions| - 1];
      Below(versions[..|versions| - 1], known, dbMaxVersion) + if v !in known && v < dbMaxVersion then [v] else []
  }

  /** The plan of UpToContext: collect, look for missing migrations, append the new ones. It is the
      plan of UpVersions, and it fails for the same missing versions. */
  method PlanUpTo(files: seq<int>, dbMigrations: seq<int>, version: int, allowMissing: bool)
    returns (r: Result<seq<int>, LegacyError>)
    requires forall v | v in files :: v > 0
    requires forall v | v in dbMigrations :: v >= 0
    ensures
      if Within(files, version) == [] then r == Err(NoMigrationFiles)
      else if dbMigrations == [] then r == Err(NoNextVersion)
      else match UpPlan(files, dbMigrations, version, allowMissing)
           case Ok(plan) => r == Ok(plan)
           case Err(missing) => r == Err(FoundMissing(missing))
  {
    hide Ascending, Sort, DbMax, Missing, Pending, Within, Below;
    SortSameMembers(Within(files, version));
    var foundMigrations := CollectMigrations(files, version);
    if |foundMigrations| == 0 {
      return Err(NoMigrationFiles);
    }
    if |dbMigrations| == 0 {
      return Err(NoNextVersion);
    }
    SortSameMembers(dbMigrations);
    var all := Sort(dbMigrations);
    var dbMaxVersion := all[|all| - 1];
    LastIsMax(dbMigrations);
    var missing := FindMissingMigrations(all, foundMigrations, dbMaxVersion);
    PlansAgree(files, dbMigrations, all, version);
    if |missing| > 0 && !allowMissing {
      return Err(FoundMissing(missing));
    }
    var migrationsToApply: seq<int> := if allowMissing then missing else [];
    ghost var before := migrationsToApply;
    for i := 0 to |foundMigrations|
      invariant migrationsToApply == before + Newer(foundMigrations[..i], dbMigrations, version)
    {
      var v := foundMigrations[i];
      NewerAppend(foundMigrations[..i], v, dbMigrations, version);
      assert foundMigrations[..i + 1] == foundMigrations[..i] + [v];
      if v in all {
        continue;
      }
      if v > dbMaxVersion && v <= version {
        migrationsToApply := migrationsToApply + [v];
      }
    }
    assert foundMigrations[..|foundMigrations|] == foundMigrations;
    return Ok(migrationsToApply);
  }

  lemma NewerAppend(versions: seq<int>, v: int, db: seq<int>, target: int)
    ensures Newer(versions + [v], db, target) ==
            Newer(versions, db, target) + if v !in db && v > DbMax(db) && v <= target then [v] else []
  {
    assert (versions + [v])[..|versions|] == versions;
  }

  lemma LastIsMax(db: seq<int>)
    requires db != [] && forall v | v in db :: v >= 0
    ensures |Sort(db)| > 0 && Sort(db)[|Sort(db)| - 1] == DbMax(db)
  {
    hide Ascending, Sort, DbMax;
    SortSameMembers(db);
    SortIsOrdered(db);
    var last := Sort(db)[|Sort(db)| - 1];
    assert last in db;
    if DbMax(db) in db {
      LastIsLargest(Sort(db), DbMax(db));
    }
  }

  /** On the migrations found, both planners see the same missing and the same new versions. */
  lemma PlansAgree(files: seq<int>, db: seq<int>, all: seq<int>, target: int)
    requires forall v | v in files :: v > 0
    requires forall v :: v in all <==> v in db
    ensures
      var found := Sort(Within(files, target));
      && Sort(Below(found, all, DbMax(db))) == Missing(Sort(files), db, target)
      && Missing(Sort(files), db, target) + Newer(found, db, target) == Pending(Sort(files), db, target)
  {
    hide Ascending, Sort, DbMax, Missing, Newer, Pending, Within, Below;
    var sorted := Sort(files);
    SortIsOrdered(files);
    SortSameMembers(files);
    SortCommutesWithFilter(files, target);
    WithinIrrelevant(sorted, db, all, target);
    MissingThenNewer(sorted, db, target);
    MissingIsAscending(sorted, db, target);
    SortedIsFixed(Missing(sorted, db, target));
  }

  lemma {:induction false} WithinIrrelevant(versions: seq<int>, db: seq<int>, all: seq<int>, target: int)
    requires forall v | v in versions :: v > 0
    requires forall v :: v in all <==> v in db
    ensures Below(Within(versions, target), all, DbMax(db)) == Missing(versions, db, target)
    ensures Newer(Within(versions, target), db, target) == Newer(versions, db, target)
  {
    hide DbMax;
    if versions != [] {
      var front, v := versions[..|versions| - 1], versions[|versions| - 1];
      FrontMembers(versions, front);
      assert v in versions;
      WithinIrrelevant(front, db, all, target);
      var kept := Within(front, target);
      assert (kept + [v])[..|kept|] == kept;
      assert kept + [] == kept;
    }
  }

  lemma {:induction false} MissingIsAscending(versions: seq<int>, db: seq<int>, target: int)
    requires Ascending(versions)
    ensures Ascending(Missing(versions, db, target))
  {
    hide Ascending, DbMax;
    if versions == [] {
      EmptyAscending();
    } else {
      var front := versions[..|versions| - 1];
      FrontAscending(versions, front);
      MissingIsAscending(front, db, target);
      MissingIn(front, db, target);
      AppendAscending(Missing(front, db, target), versions[|versions| - 1]);
      assert Missing(front, db, target) + [] == Missing(front, db, target);
    }
  }

  lemma SortCommutesWithFilter(versions: seq<int>, target: int)
    ensures Sort(Within(versions, target)) == Within(Sort(versions), target)
  {
    hide Ascending, Sort, Within;
    SortIsOrdered(versions);
    SortIsOrdered(Within(versions, target));
    WithinMembers(versions, target);
    WithinMembers(Sort(versions), target);
    WithinIsAscending(Sort(versions), target);
    assert multiset(Within(versions, target)) == multiset(Within(Sort(versions), target)) by {
      forall v ensures multiset(Within(versions, target))[v] == multiset(Within(Sort(versions), target))[v] {
      }
    }
    AscendingIsUnique(Sort(Within(versions, target)), Within(Sort(versions), target));
  }

  lemma {:induction false} WithinMembers(versions: seq<int>, target: int)
    ensures forall v :: multiset(Within(versions, target))[v] ==
                        if VersionFilter(v, 0, target) then multiset(versions)[v] else 0
  {
    if versions != [] {
      FrontMembers(versions, versions[..|versions| - 1]);
      WithinMembers(versions[..|versions| - 1], target);
    }
  }

  lemma {:induction false} WithinIsAscending(versions: seq<int>, target: int)
    requires Ascending(versions)
    ensures Ascending(Within(versions, target))
    ensures forall v | v in Within(versions, target) :: v in versions
  {
    hide Ascending;
    if versions == [] {
      EmptyAscending();
    } else {
      var front := versions[..|versions| - 1];
      FrontAscending(versions, front);
      FrontMembers(versions, front);
      WithinIsAscending(front, target);
      AppendAscending(Within(front, target), versions[|versions| - 1]);
      assert Within(front, target) + [] == Within(front, target);
    }
  }
}
