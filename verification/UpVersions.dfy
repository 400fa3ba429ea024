/** Which versions to apply: UpVersions (internal/gooseutil/resolve.go). */
module UpVersions {
  import opened Wrappers
  import opened Versions

  /** The largest version in the database, but never less than zero. */
  function DbMax(db: seq<int>): (m: int)
    ensures m >= 0
    ensures forall v | v in db :: v <= m
    ensures m == 0 || m in db
  {
    if db == [] then 0
    else
      var m, v := DbMax(db[..|db| - 1]), db[|db| - 1];
      assert db == db[..|db| - 1] + [v];
      if v > m then v else m
  }

  /** The unapplied versions of a list below the maximum of the database. */
  function Missing(versions: seq<int>, db: seq<int>, target: int): seq<int> {
    if versions == [] then []
    else
      var v := versions[|versions| - 1];
      Missing(versions[..|versions| - 1], db, target) +
      if v !in db && v < DbMax(db) && v <= target then [v] else []
  }

  /** The unapplied versions of a list above the maximum of the database. */
  function Newer(versions: seq<int>, db: seq<int>, target: int): seq<int> {
    if versions == [] then []
    else
      var v := versions[|versions| - 1];
      Newer(versions[..|versions| - 1], db, target) +
      if v !in db && v > DbMax(db) && v <= target then [v] else []
  }

  /** All unapplied versions of a list up to the target. A version that equals the maximum has been
      applied, unless it is the zero that stands for the maximum of no versions at all. */
  function Pending(versions: seq<int>, db: seq<int>, target: int): seq<int> {
    if versions == [] then []
    else
      var v := versions[|versions| - 1];
      Pending(versions[..|versions| - 1], db, target) +
      if v !in db && v != DbMax(db) && v <= target then [v] else []
  }

  /** The plan, or the missing versions that stand in its way. */
  function UpPlan(fsys: seq<int>, db: seq<int>, target: int, allowMissing: bool): Result<seq<int>, seq<int>> {
    var missing := Missing(Sort(fsys), db, target);
    if missing != [] && !allowMissing then Err(missing)
    else Ok(Pending(Sort(fsys), db, target))
  }

  /** The map of applied versions and the largest of them. */
  method LookupApplied(dbVersions: seq<int>) returns (applied: map<int, bool>, dbMaxVersion: int)
    ensures forall v :: v in applied <==> v in dbVersions
    ensures forall v | v in applied :: applied[v]
    ensures dbMaxVersion == DbMax(dbVersions)
  {
    applied, dbMaxVersion := map[], 0;
    for i := 0 to |dbVersions|
      invariant forall v :: v in applied <==> v in dbVersions[..i]
      invariant forall v | v in applied :: applied[v]
      invariant dbMaxVersion == DbMax(dbVersions[..i])
    {
      assert dbVersions[..i + 1][..i] == dbVersions[..i];
      applied := applied[dbVersions[i] := true];
      if dbVersions[i] > dbMaxVersion {
        dbMaxVersion := dbVersions[i];
      }
    }
    assert dbVersions[..|dbVersions|] == dbVersions;
  }

  /** The loop over the sorted versions that collects the missing ones. */
  method CollectMissing(versions: array<int>, applied: map<int, bool>, dbMaxVersion: int, target: int,
                        ghost db: seq<int>)
    returns (missing: seq<int>)
    requires forall v :: v in applied <==> v in db
    requires forall v | v in applied :: applied[v]
    requires dbMaxVersion == DbMax(db)
    ensures missing == Missing(versions[..], db, target)
  {
    hide DbMax;
    missing := [];
    for i := 0 to versions.Length
      invariant missing == Missing(versions[..i], db, target)
    {
      var v := versions[i];
      assert versions[..i + 1][..i] == versions[..i];
      if v in applied && applied[v] {
        continue;
      }
      if v < dbMaxVersion && v <= target {
        missing := missing + [v];
      }
    }
    assert versions[..versions.Length] == versions[..];
  }

  /** The loop over the sorted versions that appends the new ones. */
  method AppendNewer(out: seq<int>, versions: array<int>, applied: map<int, bool>, dbMaxVersion: int, target: int,
                     ghost db: seq<int>)
    returns (all: seq<int>)
    requires forall v :: v in applied <==> v in db
    requires forall v | v in applied :: applied[v]
    requires dbMaxVersion == DbMax(db)
    ensures all == out + Newer(versions[..], db, target)
  {
    hide DbMax;
    all := out;
    for i := 0 to versions.Length
      invariant all == out + Newer(versions[..i], db, target)
    {
      var v := versions[i];
      assert versions[..i + 1][..i] == versions[..i];
      if v in applied && applied[v] {
        continue;
      }
      if v > dbMaxVersion && v <= target {
        all := all + [v];
      }
    }
    assert versions[..versions.Length] == versions[..];
  }

  /** UpVersions: sort the versions, look up what is applied, collect the missing versions and then
      the new ones, and sort once more. */
  method ResolveUpVersions(fsysVersions: array<int>, dbVersions: seq<int>, target: int, allowMissing: bool)
    returns (r: Result<seq<int>, seq<int>>)
    modifies fsysVersions
    ensures fsysVersions[..] == Sort(old(fsysVersions[..]))
    ensures r == UpPlan(old(fsysVersions[..]), dbVersions, target, allowMissing)
  {
    hide Ascending, Sort, DbMax, Missing, Newer, Pending;
    SortSameMembers(fsysVersions[..]);
    SortIsOrdered(fsysVersions[..]);
    SortInPlace(fsysVersions);
    ghost var sorted := fsysVersions[..];
    var applied, dbMaxVersion := LookupApplied(dbVersions);
    var missing := CollectMissing(fsysVersions, applied, dbMaxVersion, target, dbVersions);
    if |missing| > 0 && !allowMissing {
      return Err(missing);
    }
    var out := AppendNewer(missing, fsysVersions, applied, dbMaxVersion, target, dbVersions);
    MissingThenNewer(sorted, dbVersions, target);
    PendingIsAscending(sorted, dbVersions, target);
    SortedIsFixed(out);
    return Ok(Sort(out));
  }

  /** In an ascending list the missing versions stand before the new ones, so the last sort of the
      source has nothing to do. */
  lemma {:induction false} MissingThenNewer(versions: seq<int>, db: seq<int>, target: int)
    requires Ascending(versions)
    ensures Missing(versions, db, target) + Newer(versions, db, target) == Pending(versions, db, target)
  {
    hide Ascending, DbMax;
    if versions != [] {
      var front, v := versions[..|versions| - 1], versions[|versions| - 1];
      FrontAscending(versions, front);
      FrontMembers(versions, front);
      MissingThenNewer(front, db, target);
      if v < DbMax(db) {
        NothingNewer(front, db, target);
      }
    }
  }

  lemma {:induction false} NothingNewer(versions: seq<int>, db: seq<int>, target: int)
    requires forall v | v in versions :: v < DbMax(db)
    ensures Newer(versions, db, target) == []
  {
    if versions != [] {
      FrontMembers(versions, versions[..|versions| - 1]);
      assert versions[|versions| - 1] in versions;
      NothingNewer(versions[..|versions| - 1], db, target);
    }
  }

  lemma {:induction false} PendingMembers(versions: seq<int>, db: seq<int>, target: int)
    requires forall v | v in versions :: v > 0
    ensures forall v :: multiset(Pending(versions, db, target))[v] ==
                        if v !in db && v <= target then multiset(versions)[v] else 0
  {
    if versions != [] {
      FrontMembers(versions, versions[..|versions| - 1]);
      assert versions[|versions| - 1] in versions;
      PendingMembers(versions[..|versions| - 1], db, target);
    }
  }

  lemma {:induction false} MissingIn(versions: seq<int>, db: seq<int>, target: int)
    ensures forall v :: v in Missing(versions, db, target) <==>
                        v in versions && v !in db && v < DbMax(db) && v <= target
  {
    if versions != [] {
      FrontMembers(versions, versions[..|versions| - 1]);
      MissingIn(versions[..|versions| - 1], db, target);
    }
  }

  lemma {:induction false} PendingFrom(versions: seq<int>, db: seq<int>, target: int)
    ensures forall v | v in Pending(versions, db, target) :: v in versions && v !in db && v <= target
  {
    if versions != [] {
      FrontMembers(versions, versions[..|versions| - 1]);
      PendingFrom(versions[..|versions| - 1], db, target);
    }
  }

  lemma {:induction false} PendingIsAscending(versions: seq<int>, db: seq<int>, target: int)
    requires Ascending(versions)
    ensures Ascending(Pending(versions, db, target))
  {
    if versions != [] {
      var front := versions[..|versions| - 1];
      FrontAscending(versions, versions[..|versions| - 1]);
      PendingIsAscending(front, db, target);
      PendingFrom(front, db, target);
      AppendAscending(Pending(front, db, target), versions[|versions| - 1]);
    }
  }

  /** A version that an out-of-order run would have to go back for. */
  ghost predicate OutOfOrder(v: int, fsys: seq<int>, db: seq<int>, target: int) {
    v in fsys && v !in db && v <= target && exists w | w in db :: v < w
  }

  /** For positive versions in any order: the call fails exactly when out-of-order versions are not
      allowed and there is one; otherwise it returns the unapplied versions up to the target, each
      as often as it was given, in ascending order. */
  lemma UpPlanMeaning(fsys: seq<int>, db: seq<int>, target: int, allowMissing: bool)
    requires forall v | v in fsys :: v > 0
    ensures
      var plan := UpPlan(fsys, db, target, allowMissing);
      && (plan.Err? <==> !allowMissing && exists v :: OutOfOrder(v, fsys, db, target))
      && (plan.Ok? ==>
            && Ascending(plan.value)
            && forall v :: multiset(plan.value)[v] == if v !in db && v <= target then multiset(fsys)[v] else 0)
  {
    var sorted := Sort(fsys);
    SortIsOrdered(fsys);
    SortSameMembers(fsys);
    MissingIn(sorted, db, target);
    PendingIsAscending(sorted, db, target);
    PendingMembers(sorted, db, target);
    var missing := Missing(sorted, db, target);
    if missing != [] {
      assert missing[0] in missing;
      assert OutOfOrder(missing[0], fsys, db, target);
    }
    if v :| OutOfOrder(v, fsys, db, target) {
      assert v in missing;
    }
  }

  /** A refused call lists exactly the out-of-order versions, in ascending order. */
  lemma RefusalListsMissing(fsys: seq<int>, db: seq<int>, target: int, allowMissing: bool)
    requires forall v | v in fsys :: v > 0
    requires UpPlan(fsys, db, target, allowMissing).Err?
    ensures
      var missing := UpPlan(fsys, db, target, allowMissing).error;
      && Ascending(missing)
      && forall v :: v in missing <==> OutOfOrder(v, fsys, db, target)
  {
    hide Missing, Sort, DbMax, Ascending;
    var sorted := Sort(fsys);
    SortIsOrdered(fsys);
    SortSameMembers(fsys);
    MissingIn(sorted, db, target);
    MissingIsAscending(sorted, db, target);
    forall v ensures v in Missing(sorted, db, target) <==> OutOfOrder(v, fsys, db, target) {
      BelowMax(db, v);
      assert v in fsys ==> v > 0;
    }
  }

  lemma BelowMax(db: seq<int>, v: int)
    ensures v > 0 ==> (v < DbMax(db) <==> exists w | w in db :: v < w)
  {
    var m := DbMax(db);
    assert m == 0 || m in db;
  }

  lemma {:induction false} MissingIsAscending(versions: seq<int>, db: seq<int>, target: int)
    requires Ascending(versions)
    ensures Ascending(Missing(versions, db, target))
  {
    hide DbMax, Ascending;
    if versions == [] {
      EmptyAscending();
    } else {
      var front, v := versions[..|versions| - 1], versions[|versions| - 1];
      FrontAscending(versions, front);
      MissingIsAscending(front, db, target);
      MissingIn(front, db, target);
      AppendAscending(Missing(front, db, target), v);
      assert Missing(front, db, target) + [] == Missing(front, db, target);
    }
  }

  /** For positive and distinct versions: the plan is the ascending list of what is unapplied up to
      the target. */
  lemma PlanMeaning(fsys: seq<int>, db: seq<int>, target: int, allowMissing: bool)
    requires Distinct(fsys) && forall v | v in fsys :: v > 0
    requires UpPlan(fsys, db, target, allowMissing).Ok?
    ensures
      var plan := UpPlan(fsys, db, target, allowMissing).value;
      && Ascending(plan) && Distinct(plan)
      && forall v :: v in plan <==> v in fsys && v !in db && v <= target
  {
    hide Ascending, Distinct, UpPlan, Sort;
    UpPlanMeaning(fsys, db, target, allowMissing);
    var plan := UpPlan(fsys, db, target, allowMissing).value;
    DistinctIffMultiset(fsys);
    DistinctIffMultiset(plan);
    forall v ensures v in plan <==> v in fsys && v !in db && v <= target {
      assert v in plan <==> multiset(plan)[v] > 0;
      assert v in fsys <==> multiset(fsys)[v] > 0;
    }
  }

  /** Once the first versions of a plan have been recorded, the plan is the rest of it. */
  lemma PlanTail(fsys: seq<int>, db: seq<int>, target: int, allowMissing: bool, i: nat)
    requires Distinct(fsys) && forall v | v in fsys :: v > 0
    requires UpPlan(fsys, db, target, allowMissing).Ok?
    requires i <= |UpPlan(fsys, db, target, allowMissing).value|
    ensures
      var plan := UpPlan(fsys, db, target, allowMissing).value;
      UpPlan(fsys, db + plan[..i], target, allowMissing) == Ok(plan[i..])
  {
    hide UpPlan, Ascending, Distinct;
    var plan := UpPlan(fsys, db, target, allowMissing).value;
    var recorded := db + plan[..i];
    PlanMeaning(fsys, db, target, allowMissing);
    SuffixOfAscending(plan, i);
    UpPlanMeaning(fsys, db, target, allowMissing);
    UpPlanMeaning(fsys, recorded, target, allowMissing);
    if v :| OutOfOrder(v, fsys, recorded, target) {
      var w :| w in recorded && v < w;
      assert v in plan[i..];
      assert w in db;
      assert OutOfOrder(v, fsys, db, target);
    }
    PlanMeaning(fsys, recorded, target, allowMissing);
    SameMembersSameList(UpPlan(fsys, recorded, target, allowMissing).value, plan[i..]);
  }
}
