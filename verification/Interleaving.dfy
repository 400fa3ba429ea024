/** Any number of providers on one database, interleaved at the level of single transactions
    (provider.go, provider_run.go). Anyone may create the missing version table at any time, with or
    without the lock: the pending check does so without it. Under the lock a provider lists the table and
    plans, and then runs its plan one migration at a time. */
module Interleaving {
  import opened Wrappers
  import opened Versions
  import opened UpVersions
  import opened Migrator
  import opened Batches
  import opened Traces
  import opened SchemaReplay
  import opened NoGaps
  import F = Fleet

  /** What the lock holder still has to do. */
  datatype World<!S> = World(db: Database<S>, holder: Option<nat>, todo: seq<Migration<S>>, up: bool)

  datatype Event =
    | CreateVersionTable(i: nat)
    | TakeLock(i: nat)
    | PlanUp(i: nat, byOne: bool, target: int)
    | PlanDown(i: nat, byOne: bool, target: int)
    | PlanOne(i: nat, version: int, up: bool)
    | RunNext(i: nat, fault: Fault)
    | Unlock(i: nat)

  predicate Enabled<S>(w: World<S>, e: Event) {
    match e
    case CreateVersionTable(_) => !w.db.created
    case TakeLock(_) => w.holder.None?
    case PlanUp(i, _, _) => w.holder == Some(i) && w.todo == [] && w.db.created
    case PlanDown(i, _, _) => w.holder == Some(i) && w.todo == [] && w.db.created && w.db.rows != []
    case PlanOne(i, _, _) => w.holder == Some(i) && w.todo == [] && w.db.created
    case RunNext(i, _) => w.holder == Some(i) && w.todo != []
    case Unlock(i) => w.holder == Some(i)
  }

  /** The migrations of an upward, downward or single operation on a table; none if it is refused. */
  function Planned<S>(cfg: Config<S>, rows: seq<int>, e: Event): seq<Migration<S>> {
    match e
    case PlanUp(_, byOne, target) =>
      (match UpPlan(VersionsOf(cfg.migrations), rows, target, cfg.allowMissing)
       case Err(_) => []
       case Ok(plan) => Batch(cfg, FindAll(cfg.migrations, plan), true, byOne))
    case PlanDown(_, byOne, target) =>
      if rows == [] || rows[|rows| - 1] == 0 then []
      else Batch(cfg, FindAll(cfg.migrations, DownPlan(rows, target)), false, byOne)
    case PlanOne(_, version, up) =>
      if version < 1 || (up <==> version in rows) then []
      else
        (match Find(cfg.migrations, version)
         case None => []
         case Some(m) => Batch(cfg, Some([m]), up, true))
    case _ => []
  }

  /** The part of a plan that runs, if all of it can be prepared. */
  function Batch<S>(cfg: Config<S>, found: Option<seq<Migration<S>>>, up: bool, byOne: bool): seq<Migration<S>> {
    if found.None? then []
    else
      var apply := if byOne && found.value != [] then found.value[..1] else found.value;
      if Unprepared(cfg, apply, up).None? then apply else []
  }

  function Next<S>(cfgs: nat -> Config<S>, w: World<S>, e: Event): World<S>
    requires Enabled(w, e)
  {
    match e
    case CreateVersionTable(_) => w.(db := w.db.(created := true, rows := [0]))
    case TakeLock(i) => w.(holder := Some(i), todo := [])
    case PlanUp(i, _, _) => w.(todo := Planned(cfgs(i), w.db.rows, e), up := true)
    case PlanDown(i, _, _) => w.(todo := Planned(cfgs(i), w.db.rows, e), up := false)
    case PlanOne(i, _, up) => w.(todo := Planned(cfgs(i), w.db.rows, e), up := up)
    case RunNext(i, fault) =>
      var (ok, db) := RunIndividually(cfgs(i), w.db, w.todo[0], w.up, fault);
      w.(db := db, todo := if ok then w.todo[1..] else [])
    case Unlock(_) => w.(holder := None, todo := [])
  }

  /** The world after some events; an event that is not enabled does nothing. */
  function AfterEvents<S>(cfgs: nat -> Config<S>, w: World<S>, events: seq<Event>): World<S> {
    if events == [] then w
    else
      var before := AfterEvents(cfgs, w, events[..|events| - 1]);
      var e := events[|events| - 1];
      if Enabled(before, e) then Next(cfgs, before, e) else before
  }

  predicate AtRest<S>(w: World<S>) {
    w.holder.None? && w.todo == []
  }

  // ----- What the work of the lock holder is to the table

  ghost predicate Known<S>(cfg: Config<S>, todo: seq<Migration<S>>) {
    forall i | 0 <= i < |todo| :: todo[i] in cfg.migrations && Find(cfg.migrations, todo[i].version) == Some(todo[i])
  }

  /** Upwards it is not recorded, downwards it is the newest rows, or a single recorded one. */
  ghost predicate Fits(rows: seq<int>, todo: seq<int>, up: bool) {
    if up then Distinct(todo) && forall v | v in todo :: v !in rows
    else Newest(rows, todo) || (|todo| == 1 && todo[0] in rows)
  }

  /** Upwards the least versions that are not recorded, in order; downwards the newest rows. */
  ghost predicate InTurn(versions: seq<int>, rows: seq<int>, todo: seq<int>, up: bool) {
    if up then
      Ascending(todo) && forall v, t | v in versions && v !in rows && v !in todo && t in todo :: t <= v
    else Newest(rows, todo)
  }

  ghost predicate WorkFits<S>(cfgs: nat -> Config<S>, w: World<S>, ordered: bool) {
    w.todo != [] ==>
      && w.holder.Some? && w.db.created
      && Known(cfgs(w.holder.value), w.todo)
      && Fits(w.db.rows, VersionsOf(w.todo), w.up)
      && (ordered ==> InTurn(VersionsOf(cfgs(w.holder.value).migrations), w.db.rows, VersionsOf(w.todo), w.up))
  }

  lemma PrefixFits(rows: seq<int>, todo: seq<int>, versions: seq<int>, up: bool)
    requires todo != [] && Fits(rows, todo, up)
    ensures Fits(rows, todo[..1], up)
    ensures InTurn(versions, rows, todo, up) ==> InTurn(versions, rows, todo[..1], up)
  {
    if up && InTurn(versions, rows, todo, up) {
      forall v, t | v in versions && v !in rows && v !in todo[..1] && t in todo[..1] ensures t <= v {
        if v in todo {
          var i :| 0 <= i < |todo| && todo[i] == v;
          assert todo[0] <= todo[i];
        } else {
          assert t in todo;
        }
      }
    }
  }

  /** A plan that is cut to what runs still fits. */
  lemma BatchFits<S>(cfg: Config<S>, rows: seq<int>, found: seq<Migration<S>>, up: bool, byOne: bool, ordered: bool)
    requires Known(cfg, found) && Fits(rows, VersionsOf(found), up)
    requires ordered ==> InTurn(VersionsOf(cfg.migrations), rows, VersionsOf(found), up)
    ensures
      var todo := Batch(cfg, Some(found), up, byOne);
      todo != [] ==>
        && Known(cfg, todo) && Fits(rows, VersionsOf(todo), up)
        && (ordered ==> InTurn(VersionsOf(cfg.migrations), rows, VersionsOf(todo), up))
  {
    hide Fits, InTurn, Find, Unprepared;
    if byOne && found != [] {
      PrefixFits(rows, VersionsOf(found), VersionsOf(cfg.migrations), up);
      assert VersionsOf(found[..1]) == VersionsOf(found)[..1];
    }
  }

  lemma PlanUpFits<S>(cfg: Config<S>, rows: seq<int>, i: nat, byOne: bool, target: int)
    requires Numbered(cfg)
    ensures
      var todo := Planned(cfg, rows, PlanUp(i, byOne, target));
      todo != [] ==>
        && Known(cfg, todo) && Fits(rows, VersionsOf(todo), true)
        && InTurn(VersionsOf(cfg.migrations), rows, VersionsOf(todo), true)
  {
    hide UpPlan, Numbered, FindAll, Find, Ascending, Distinct, Batch;
    var plan := UpPlan(VersionsOf(cfg.migrations), rows, target, cfg.allowMissing);
    if plan.Ok? {
      PlanIsPendingBatch(cfg, rows, target);
      var found := FindAll(cfg.migrations, plan.value).value;
      FoundAreKnown(cfg, plan.value);
      BatchFits(cfg, rows, found, true, byOne, true);
    }
  }

  lemma PlanDownFits<S>(cfg: Config<S>, rows: seq<int>, i: nat, byOne: bool, target: int)
    requires rows != []
    ensures
      var todo := Planned(cfg, rows, PlanDown(i, byOne, target));
      todo != [] ==>
        && Known(cfg, todo) && Fits(rows, VersionsOf(todo), false)
        && InTurn(VersionsOf(cfg.migrations), rows, VersionsOf(todo), false)
  {
    hide FindAll, Find, DownPlan, Batch, Newest;
    var found := FindAll(cfg.migrations, DownPlan(rows, target));
    if found.Some? {
      DownPlanIsNewestBatch(cfg, rows, target);
      BatchFits(cfg, rows, found.value, false, byOne, true);
    } else {
      NothingFound(cfg, false, byOne);
    }
  }

  lemma NothingFound<S>(cfg: Config<S>, up: bool, byOne: bool)
    ensures Batch(cfg, None, up, byOne) == []
  {
  }

  lemma PlanOneFits<S>(cfg: Config<S>, rows: seq<int>, i: nat, version: int, up: bool)
    ensures
      var todo := Planned(cfg, rows, PlanOne(i, version, up));
      todo != [] ==> Known(cfg, todo) && Fits(rows, VersionsOf(todo), up)
  {
    hide Find, Unprepared;
    FindMeaning(cfg.migrations, version);
    var todo := Planned(cfg, rows, PlanOne(i, version, up));
    if todo != [] {
      assert |todo| == 1 && VersionsOf(todo) == [version];
    }
  }

  // ----- One event

  lemma FirstIsAllowed<S>(cfg: Config<S>, db: Database<S>, todo: seq<Migration<S>>, up: bool, fault: Fault)
    requires db.created && todo != [] && Known(cfg, todo) && Fits(db.rows, VersionsOf(todo), up)
    ensures Allowed(cfg, db, Run(todo[0], up, fault))
    ensures InTurn(VersionsOf(cfg.migrations), db.rows, VersionsOf(todo), up) ==>
              InOrder(cfg, db, Run(todo[0], up, fault))
  {
    hide Find;
    var versions := VersionsOf(todo);
    assert versions[0] == todo[0].version && versions[0] in versions;
    if up && InTurn(VersionsOf(cfg.migrations), db.rows, versions, up) {
      forall v | v in VersionsOf(cfg.migrations) && v !in db.rows ensures versions[0] <= v {
        if v in versions {
          var i :| 0 <= i < |versions| && versions[i] == v;
        }
      }
    }
  }

  lemma RestFits(versions: seq<int>, rows: seq<int>, todo: seq<int>, up: bool)
    requires todo != [] && Fits(rows, todo, up) && Distinct(rows)
    ensures todo[1..] != [] ==> Fits(Record(rows, todo[0], up), todo[1..], up)
    ensures todo[1..] != [] && InTurn(versions, rows, todo, up) ==>
              InTurn(versions, Record(rows, todo[0], up), todo[1..], up)
  {
    var rest := todo[1..];
    if rest != [] {
      if up {
        UpRestFits(versions, rows, todo);
      } else {
        RemoveLast(rows);
        assert Record(rows, todo[0], up) == rows[..|rows| - 1];
      }
    }
  }

  lemma UpRestFits(versions: seq<int>, rows: seq<int>, todo: seq<int>)
    requires todo != [] && Fits(rows, todo, true)
    ensures Fits(rows + [todo[0]], todo[1..], true)
    ensures InTurn(versions, rows, todo, true) ==> InTurn(versions, rows + [todo[0]], todo[1..], true)
  {
    var rest := todo[1..];
    forall v | v in rest ensures v in todo && v != todo[0] {
      var i :| 0 <= i < |rest| && rest[i] == v;
      assert todo[i + 1] == v;
    }
    forall v | v in todo ensures v == todo[0] || v in rest {
      var i :| 0 <= i < |todo| && todo[i] == v;
      assert i > 0 ==> rest[i - 1] == v;
    }
  }

  /** Every event leaves the database alone or is an allowed step of it, in order if the work is, and the
      work goes on to fit. */
  lemma EventIsStep<S(!new)>(cfgs: nat -> Config<S>, w: World<S>, e: Event, ordered: bool) returns (steps: seq<Step<S>>)
    requires F.AllSound(cfgs) && GoodTable(w.db) && WorkFits(cfgs, w, ordered) && Enabled(w, e)
    requires ordered ==> !e.PlanOne?
    ensures Connects(cfgs(e.i), w.db, steps, Next(cfgs, w, e).db)
    ensures ordered ==> AllInOrder(cfgs(e.i), w.db, steps)
    ensures WorkFits(cfgs, Next(cfgs, w, e), ordered)
  {
    hide Known, Fits, InTurn, Planned, RunIndividually, Numbered, GoodRows, Allowed, InOrder, DoAll, AllAllowed, AllInOrder;
    var cfg := cfgs(e.i);
    assert Sound(cfg);
    EmptyTrace(cfg, w.db);
    match e
    case CreateVersionTable(_) =>
      CreationIsAllowed(cfg, w.db);
      steps := [CreateTable];
      OneStep(cfg, w.db, CreateTable);
    case TakeLock(_) => steps := [];
    case PlanUp(i, byOne, target) =>
      PlanUpFits(cfg, w.db.rows, i, byOne, target);
      steps := [];
    case PlanDown(i, byOne, target) =>
      PlanDownFits(cfg, w.db.rows, i, byOne, target);
      steps := [];
    case PlanOne(i, version, up) =>
      PlanOneFits(cfg, w.db.rows, i, version, up);
      steps := [];
    case RunNext(_, fault) =>
      FirstIsAllowed(cfg, w.db, w.todo, w.up, fault);
      OneStep(cfg, w.db, Run(w.todo[0], w.up, fault));
      steps := [Run(w.todo[0], w.up, fault)];
      RunLeavesRest(cfg, w, fault);
    case Unlock(_) => steps := [];
  }

  lemma CreationIsAllowed<S>(cfg: Config<S>, db: Database<S>)
    requires !db.created
    ensures Allowed(cfg, db, CreateTable) && InOrder(cfg, db, CreateTable)
  {
  }

  lemma OneStep<S>(cfg: Config<S>, db: Database<S>, s: Step<S>)
    requires Allowed(cfg, db, s)
    ensures Connects(cfg, db, [s], Do(cfg, db, s))
    ensures InOrder(cfg, db, s) ==> AllInOrder(cfg, db, [s])
  {
    hide Allowed, InOrder, Do;
    EmptyTrace(cfg, db);
    DoAppend(cfg, db, [], s);
    assert [] + [s] == [s];
  }

  lemma RunLeavesRest<S>(cfg: Config<S>, w: World<S>, fault: Fault)
    requires w.db.created && GoodRows(w.db.rows) && w.todo != []
    requires Known(cfg, w.todo) && Fits(w.db.rows, VersionsOf(w.todo), w.up)
    ensures
      var (ok, db) := RunIndividually(cfg, w.db, w.todo[0], w.up, fault);
      var rest := if ok then w.todo[1..] else [];
      db.created && (rest != [] ==>
        && Known(cfg, rest) && Fits(db.rows, VersionsOf(rest), w.up)
        && (InTurn(VersionsOf(cfg.migrations), w.db.rows, VersionsOf(w.todo), w.up) ==>
              InTurn(VersionsOf(cfg.migrations), db.rows, VersionsOf(rest), w.up)))
  {
    hide Fits, InTurn, RunIndividually, Find, Record;
    RunKeepsTable(cfg, w.db, w.todo[0], w.up, fault);
    RestFits(VersionsOf(cfg.migrations), w.db.rows, VersionsOf(w.todo), w.up);
    assert VersionsOf(w.todo[1..]) == VersionsOf(w.todo)[1..];
  }

  // ----- All interleavings

  lemma RestFitsAll<S(!new)>(cfgs: nat -> Config<S>, w: World<S>, ordered: bool)
    requires AtRest(w)
    ensures WorkFits(cfgs, w, ordered)
  {
  }

  /** Over every interleaving of any number of providers with migrations of their own, faults included,
      unlocked creations of the table among locked work: the table is absent or begins with version 0,
      which is never removed, and records no version twice. */
  lemma {:induction false} InterleavingKeepsTable<S(!new)>(cfgs: nat -> Config<S>, w: World<S>, events: seq<Event>)
    requires F.AllSound(cfgs) && GoodTable(w.db) && AtRest(w)
    ensures GoodTable(AfterEvents(cfgs, w, events).db) && WorkFits(cfgs, AfterEvents(cfgs, w, events), false)
  {
    hide WorkFits, GoodTable, Next, Enabled, Numbered;
    if events == [] {
      RestFitsAll(cfgs, w, false);
    } else {
      var front, last := events[..|events| - 1], events[|events| - 1];
      InterleavingKeepsTable(cfgs, w, front);
      var before := AfterEvents(cfgs, w, front);
      if Enabled(before, last) {
        var steps := EventIsStep(cfgs, before, last, false);
        assert Sound(cfgs(last.i));
        TraceKeepsTable(cfgs(last.i), before.db, steps);
      }
    }
  }

  /** With the same migrations and without ApplyVersion, the table has no gaps. */
  lemma {:induction false} InterleavingIsGapless<S(!new)>(
    cfgs: nat -> Config<S>, cfg: Config<S>, w: World<S>, events: seq<Event>)
    requires F.AllSound(cfgs) && F.SameMigrations(cfgs, cfg.migrations) && GaplessTable(cfg, w.db) && AtRest(w)
    requires forall e | e in events :: !e.PlanOne?
    ensures
      var after := AfterEvents(cfgs, w, events);
      GaplessTable(cfg, after.db) && WorkFits(cfgs, after, true)
  {
    hide WorkFits, GoodTable, GaplessTable, Next, Enabled, Numbered;
    if events == [] {
      RestFitsAll(cfgs, w, true);
    } else {
      var front, last := events[..|events| - 1], events[|events| - 1];
      assert last in events;
      InterleavingIsGapless(cfgs, cfg, w, front);
      var before := AfterEvents(cfgs, w, front);
      if Enabled(before, last) {
        var own := cfgs(last.i);
        assert Sound(own);
        F.GaplessByMigrations(cfg, own, before.db);
        GaplessIsGood(own, before.db);
        var steps := EventIsStep(cfgs, before, last, true);
        TraceKeepsGapless(own, before.db, steps);
        F.GaplessByMigrations(own, cfg, DoAll(own, before.db, steps));
      }
    }
  }

  /** And if downs undo ups, the schema is the replay of the recorded rows at every moment. */
  lemma {:induction false} InterleavingReplays<S(!new)>(
    cfgs: nat -> Config<S>, cfg: Config<S>, w: World<S>, events: seq<Event>, start: S)
    requires F.AllSound(cfgs) && F.SameMigrations(cfgs, cfg.migrations)
    requires Reversible(cfg) && Replays(cfg, w.db, start) && AtRest(w)
    requires forall e | e in events :: !e.PlanOne?
    ensures
      var after := AfterEvents(cfgs, w, events);
      Replays(cfg, after.db, start) && WorkFits(cfgs, after, true)
  {
    hide WorkFits, GoodTable, Next, Enabled, Numbered, Replay, Undoes;
    if events == [] {
      RestFitsAll(cfgs, w, true);
    } else {
      var front, last := events[..|events| - 1], events[|events| - 1];
      assert last in events;
      InterleavingReplays(cfgs, cfg, w, front, start);
      var before := AfterEvents(cfgs, w, front);
      if Enabled(before, last) {
        var own := cfgs(last.i);
        assert Sound(own) && own.migrations == cfg.migrations;
        F.ReplayByMigrations(own, cfg, before.db.rows, start);
        var steps := EventIsStep(cfgs, before, last, true);
        TraceReplays(own, before.db, steps, start);
        F.ReplayByMigrations(own, cfg, DoAll(own, before.db, steps).rows, start);
      }
    }
  }

  // ----- A provider that nobody gets in the way of

  function RunNexts(i: nat, faults: nat -> Fault, n: nat): seq<Event> {
    if n == 0 then [] else RunNexts(i, faults, n - 1) + [RunNext(i, faults(n - 1))]
  }

  lemma AfterAppend<S>(cfgs: nat -> Config<S>, w: World<S>, events: seq<Event>, e: Event)
    ensures
      var before := AfterEvents(cfgs, w, events);
      AfterEvents(cfgs, w, events + [e]) == if Enabled(before, e) then Next(cfgs, before, e) else before
  {
    hide Next, Enabled;
    assert (events + [e])[..|events|] == events;
  }

  lemma OneRun<S>(cfgs: nat -> Config<S>, w: World<S>, i: nat, fault: Fault)
    requires w.holder == Some(i)
    ensures Enabled(w, RunNext(i, fault)) <==> w.todo != []
    ensures w.todo != [] ==>
      var (ok, db) := RunIndividually(cfgs(i), w.db, w.todo[0], w.up, fault);
      Next(cfgs, w, RunNext(i, fault)) == w.(db := db, todo := if ok then w.todo[1..] else [])
  {
    hide RunIndividually;
  }

  lemma FailedStaysFailed<S>(
    cfg: Config<S>, db: Database<S>, apply: seq<Migration<S>>, up: bool, faults: nat -> Fault, n: nat)
    requires 0 < n <= |apply| && RunBatch(cfg, db, apply, up, faults, n - 1).failed.Some?
    ensures RunBatch(cfg, db, apply, up, faults, n) == RunBatch(cfg, db, apply, up, faults, n - 1)
  {
    hide RunIndividually;
  }

  /** The lock holder that runs its work is the batch of the engine. */
  lemma {:induction false} RunNextsAreBatch<S>(cfgs: nat -> Config<S>, w: World<S>, i: nat, faults: nat -> Fault, n: nat)
    requires w.holder == Some(i) && n <= |w.todo|
    ensures
      var p := RunBatch(cfgs(i), w.db, w.todo, w.up, faults, n);
      AfterEvents(cfgs, w, RunNexts(i, faults, n)) ==
      w.(db := p.db, todo := if p.failed.None? then w.todo[n..] else [])
  {
    hide RunIndividually, AfterEvents, RunBatch, Next, Enabled;
    if n == 0 {
      NothingDone(cfgs, w);
      StartOfBatch(cfgs(i), w.db, w.todo, w.up, faults);
      assert w.todo[0..] == w.todo;
    } else {
      RunNextsAreBatch(cfgs, w, i, faults, n - 1);
      var before := AfterEvents(cfgs, w, RunNexts(i, faults, n - 1));
      AfterAppend(cfgs, w, RunNexts(i, faults, n - 1), RunNext(i, faults(n - 1)));
      OneRun(cfgs, before, i, faults(n - 1));
      if before.todo == [] {
        FailedStaysFailed(cfgs(i), w.db, w.todo, w.up, faults, n);
      } else {
        assert w.todo[n - 1..][0] == w.todo[n - 1] && w.todo[n - 1..][1..] == w.todo[n..];
        NextOfBatch(cfgs(i), w.db, w.todo, w.up, faults, n - 1);
      }
    }
  }

  lemma NothingDone<S>(cfgs: nat -> Config<S>, w: World<S>)
    ensures AfterEvents(cfgs, w, []) == w
  {
  }
}
