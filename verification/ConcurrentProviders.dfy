/** Any number of providers run Up and UpByOne on one database (provider.go, provider_run.go). Each
    looks for pending migrations without a lock, then takes the lock, lists the table again, plans,
    applies and unlocks. The lock excludes; everything else interleaves. */
module ConcurrentProviders {
  import opened Wrappers
  import opened Versions
  import opened UpVersions
  import B = Batches
  import M = Migrator
  import St = Stepwise
  import T = Traces

  /** What a provider knows and may do. */
  datatype Setup = Setup(versions: seq<int>, allowMissing: bool)

  datatype Process =
    | Idle
    | Waiting(byOne: bool)  // the unlocked check has found something pending
    | Locked(byOne: bool)
    | Running(byOne: bool, todo: seq<int>)
    | Unlocking

  datatype World = World(rows: seq<int>, owner: Option<nat>, processes: map<nat, Process>)

  datatype Event =
    | CheckPending(i: nat, byOne: bool)
    | TakeLock(i: nat)
    | GiveUp(i: nat)      // the lock, the listing or a migration fails
    | ListAndPlan(i: nat)
    | ApplyNext(i: nat)
    | Unlock(i: nat)

  function PlanOf(s: Setup, rows: seq<int>): Result<seq<int>, seq<int>> {
    UpPlan(s.versions, rows, MAX_INT64, s.allowMissing)
  }

  predicate HoldsLock(p: Process) {
    p.Locked? || p.Running? || p.Unlocking?
  }

  predicate Enabled(w: World, e: Event) {
    && e.i in w.processes
    && var p := w.processes[e.i];
       match e
       case CheckPending(_, _) => p.Idle?
       case TakeLock(_) => p.Waiting? && w.owner.None?
       case GiveUp(_) => p.Waiting? || p.Locked? || p.Running?
       case ListAndPlan(_) => p.Locked?
       case ApplyNext(_) => p.Running? && p.todo != []
       case Unlock(_) => p.Unlocking? || (p.Running? && p.todo == [])
  }

  /** After the listing: refused, or with the whole plan to run, or with its head. */
  function Planned(plan: Result<seq<int>, seq<int>>, byOne: bool): Process {
    if plan.Err? then Unlocking
    else Running(byOne, if byOne && plan.value != [] then plan.value[..1] else plan.value)
  }

  function Next(setups: nat -> Setup, w: World, e: Event): World
    requires Enabled(w, e)
  {
    var i, p := e.i, w.processes[e.i];
    match e
    case CheckPending(_, byOne) =>
      var plan := PlanOf(setups(i), w.rows);
      if plan.Ok? && plan.value != [] then w.(processes := w.processes[i := Waiting(byOne)]) else w
    case TakeLock(_) => w.(owner := Some(i), processes := w.processes[i := Locked(p.byOne)])
    case GiveUp(_) => w.(processes := w.processes[i := if p.Waiting? then Idle else Unlocking])
    case ListAndPlan(_) =>
      w.(processes := w.processes[i := Planned(PlanOf(setups(i), w.rows), p.byOne)])
    case ApplyNext(_) =>
      World(w.rows + [p.todo[0]], w.owner, w.processes[i := Running(p.byOne, p.todo[1..])])
    case Unlock(_) => w.(owner := None, processes := w.processes[i := Idle])
  }

  /** The world after some events; an event that is not enabled does nothing. */
  function After(setups: nat -> Setup, w: World, events: seq<Event>): World {
    if events == [] then w
    else
      var before := After(setups, w, events[..|events| - 1]);
      var e := events[|events| - 1];
      if Enabled(before, e) then Next(setups, before, e) else before
  }

  /** Every provider has positive and distinct versions. */
  ghost predicate Sound(setups: nat -> Setup) {
    forall i :: Distinct(setups(i).versions) && forall v | v in setups(i).versions :: v > 0
  }

  predicate AllIdle(w: World) {
    w.owner.None? && forall i | i in w.processes :: w.processes[i].Idle?
  }

  /** At most one provider is past the lock, nothing is recorded twice, and what the lock holder still
      has to do is distinct and not recorded. */
  ghost predicate Exclusive(w: World) {
    && Distinct(w.rows)
    && (forall i | i in w.processes :: HoldsLock(w.processes[i]) <==> w.owner == Some(i))
    && forall i | i in w.processes && w.processes[i].Running? ::
         var todo := w.processes[i].todo;
         Distinct(todo) && forall v | v in todo :: v !in w.rows
  }

  lemma PlanIsFresh(s: Setup, rows: seq<int>)
    requires Distinct(s.versions) && (forall v | v in s.versions :: v > 0) && PlanOf(s, rows).Ok?
    ensures Distinct(PlanOf(s, rows).value) && forall v | v in PlanOf(s, rows).value :: v !in rows
  {
    hide UpPlan, Distinct;
    PlanMeaning(s.versions, rows, MAX_INT64, s.allowMissing);
  }

  lemma HeadRecorded(rows: seq<int>, todo: seq<int>, head: int, tail: seq<int>)
    requires todo != [] && head == todo[0] && tail == todo[1..]
    requires Distinct(rows) && Distinct(todo) && forall v | v in todo :: v !in rows
    ensures Distinct(rows + [head]) && Distinct(tail) && forall v | v in tail :: v !in rows + [head]
  {
    assert head in todo;
    forall v | v in tail ensures v !in rows + [head] {
      var k :| 0 <= k < |tail| && tail[k] == v;
      assert todo[k + 1] == v && v in todo;
    }
  }

  lemma NextKeepsExclusive(setups: nat -> Setup, w: World, e: Event)
    requires Sound(setups) && Exclusive(w) && Enabled(w, e)
    ensures Exclusive(Next(setups, w, e))
  {
    hide PlanOf, Distinct;
    var p := w.processes[e.i];
    if e.ApplyNext? {
      HeadRecorded(w.rows, p.todo, p.todo[0], p.todo[1..]);
    }
    if e.ListAndPlan? && PlanOf(setups(e.i), w.rows).Ok? {
      PlanIsFresh(setups(e.i), w.rows);
      PrefixIsFresh(PlanOf(setups(e.i), w.rows).value, w.rows);
    }
  }

  lemma PrefixIsFresh(plan: seq<int>, rows: seq<int>)
    requires Distinct(plan) && forall v | v in plan :: v !in rows
    ensures plan != [] ==> Distinct(plan[..1]) && forall v | v in plan[..1] :: v !in rows
  {
  }

  /** Exactly-once application: over every interleaving, failures included, no version is recorded
      twice, and no two providers are past the lock together. */
  lemma {:induction false} NeverTwice(setups: nat -> Setup, w: World, events: seq<Event>)
    requires Sound(setups) && AllIdle(w) && Distinct(w.rows)
    ensures Exclusive(After(setups, w, events))
  {
    hide Next, Exclusive, Sound, Distinct, AllIdle;
    if events == [] {
      IdleIsExclusive(w);
    } else {
      var front, last := events[..|events| - 1], events[|events| - 1];
      NeverTwice(setups, w, front);
      if Enabled(After(setups, w, front), last) {
        NextKeepsExclusive(setups, After(setups, w, front), last);
      }
    }
  }

  lemma IdleIsExclusive(w: World)
    requires AllIdle(w) && Distinct(w.rows)
    ensures Exclusive(w)
  {
  }

  // ----- One Up does all the work

  /** All providers have the same migrations and options. */
  ghost predicate Alike(setups: nat -> Setup, s: Setup) {
    forall i :: setups(i) == s
  }

  /** The lock holder of an Up has exactly the current plan before it, that of an UpByOne nothing but
      the head of the current plan. */
  ghost predicate OnPlan(s: Setup, w: World) {
    forall i | i in w.processes && w.processes[i].Running? ::
      var p := w.processes[i];
      if p.byOne then
        p.todo == [] || (PlanOf(s, w.rows).Ok? && PlanOf(s, w.rows).value != [] && p.todo == PlanOf(s, w.rows).value[..1])
      else PlanOf(s, w.rows) == Ok(p.todo)
  }

  lemma PlanAfterNext(s: Setup, rows: seq<int>)
    requires Distinct(s.versions) && forall v | v in s.versions :: v > 0
    requires PlanOf(s, rows).Ok? && PlanOf(s, rows).value != []
    ensures PlanOf(s, rows + [PlanOf(s, rows).value[0]]) == Ok(PlanOf(s, rows).value[1..])
  {
    hide UpPlan;
    var plan := PlanOf(s, rows).value;
    PlanTail(s.versions, rows, MAX_INT64, s.allowMissing, 1);
    assert plan[..1] == [plan[0]];
  }

  lemma NextStaysOnPlan(setups: nat -> Setup, s: Setup, w: World, e: Event)
    requires Sound(setups) && Alike(setups, s) && Exclusive(w) && OnPlan(s, w) && Enabled(w, e)
    ensures OnPlan(s, Next(setups, w, e))
  {
    hide PlanOf, Distinct;
    var next := Next(setups, w, e);
    if e.ApplyNext? {
      assert setups(e.i) == s;
      PlanAfterNext(s, w.rows);
      assert HoldsLock(w.processes[e.i]);
      forall i | i in w.processes && w.processes[i].Running? ensures i == e.i {
        assert HoldsLock(w.processes[i]);
      }
    }
  }

  lemma {:induction false} AlwaysOnPlan(setups: nat -> Setup, s: Setup, w: World, events: seq<Event>)
    requires Sound(setups) && Alike(setups, s) && AllIdle(w) && Distinct(w.rows)
    ensures OnPlan(s, After(setups, w, events))
  {
    hide Next, Exclusive, Sound, Distinct, Alike, PlanOf;
    if events == [] {
    } else {
      var front, last := events[..|events| - 1], events[|events| - 1];
      AlwaysOnPlan(setups, s, w, front);
      NeverTwice(setups, w, front);
      if Enabled(After(setups, w, front), last) {
        NextStaysOnPlan(setups, s, After(setups, w, front), last);
      }
    }
  }

  /** When an Up has come to the end of its work without giving up, nothing is pending any more. */
  lemma OneUpDoesAll(setups: nat -> Setup, s: Setup, w: World, events: seq<Event>, i: nat)
    requires Sound(setups) && Alike(setups, s) && AllIdle(w) && Distinct(w.rows)
    requires i in After(setups, w, events).processes
    requires After(setups, w, events).processes[i] == Running(false, [])
    ensures PlanOf(s, After(setups, w, events).rows) == Ok([])
  {
    AlwaysOnPlan(setups, s, w, events);
  }

  /** Once nothing is pending, no later lock holder records anything, however the calls go on. */
  lemma {:induction false} LaterHoldersDoNothing(
    setups: nat -> Setup, s: Setup, w: World, events: seq<Event>, more: seq<Event>)
    requires Sound(setups) && Alike(setups, s) && AllIdle(w) && Distinct(w.rows)
    requires PlanOf(s, After(setups, w, events).rows) == Ok([])
    ensures After(setups, w, events + more).rows == After(setups, w, events).rows
  {
    hide Sound, Distinct, Alike, PlanOf;
    if more == [] {
      assert events + more == events;
    } else {
      var front, last := more[..|more| - 1], more[|more| - 1];
      LaterHoldersDoNothing(setups, s, w, events, front);
      assert (events + more)[..|events + more| - 1] == events + front;
      AlwaysOnPlan(setups, s, w, events + front);
    }
  }

  // ----- A provider that nobody gets in the way of

  function ApplyNexts(i: nat, n: nat): seq<Event> {
    if n == 0 then [] else ApplyNexts(i, n - 1) + [ApplyNext(i)]
  }

  lemma {:induction false} AfterConcat(setups: nat -> Setup, w: World, a: seq<Event>, b: seq<Event>)
    ensures After(setups, w, a + b) == After(setups, After(setups, w, a), b)
  {
    hide Next, Enabled;
    if b == [] {
      assert a + b == a;
    } else {
      AfterConcat(setups, w, a, b[..|b| - 1]);
      assert (a + b)[..|a + b| - 1] == a + b[..|b| - 1];
    }
  }

  lemma AfterOne(setups: nat -> Setup, w: World, e: Event)
    ensures After(setups, w, [e]) == if Enabled(w, e) then Next(setups, w, e) else w
  {
    assert [e][..0] == [];
  }

  lemma {:induction false} AppliesInOrder(setups: nat -> Setup, w: World, i: nat, n: nat)
    requires i in w.processes && w.processes[i].Running? && n <= |w.processes[i].todo|
    ensures
      var p := w.processes[i];
      After(setups, w, ApplyNexts(i, n)) ==
      World(w.rows + p.todo[..n], w.owner, w.processes[i := Running(p.byOne, p.todo[n..])])
  {
    hide After, Enabled, Next;
    var p := w.processes[i];
    if n == 0 {
      AfterNone(setups, w);
      assert w.rows + p.todo[..0] == w.rows && p.todo[0..] == p.todo;
      assert w.processes[i := p] == w.processes;
    } else {
      AppliesInOrder(setups, w, i, n - 1);
      var before := After(setups, w, ApplyNexts(i, n - 1));
      AfterConcat(setups, w, ApplyNexts(i, n - 1), [ApplyNext(i)]);
      AfterOne(setups, before, ApplyNext(i));
      OneIsApplied(setups, before, i);
      assert p.todo[..n] == p.todo[..n - 1] + [p.todo[n - 1]];
      assert w.rows + p.todo[..n - 1] + [p.todo[n - 1]] == w.rows + p.todo[..n];
      assert p.todo[n - 1..][1..] == p.todo[n..] && p.todo[n - 1..][0] == p.todo[n - 1];
    }
  }

  lemma AfterNone(setups: nat -> Setup, w: World)
    ensures After(setups, w, []) == w
  {
  }

  lemma OneIsApplied(setups: nat -> Setup, w: World, i: nat)
    requires i in w.processes && w.processes[i].Running? && w.processes[i].todo != []
    ensures Enabled(w, ApplyNext(i))
    ensures
      var p := w.processes[i];
      Next(setups, w, ApplyNext(i)) ==
      World(w.rows + [p.todo[0]], w.owner, w.processes[i := Running(p.byOne, p.todo[1..])])
  {
  }

  /** The steps of an Up without faults and without others in between. */
  function StepsOfUp(i: nat, n: nat): seq<Event> {
    [CheckPending(i, false)] + [TakeLock(i)] + [ListAndPlan(i)] + ApplyNexts(i, n) + [Unlock(i)]
  }

  lemma StepsAlone(setups: nat -> Setup, w: World, i: nat, plan: seq<int>)
    requires i in w.processes && w.processes[i] == Idle && w.owner == None
    requires PlanOf(setups(i), w.rows) == Ok(plan) && plan != []
    ensures After(setups, w, StepsOfUp(i, |plan|)) == w.(rows := w.rows + plan)
  {
    hide PlanOf, After;
    var a, b, c := [CheckPending(i, false)], [TakeLock(i)], [ListAndPlan(i)];
    AfterOne(setups, w, a[0]);
    var waiting := After(setups, w, a);
    AfterConcat(setups, w, a, b);
    AfterOne(setups, waiting, b[0]);
    var locked := After(setups, waiting, b);
    AfterConcat(setups, w, a + b, c);
    AfterOne(setups, locked, c[0]);
    var running := After(setups, locked, c);
    AfterConcat(setups, w, a + b + c, ApplyNexts(i, |plan|));
    AppliesInOrder(setups, running, i, |plan|);
    var applied := After(setups, running, ApplyNexts(i, |plan|));
    AfterConcat(setups, w, a + b + c + ApplyNexts(i, |plan|), [Unlock(i)]);
    AfterOne(setups, applied, Unlock(i));
    assert plan[..|plan|] == plan;
    assert After(setups, applied, [Unlock(i)]).processes == w.processes;
  }

  /** Alone, the steps of a provider are the Up of the engine. */
  lemma AloneIsUp<S>(cfg: M.Config<S>, st: M.State<S>, setups: nat -> Setup, w: World, i: nat)
    requires T.Numbered(cfg) && M.Exec(cfg, st, M.Up(M.CLEAN, M.CLEAN)).0.Ok?
    requires M.Exec(cfg, st, M.Up(M.CLEAN, M.CLEAN)).0.value != []
    requires setups(i) == Setup(M.VersionsOf(cfg.migrations), cfg.allowMissing)
    requires w.rows == St.Prepared(st).db.rows && AllIdle(w) && i in w.processes
    ensures
      var (r, after) := M.Exec(cfg, st, M.Up(M.CLEAN, M.CLEAN));
      After(setups, w, StepsOfUp(i, |r.value|)) == w.(rows := after.db.rows)
  {
    hide M.Exec, M.RunBatch, UpPlan, M.FindAll, M.Unprepared, After;
    St.CleanUp(cfg, st);
    var p := St.Prepared(st);
    var plan := M.Exec(cfg, st, M.Up(M.CLEAN, M.CLEAN)).0.value;
    B.FindAllMeaning(cfg.migrations, plan);
    var apply := M.FindAll(cfg.migrations, plan).value;
    B.UpBatchRows(cfg, p.db, apply, M.CLEAN.faults, |apply|);
    assert M.VersionsOf(apply)[..|apply|] == plan;
    StepsAlone(setups, w, i, plan);
  }
}
