/** Several providers create the version table at once: tryEnsureVersionTable without a lock, over
    every interleaving (provider_run.go). Creating an existing table fails. */
module VersionTableRace {
  import opened Migrator

  /** Where a creator stands in its loop of attempts. */
  datatype Creator =
    | Checking(k: nat)
    | Creating(k: nat)
    | Inserting(k: nat)  // with isolated DDL: the table exists, its first row does not yet
    | Done(ok: bool)

  datatype Table = Table(created: bool, rows: seq<int>)

  datatype World = World(table: Table, creators: map<nat, Creator>)

  datatype Event =
    | Check(i: nat, check: Check, lookupOk: bool)
    | Create(i: nat, createOk: bool, insertOk: bool, commitOk: bool)
    | InsertZero(i: nat, insertOk: bool)

  function Retried(k: nat): Creator {
    if k + 1 < MAX_ATTEMPTS then Checking(k + 1) else Done(false)
  }

  predicate Enabled(w: World, e: Event) {
    && e.i in w.creators
    && match e
       case Check(i, _, _) => w.creators[i].Checking?
       case Create(i, _, _, _) => w.creators[i].Creating?
       case InsertZero(i, _) => w.creators[i].Inserting?
  }

  /** One step of one creator. Without isolation the table and its first row come in one transaction. */
  function Next(isolateDDL: bool, w: World, e: Event): World
    requires Enabled(w, e)
  {
    var at := w.creators[e.i];
    match e
    case Check(i, check, lookupOk) =>
      var found := match check
                   case Answered => w.table.created
                   case Unsupported => w.table.created && lookupOk && 0 in w.table.rows
                   case CheckFails => false;
      w.(creators := w.creators[i :=
        if check == CheckFails then Done(false) else if found then Done(true) else Creating(at.k)])
    case Create(i, createOk, insertOk, commitOk) =>
      if w.table.created || !createOk then w.(creators := w.creators[i := Retried(at.k)])
      else if isolateDDL then World(Table(true, []), w.creators[i := Inserting(at.k)])
      else if insertOk && commitOk then World(Table(true, [0]), w.creators[i := Done(true)])
      else w.(creators := w.creators[i := Retried(at.k)])
    case InsertZero(i, insertOk) =>
      if insertOk then
        World(w.table.(rows := w.table.rows + [0]), w.creators[i := Done(true)])
      else w.(creators := w.creators[i := Retried(at.k)])
  }

  /** The world after some events; an event that is not enabled does nothing. */
  function After(isolateDDL: bool, w: World, events: seq<Event>): World {
    if events == [] then w
    else
      var before := After(isolateDDL, w, events[..|events| - 1]);
      var e := events[|events| - 1];
      if Enabled(before, e) then Next(isolateDDL, before, e) else before
  }

  predicate Fresh(w: World) {
    w.table == Table(false, []) && forall i | i in w.creators :: w.creators[i] == Checking(0)
  }

  ghost predicate OneZero(w: World) {
    && (w.table == Table(false, []) || w.table == Table(true, [0]))
    && forall i | i in w.creators ::
         !w.creators[i].Inserting? && (w.creators[i] == Done(true) ==> w.table.created)
  }

  /** However creators interleave, and whatever fails, without isolation the table is absent or has
      exactly one row, for version 0, and every creator that reports success has left it there. */
  lemma {:induction false} ExactlyOneZero(w: World, events: seq<Event>)
    requires Fresh(w)
    ensures OneZero(After(false, w, events))
  {
    hide Fresh;
    if events == [] {
      FreshHasOneZero(w);
    } else {
      ExactlyOneZero(w, events[..|events| - 1]);
    }
  }

  lemma FreshHasOneZero(w: World)
    requires Fresh(w)
    ensures OneZero(w)
  {
  }

  /** No fault of the database: only racing creators get in each other's way. */
  predicate Faultless(e: Event) {
    match e
    case Check(_, check, lookupOk) => check != CheckFails && lookupOk
    case Create(_, createOk, insertOk, commitOk) => createOk && insertOk && commitOk
    case InsertZero(_, insertOk) => insertOk
  }

  ghost predicate NobodyLoses(w: World) {
    && OneZero(w)
    && forall i | i in w.creators ::
         match w.creators[i]
         case Checking(k) => k == 0 || (k == 1 && w.table.created)
         case Creating(k) => k == 0
         case Inserting(_) => false
         case Done(ok) => ok
  }

  /** Racing alone makes no creator fail: a creator that loses the race finds the table on its retry. */
  lemma {:induction false} LosersRetry(w: World, events: seq<Event>)
    requires Fresh(w) && forall e | e in events :: Faultless(e)
    ensures NobodyLoses(After(false, w, events))
  {
    hide Fresh;
    if events == [] {
      FreshNobodyLoses(w);
    } else {
      assert events[|events| - 1] in events;
      LosersRetry(w, events[..|events| - 1]);
    }
  }

  lemma FreshNobodyLoses(w: World)
    requires Fresh(w)
    ensures NobodyLoses(w)
  {
  }

  /** With isolated DDL even a race without faults goes wrong: while one creator has made the table
      and not yet its first row, another finds the table and reports success. */
  lemma IsolationBreaksIt()
    ensures
      var w := World(Table(false, []), map[0 := Checking(0), 1 := Checking(0)]);
      var events := [Check(0, Answered, true), Create(0, true, true, true), Check(1, Answered, true)];
      && Fresh(w) && (forall e | e in events :: Faultless(e))
      && 1 in After(true, w, events).creators
      && After(true, w, events).creators[1] == Done(true) && After(true, w, events).table.rows == []
  {
    var w := World(Table(false, []), map[0 := Checking(0), 1 := Checking(0)]);
    var e0, e1, e2 := Check(0, Answered, true), Create(0, true, true, true), Check(1, Answered, true);
    assert [e0][..0] == [] && [e0, e1][..1] == [e0] && [e0, e1, e2][..2] == [e0, e1];
    assert After(true, w, [e0]) == w.(creators := w.creators[0 := Creating(0)]);
    assert After(true, w, [e0, e1]).table == Table(true, []);
  }

  // ----- A creator that nobody gets in the way of

  /** The steps of one attempt; those that the attempt does not come to are not enabled. */
  function StepsOf(i: nat, a: Attempt): seq<Event> {
    [Check(i, a.check, a.lookupOk), Create(i, a.createOk, a.insertOk, a.commitOk), InsertZero(i, a.insertOk)]
  }

  function TableOf<S>(db: Database<S>): Table {
    Table(db.created, db.rows)
  }

  function CreatorAfter(outcome: Ensured, k: nat): Creator {
    match outcome
    case Settled => Done(true)
    case Fatal => Done(false)
    case Retry => Retried(k)
  }

  lemma AfterThree(isolateDDL: bool, w: World, a: Event, b: Event, c: Event)
    ensures
      var x := if Enabled(w, a) then Next(isolateDDL, w, a) else w;
      var y := if Enabled(x, b) then Next(isolateDDL, x, b) else x;
      After(isolateDDL, w, [a, b, c]) == if Enabled(y, c) then Next(isolateDDL, y, c) else y
  {
    hide Next, Enabled;
    assert [a][..0] == [] && [a, b][..1] == [a] && [a, b, c][..2] == [a, b];
    assert After(isolateDDL, w, []) == w;
    var x := After(isolateDDL, w, [a]);
    assert x == if Enabled(w, a) then Next(isolateDDL, w, a) else w;
    var y := After(isolateDDL, w, [a, b]);
    assert y == if Enabled(x, b) then Next(isolateDDL, x, b) else x;
  }

  /** The steps of an attempt are one attempt of the engine. */
  lemma AttemptIsEnsureOnce<S>(isolateDDL: bool, w: World, i: nat, k: nat, db: Database<S>, a: Attempt)
    requires i in w.creators && w.creators[i] == Checking(k) && w.table == TableOf(db)
    requires !db.created ==> db.rows == []
    ensures
      var (outcome, after) := EnsureOnce(isolateDDL, db, a);
      After(isolateDDL, w, StepsOf(i, a)) == World(TableOf(after), w.creators[i := CreatorAfter(outcome, k)])
  {
    AfterThree(isolateDDL, w, StepsOf(i, a)[0], StepsOf(i, a)[1], StepsOf(i, a)[2]);
  }

  function StepsFrom(i: nat, attempts: nat -> Attempt, k: nat): seq<Event>
    requires k <= MAX_ATTEMPTS
    decreases MAX_ATTEMPTS - k
  {
    if k == MAX_ATTEMPTS then [] else StepsOf(i, attempts(k)) + StepsFrom(i, attempts, k + 1)
  }

  lemma {:induction false} AfterConcat(isolateDDL: bool, w: World, a: seq<Event>, b: seq<Event>)
    ensures After(isolateDDL, w, a + b) == After(isolateDDL, After(isolateDDL, w, a), b)
  {
    hide Next, Enabled;
    if b == [] {
      assert a + b == a;
    } else {
      AfterConcat(isolateDDL, w, a, b[..|b| - 1]);
      assert (a + b)[..|a + b| - 1] == a + b[..|b| - 1];
    }
  }

  lemma {:induction false} DoneStays(isolateDDL: bool, w: World, i: nat, events: seq<Event>)
    requires i in w.creators && w.creators[i].Done? && forall e | e in events :: e.i == i
    ensures After(isolateDDL, w, events) == w
  {
    if events != [] {
      assert events[|events| - 1] in events;
      DoneStays(isolateDDL, w, i, events[..|events| - 1]);
    }
  }

  lemma {:induction false} StepsAreOwn(i: nat, attempts: nat -> Attempt, k: nat)
    requires k <= MAX_ATTEMPTS
    ensures forall e | e in StepsFrom(i, attempts, k) :: e.i == i
    decreases MAX_ATTEMPTS - k
  {
    if k < MAX_ATTEMPTS {
      StepsAreOwn(i, attempts, k + 1);
    }
  }

  /** A creator that takes all of its steps without others in between does what the engine does. */
  lemma {:induction false} AloneIsTryEnsure<S>(
    isolateDDL: bool, w: World, i: nat, k: nat, db: Database<S>, attempts: nat -> Attempt)
    requires k < MAX_ATTEMPTS && i in w.creators && w.creators[i] == Checking(k) && w.table == TableOf(db)
    requires !db.created ==> db.rows == []
    ensures
      var (ok, after) := TryEnsure(isolateDDL, db, attempts, k);
      After(isolateDDL, w, StepsFrom(i, attempts, k)) == World(TableOf(after), w.creators[i := Done(ok)])
    decreases MAX_ATTEMPTS - k
  {
    hide After, EnsureOnce, StepsOf;
    var (outcome, next) := EnsureOnce(isolateDDL, db, attempts(k));
    AttemptIsEnsureOnce(isolateDDL, w, i, k, db, attempts(k));
    var here := After(isolateDDL, w, StepsOf(i, attempts(k)));
    AfterConcat(isolateDDL, w, StepsOf(i, attempts(k)), StepsFrom(i, attempts, k + 1));
    EnsuredIsWellFormed(isolateDDL, db, attempts(k));
    StepsAreOwn(i, attempts, k + 1);
    if outcome != Retry || k + 1 == MAX_ATTEMPTS {
      DoneStays(isolateDDL, here, i, StepsFrom(i, attempts, k + 1));
    } else {
      AloneIsTryEnsure(isolateDDL, here, i, k + 1, next, attempts);
    }
  }

  lemma EnsuredIsWellFormed<S>(isolateDDL: bool, db: Database<S>, a: Attempt)
    requires !db.created ==> db.rows == []
    ensures
      var after := EnsureOnce(isolateDDL, db, a).1;
      !after.created ==> after.rows == []
  {
  }
}
