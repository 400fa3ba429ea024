/** What becomes of the lines of a file: which of them end up in the statements of a direction, and
    which have no influence on it (internal/sqlparser/parser.go). First for lines that are taken as
    they are, then for files with substitution. */
module Conservation {
  import opened Wrappers
  import opened GoStrings
  import opened Annotations
  import opened Semicolons
  import opened SqlParser
  import opened OnePass
  import opened Substitution

  ghost predicate NoEnvsub(lines: seq<string>) {
    forall line | line in lines :: Classify(line) != Directive(EnvsubOn)
  }

  /** Substitution that changes nothing. */
  ghost predicate Identity(sub: Interpolation) {
    forall line :: sub(line) == Some(line)
  }

  /** The lines are taken as they are. */
  ghost predicate Literal(lines: seq<string>, sub: Interpolation) {
    NoEnvsub(lines) || Identity(sub)
  }

  /** A line that carries SQL: no annotation, no comment, not blank. */
  predicate Content(line: string) {
    Classify(line) == Text && !IsComment(line) && TrimSpace(line) != ""
  }

  function ContentOf(lines: seq<string>): seq<string> {
    if lines == [] then []
    else
      ContentOf(lines[..|lines| - 1]) +
      if Content(lines[|lines| - 1]) then [lines[|lines| - 1]] else []
  }

  function Flatten(groups: seq<seq<string>>): seq<string> {
    if groups == [] then [] else Flatten(groups[..|groups| - 1]) + groups[|groups| - 1]
  }

  /** The section that follows some lines, told by the annotations alone. */
  function SectionAfter(lines: seq<string>): Section {
    if lines == [] then Preamble
    else
      match Classify(lines[|lines| - 1])
      case Directive(Up) => UpSection
      case Directive(Down) => DownSection
      case _ => SectionAfter(lines[..|lines| - 1])
  }

  function Wanted(dir: Direction): Section {
    if dir == DirectionUp then UpSection else DownSection
  }

  /** The SQL lines of the section of a direction, in file order. */
  function SectionContent(lines: seq<string>, dir: Direction): seq<string> {
    if lines == [] then []
    else
      var front, last := lines[..|lines| - 1], lines[|lines| - 1];
      SectionContent(front, dir) +
      if Content(last) && SectionAfter(front) == Wanted(dir) then [last] else []
  }

  /** The source stays in its End state after a block that left nothing to store, and then swallows
      the next line of text. */
  predicate Swallows(front: seq<string>, line: string, dir: Direction, sub: Interpolation) {
    var run := Lines(front, dir, sub);
    run.Ok? && AtBlockEnd(run.value.state) && Requested(run.value.state, dir) && Content(line)
  }

  ghost predicate NothingSwallowed(lines: seq<string>, dir: Direction, sub: Interpolation) {
    forall i | 0 <= i < |lines| :: !Swallows(lines[..i], lines[i], dir, sub)
  }

  /** The SQL lines of the section but for those swallowed after an empty block. */
  function Survivors(lines: seq<string>, dir: Direction, sub: Interpolation): seq<string> {
    if lines == [] then []
    else
      var front, last := lines[..|lines| - 1], lines[|lines| - 1];
      Survivors(front, dir, sub) +
      if Content(last) && SectionAfter(front) == Wanted(dir) && !Swallows(front, last, dir, sub) then [last] else []
  }

  // ----- Sequences of lines

  lemma {:induction false} ContentOfConcat(a: seq<string>, b: seq<string>)
    ensures ContentOf(a + b) == ContentOf(a) + ContentOf(b)
  {
    hide Content;
    if b == [] {
      assert a + b == a;
    } else {
      var front, last := b[..|b| - 1], b[|b| - 1];
      ContentOfConcat(a, front);
      assert a + b == (a + front) + [last];
      assert (a + b)[..|a + b| - 1] == a + front;
    }
  }

  lemma ContentOfAppend(lines: seq<string>, line: string)
    ensures ContentOf(lines + [line]) == ContentOf(lines) + if Content(line) then [line] else []
  {
    hide Content;
    assert (lines + [line])[..|lines|] == lines;
  }

  lemma FlattenAppend(groups: seq<seq<string>>, group: seq<string>)
    ensures Flatten(groups + [group]) == Flatten(groups) + group
  {
    assert (groups + [group])[..|groups|] == groups;
  }

  lemma {:induction false} BlankHasNoContent(buf: seq<string>)
    requires Blank(buf)
    ensures ContentOf(buf) == []
  {
    hide Classify, IsComment, TrimSpace;
    if buf != [] {
      var front, last := buf[..|buf| - 1], buf[|buf| - 1];
      BlankIffAllSpace(Render(buf));
      var text := Render(front) + (last + "\n");
      assert AllSpace(text);
      forall i | 0 <= i < |Render(front)| ensures IsSpace(Render(front)[i]) {
        assert text[i] == Render(front)[i];
      }
      forall i | 0 <= i < |last| ensures IsSpace(last[i]) {
        assert text[|Render(front)| + i] == last[i];
      }
      BlankIffAllSpace(Render(front));
      BlankIffAllSpace(last);
      BlankHasNoContent(front);
    }
  }

  // ----- Conservation

  /** All SQL that a run holds: what it has stored and what it has buffered. */
  function Held(run: Run): seq<string> {
    ContentOf(Flatten(run.stmts) + run.buf)
  }

  /** A run outside its section holds no SQL in its buffer, and the Down run nothing at all; a block
      whose end has not been stored left nothing to store. */
  ghost predicate Tidy(run: Run, dir: Direction, sub: Interpolation) {
    && (!Requested(run.state, dir) ==> ContentOf(run.buf) == [] && (dir == DirectionDown ==> run.buf == []))
    && (AtBlockEnd(run.state) && Requested(run.state, dir) ==> run.buf == [])
    && (run.state == Start ==> run.buf == [])
    && (run.useEnvsub ==> Identity(sub))
  }

  lemma StoreHolds(run: Run)
    ensures Held(Store(run)) == Held(run)
  {
    FlattenAppend(run.stmts, run.buf);
    assert Flatten(run.stmts) + run.buf + [] == Flatten(run.stmts) + run.buf;
  }

  lemma AcceptHolds(run: Run, line: string)
    ensures Held(Accept(run, line)) == Held(run) + if Content(line) then [line] else []
  {
    hide Content, ContentOf, Flatten, EndsWithSemicolon;
    var run' := run.(buf := run.buf + [line]);
    StoreHolds(run');
    assert Flatten(run.stmts) + run'.buf == Flatten(run.stmts) + run.buf + [line];
    ContentOfAppend(Flatten(run.stmts) + run.buf, line);
  }

  lemma DiscardHolds(run: Run)
    requires ContentOf(run.buf) == []
    ensures Held(run.(buf := [])) == Held(run)
  {
    ContentOfConcat(Flatten(run.stmts), run.buf);
    ContentOfConcat(Flatten(run.stmts), []);
  }

  /** One line of text adds itself to what the run holds, unless it is swallowed. */
  lemma TextHolds(run: Run, line: string, dir: Direction, sub: Interpolation)
    requires Tidy(run, dir, sub) && Classify(line) == Text
    requires Consume(run, line, dir, sub).Ok?
    ensures
      var next := Consume(run, line, dir, sub).value;
      && Tidy(next, dir, sub) && SectionOf(next.state) == SectionOf(run.state)
      && Held(next) == Held(run) +
           if Content(line) && Requested(run.state, dir) && !AtBlockEnd(run.state) then [line] else []
  {
    hide Classify, IsComment, EndsWithSemicolon, TrimSpace, Held, ContentOf;
    EmptyHasNoContent();
    if Skipped(run.buf, line) {
      NotContent(line);
    } else if AtBlockEnd(run.state) && Requested(run.state, dir) {
      StoreHolds(run);
      HeldIgnoresState(Store(run), AfterBlock(run.state));
    } else if !Requested(run.state, dir) {
      DiscardHolds(run);
    } else {
      AcceptHolds(run, line);
    }
  }

  lemma EmptyHasNoContent()
    ensures ContentOf([]) == []
  {
  }

  lemma NotContent(line: string)
    requires IsComment(line) || line == ""
    ensures !Content(line)
  {
  }

  lemma BlankIsNoContent(line: string)
    requires TrimSpace(line) == ""
    ensures !Content(line)
  {
  }

  lemma HeldIgnoresState(run: Run, s: ParserState)
    ensures Held(run.(state := s)) == Held(run)
  {
  }

  ghost function SectionBy(a: Annotation, s: Section): Section {
    match a
    case Up => UpSection
    case Down => DownSection
    case _ => s
  }

  /** An annotation adds nothing to what the run holds and loses nothing of it. */
  lemma DirectiveHolds(run: Run, a: Annotation, line: string, dir: Direction, sub: Interpolation)
    requires Tidy(run, dir, sub) && (a == EnvsubOn ==> Identity(sub))
    requires IsComment(line) && Obey(run, a, line, dir, sub).Ok?
    ensures
      var next := Obey(run, a, line, dir, sub).value;
      && Tidy(next, dir, sub) && Held(next) == Held(run)
      && SectionOf(next.state) == SectionBy(a, SectionOf(run.state))
  {
    hide Classify, IsComment, EndsWithSemicolon, TrimSpace, Held, ContentOf, Render;
    EmptyHasNoContent();
    if a == StatementEnd {
      EndHolds(run, line, dir, sub);
    } else {
      if a == Down {
        BlankHasNoContent(run.buf);
      }
      HeldIgnoresFlags(run, Obey(run, a, line, dir, sub).value);
    }
  }

  lemma HeldIgnoresFlags(run: Run, next: Run)
    requires run.stmts == next.stmts && run.buf == next.buf
    ensures Held(run) == Held(next)
  {
  }

  lemma EndHolds(run: Run, line: string, dir: Direction, sub: Interpolation)
    requires Tidy(run, dir, sub) && IsComment(line) && Transition(run.state, StatementEnd).Ok?
    ensures
      var ended := Consume(run.(state := Transition(run.state, StatementEnd).value), line, dir, sub);
      && ended.Ok? && Tidy(ended.value, dir, sub) && Held(ended.value) == Held(run)
      && SectionOf(ended.value.state) == SectionOf(run.state)
  {
    hide Classify, IsComment, EndsWithSemicolon, TrimSpace, Held, ContentOf;
    EmptyHasNoContent();
    var ended := run.(state := Transition(run.state, StatementEnd).value);
    HeldIgnoresFlags(run, ended);
    if Requested(ended.state, dir) {
      StoreHolds(ended);
      HeldIgnoresState(Store(ended), AfterBlock(ended.state));
    } else {
      DiscardHolds(ended);
    }
  }

  /** What a run holds is exactly the SQL of its section that has not been swallowed. */
  lemma {:induction false} RunHolds(lines: seq<string>, dir: Direction, sub: Interpolation)
    requires Literal(lines, sub) && Lines(lines, dir, sub).Ok?
    ensures
      var run := Lines(lines, dir, sub).value;
      && Tidy(run, dir, sub) && SectionOf(run.state) == SectionAfter(lines)
      && Held(run) == Survivors(lines, dir, sub)
  {
    hide Classify, IsComment, EndsWithSemicolon, TrimSpace, Held, ContentOf, Consume, Obey, Blank, Content;
    if lines == [] {
      assert Held(INITIAL) == [] by { EmptyHeld(); }
      EmptyHasNoContent();
    } else {
      var front, last := lines[..|lines| - 1], lines[|lines| - 1];
      assert last in lines;
      RunHolds(front, dir, sub);
      var run := Lines(front, dir, sub).value;
      AnnotationIsComment(last);
      DirectiveIsNoContent(last);
      if run.state == Start && TrimSpace(last) == "" {
        BlankIsText(last);
        assert !Content(last) by { BlankIsNoContent(last); }
      } else if Classify(last).Directive? {
        DirectiveHolds(run, Classify(last).annotation, last, dir, sub);
      } else {
        TextHolds(run, last, dir, sub);
      }
    }
  }

  lemma DirectiveIsNoContent(line: string)
    ensures Classify(line) != Text ==> !Content(line)
  {
  }

  lemma EmptyHeld()
    ensures Held(INITIAL) == []
  {
  }

  /** Conservation: a successful parse returns statements made of groups of lines; the SQL in those
      groups, in order, is the SQL of the section, each line once, exactly when no line follows a
      block that left nothing to store. */
  lemma SqlIsConserved(lines: seq<string>, dir: Direction, sub: Interpolation)
    requires Literal(lines, sub) && Parse(lines, dir, sub).Ok?
    ensures
      var groups := Lines(lines, dir, sub).value.stmts;
      && Parse(lines, dir, sub).value.stmts == CleanupAll(groups)
      && ContentOf(Flatten(groups)) == Survivors(lines, dir, sub)
      && (ContentOf(Flatten(groups)) == SectionContent(lines, dir) <==> NothingSwallowed(lines, dir, sub))
  {
    var run := Lines(lines, dir, sub).value;
    RunHolds(lines, dir, sub);
    BlankHasNoContent(run.buf);
    ContentOfConcat(Flatten(run.stmts), run.buf);
    SurvivorsAreAllIff(lines, dir, sub);
  }

  lemma {:induction false} SurvivorsAreAllIff(lines: seq<string>, dir: Direction, sub: Interpolation)
    requires Literal(lines, sub) && Lines(lines, dir, sub).Ok?
    ensures |Survivors(lines, dir, sub)| <= |SectionContent(lines, dir)|
    ensures Survivors(lines, dir, sub) == SectionContent(lines, dir) <==> NothingSwallowed(lines, dir, sub)
  {
    hide Content, Step, Classify, NothingSwallowed, Swallows;
    if lines == [] {
      NothingToSwallow(dir, sub);
    } else {
      var front, last := lines[..|lines| - 1], lines[|lines| - 1];
      SwallowsContent(front, last, dir, sub);
      SurvivorsAreAllIff(front, dir, sub);
      NothingSwallowedSplits(lines, dir, sub);
      AppendBoth(Survivors(front, dir, sub), SectionContent(front, dir), [last]);
      AppendBoth(Survivors(front, dir, sub), SectionContent(front, dir), []);
    }
  }

  lemma SwallowsContent(front: seq<string>, line: string, dir: Direction, sub: Interpolation)
    requires Literal(front, sub) && Lines(front, dir, sub).Ok?
    ensures Swallows(front, line, dir, sub) ==> SectionAfter(front) == Wanted(dir) && Content(line)
  {
    RunHolds(front, dir, sub);
  }

  lemma NothingToSwallow(dir: Direction, sub: Interpolation)
    ensures NothingSwallowed([], dir, sub)
  {
  }

  lemma NothingSwallowedSplits(lines: seq<string>, dir: Direction, sub: Interpolation)
    requires lines != []
    ensures
      var front, last := lines[..|lines| - 1], lines[|lines| - 1];
      NothingSwallowed(lines, dir, sub) <==>
      NothingSwallowed(front, dir, sub) && !Swallows(front, last, dir, sub)
  {
    hide Swallows;
    var front := lines[..|lines| - 1];
    assert forall i | 0 <= i < |front| :: front[..i] == lines[..i] && front[i] == lines[i];
  }

  lemma AppendBoth(a: seq<string>, b: seq<string>, c: seq<string>)
    ensures a + c == b + c <==> a == b
  {
    if a + c == b + c {
      assert (a + c)[..|a|] == a && (b + c)[..|b|] == b;
    }
  }

  /** An empty block leaves the run at its end. */
  lemma EmptyBlock(sub: Interpolation)
    ensures Lines([AnnotationLine(Up), AnnotationLine(StatementBegin), AnnotationLine(StatementEnd)],
                  DirectionUp, sub) == Ok(INITIAL.(state := StatementEndUp))
  {
    hide Classify, AnnotationLine, IsComment, TrimSpace, EndsWithSemicolon, Render;
    var up, begin, end := AnnotationLine(Up), AnnotationLine(StatementBegin), AnnotationLine(StatementEnd);
    DirectiveSteps(INITIAL, Up, DirectionUp, sub);
    assert [] + [up] == [up];
    LinesAppend([], up, DirectionUp, sub);
    DirectiveSteps(INITIAL.(state := GooseUp), StatementBegin, DirectionUp, sub);
    assert [up] + [begin] == [up, begin];
    LinesAppend([up], begin, DirectionUp, sub);
    DirectiveSteps(INITIAL.(state := StatementBeginUp), StatementEnd, DirectionUp, sub);
    AnnotationRoundTrip(StatementEnd);
    assert [up, begin] + [end] == [up, begin, end];
    LinesAppend([up, begin], end, DirectionUp, sub);
  }

  /** A line after an empty block disappears, and an empty statement takes its place. */
  lemma LineIsSwallowed(line: string, sub: Interpolation)
    requires Content(line)
    ensures Parse([AnnotationLine(Up), AnnotationLine(StatementBegin), AnnotationLine(StatementEnd), line],
                  DirectionUp, sub) == Ok(Script([""], true))
  {
    hide Content, AnnotationLine, Step;
    var file := [AnnotationLine(Up), AnnotationLine(StatementBegin), AnnotationLine(StatementEnd)];
    EmptyBlock(sub);
    SwallowStep(line, sub);
    assert file + [line] == [file[0], file[1], file[2], line];
    LinesAppend(file, line, DirectionUp, sub);
    EmptyIsBlank();
    var empty: seq<string> := [];
    assert Cleanup(empty) == "";
    assert CleanupAll([empty]) == [""];
  }

  lemma SwallowStep(line: string, sub: Interpolation)
    requires Content(line)
    ensures Step(INITIAL.(state := StatementEndUp), line, DirectionUp, sub) ==
            Ok(INITIAL.(state := GooseUp, stmts := [[]]))
  {
    var empty: seq<string> := [];
    assert INITIAL.stmts + [empty] == [empty];
  }

  /** A comment, or an empty line, becomes text of a statement if and only if something has been
      buffered before it, be it whitespace alone. */
  lemma CommentIsKeptIff(run: Run, line: string, dir: Direction, sub: Interpolation)
    requires Skippable(line) && Requested(run.state, dir) && !AtBlockEnd(run.state) && !run.useEnvsub
    ensures Step(run, line, dir, sub) == Ok(if run.buf == [] then run else Accept(run, line))
    ensures Step(run, line, dir, sub) == Ok(run) <==> run.buf == []
  {
    hide IsComment, TrimSpace, EndsWithSemicolon;
    if run.buf != [] {
      AcceptChanges(run, line);
    }
  }

  lemma AcceptChanges(run: Run, line: string)
    ensures Accept(run, line) != run
  {
    hide EndsWithSemicolon;
    assert |run.buf + [line]| > |run.buf|;
    assert |run.stmts + [run.buf + [line]]| > |run.stmts|;
  }

  /** So a whitespace-only line before a leading comment puts the comment into the statement. */
  lemma SpaceKeepsComment(comment: string, line: string, sub: Interpolation)
    requires Skippable(comment) && !EndsWithSemicolon(comment)
    requires Content(line) && EndsWithSemicolon(line)
    ensures Parse([AnnotationLine(Up), comment, line], DirectionUp, sub) == Ok(Script([Cleanup([line])], true))
    ensures Parse([AnnotationLine(Up), " ", comment, line], DirectionUp, sub) ==
            Ok(Script([Cleanup([" ", comment, line])], true))
  {
    hide Content, Skippable, AnnotationLine, Cleanup, Step, Lines, CleanupAll, Blank, EndsWithSemicolon;
    UpThenComment(comment, sub);
    TextEnds([AnnotationLine(Up), comment], [], line, sub);
    SpaceThenComment(comment, sub);
    TextEnds([AnnotationLine(Up), " ", comment], [" ", comment], line, sub);
    assert [] + [line] == [line] && [" ", comment] + [line] == [" ", comment, line];
    assert [AnnotationLine(Up), comment] + [line] == [AnnotationLine(Up), comment, line];
    assert [AnnotationLine(Up), " ", comment] + [line] == [AnnotationLine(Up), " ", comment, line];
  }

  lemma SpaceThenComment(comment: string, sub: Interpolation)
    requires Skippable(comment) && !EndsWithSemicolon(comment)
    ensures Lines([AnnotationLine(Up), " ", comment], DirectionUp, sub) ==
            Ok(INITIAL.(state := GooseUp, buf := [" ", comment]))
  {
    hide Skippable, AnnotationLine, Step, EndsWithSemicolon;
    SpaceLeft(sub);
    var left: seq<string> := [AnnotationLine(Up), " "];
    CommentIsKeptIff(INITIAL.(state := GooseUp, buf := [" "]), comment, DirectionUp, sub);
    assert [" "] + [comment] == [" ", comment];
    assert left + [comment] == [AnnotationLine(Up), " ", comment];
    LinesAppend(left, comment, DirectionUp, sub);
  }

  lemma UpThenComment(comment: string, sub: Interpolation)
    requires Skippable(comment)
    ensures Lines([AnnotationLine(Up), comment], DirectionUp, sub) == Ok(INITIAL.(state := GooseUp))
  {
    hide Skippable, AnnotationLine, Classify;
    var up := AnnotationLine(Up);
    DirectiveSteps(INITIAL, Up, DirectionUp, sub);
    assert [] + [up] == [up];
    LinesAppend([], up, DirectionUp, sub);
    CommentIsKeptIff(INITIAL.(state := GooseUp), comment, DirectionUp, sub);
    assert [up] + [comment] == [up, comment];
    LinesAppend([up], comment, DirectionUp, sub);
  }

  /** A line with a semicolon makes a statement of the buffered lines. */
  lemma TextEnds(front: seq<string>, buf: seq<string>, line: string, sub: Interpolation)
    requires Lines(front, DirectionUp, sub) == Ok(INITIAL.(state := GooseUp, buf := buf))
    requires Content(line) && EndsWithSemicolon(line)
    ensures Parse(front + [line], DirectionUp, sub) == Ok(Script([Cleanup(buf + [line])], true))
  {
    hide Lines, Cleanup, CleanupAll, Blank, EndsWithSemicolon, Content, Step;
    LinesAppend(front, line, DirectionUp, sub);
    TextEndsStep(INITIAL.(state := GooseUp, buf := buf), line, sub);
    assert [] + [buf + [line]] == [buf + [line]];
    OneStatement(buf + [line]);
    EmptyIsBlank();
  }

  lemma OneStatement(lines: seq<string>)
    ensures CleanupAll([lines]) == [Cleanup(lines)]
  {
  }

  lemma TextEndsStep(run: Run, line: string, sub: Interpolation)
    requires run.state == GooseUp && !run.useEnvsub && Content(line) && EndsWithSemicolon(line)
    ensures Step(run, line, DirectionUp, sub) ==
            Ok(run.(stmts := run.stmts + [run.buf + [line]], buf := []))
  {
    hide EndsWithSemicolon;
  }

  // ----- With substitution

  lemma IdentityIsIdentity()
    ensures Identity(IDENTITY)
  {
  }

  /** Expansion keeps what a line is. */
  lemma ExpandKeepsRole(on: bool, line: string, sub: Interpolation)
    requires on && Classify(line) == Text ==> KeepsItsRole(line, sub)
    ensures Classify(Expand(on, line, sub)) == Classify(line)
    ensures Content(Expand(on, line, sub)) <==> Content(line)
  {
    hide Classify, IsComment, TrimSpace;
    EmptyTrims();
  }

  lemma EmptyTrims()
    ensures TrimSpace("") == ""
  {
  }

  lemma {:induction false} ExpandedPrefix(lines: seq<string>, sub: Interpolation, k: nat)
    requires k <= |lines|
    ensures |Expanded(lines, sub)| == |lines| && Expanded(lines, sub)[..k] == Expanded(lines[..k], sub)
    ensures k < |lines| ==> Expanded(lines, sub)[k] == Expand(OnAfter(lines[..k]), lines[k], sub)
    decreases |lines|
  {
    hide Expand, OnAfter;
    if lines != [] {
      var front := lines[..|lines| - 1];
      if k < |lines| {
        ExpandedPrefix(front, sub, k);
        assert front[..k] == lines[..k];
      } else {
        ExpandedPrefix(front, sub, k - 1);
        assert lines[..k] == lines;
      }
    }
  }

  lemma TransparentPrefix(lines: seq<string>, sub: Interpolation, k: nat)
    requires Transparent(lines, sub) && k <= |lines|
    ensures Transparent(lines[..k], sub)
    ensures k < |lines| && OnAfter(lines[..k]) && Classify(lines[k]) == Text ==> KeepsItsRole(lines[k], sub)
  {
    hide Classify, KeepsItsRole, OnAfter;
    assert forall i | 0 <= i < k :: lines[..k][..i] == lines[..i];
  }

  /** The same lines are swallowed before and after expansion. */
  lemma SwallowsExpanded(lines: seq<string>, dir: Direction, sub: Interpolation, k: nat)
    requires Transparent(lines, sub) && k < |lines|
    ensures
      var file := Expanded(lines, sub);
      && |file| == |lines|
      && (Swallows(file[..k], file[k], dir, IDENTITY) <==> Swallows(lines[..k], lines[k], dir, sub))
  {
    hide Classify, Content, KeepsItsRole, Expand, OnAfter, Lines, Transparent;
    ExpandedPrefix(lines, sub, k);
    TransparentPrefix(lines, sub, k);
    RunsExpand(lines[..k], dir, sub);
    ExpandKeepsRole(OnAfter(lines[..k]), lines[k], sub);
  }

  lemma NothingSwallowedExpanded(lines: seq<string>, dir: Direction, sub: Interpolation)
    requires Transparent(lines, sub)
    ensures NothingSwallowed(Expanded(lines, sub), dir, IDENTITY) <==> NothingSwallowed(lines, dir, sub)
  {
    hide Swallows, Transparent;
    var file := Expanded(lines, sub);
    ExpandedPrefix(lines, sub, 0);
    forall k | 0 <= k < |lines|
      ensures Swallows(file[..k], file[k], dir, IDENTITY) <==> Swallows(lines[..k], lines[k], dir, sub)
    {
      SwallowsExpanded(lines, dir, sub, k);
    }
  }

  /** Conservation with substitution: the SQL in the groups of lines that make up the statements is,
      in order and once, the SQL of the section with its variables expanded, exactly when no line
      follows a block that left nothing to store. */
  lemma ExpandedSqlIsConserved(lines: seq<string>, dir: Direction, sub: Interpolation)
    requires Transparent(lines, sub) && Parse(lines, dir, sub).Ok?
    ensures
      var groups := Lines(lines, dir, sub).value.stmts;
      && Parse(lines, dir, sub).value.stmts == CleanupAll(groups)
      && (ContentOf(Flatten(groups)) == SectionContent(Expanded(lines, sub), dir) <==>
            NothingSwallowed(lines, dir, sub))
  {
    hide Transparent, Lines, NothingSwallowed, ContentOf, SectionContent, Flatten;
    var file := Expanded(lines, sub);
    RunsExpand(lines, dir, sub);
    SubstitutionIsExpansion(lines, dir, sub);
    IdentityIsIdentity();
    SqlIsConserved(file, dir, IDENTITY);
    NothingSwallowedExpanded(lines, dir, sub);
  }
}
