/** Where a reader of the file stands after some lines, told by the lines alone: whether the requested
    section has an unfinished statement, a block, or a block that has just ended with nothing in it
    (internal/sqlparser/parser.go). The conditions on the splitter's runs are put in these terms. */
module Standings {
  import opened Wrappers
  import opened GoStrings
  import opened Annotations
  import opened Semicolons
  import opened SqlParser
  import opened OnePass
  import opened Conservation
  import opened StatementStarts

  datatype Standing = Elsewhere | Nothing | Something | NothingInBlock | SomethingInBlock | NothingAfterBlock

  function OnText(s: Standing, line: string): Standing {
    if !Plain(line) then s
    else
      match s
      case Elsewhere => Elsewhere
      case Nothing | Something => if EndsWithSemicolon(line) then Nothing else Something
      case NothingInBlock | SomethingInBlock => SomethingInBlock
      case NothingAfterBlock => Nothing
  }

  function OnAnnotation(s: Standing, a: Annotation, dir: Direction): Standing {
    match a
    case Up => if dir == DirectionUp then Nothing else Elsewhere
    case Down => if dir == DirectionDown then Nothing else Elsewhere
    case StatementBegin =>
      if s == Nothing || s == NothingAfterBlock then NothingInBlock
      else if s == Something then SomethingInBlock
      else s
    case StatementEnd =>
      if s == NothingInBlock then NothingAfterBlock
      else if s == SomethingInBlock then Nothing
      else s
    case NoTransaction | EnvsubOn | EnvsubOff => s
  }

  function OnLine(s: Standing, line: string, dir: Direction): Standing {
    match Classify(line)
    case Text => OnText(s, line)
    case Directive(a) => OnAnnotation(s, a, dir)
    case Malformed(_) => s
  }

  function StandingAfter(lines: seq<string>, dir: Direction): Standing {
    if lines == [] then Elsewhere
    else OnLine(StandingAfter(lines[..|lines| - 1], dir), lines[|lines| - 1], dir)
  }

  /** The standing that a run is in. */
  function StandingOf(run: Run, dir: Direction): Standing {
    if !Requested(run.state, dir) then Elsewhere
    else if AtBlockEnd(run.state) then NothingAfterBlock
    else if InBlock(run.state) then if run.buf == [] then NothingInBlock else SomethingInBlock
    else if run.buf == [] then Nothing
    else Something
  }

  lemma SkippedEndsNothing(line: string)
    requires IsComment(line) || line == ""
    ensures !EndsWithSemicolon(line)
  {
    hide IsComment;
    if IsComment(line) {
      CommentHasNoSemicolon(line);
    }
  }

  lemma TextStands(run: Run, line: string, next: Run, dir: Direction, sub: Interpolation)
    requires Tidy(run, dir, sub) && Classify(line) == Text && Consume(run, line, dir, sub) == Ok(next)
    ensures StandingOf(next, dir) == OnText(StandingOf(run, dir), line)
  {
    hide Classify, IsComment, TrimSpace, EndsWithSemicolon, ContentOf;
    if !Plain(line) {
      SkippedEndsNothing(line);
    }
  }

  lemma AnnotationStands(run: Run, a: Annotation, line: string, next: Run, dir: Direction, sub: Interpolation)
    requires Tidy(run, dir, sub) && IsComment(line) && Obey(run, a, line, dir, sub) == Ok(next)
    ensures StandingOf(next, dir) == OnAnnotation(StandingOf(run, dir), a, dir)
  {
    hide Classify, IsComment, TrimSpace, EndsWithSemicolon, ContentOf, Render;
  }

  lemma LineStands(run: Run, line: string, next: Run, dir: Direction, sub: Interpolation)
    requires Tidy(run, dir, sub) && Step(run, line, dir, sub) == Ok(next)
    ensures StandingOf(next, dir) == OnLine(StandingOf(run, dir), line, dir)
  {
    hide Classify, TrimSpace, IsComment, Consume, Obey, Tidy, OnText, OnAnnotation;
    if run.state == Start && TrimSpace(line) == "" {
      BlankIsText(line);
      ElsewhereStays(line);
    } else if Classify(line) == Text {
      TextStands(run, line, next, dir, sub);
    } else {
      AnnotationIsComment(line);
      AnnotationStands(run, Classify(line).annotation, line, next, dir, sub);
    }
  }

  lemma ElsewhereStays(line: string)
    ensures OnText(Elsewhere, line) == Elsewhere
  {
  }

  /** The lines alone tell where a run stands. */
  lemma {:induction false} RunStands(lines: seq<string>, dir: Direction, sub: Interpolation)
    requires Literal(lines, sub) && Lines(lines, dir, sub).Ok?
    ensures StandingOf(Lines(lines, dir, sub).value, dir) == StandingAfter(lines, dir)
  {
    hide Literal, Tidy, Step, OnLine, StandingOf;
    if lines == [] {
      StartIsElsewhere(dir);
    } else {
      var front := lines[..|lines| - 1];
      LiteralFront(lines, sub);
      LastStep(lines, dir, sub);
      RunStands(front, dir, sub);
      RunHolds(front, dir, sub);
      LineStands(Lines(front, dir, sub).value, lines[|lines| - 1], Lines(lines, dir, sub).value, dir, sub);
    }
  }

  lemma StartIsElsewhere(dir: Direction)
    ensures StandingOf(INITIAL, dir) == Elsewhere
  {
  }

  /** The same for each prefix of a file that parses. */
  lemma PrefixStands(lines: seq<string>, k: nat, dir: Direction, sub: Interpolation)
    requires Literal(lines, sub) && Lines(lines, dir, sub).Ok? && k <= |lines|
    ensures Lines(lines[..k], dir, sub).Ok?
    ensures StandingOf(Lines(lines[..k], dir, sub).value, dir) == StandingAfter(lines[..k], dir)
  {
    hide StandingOf, Lines;
    if Lines(lines[..k], dir, sub).Err? {
      FailurePersists(lines, k, dir, sub);
    }
    LiteralPrefix(lines, k, sub);
    RunStands(lines[..k], dir, sub);
  }

  lemma LiteralPrefix(lines: seq<string>, k: nat, sub: Interpolation)
    requires Literal(lines, sub) && k <= |lines|
    ensures Literal(lines[..k], sub)
  {
    hide Classify;
    forall line | line in lines[..k] ensures line in lines {
    }
  }

  // ----- Conditions on lines

  /** A line of SQL is the first text after a block with nothing in it. */
  ghost predicate SqlAfterEmptyBlock(lines: seq<string>, dir: Direction) {
    exists k | 0 <= k < |lines| :: StandingAfter(lines[..k], dir) == NothingAfterBlock && Content(lines[k])
  }

  /** In terms of the lines: all SQL of the section is in the returned statements, once and in order, if
      and only if no line of SQL is the first text after a block with nothing in it. */
  lemma SqlIsConservedByLines(lines: seq<string>, dir: Direction, sub: Interpolation)
    requires Literal(lines, sub) && Parse(lines, dir, sub).Ok?
    ensures ContentOf(Flatten(Lines(lines, dir, sub).value.stmts)) == SectionContent(lines, dir) <==>
            !SqlAfterEmptyBlock(lines, dir)
  {
    hide Lines, Literal, Content, ContentOf, Flatten, SectionContent, StandingAfter;
    SqlIsConserved(lines, dir, sub);
    forall k | 0 <= k < |lines|
      ensures Swallows(lines[..k], lines[k], dir, sub) <==>
              StandingAfter(lines[..k], dir) == NothingAfterBlock && Content(lines[k])
    {
      PrefixStands(lines, k, dir, sub);
    }
  }

  /** Text is the first after a block with nothing in it, or a whitespace-only line stands where a
      statement would begin and SQL, or the end of a block, follows in the section. */
  ghost predicate DisturbedByLines(lines: seq<string>, dir: Direction) {
    || (exists k | 0 <= k < |lines| :: StandingAfter(lines[..k], dir) == NothingAfterBlock && Plain(lines[k]))
    || (exists k | 0 <= k < |lines| :: SpaceWhereStatementBegins(lines, k, dir) && GoesOnAfter(lines, k, dir))
  }

  predicate SpaceWhereStatementBegins(lines: seq<string>, k: nat, dir: Direction)
    requires k < |lines|
  {
    var s := StandingAfter(lines[..k], dir);
    (s == Nothing || s == NothingInBlock) && Plain(lines[k]) && !Content(lines[k])
  }

  /** In terms of the lines: all statements begin with SQL if and only if neither happens. */
  lemma StatementsBeginWithSqlByLines(lines: seq<string>, dir: Direction, sub: Interpolation)
    requires Literal(lines, sub) && Parse(lines, dir, sub).Ok?
    ensures AllBeginWithSql(Lines(lines, dir, sub).value.stmts) <==> !DisturbedByLines(lines, dir)
  {
    hide Lines, Literal, Content, Plain, StandingAfter, GoesOnAfter, AllBeginWithSql;
    StatementsBeginWithSqlIff(lines, dir, sub);
    forall k: nat | k < |lines|
      ensures EmptyStatementAt(lines, k, dir, sub) <==>
              StandingAfter(lines[..k], dir) == NothingAfterBlock && Plain(lines[k])
      ensures SpaceOpensAt(lines, k, dir, sub) <==> SpaceWhereStatementBegins(lines, k, dir)
    {
      PrefixStands(lines, k, dir, sub);
    }
  }

  /** A comment, or an empty line, of a file becomes text of a statement if and only if something, be it
      whitespace, has been read of that statement before. */
  lemma CommentIsKeptByLines(lines: seq<string>, k: nat, dir: Direction, sub: Interpolation)
    requires Literal(lines, sub) && Lines(lines, dir, sub).Ok? && k < |lines| && Skippable(lines[k])
    ensures Lines(lines[..k], dir, sub).Ok? && Lines(lines[..k + 1], dir, sub).Ok?
    ensures
      var run, next := Lines(lines[..k], dir, sub).value, Lines(lines[..k + 1], dir, sub).value;
      var s := StandingAfter(lines[..k], dir);
      && next.stmts == run.stmts
      && (next.buf == run.buf + [lines[k]] <==> s == Something || s == SomethingInBlock)
  {
    hide Literal, StandingAfter, Lines, Skippable;
    PrefixStands(lines, k, dir, sub);
    PrefixStands(lines, k + 1, dir, sub);
    LiteralPrefix(lines, k, sub);
    RunHolds(lines[..k], dir, sub);
    assert lines[..k + 1][..k] == lines[..k];
    LastStep(lines[..k + 1], dir, sub);
    var run, next := Lines(lines[..k], dir, sub).value, Lines(lines[..k + 1], dir, sub).value;
    SkippableStep(run, lines[k], next, dir, sub);
  }

  lemma SkippableStep(run: Run, line: string, next: Run, dir: Direction, sub: Interpolation)
    requires Tidy(run, dir, sub) && Skippable(line) && Step(run, line, dir, sub) == Ok(next)
    ensures next.stmts == run.stmts
    ensures
      var s := StandingOf(run, dir);
      next.buf == run.buf + [line] <==> s == Something || s == SomethingInBlock
  {
    hide Classify, IsComment, TrimSpace, EndsWithSemicolon, ContentOf;
    SkippedEndsNothing(line);
    assert |run.buf + [line]| > |run.buf|;
  }
}
