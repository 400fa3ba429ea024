/** Printing a migration in the annotated format and parsing it again gives it back: the promise of
    the format described at ParseSQLMigration (internal/sqlparser/parser.go). */
module RoundTrip {
  import opened Wrappers
  import opened GoStrings
  import opened Annotations
  import opened Semicolons
  import opened SqlParser
  import opened OnePass

  /** A statement as it stands in a file: its own lines, perhaps in a block, after lines that the
      splitter skips. */
  datatype Statement = Statement(leading: seq<string>, lines: seq<string>, inBlock: bool)

  function Join(lines: seq<string>): string {
    if lines == [] then ""
    else if |lines| == 1 then lines[0]
    else Join(lines[..|lines| - 1]) + ("\n" + lines[|lines| - 1])
  }

  /** No line is an annotation, the first line is not one to skip, nothing has to be trimmed, and
      outside a block the last line alone ends with a semicolon. */
  ghost predicate WellFormed(s: Statement) {
    && (forall line | line in s.leading :: Skippable(line))
    && s.lines != []
    && (forall line | line in s.lines :: Classify(line) == Text)
    && !Skippable(s.lines[0])
    && Trimmed(Join(s.lines))
    && (s.inBlock ||
        forall i | 0 <= i < |s.lines| :: EndsWithSemicolon(s.lines[i]) <==> i == |s.lines| - 1)
  }

  function PrintStatement(s: Statement): seq<string> {
    if s.inBlock then
      [AnnotationLine(StatementBegin)] + s.leading + s.lines + [AnnotationLine(StatementEnd)]
    else s.leading + s.lines
  }

  function PrintAll(stmts: seq<Statement>): seq<string> {
    if stmts == [] then [] else PrintAll(stmts[..|stmts| - 1]) + PrintStatement(stmts[|stmts| - 1])
  }

  function Print(useTx: bool, ups: seq<Statement>, downs: seq<Statement>): seq<string> {
    [AnnotationLine(Up)] + (if useTx then [] else [AnnotationLine(NoTransaction)]) + PrintAll(ups)
    + [AnnotationLine(Down)] + PrintAll(downs)
  }

  ghost function Texts(stmts: seq<Statement>): seq<string> {
    seq(|stmts|, i requires 0 <= i < |stmts| => Join(stmts[i].lines))
  }

  ghost function Groups(stmts: seq<Statement>): seq<seq<string>> {
    seq(|stmts|, i requires 0 <= i < |stmts| => stmts[i].lines)
  }

  // ----- Text of a statement

  lemma {:induction false} RenderIsJoin(lines: seq<string>)
    requires lines != []
    ensures Render(lines) == Join(lines) + "\n"
  {
    var front, last := lines[..|lines| - 1], lines[|lines| - 1];
    if front == [] {
      assert Render(front) == "";
    } else {
      RenderIsJoin(front);
      assert Join(front) + "\n" + (last + "\n") == Join(front) + ("\n" + last) + "\n";
    }
  }

  lemma CleanupIsJoin(lines: seq<string>)
    requires lines != [] && Trimmed(Join(lines))
    ensures Cleanup(lines) == Join(lines)
  {
    RenderIsJoin(lines);
    assert AllSpace("") && AllSpace("\n");
    TrimSpaceOfCore("", Join(lines), "\n");
    assert "" + Join(lines) + "\n" == Join(lines) + "\n";
  }

  lemma CleanupOfGroups(stmts: seq<Statement>)
    requires forall s | s in stmts :: WellFormed(s)
    ensures CleanupAll(Groups(stmts)) == Texts(stmts)
  {
    forall i | 0 <= i < |stmts|
      ensures CleanupAll(Groups(stmts))[i] == Texts(stmts)[i]
    {
      assert stmts[i] in stmts;
      CleanupIsJoin(stmts[i].lines);
    }
  }

  // ----- Feeding a statement to the single pass

  /** Ready for the next statement of a section. */
  predicate Ready(run: Run) {
    (run.state == GooseUp || run.state == GooseDown) && run.buf == [] && !run.useEnvsub
  }

  function BlockState(s: ParserState): ParserState
    requires s == GooseUp || s == GooseDown
  {
    if s == GooseUp then StatementBeginUp else StatementBeginDown
  }

  lemma SkipStep(p: Pass, line: string, sub: Interpolation)
    requires Skippable(line) && p.run.buf == [] && p.run.state != Start
    ensures StepBoth(p, line, sub) == Ok(p)
  {
  }

  lemma {:induction false} FeedLeading(p: Pass, lines: seq<string>, sub: Interpolation)
    requires forall line | line in lines :: Skippable(line)
    requires p.run.buf == [] && p.run.state != Start
    ensures Feed(p, lines, sub) == Ok(p)
  {
    hide Skippable, Step;
    if lines != [] {
      FeedLeading(p, lines[..|lines| - 1], sub);
      SkipStep(p, lines[|lines| - 1], sub);
    }
  }

  lemma TextStep(p: Pass, line: string, sub: Interpolation)
    requires Classify(line) == Text && (p.run.buf == [] ==> !Skippable(line))
    requires p.run.state != Start && !AtBlockEnd(p.run.state) && !p.run.useEnvsub
    ensures StepBoth(p, line, sub) == Ok(p.(run := Accept(p.run, line)))
  {
    hide EndsWithSemicolon, TrimSpace, Classify;
    assert Classify(line) == Text;
  }

  /** Lines of an unfinished statement are collected in the buffer. */
  lemma {:induction false} FeedText(p: Pass, lines: seq<string>, sub: Interpolation)
    requires p.run.buf == [] && !p.run.useEnvsub && p.run.state != Start && !AtBlockEnd(p.run.state)
    requires forall line | line in lines :: Classify(line) == Text
    requires lines != [] ==> !Skippable(lines[0])
    requires InBlock(p.run.state) || forall line | line in lines :: !EndsWithSemicolon(line)
    ensures Feed(p, lines, sub) == Ok(p.(run := p.run.(buf := lines)))
  {
    hide EndsWithSemicolon, Classify, Skippable;
    if lines != [] {
      var front, last := lines[..|lines| - 1], lines[|lines| - 1];
      assert last in lines && front + [last] == lines;
      FeedText(p, front, sub);
      TextStep(p.(run := p.run.(buf := front)), last, sub);
    }
  }

  lemma BareLines(s: Statement)
    requires WellFormed(s) && !s.inBlock
    ensures s.lines != [] && !Skippable(s.lines[0])
    ensures forall line | line in s.leading :: Skippable(line)
    ensures
      var front, last := s.lines[..|s.lines| - 1], s.lines[|s.lines| - 1];
      && front + [last] == s.lines
      && Classify(last) == Text && EndsWithSemicolon(last)
      && forall line | line in front :: Classify(line) == Text && !EndsWithSemicolon(line)
  {
    hide EndsWithSemicolon, Classify, Skippable, Join;
    var front, last := s.lines[..|s.lines| - 1], s.lines[|s.lines| - 1];
    assert last in s.lines;
    forall line | line in front ensures Classify(line) == Text && !EndsWithSemicolon(line) {
      var i :| 0 <= i < |front| && front[i] == line;
      assert s.lines[i] == line && line in s.lines;
    }
  }

  lemma FeedBare(p: Pass, s: Statement, sub: Interpolation)
    requires Ready(p.run) && WellFormed(s) && !s.inBlock
    ensures Feed(p, PrintStatement(s), sub) == Ok(p.(run := p.run.(stmts := p.run.stmts + [s.lines])))
  {
    hide EndsWithSemicolon, Classify, Skippable, WellFormed, Feed;
    BareLines(s);
    var front, last := s.lines[..|s.lines| - 1], s.lines[|s.lines| - 1];
    FeedLeading(p, s.leading, sub);
    FeedConcat(p, s.leading, s.lines, sub);
    FeedText(p, front, sub);
    FeedAppend(p, front, last, sub);
    TextStep(p.(run := p.run.(buf := front)), last, sub);
  }

  lemma BlockBegins(p: Pass, sub: Interpolation)
    requires Ready(p.run)
    ensures StepBoth(p, AnnotationLine(StatementBegin), sub) == Ok(p.(run := p.run.(state := BlockState(p.run.state))))
  {
    hide Classify, AnnotationLine;
    DirectiveSteps(p.run, StatementBegin, Owner(p.run.state), sub);
  }

  lemma BlockEnds(p: Pass, s: ParserState, sub: Interpolation)
    requires (s == GooseUp || s == GooseDown) && p.run.state == BlockState(s) && p.run.buf != []
    ensures StepBoth(p, AnnotationLine(StatementEnd), sub) == Ok(p.(run := Store(p.run).(state := s)))
  {
    hide Classify, AnnotationLine;
    DirectiveSteps(p.run, StatementEnd, Owner(p.run.state), sub);
  }

  lemma FeedBlock(p: Pass, s: Statement, sub: Interpolation)
    requires Ready(p.run) && WellFormed(s) && s.inBlock
    ensures Feed(p, PrintStatement(s), sub) == Ok(p.(run := p.run.(stmts := p.run.stmts + [s.lines])))
  {
    hide EndsWithSemicolon, Classify, Skippable, Join, AnnotationLine, Step;
    var begin, end := AnnotationLine(StatementBegin), AnnotationLine(StatementEnd);
    var q := p.(run := p.run.(state := BlockState(p.run.state)));
    BlockBegins(p, sub);
    assert [] + [begin] == [begin];
    FeedAppend(p, [], begin, sub);
    FeedLeading(q, s.leading, sub);
    FeedConcat(p, [begin], s.leading, sub);
    FeedText(q, s.lines, sub);
    FeedConcat(p, [begin] + s.leading, s.lines, sub);
    FeedAppend(p, [begin] + s.leading + s.lines, end, sub);
    BlockEnds(q.(run := q.run.(buf := s.lines)), p.run.state, sub);
  }

  lemma {:induction false} FeedAll(p: Pass, stmts: seq<Statement>, sub: Interpolation)
    requires Ready(p.run) && p.run.stmts == []
    requires forall s | s in stmts :: WellFormed(s)
    ensures Feed(p, PrintAll(stmts), sub) == Ok(p.(run := p.run.(stmts := Groups(stmts))))
  {
    hide WellFormed, PrintStatement, StepBoth;
    if stmts == [] {
      assert Groups(stmts) == [];
    } else {
      var front, last := stmts[..|stmts| - 1], stmts[|stmts| - 1];
      assert last in stmts;
      FeedAll(p, front, sub);
      var q := p.(run := p.run.(stmts := Groups(front)));
      FeedConcat(p, PrintAll(front), PrintStatement(last), sub);
      FeedOne(q, last, sub);
      assert Groups(stmts) == Groups(front) + [last.lines];
    }
  }

  lemma FeedOne(p: Pass, s: Statement, sub: Interpolation)
    requires Ready(p.run) && WellFormed(s)
    ensures Feed(p, PrintStatement(s), sub) == Ok(p.(run := p.run.(stmts := p.run.stmts + [s.lines])))
  {
    hide WellFormed, PrintStatement, Feed;
    if s.inBlock {
      FeedBlock(p, s, sub);
    } else {
      FeedBare(p, s, sub);
    }
  }

  // ----- The file

  function Header(useTx: bool): seq<string> {
    [AnnotationLine(Up)] + (if useTx then [] else [AnnotationLine(NoTransaction)])
  }

  lemma FeedHeader(useTx: bool, sub: Interpolation)
    ensures LinesBoth(Header(useTx), sub) == Ok(Pass(Run(GooseUp, useTx, false, [], []), []))
  {
    hide Classify, AnnotationLine;
    var start, up := Pass(INITIAL, []), AnnotationLine(Up);
    DirectiveSteps(INITIAL, Up, DirectionUp, sub);
    assert [] + [up] == [up];
    FeedAppend(start, [], up, sub);
    if useTx {
      assert Header(useTx) == [up];
    } else {
      DirectiveSteps(INITIAL.(state := GooseUp), NoTransaction, DirectionUp, sub);
      FeedAppend(start, [up], AnnotationLine(NoTransaction), sub);
    }
  }

  lemma FeedDown(p: Pass, sub: Interpolation)
    requires p.run.state == GooseUp && p.run.buf == []
    ensures StepBoth(p, AnnotationLine(Down), sub) ==
            Ok(Pass(p.run.(state := GooseDown, stmts := []), p.run.stmts))
  {
    hide Classify, AnnotationLine;
    DirectiveSteps(p.run, Down, DirectionUp, sub);
    EmptyIsBlank();
  }

  lemma PassOnPrinted(useTx: bool, ups: seq<Statement>, downs: seq<Statement>, sub: Interpolation)
    requires forall s | s in ups + downs :: WellFormed(s)
    ensures LinesBoth(Print(useTx, ups, downs), sub) ==
            Ok(Pass(Run(GooseDown, useTx, false, [], Groups(downs)), Groups(ups)))
  {
    hide Feed, WellFormed, PrintAll, StepBoth, AnnotationLine;
    var start := Pass(INITIAL, []);
    var header, down := Header(useTx), AnnotationLine(Down);
    var upSection := header + PrintAll(ups);
    FeedHeader(useTx, sub);
    var p := Pass(Run(GooseUp, useTx, false, [], []), []);
    forall s | s in ups ensures WellFormed(s) { assert s in ups + downs; }
    forall s | s in downs ensures WellFormed(s) { assert s in ups + downs; }
    FeedAll(p, ups, sub);
    FeedConcat(start, header, PrintAll(ups), sub);
    FeedAppend(start, upSection, down, sub);
    FeedDown(p.(run := p.run.(stmts := Groups(ups))), sub);
    var q := Pass(Run(GooseDown, useTx, false, [], []), Groups(ups));
    FeedAll(q, downs, sub);
    FeedConcat(start, upSection + [down], PrintAll(downs), sub);
    assert Print(useTx, ups, downs) == upSection + [down] + PrintAll(downs);
  }

  /** No printed line switches substitution on. */
  lemma {:induction false} PrintedAllHasNoEnvsub(stmts: seq<Statement>)
    requires forall s | s in stmts :: WellFormed(s)
    ensures forall line | line in PrintAll(stmts) :: Classify(line) != Directive(EnvsubOn)
  {
    hide Classify, PrintStatement, WellFormed;
    if stmts != [] {
      var front, last := stmts[..|stmts| - 1], stmts[|stmts| - 1];
      assert last in stmts;
      PrintedAllHasNoEnvsub(front);
      PrintedStatementHasNoEnvsub(last);
    }
  }

  lemma PrintedStatementHasNoEnvsub(s: Statement)
    requires WellFormed(s)
    ensures forall line | line in PrintStatement(s) :: Classify(line) != Directive(EnvsubOn)
  {
    hide Classify, AnnotationLine, Join, EndsWithSemicolon, IsComment, Trimmed;
    AnnotationRoundTrip(StatementBegin);
    AnnotationRoundTrip(StatementEnd);
  }

  lemma PrintedHasNoEnvsub(useTx: bool, ups: seq<Statement>, downs: seq<Statement>)
    requires forall s | s in ups + downs :: WellFormed(s)
    ensures forall line | line in Print(useTx, ups, downs) :: Classify(line) != Directive(EnvsubOn)
  {
    hide Classify, AnnotationLine, WellFormed, PrintAll;
    forall s | s in ups ensures WellFormed(s) { assert s in ups + downs; }
    forall s | s in downs ensures WellFormed(s) { assert s in ups + downs; }
    PrintedAllHasNoEnvsub(ups);
    PrintedAllHasNoEnvsub(downs);
    AnnotationRoundTrip(Up);
    AnnotationRoundTrip(Down);
    AnnotationRoundTrip(NoTransaction);
  }

  /** Parsing a printed migration, in either direction and under any environment, returns exactly
      the statements printed for that direction, in order, and the transaction flag. */
  lemma PrintedParsesBack(useTx: bool, ups: seq<Statement>, downs: seq<Statement>, sub: Interpolation)
    requires forall s | s in ups + downs :: WellFormed(s)
    ensures Parse(Print(useTx, ups, downs), DirectionUp, sub) == Ok(Script(Texts(ups), useTx))
    ensures Parse(Print(useTx, ups, downs), DirectionDown, sub) == Ok(Script(Texts(downs), useTx))
  {
    hide Classify, AnnotationLine, Feed, Print, Lines, Join, EndsWithSemicolon;
    var file := Print(useTx, ups, downs);
    PassOnPrinted(useTx, ups, downs, sub);
    PrintedHasNoEnvsub(useTx, ups, downs);
    forall s | s in ups ensures WellFormed(s) { assert s in ups + downs; }
    forall s | s in downs ensures WellFormed(s) { assert s in ups + downs; }
    CleanupOfGroups(ups);
    CleanupOfGroups(downs);
    EmptyIsBlank();
    assert ParseBoth(file, sub) == Ok(Migration(useTx, Texts(ups), Texts(downs)));
    OnePassComplete(file, sub);
    OnePassSound(file, sub);
  }
}
