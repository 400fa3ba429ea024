/** With which lines the returned statements begin (internal/sqlparser/parser.go): leading comments and
    empty lines are skipped, but a whitespace-only line counts as the beginning of a statement, and an
    empty block makes a statement of nothing. */
module StatementStarts {
  import opened Wrappers
  import opened GoStrings
  import opened Annotations
  import opened Semicolons
  import opened SqlParser
  import opened OnePass
  import opened Conservation

  /** Text that is never skipped. */
  predicate Plain(line: string) {
    Classify(line) == Text && !IsComment(line) && line != ""
  }

  predicate BeginsWithSql(group: seq<string>) {
    group != [] && Content(group[0])
  }

  ghost predicate AllBeginWithSql(groups: seq<seq<string>>) {
    forall group | group in groups :: BeginsWithSql(group)
  }

  /** The line after the first k follows a block that left nothing to store. */
  ghost predicate EmptyStatementAt(lines: seq<string>, k: nat, dir: Direction, sub: Interpolation) {
    && k < |lines| && Lines(lines[..k], dir, sub).Ok?
    && var run := Lines(lines[..k], dir, sub).value;
       Requested(run.state, dir) && AtBlockEnd(run.state) && Plain(lines[k])
  }

  /** The line after the first k is whitespace and meets an empty buffer. */
  ghost predicate SpaceOpensAt(lines: seq<string>, k: nat, dir: Direction, sub: Interpolation) {
    && k < |lines| && Lines(lines[..k], dir, sub).Ok?
    && var run := Lines(lines[..k], dir, sub).value;
       && Requested(run.state, dir) && !AtBlockEnd(run.state) && run.buf == []
       && Plain(lines[k]) && !Content(lines[k])
  }

  /** The line after the first j is SQL of the section, or ends a block of it. */
  predicate GoesOnAt(lines: seq<string>, j: nat, dir: Direction) {
    && j < |lines| && SectionAfter(lines[..j]) == Wanted(dir)
    && (Content(lines[j]) || Classify(lines[j]) == Directive(StatementEnd))
  }

  ghost predicate GoesOnAfter(lines: seq<string>, k: nat, dir: Direction) {
    exists j :: k < j && GoesOnAt(lines, j, dir)
  }

  ghost predicate Opened(lines: seq<string>, dir: Direction, sub: Interpolation) {
    exists k :: SpaceOpensAt(lines, k, dir, sub)
  }

  ghost predicate Disturbed(lines: seq<string>, dir: Direction, sub: Interpolation) {
    || (exists k :: EmptyStatementAt(lines, k, dir, sub))
    || (exists k :: SpaceOpensAt(lines, k, dir, sub) && GoesOnAfter(lines, k, dir))
  }

  // ----- Prefixes of a file

  lemma AtPrefix(lines: seq<string>, k: nat, dir: Direction, sub: Interpolation)
    requires lines != [] && k < |lines| - 1
    ensures
      var front := lines[..|lines| - 1];
      && (EmptyStatementAt(front, k, dir, sub) <==> EmptyStatementAt(lines, k, dir, sub))
      && (SpaceOpensAt(front, k, dir, sub) <==> SpaceOpensAt(lines, k, dir, sub))
      && (GoesOnAt(front, k, dir) <==> GoesOnAt(lines, k, dir))
  {
    hide Lines, Plain, Content, Classify, SectionAfter;
    var front := lines[..|lines| - 1];
    assert front[..k] == lines[..k] && front[k] == lines[k];
  }

  lemma DisturbedGrows(lines: seq<string>, dir: Direction, sub: Interpolation)
    requires lines != []
    ensures Disturbed(lines[..|lines| - 1], dir, sub) ==> Disturbed(lines, dir, sub)
    ensures Opened(lines[..|lines| - 1], dir, sub) ==> Opened(lines, dir, sub)
  {
    hide EmptyStatementAt, SpaceOpensAt, GoesOnAt;
    var front := lines[..|lines| - 1];
    forall k: nat | k < |front|
      ensures EmptyStatementAt(front, k, dir, sub) ==> EmptyStatementAt(lines, k, dir, sub)
      ensures SpaceOpensAt(front, k, dir, sub) ==> SpaceOpensAt(lines, k, dir, sub)
      ensures GoesOnAt(front, k, dir) ==> GoesOnAt(lines, k, dir)
    {
      AtPrefix(lines, k, dir, sub);
    }
    forall k: nat | GoesOnAfter(front, k, dir) ensures GoesOnAfter(lines, k, dir) {
      GoesOnGrows(lines, k, dir, sub);
    }
    forall k: nat | k >= |front|
      ensures !EmptyStatementAt(front, k, dir, sub) && !SpaceOpensAt(front, k, dir, sub) && !GoesOnAt(front, k, dir)
    {
      BeyondEnd(front, k, dir, sub);
    }
  }

  lemma GoesOnGrows(lines: seq<string>, k: nat, dir: Direction, sub: Interpolation)
    requires lines != [] && GoesOnAfter(lines[..|lines| - 1], k, dir)
    ensures GoesOnAfter(lines, k, dir)
  {
    hide GoesOnAt;
    var front := lines[..|lines| - 1];
    var j: nat :| k < j && GoesOnAt(front, j, dir);
    if j < |front| {
      AtPrefix(lines, j, dir, sub);
    } else {
      BeyondEnd(front, j, dir, sub);
    }
  }

  lemma BeyondEnd(lines: seq<string>, k: nat, dir: Direction, sub: Interpolation)
    requires k >= |lines|
    ensures !EmptyStatementAt(lines, k, dir, sub) && !SpaceOpensAt(lines, k, dir, sub) && !GoesOnAt(lines, k, dir)
  {
  }

  // ----- One line

  datatype Deed = Kept | Dropped | Buffered | StoredText | StoredBlock | StoredNothing

  /** What a line does to the buffer and the statements. */
  ghost predicate Does(deed: Deed, run: Run, line: string, next: Run, dir: Direction) {
    match deed
    case Kept => next.stmts == run.stmts && next.buf == run.buf
    case Dropped => next.stmts == run.stmts && next.buf == [] && !Requested(run.state, dir)
    case Buffered => next.stmts == run.stmts && next.buf == run.buf + [line]
    case StoredText => next.stmts == run.stmts + [run.buf + [line]] && next.buf == []
    case StoredBlock => next.stmts == run.stmts + [run.buf] && next.buf == [] && run.buf != []
    case StoredNothing => next.stmts == run.stmts + [[]] && next.buf == []
  }

  /** When it does so, for a requested section. */
  ghost predicate Occasion(deed: Deed, run: Run, line: string, dir: Direction) {
    match deed
    case Kept => run.buf != [] ==> !Content(line) && Classify(line) != Directive(StatementEnd)
    case Dropped => false
    case Buffered => !AtBlockEnd(run.state) && (run.buf == [] ==> Plain(line)) && Classify(line) == Text
    case StoredText => !AtBlockEnd(run.state) && (run.buf == [] ==> Plain(line)) && Content(line)
    case StoredBlock => Classify(line) == Directive(StatementEnd)
    case StoredNothing => AtBlockEnd(run.state) && Plain(line)
  }

  /** A comment never ends a statement. */
  lemma CommentHasNoSemicolon(line: string)
    requires IsComment(line)
    ensures !EndsWithSemicolon(line)
  {
    hide TrimSpace;
    var pre, post := TrimSpaceSplits(line);
    assert TrimSpace(line)[0] == line[|pre|] && TrimSpace(line)[1] == line[|pre| + 1];
    assert CommentStart(line, |pre|);
    assert Cut(line, 0) <= |pre| && !IsSpace(';');
    assert forall i | 0 <= i < |pre| :: line[i] == pre[i];
  }

  /** A line of text that ends with a semicolon carries SQL. */
  lemma SemicolonIsContent(line: string)
    requires Classify(line) == Text && EndsWithSemicolon(line)
    ensures Content(line)
  {
    hide Classify, TrimSpace, IsComment;
    if IsComment(line) {
      CommentHasNoSemicolon(line);
    } else {
      assert !IsSpace(';');
      BlankIffAllSpace(line);
    }
  }

  lemma TextDoes(run: Run, line: string, next: Run, dir: Direction, sub: Interpolation) returns (deed: Deed)
    requires Tidy(run, dir, sub) && Classify(line) == Text && Consume(run, line, dir, sub) == Ok(next)
    ensures Does(deed, run, line, next, dir) && (Requested(run.state, dir) ==> Occasion(deed, run, line, dir))
  {
    hide Classify, IsComment, TrimSpace, EndsWithSemicolon, ContentOf;
    EmptyTrims();
    if Skipped(run.buf, line) {
      deed := Kept;
    } else if !Requested(run.state, dir) {
      deed := Dropped;
    } else if AtBlockEnd(run.state) {
      deed := StoredNothing;
    } else if !InBlock(run.state) && EndsWithSemicolon(line) {
      SemicolonIsContent(line);
      deed := StoredText;
    } else {
      deed := Buffered;
    }
  }

  lemma DirectiveDoes(run: Run, a: Annotation, line: string, next: Run, dir: Direction, sub: Interpolation)
    returns (deed: Deed)
    requires Tidy(run, dir, sub) && IsComment(line) && Classify(line) == Directive(a)
    requires Obey(run, a, line, dir, sub) == Ok(next)
    ensures Does(deed, run, line, next, dir) && (Requested(run.state, dir) ==> Occasion(deed, run, line, dir))
  {
    hide Classify, IsComment, TrimSpace, EndsWithSemicolon, ContentOf, Render;
    if a != StatementEnd || Skipped(run.buf, line) {
      deed := Kept;
    } else if !Requested(run.state, dir) {
      deed := Dropped;
    } else {
      deed := StoredBlock;
    }
  }

  lemma LineDoes(run: Run, line: string, next: Run, dir: Direction, sub: Interpolation) returns (deed: Deed)
    requires Tidy(run, dir, sub) && Step(run, line, dir, sub) == Ok(next)
    ensures Does(deed, run, line, next, dir) && (Requested(run.state, dir) ==> Occasion(deed, run, line, dir))
  {
    hide Classify, TrimSpace, IsComment, Consume, Obey, Tidy;
    if run.state == Start && TrimSpace(line) == "" {
      deed := Kept;
    } else if Classify(line) == Text {
      deed := TextDoes(run, line, next, dir, sub);
    } else {
      AnnotationIsComment(line);
      deed := DirectiveDoes(run, Classify(line).annotation, line, next, dir, sub);
    }
  }

  /** A run that is not in its section stores nothing. */
  lemma ForeignStoresNothing(run: Run, line: string, next: Run, dir: Direction, sub: Interpolation)
    requires Step(run, line, dir, sub) == Ok(next) && !Requested(run.state, dir)
    ensures next.stmts == run.stmts
  {
    hide Classify, TrimSpace, IsComment, Render;
  }

  // ----- Statements that do not begin with SQL come from disturbances

  /** The head of the buffer of a run in its section. */
  ghost predicate SpaceHeads(run: Run, dir: Direction) {
    Requested(run.state, dir) && run.buf != [] && !Content(run.buf[0])
  }

  lemma {:induction false} BadIsDisturbed(lines: seq<string>, dir: Direction, sub: Interpolation)
    requires Literal(lines, sub) && Lines(lines, dir, sub).Ok?
    ensures
      var run := Lines(lines, dir, sub).value;
      && (SpaceHeads(run, dir) ==> Opened(lines, dir, sub))
      && (!AllBeginWithSql(run.stmts) ==> Disturbed(lines, dir, sub))
  {
    hide Content, Step, Literal, Tidy, Opened, Disturbed, Plain, Classify;
    if lines != [] {
      var front, last := lines[..|lines| - 1], lines[|lines| - 1];
      LiteralFront(lines, sub);
      BadIsDisturbed(front, dir, sub);
      DisturbedGrows(lines, dir, sub);
      RunHolds(front, dir, sub);
      var run, next := Lines(front, dir, sub).value, Lines(lines, dir, sub).value;
      var deed := LineDoes(run, last, next, dir, sub);
      if Requested(run.state, dir) {
        LastDisturbs(lines, deed, dir, sub);
      } else {
        ForeignStoresNothing(run, last, next, dir, sub);
        ForeignHoldsNothing(front, last, dir, sub);
      }
    }
  }

  lemma LiteralFront(lines: seq<string>, sub: Interpolation)
    requires Literal(lines, sub) && lines != []
    ensures Literal(lines[..|lines| - 1], sub)
  {
    hide Classify;
    forall line | line in lines[..|lines| - 1] ensures line in lines {
    }
  }

  /** A run that enters its section does so with an empty buffer. */
  lemma ForeignHoldsNothing(front: seq<string>, line: string, dir: Direction, sub: Interpolation)
    requires Literal(front, sub) && Lines(front, dir, sub).Ok?
    requires Step(Lines(front, dir, sub).value, line, dir, sub).Ok?
    requires !Requested(Lines(front, dir, sub).value.state, dir)
    ensures
      var next := Step(Lines(front, dir, sub).value, line, dir, sub).value;
      Requested(next.state, dir) ==> next.buf == []
  {
    hide Classify, TrimSpace, IsComment, Render, Lines, ContentOf;
    RunHolds(front, dir, sub);
  }

  lemma LastDisturbs(lines: seq<string>, deed: Deed, dir: Direction, sub: Interpolation)
    requires lines != [] && Lines(lines, dir, sub).Ok?
    requires
      var front, last := lines[..|lines| - 1], lines[|lines| - 1];
      var run, next := Lines(front, dir, sub).value, Lines(lines, dir, sub).value;
      && Does(deed, run, last, next, dir) && Requested(run.state, dir) && Occasion(deed, run, last, dir)
      && SectionAfter(front) == Wanted(dir)
      && (SpaceHeads(run, dir) ==> Opened(front, dir, sub))
      && (!AllBeginWithSql(run.stmts) ==> Disturbed(front, dir, sub))
    ensures
      var next := Lines(lines, dir, sub).value;
      && (SpaceHeads(next, dir) ==> Opened(lines, dir, sub))
      && (!AllBeginWithSql(next.stmts) ==> Disturbed(lines, dir, sub))
  {
    hide Content, Step, Plain, Classify, SectionAfter;
    var front, last, k := lines[..|lines| - 1], lines[|lines| - 1], |lines| - 1;
    var run := Lines(front, dir, sub).value;
    DisturbedGrows(lines, dir, sub);
    if deed == StoredNothing {
      assert EmptyStatementAt(lines, k, dir, sub);
    } else if deed == Buffered && run.buf == [] && !Content(last) {
      assert SpaceOpensAt(lines, k, dir, sub);
    } else if (deed == StoredText || deed == StoredBlock) && SpaceHeads(run, dir) {
      assert GoesOnAt(lines, k, dir);
      var i: nat :| SpaceOpensAt(front, i, dir, sub);
      AtPrefix(lines, i, dir, sub);
      assert i < k && SpaceOpensAt(lines, i, dir, sub);
    }
  }

  // ----- Disturbances make statements that do not begin with SQL

  /** After a whitespace-only line has opened a statement: either that statement has been stored, or it
      is still in the buffer, with SQL if any has followed, or the section is over and nothing has. */
  ghost predicate StillOpen(lines: seq<string>, k: nat, dir: Direction, run: Run) {
    || !AllBeginWithSql(run.stmts)
    || (SpaceHeads(run, dir) && (GoesOnAfter(lines, k, dir) ==> ContentOf(run.buf) != []))
    || (SectionOf(run.state) == DownSection && dir == DirectionUp && !GoesOnAfter(lines, k, dir))
  }

  lemma {:induction false} OpenStays(lines: seq<string>, k: nat, dir: Direction, sub: Interpolation)
    requires Literal(lines, sub) && Lines(lines, dir, sub).Ok? && SpaceOpensAt(lines, k, dir, sub)
    ensures StillOpen(lines, k, dir, Lines(lines, dir, sub).value)
  {
    hide Content, Step, Literal, Tidy, Plain, Classify, StillOpen, Lines;
    var front, last := lines[..|lines| - 1], lines[|lines| - 1];
    LiteralFront(lines, sub);
    LastStep(lines, dir, sub);
    RunHolds(front, dir, sub);
    RunHolds(lines, dir, sub);
    var run, next := Lines(front, dir, sub).value, Lines(lines, dir, sub).value;
    var deed := LineDoes(run, last, next, dir, sub);
    if k == |lines| - 1 {
      OpensNow(lines, dir, sub);
    } else {
      AtPrefix(lines, k, dir, sub);
      OpenStays(front, k, dir, sub);
      SectionsGoOn(run, last, next, dir, sub);
      OpenGoesOn(lines, k, dir, sub, run, next, deed);
    }
  }

  lemma LastStep(lines: seq<string>, dir: Direction, sub: Interpolation)
    requires lines != [] && Lines(lines, dir, sub).Ok?
    ensures
      var front := Lines(lines[..|lines| - 1], dir, sub);
      front.Ok? && Step(front.value, lines[|lines| - 1], dir, sub) == Lines(lines, dir, sub)
  {
  }

  /** Nothing goes on after the last line. */
  lemma OpensNow(lines: seq<string>, dir: Direction, sub: Interpolation)
    requires lines != [] && Literal(lines, sub)
    requires SpaceOpensAt(lines, |lines| - 1, dir, sub) && Lines(lines, dir, sub).Ok?
    ensures StillOpen(lines, |lines| - 1, dir, Lines(lines, dir, sub).value)
  {
    hide Content, Step, Literal, Tidy, Plain, Classify, Lines, SectionAfter;
    var front, last := lines[..|lines| - 1], lines[|lines| - 1];
    LiteralFront(lines, sub);
    LastStep(lines, dir, sub);
    RunHolds(front, dir, sub);
    SpaceIsBuffered(Lines(front, dir, sub).value, last, dir, sub);
    assert [last][0] == last;
  }

  lemma SpaceIsBuffered(run: Run, line: string, dir: Direction, sub: Interpolation)
    requires Tidy(run, dir, sub) && Requested(run.state, dir) && !AtBlockEnd(run.state) && run.buf == []
    requires Plain(line) && !Content(line)
    ensures Step(run, line, dir, sub) == Ok(run.(buf := [line]))
  {
    hide Classify, IsComment, TrimSpace, EndsWithSemicolon, ContentOf;
    assert [] + [line] == [line];
    if EndsWithSemicolon(line) {
      SemicolonIsContent(line);
    }
  }

  lemma NothingIsStored(run: Run, line: string, dir: Direction, sub: Interpolation)
    requires Tidy(run, dir, sub) && Requested(run.state, dir) && AtBlockEnd(run.state) && Plain(line)
    ensures Step(run, line, dir, sub) == Ok(Store(run).(state := AfterBlock(run.state))) && run.buf == []
  {
    hide Classify, IsComment, TrimSpace, EndsWithSemicolon, ContentOf;
  }

  /** The Down section is the last one, and a run leaves its section only for it, without SQL in its
      buffer. */
  lemma SectionsGoOn(run: Run, line: string, next: Run, dir: Direction, sub: Interpolation)
    requires Step(run, line, dir, sub) == Ok(next)
    ensures SectionOf(run.state) == DownSection ==> SectionOf(next.state) == DownSection
    ensures Requested(run.state, dir) && !Requested(next.state, dir) ==>
              SectionOf(next.state) == DownSection && dir == DirectionUp && ContentOf(run.buf) == [] &&
              Classify(line) == Directive(Down) && next.stmts == run.stmts
  {
    hide Classify, TrimSpace, IsComment, Render, ContentOf;
    if Blank(run.buf) {
      BlankHasNoContent(run.buf);
    }
  }

  lemma GoesOnSplits(lines: seq<string>, k: nat, dir: Direction, sub: Interpolation)
    requires lines != [] && k < |lines| - 1
    ensures GoesOnAfter(lines, k, dir) <==>
            GoesOnAfter(lines[..|lines| - 1], k, dir) || GoesOnAt(lines, |lines| - 1, dir)
  {
    hide GoesOnAt;
    var front := lines[..|lines| - 1];
    if j :| k < j && GoesOnAt(lines, j, dir) {
      if j < |front| {
        AtPrefix(lines, j, dir, sub);
      } else if j > |front| {
        BeyondEnd(lines, j, dir, sub);
      }
    }
    if j :| k < j && GoesOnAt(front, j, dir) {
      if j < |front| {
        AtPrefix(lines, j, dir, sub);
      } else {
        BeyondEnd(front, j, dir, sub);
      }
    }
  }

  /** Statements once stored stay. */
  lemma StoredStays(deed: Deed, run: Run, line: string, next: Run, dir: Direction)
    requires Does(deed, run, line, next, dir) && !AllBeginWithSql(run.stmts)
    ensures !AllBeginWithSql(next.stmts)
  {
    hide BeginsWithSql;
    var group :| group in run.stmts && !BeginsWithSql(group);
    assert group in next.stmts;
  }

  lemma OpenGoesOn(lines: seq<string>, k: nat, dir: Direction, sub: Interpolation, run: Run, next: Run, deed: Deed)
    requires lines != [] && k < |lines| - 1
    requires
      var front, last := lines[..|lines| - 1], lines[|lines| - 1];
      && StillOpen(front, k, dir, run) && Does(deed, run, last, next, dir)
      && (Requested(run.state, dir) ==> Occasion(deed, run, last, dir))
      && SectionAfter(front) == SectionOf(run.state)
      && (SectionOf(run.state) == DownSection ==> SectionOf(next.state) == DownSection)
      && (Requested(run.state, dir) && !Requested(next.state, dir) ==>
            SectionOf(next.state) == DownSection && dir == DirectionUp && ContentOf(run.buf) == [] &&
            Classify(last) == Directive(Down) && next.stmts == run.stmts)
    ensures StillOpen(lines, k, dir, next)
  {
    hide Content, Plain, Classify, SectionAfter, ContentOf, AllBeginWithSql;
    var front, last := lines[..|lines| - 1], lines[|lines| - 1];
    assert lines[..|lines| - 1] == front;
    GoesOnSplits(lines, k, dir, sub);
    if !AllBeginWithSql(run.stmts) {
      StoredStays(deed, run, last, next, dir);
    } else if SpaceHeads(run, dir) {
      if deed == StoredText || deed == StoredBlock || deed == StoredNothing {
        BadIsStored(deed, run, last, next, dir);
      } else if deed == Buffered {
        ContentOfAppend(run.buf, last);
      }
    }
  }

  lemma BadIsStored(deed: Deed, run: Run, line: string, next: Run, dir: Direction)
    requires Does(deed, run, line, next, dir) && SpaceHeads(run, dir)
    requires deed == StoredText || deed == StoredBlock || deed == StoredNothing
    ensures !AllBeginWithSql(next.stmts)
  {
    hide Content;
    var group := next.stmts[|next.stmts| - 1];
    assert group in next.stmts && !BeginsWithSql(group);
  }

  lemma {:induction false} EmptyStatementStays(lines: seq<string>, k: nat, dir: Direction, sub: Interpolation)
    requires Literal(lines, sub) && Lines(lines, dir, sub).Ok? && EmptyStatementAt(lines, k, dir, sub)
    ensures !AllBeginWithSql(Lines(lines, dir, sub).value.stmts)
  {
    hide Content, Step, Literal, Tidy, Plain, Classify, Lines;
    var front, last := lines[..|lines| - 1], lines[|lines| - 1];
    LiteralFront(lines, sub);
    LastStep(lines, dir, sub);
    RunHolds(front, dir, sub);
    var run, next := Lines(front, dir, sub).value, Lines(lines, dir, sub).value;
    if k == |lines| - 1 {
      NothingIsStored(run, last, dir, sub);
      assert next.stmts[|run.stmts|] == [] && [] in next.stmts;
      assert !BeginsWithSql([]);
    } else {
      AtPrefix(lines, k, dir, sub);
      EmptyStatementStays(front, k, dir, sub);
      var deed := LineDoes(run, last, next, dir, sub);
      StoredStays(deed, run, last, next, dir);
    }
  }

  /** All returned statements begin with a line of SQL if and only if no line of text follows an empty
      block and no whitespace-only line meets an empty buffer before SQL, or the end of a block, of the
      same section. */
  lemma StatementsBeginWithSqlIff(lines: seq<string>, dir: Direction, sub: Interpolation)
    requires Literal(lines, sub) && Parse(lines, dir, sub).Ok?
    ensures AllBeginWithSql(Lines(lines, dir, sub).value.stmts) <==> !Disturbed(lines, dir, sub)
  {
    hide Lines, Literal, AllBeginWithSql, EmptyStatementAt, SpaceOpensAt, GoesOnAt, ContentOf, Blank;
    BadIsDisturbed(lines, dir, sub);
    var run := Lines(lines, dir, sub).value;
    if k :| EmptyStatementAt(lines, k, dir, sub) {
      EmptyStatementStays(lines, k, dir, sub);
    }
    if k :| SpaceOpensAt(lines, k, dir, sub) && GoesOnAfter(lines, k, dir) {
      OpenStays(lines, k, dir, sub);
      BlankHasNoContent(run.buf);
    }
  }
}
