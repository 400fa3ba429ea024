/** Which files one direction accepts and the other refuses (internal/sqlparser/parser.go): each
    direction tests for an unfinished statement in its own section alone, and substitutes variables in
    the lines alone that it does not skip. */
module Disagreement {
  import opened Wrappers
  import opened GoStrings
  import opened Annotations
  import opened Semicolons
  import opened SqlParser
  import opened OnePass
  import opened Conservation

  /** After k lines the Up section ends, with the Down annotation or the file, in an unfinished
      statement. */
  ghost predicate UpUnfinished(lines: seq<string>, k: nat, sub: Interpolation) {
    && k <= |lines| && Lines(lines[..k], DirectionUp, sub).Ok?
    && var run := Lines(lines[..k], DirectionUp, sub).value;
       && SectionOf(run.state) == UpSection && !Blank(run.buf)
       && (k < |lines| ==> Classify(lines[k]) == Directive(Down))
  }

  /** The file ends in an unfinished statement of the Down section. */
  ghost predicate DownUnfinished(lines: seq<string>, sub: Interpolation) {
    && Lines(lines, DirectionDown, sub).Ok?
    && var run := Lines(lines, DirectionDown, sub).value;
       SectionOf(run.state) == DownSection && !Blank(run.buf)
  }

  /** A run takes a line for text that it does not skip, and substitution fails on it. */
  predicate CannotSubstitute(run: Run, line: string, sub: Interpolation) {
    && run.useEnvsub && sub(line).None?
    && Classify(line) == Text && !Skipped(run.buf, line) && !AtBlockEnd(run.state)
    && !(run.state == Start && TrimSpace(line) == "")
  }

  /** Substitution fails on the line after the first k. */
  ghost predicate SubstitutionFailsAt(lines: seq<string>, k: nat, dir: Direction, sub: Interpolation) {
    && k < |lines| && Lines(lines[..k], dir, sub).Ok?
    && CannotSubstitute(Lines(lines[..k], dir, sub).value, lines[k], sub)
  }

  // ----- One line

  lemma TextFailsAlone(u: Run, d: Run, p: Pass, line: string, sub: Interpolation)
    requires InStep(u, d, p) && Classify(line) == Text && !(p.run.state == Start && TrimSpace(line) == "")
    ensures
      var up, down := Consume(u, line, DirectionUp, sub), Consume(d, line, DirectionDown, sub);
      && (up.Err? && down.Ok? ==> CannotSubstitute(u, line, sub))
      && (down.Err? && up.Ok? ==> CannotSubstitute(d, line, sub))
  {
    hide Classify, IsComment, EndsWithSemicolon, TrimSpace, Render;
  }

  lemma EndFailsTogether(u: Run, d: Run, p: Pass, line: string, sub: Interpolation)
    requires InStep(u, d, p)
    ensures Obey(u, StatementEnd, line, DirectionUp, sub).Err? <==>
            Obey(d, StatementEnd, line, DirectionDown, sub).Err?
  {
    hide Classify, IsComment, EndsWithSemicolon, Blank;
  }

  /** An annotation other than StatementEnd fails one run alone only at an unfinished Up section. */
  lemma ObeyFailsAlone(u: Run, d: Run, p: Pass, a: Annotation, line: string, sub: Interpolation)
    requires InStep(u, d, p) && a != StatementEnd
    ensures
      var up, down := Obey(u, a, line, DirectionUp, sub), Obey(d, a, line, DirectionDown, sub);
      && (down.Err? ==> up.Err?)
      && (up.Err? && down.Ok? ==> a == Down && SectionOf(u.state) == UpSection && !Blank(u.buf))
  {
    hide Classify, IsComment, Blank;
    EmptyIsBlank();
  }

  /** A line fails one run alone only at a Down annotation after an unfinished up statement, or if
      substitution fails on it. */
  lemma StepFailsAlone(u: Run, d: Run, p: Pass, line: string, sub: Interpolation)
    requires InStep(u, d, p)
    ensures
      var up, down := Step(u, line, DirectionUp, sub), Step(d, line, DirectionDown, sub);
      && (down.Err? && up.Ok? ==> CannotSubstitute(d, line, sub))
      && (up.Err? && down.Ok? ==>
            || (Classify(line) == Directive(Down) && SectionOf(u.state) == UpSection && !Blank(u.buf))
            || CannotSubstitute(u, line, sub))
  {
    hide Classify, TrimSpace, IsComment, Consume, Obey, Blank, CannotSubstitute;
    if !(p.run.state == Start && TrimSpace(line) == "") {
      match Classify(line)
      case Malformed(_) =>
      case Text => TextFailsAlone(u, d, p, line, sub);
      case Directive(a) =>
        if a == StatementEnd {
          EndFailsTogether(u, d, p, line, sub);
        } else {
          ObeyFailsAlone(u, d, p, a, line, sub);
        }
    }
  }

  lemma LastStepFailsAlone(lines: seq<string>, sub: Interpolation)
    requires lines != []
    requires Lines(lines[..|lines| - 1], DirectionUp, sub).Ok? && Lines(lines[..|lines| - 1], DirectionDown, sub).Ok?
    ensures
      var k := |lines| - 1;
      var u := Lines(lines[..k], DirectionUp, sub).value;
      var up, down := Lines(lines, DirectionUp, sub), Lines(lines, DirectionDown, sub);
      && (down.Err? && up.Ok? ==> SubstitutionFailsAt(lines, k, DirectionDown, sub))
      && (up.Err? && down.Ok? ==> UpUnfinished(lines, k, sub) || SubstitutionFailsAt(lines, k, DirectionUp, sub))
  {
    hide Step, Classify, InStep, Blank, CannotSubstitute;
    var front, last := lines[..|lines| - 1], lines[|lines| - 1];
    Lockstep(front, sub);
    StepFailsAlone(Lines(front, DirectionUp, sub).value, Lines(front, DirectionDown, sub).value,
                   LinesBoth(front, sub).value, last, sub);
  }

  // ----- Whole files

  /** While the Down run goes on, the Up run does too, up to an unfinished Up section or a line on which
      substitution fails. */
  lemma {:induction false} UpFailsAlone(lines: seq<string>, sub: Interpolation) returns (k: nat)
    requires Lines(lines, DirectionUp, sub).Err? && Lines(lines, DirectionDown, sub).Ok?
    ensures k < |lines|
    ensures UpUnfinished(lines, k, sub) || SubstitutionFailsAt(lines, k, DirectionUp, sub)
  {
    hide Step, Classify, Blank, CannotSubstitute;
    var front := lines[..|lines| - 1];
    if Lines(front, DirectionUp, sub).Err? {
      k := UpFailsAlone(front, sub);
      assert front[..k] == lines[..k] && front[k] == lines[k];
    } else {
      k := |front|;
      LastStepFailsAlone(lines, sub);
    }
  }

  /** The Down run fails alone before the end of the file only where substitution fails. */
  lemma {:induction false} DownFailsAlone(lines: seq<string>, sub: Interpolation) returns (k: nat)
    requires Lines(lines, DirectionUp, sub).Ok? && Lines(lines, DirectionDown, sub).Err?
    ensures SubstitutionFailsAt(lines, k, DirectionDown, sub)
  {
    hide Step, Classify, Blank, CannotSubstitute;
    var front := lines[..|lines| - 1];
    if Lines(front, DirectionDown, sub).Err? {
      k := DownFailsAlone(front, sub);
      assert front[..k] == lines[..k] && front[k] == lines[k];
    } else {
      k := |front|;
      LastStepFailsAlone(lines, sub);
    }
  }

  lemma UnfinishedFails(lines: seq<string>, k: nat, sub: Interpolation)
    requires UpUnfinished(lines, k, sub)
    ensures Parse(lines, DirectionUp, sub).Err?
  {
    hide Blank;
    if k == |lines| {
      assert lines[..k] == lines;
    } else {
      assert lines[..k + 1][..k] == lines[..k];
      UnfinishedStepFails(Lines(lines[..k], DirectionUp, sub).value, lines[k], sub);
      FailurePersists(lines, k + 1, DirectionUp, sub);
    }
  }

  lemma UnfinishedStepFails(run: Run, line: string, sub: Interpolation)
    requires SectionOf(run.state) == UpSection && !Blank(run.buf) && Classify(line) == Directive(Down)
    ensures Step(run, line, DirectionUp, sub).Err?
  {
    hide Blank, Classify;
  }

  lemma SubstitutionFailureFails(lines: seq<string>, k: nat, dir: Direction, sub: Interpolation)
    requires SubstitutionFailsAt(lines, k, dir, sub)
    ensures Parse(lines, dir, sub).Err?
  {
    hide Classify, TrimSpace, IsComment;
    assert lines[..k + 1][..k] == lines[..k];
    FailurePersists(lines, k + 1, dir, sub);
  }

  /** A file that the Down parse accepts is refused by the Up parse exactly when its Up section is
      unfinished or substitution fails on a line that the Up parse does not skip. */
  lemma UpRefusesAloneIff(lines: seq<string>, sub: Interpolation)
    requires Parse(lines, DirectionDown, sub).Ok?
    ensures Parse(lines, DirectionUp, sub).Err? <==>
            exists k :: UpUnfinished(lines, k, sub) || SubstitutionFailsAt(lines, k, DirectionUp, sub)
  {
    hide Lines, UpUnfinished, SubstitutionFailsAt, Blank, CleanupAll;
    if Lines(lines, DirectionUp, sub).Err? {
      var k := UpFailsAlone(lines, sub);
    } else if Parse(lines, DirectionUp, sub).Err? {
      UpEndsUnfinished(lines, sub);
    }
    if k :| UpUnfinished(lines, k, sub) {
      UnfinishedFails(lines, k, sub);
    }
    if k :| SubstitutionFailsAt(lines, k, DirectionUp, sub) {
      SubstitutionFailureFails(lines, k, DirectionUp, sub);
    }
  }

  lemma UpEndsUnfinished(lines: seq<string>, sub: Interpolation)
    requires Lines(lines, DirectionUp, sub).Ok?
    requires Parse(lines, DirectionUp, sub).Err? && Parse(lines, DirectionDown, sub).Ok?
    ensures UpUnfinished(lines, |lines|, sub)
  {
    hide Lines, Blank, LinesBoth, CleanupAll, Harmless;
    Lockstep(lines, sub);
    EmptyIsBlank();
    assert lines[..|lines|] == lines;
  }

  /** A file that the Up parse accepts is refused by the Down parse exactly when its Down section is
      unfinished or substitution fails on a line that the Down parse does not skip. */
  lemma DownRefusesAloneIff(lines: seq<string>, sub: Interpolation)
    requires Parse(lines, DirectionUp, sub).Ok?
    ensures Parse(lines, DirectionDown, sub).Err? <==>
            DownUnfinished(lines, sub) || exists k :: SubstitutionFailsAt(lines, k, DirectionDown, sub)
  {
    hide Lines, SubstitutionFailsAt, Blank, CleanupAll, LinesBoth, Harmless;
    EmptyIsBlank();
    if Lines(lines, DirectionDown, sub).Err? {
      var k := DownFailsAlone(lines, sub);
    } else {
      Lockstep(lines, sub);
    }
    if k :| SubstitutionFailsAt(lines, k, DirectionDown, sub) {
      SubstitutionFailureFails(lines, k, DirectionDown, sub);
    }
  }

  // ----- Files that one direction accepts and the other refuses

  /** A statement that the Up section leaves unfinished is no matter to the Down parse. */
  lemma UnfinishedUpIsAccepted(line: string, sub: Interpolation)
    requires Content(line) && !EndsWithSemicolon(line)
    ensures Parse([AnnotationLine(Up), line, AnnotationLine(Down)], DirectionUp, sub) == Err(MissingSemicolon)
    ensures Parse([AnnotationLine(Up), line, AnnotationLine(Down)], DirectionDown, sub) == Ok(Script([], true))
  {
    hide Content, Classify, AnnotationLine, Blank;
    var up, down := AnnotationLine(Up), AnnotationLine(Down);
    var inUp := INITIAL.(state := GooseUp);
    DirectiveSteps(INITIAL, Up, DirectionUp, sub);
    DirectiveSteps(INITIAL, Up, DirectionDown, sub);
    assert [] + [up] == [up];
    LinesAppend([], up, DirectionUp, sub);
    LinesAppend([], up, DirectionDown, sub);
    TextIsBuffered(inUp, line, DirectionUp, sub);
    TextIsForeign(inUp, line, DirectionDown, sub);
    assert [up] + [line] == [up, line] && [] + [line] == [line];
    LinesAppend([up], line, DirectionUp, sub);
    LinesAppend([up], line, DirectionDown, sub);
    ContentIsNotBlank(line);
    EmptyIsBlank();
    DirectiveSteps(inUp.(buf := [line]), Down, DirectionUp, sub);
    DirectiveSteps(inUp, Down, DirectionDown, sub);
    assert [up, line] + [down] == [up, line, down];
    LinesAppend([up, line], down, DirectionUp, sub);
    LinesAppend([up, line], down, DirectionDown, sub);
  }

  /** A statement that the Down section leaves unfinished is no matter to the Up parse. */
  lemma UnfinishedDownIsAccepted(line: string, sub: Interpolation)
    requires Content(line) && !EndsWithSemicolon(line)
    ensures Parse([AnnotationLine(Up), AnnotationLine(Down), line], DirectionUp, sub) == Ok(Script([], true))
    ensures Parse([AnnotationLine(Up), AnnotationLine(Down), line], DirectionDown, sub) == Err(MissingSemicolon)
  {
    hide Content, Classify, AnnotationLine, Blank;
    var up, down := AnnotationLine(Up), AnnotationLine(Down);
    var inUp, inDown := INITIAL.(state := GooseUp), INITIAL.(state := GooseDown);
    DirectiveSteps(INITIAL, Up, DirectionUp, sub);
    DirectiveSteps(INITIAL, Up, DirectionDown, sub);
    assert [] + [up] == [up];
    LinesAppend([], up, DirectionUp, sub);
    LinesAppend([], up, DirectionDown, sub);
    EmptyIsBlank();
    DirectiveSteps(inUp, Down, DirectionUp, sub);
    DirectiveSteps(inUp, Down, DirectionDown, sub);
    assert [up] + [down] == [up, down];
    LinesAppend([up], down, DirectionUp, sub);
    LinesAppend([up], down, DirectionDown, sub);
    TextIsForeign(inDown, line, DirectionUp, sub);
    TextIsBuffered(inDown, line, DirectionDown, sub);
    assert [up, down] + [line] == [up, down, line] && [] + [line] == [line];
    LinesAppend([up, down], line, DirectionUp, sub);
    LinesAppend([up, down], line, DirectionDown, sub);
    ContentIsNotBlank(line);
  }

  lemma TextIsBuffered(run: Run, line: string, dir: Direction, sub: Interpolation)
    requires Content(line) && !EndsWithSemicolon(line) && !run.useEnvsub
    requires Requested(run.state, dir) && !AtBlockEnd(run.state)
    ensures Step(run, line, dir, sub) == Ok(run.(buf := run.buf + [line]))
  {
    hide EndsWithSemicolon;
  }

  lemma TextIsForeign(run: Run, line: string, dir: Direction, sub: Interpolation)
    requires Content(line) && !run.useEnvsub && run.state != Start && !Requested(run.state, dir)
    ensures Step(run, line, dir, sub) == Ok(run.(buf := []))
  {
    hide EndsWithSemicolon;
  }

  lemma ContentIsNotBlank(line: string)
    requires Content(line)
    ensures !Blank([line])
  {
    ContentOfAppend([], line);
    assert [] + [line] == [line];
    if Blank([line]) {
      BlankHasNoContent([line]);
    }
  }
}
