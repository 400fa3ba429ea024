/** One pass over a migration file gives both directions. The source parses every file twice and
    notes that a single pass should be possible (internal/sqlparser/parse.go); the two runs stay in
    lockstep, and a run that always requests the section it is in returns both results. */
module OnePass {
  import opened Wrappers
  import opened GoStrings
  import opened Annotations
  import opened Semicolons
  import opened SqlParser

  /** The direction whose statements the section of a state holds. */
  function Owner(s: ParserState): Direction {
    if SectionOf(s) == DownSection then DirectionDown else DirectionUp
  }

  /** A run over both sections: ups holds the finished up statements once the Down section starts. */
  datatype Pass = Pass(run: Run, ups: seq<seq<string>>)

  function StepBoth(p: Pass, line: string, sub: Interpolation): Result<Pass, ParseError> {
    var next :- Step(p.run, line, Owner(p.run.state), sub);
    if SectionOf(p.run.state) == UpSection && SectionOf(next.state) == DownSection then
      Ok(Pass(next.(buf := [], stmts := []), next.stmts))
    else Ok(p.(run := next))
  }

  /** The pass over some lines, from where p stands. */
  function Feed(p: Pass, lines: seq<string>, sub: Interpolation): Result<Pass, ParseError> {
    if lines == [] then Ok(p)
    else
      var q :- Feed(p, lines[..|lines| - 1], sub);
      StepBoth(q, lines[|lines| - 1], sub)
  }

  function LinesBoth(lines: seq<string>, sub: Interpolation): Result<Pass, ParseError> {
    Feed(Pass(INITIAL, []), lines, sub)
  }

  lemma FeedAppend(p: Pass, lines: seq<string>, line: string, sub: Interpolation)
    ensures
      Feed(p, lines + [line], sub) ==
      match Feed(p, lines, sub)
      case Ok(q) => StepBoth(q, line, sub)
      case Err(e) => Err(e)
  {
    assert (lines + [line])[..|lines|] == lines;
  }

  lemma {:induction false} FeedConcat(p: Pass, a: seq<string>, b: seq<string>, sub: Interpolation)
    requires Feed(p, a, sub).Ok?
    ensures Feed(p, a + b, sub) == Feed(Feed(p, a, sub).value, b, sub)
  {
    hide StepBoth;
    if b == [] {
      assert a + b == a;
    } else {
      var front := b[..|b| - 1];
      FeedConcat(p, a, front, sub);
      assert a + b == (a + front) + [b[|b| - 1]];
      FeedAppend(p, a + front, b[|b| - 1], sub);
    }
  }

  datatype Migration = Migration(useTx: bool, up: seq<string>, down: seq<string>)

  function ParseBoth(lines: seq<string>, sub: Interpolation): Result<Migration, ParseError> {
    var p :- LinesBoth(lines, sub);
    match AtEOF(p.run.state, p.run.buf)
    case Some(e) => Err(e)
    case None =>
      var stmts := CleanupAll(p.run.stmts);
      if SectionOf(p.run.state) == DownSection then Ok(Migration(p.run.useTx, CleanupAll(p.ups), stmts))
      else Ok(Migration(p.run.useTx, stmts, []))
  }

  /** A run outside its own section may still be at the end of a block that its owner has stored. */
  predicate Behind(other: ParserState, owner: ParserState) {
    other == owner || (AtBlockEnd(other) && owner == AfterBlock(other))
  }

  /** How the Up run, the Down run and the single pass stand to one another. */
  ghost predicate InStep(u: Run, d: Run, p: Pass) {
    && u.useTx == d.useTx == p.run.useTx
    && u.useEnvsub == d.useEnvsub == p.run.useEnvsub
    && match SectionOf(p.run.state)
       case Preamble => u == d == p.run && u.buf == [] && u.stmts == [] && p.ups == []
       case UpSection => u == p.run && Behind(d.state, u.state) && d.buf == [] && d.stmts == [] && p.ups == []
       case DownSection => d == p.run && Behind(u.state, d.state) && Blank(u.buf) && u.stmts == p.ups
  }

  /** Errors that one direction can meet alone. */
  predicate OneSided(e: ParseError) {
    e == MissingSemicolon || e == SubstitutionFailed
  }

  /** A line that is skipped as long as no statement has begun. */
  predicate Skippable(line: string) {
    Classify(line) == Text && (IsComment(line) || line == "")
  }

  /** Substitution fails on no comment and no empty line of the file. */
  ghost predicate CommentsSubstitute(lines: seq<string>, sub: Interpolation) {
    forall line | line in lines :: Skippable(line) ==> sub(line).Some?
  }

  /** The environment has no say: substitution is never switched on, or it fails on no line that one
      direction skips and the other does not. */
  ghost predicate Harmless(lines: seq<string>, sub: Interpolation) {
    (forall line | line in lines :: Classify(line) != Directive(EnvsubOn)) || CommentsSubstitute(lines, sub)
  }

  /** What some lines do to three runs in step. If both directions go on, so does the pass, still in
      step; if substitution is harmless the pass goes on only then; and only a one-sided error fails
      a direction alone. */
  ghost predicate StaysInStep(
    u: Result<Run, ParseError>, d: Result<Run, ParseError>, p: Result<Pass, ParseError>, harmless: bool)
  {
    && (u.Ok? && d.Ok? ==> p.Ok? && InStep(u.value, d.value, p.value))
    && (harmless && p.Ok? ==> u.Ok? && d.Ok?)
    && (u.Err? && !OneSided(u.error) ==> d.Err?)
    && (d.Err? && !OneSided(d.error) ==> u.Err?)
  }

  /** Text never moves a run to another section. */
  lemma ConsumeStays(run: Run, line: string, dir: Direction, sub: Interpolation)
    ensures
      var c := Consume(run, line, dir, sub);
      c.Ok? ==> SectionOf(c.value.state) == SectionOf(run.state)
  {
    hide Skipped, EndsWithSemicolon;
  }

  lemma ConsumeInStep(u: Run, d: Run, p: Pass, line: string, sub: Interpolation)
    requires InStep(u, d, p)
    ensures
      var harmless := !p.run.useEnvsub || AtBlockEnd(p.run.state) || !(IsComment(line) || line == "") || sub(line).Some?;
      var c := Consume(p.run, line, Owner(p.run.state), sub);
      StaysInStep(Consume(u, line, DirectionUp, sub), Consume(d, line, DirectionDown, sub),
                  if c.Ok? then Ok(p.(run := c.value)) else Err(c.error), harmless)
  {
    hide IsComment, EndsWithSemicolon, Blank;
    EmptyIsBlank();
  }

  lemma ObeyInStep(u: Run, d: Run, p: Pass, a: Annotation, line: string, sub: Interpolation)
    requires InStep(u, d, p) && a != StatementEnd && a != Down
    ensures
      var c := Obey(p.run, a, line, Owner(p.run.state), sub);
      StaysInStep(Obey(u, a, line, DirectionUp, sub), Obey(d, a, line, DirectionDown, sub),
                  if c.Ok? then Ok(p.(run := c.value)) else Err(c.error), true)
      && (c.Ok? ==> (SectionOf(c.value.state) == DownSection <==> SectionOf(p.run.state) == DownSection))
  {
    hide Classify, EndsWithSemicolon, TrimSpace, IsComment, Render;
  }

  lemma DownInStep(u: Run, d: Run, p: Pass, line: string, sub: Interpolation)
    requires InStep(u, d, p)
    ensures
      var c := Obey(p.run, Down, line, Owner(p.run.state), sub);
      StaysInStep(Obey(u, Down, line, DirectionUp, sub), Obey(d, Down, line, DirectionDown, sub),
                  if c.Ok? then Ok(Pass(c.value.(buf := [], stmts := []), c.value.stmts)) else Err(c.error),
                  true)
      && (c.Ok? ==> SectionOf(p.run.state) == UpSection && SectionOf(c.value.state) == DownSection)
  {
    hide Classify, EndsWithSemicolon, IsComment;
    EmptyIsBlank();
  }

  lemma StatementEndInStep(u: Run, d: Run, p: Pass, line: string, sub: Interpolation)
    requires InStep(u, d, p)
    ensures
      var c := Obey(p.run, StatementEnd, line, Owner(p.run.state), sub);
      StaysInStep(Obey(u, StatementEnd, line, DirectionUp, sub), Obey(d, StatementEnd, line, DirectionDown, sub),
                  if c.Ok? then Ok(p.(run := c.value)) else Err(c.error), true)
      && (c.Ok? ==> SectionOf(c.value.state) == SectionOf(p.run.state))
  {
    hide Classify, EndsWithSemicolon, TrimSpace, IsComment, Render;
    var s := Transition(p.run.state, StatementEnd);
    if s.Ok? {
      ConsumeStays(p.run.(state := s.value), line, Owner(p.run.state), sub);
      ConsumeInStep(u.(state := s.value), d.(state := s.value), p.(run := p.run.(state := s.value)), line, sub);
    }
  }

  lemma StepInStep(u: Run, d: Run, p: Pass, line: string, sub: Interpolation)
    requires InStep(u, d, p)
    ensures StaysInStep(Step(u, line, DirectionUp, sub), Step(d, line, DirectionDown, sub),
                        StepBoth(p, line, sub), !p.run.useEnvsub || CommentsSubstitute([line], sub))
  {
    hide Classify, Consume, Obey, TrimSpace, IsComment, Blank;
    if !(p.run.state == Start && TrimSpace(line) == "") {
      match Classify(line)
      case Malformed(_) =>
      case Text =>
        assert line in [line];
        ConsumeStays(p.run, line, Owner(p.run.state), sub);
        ConsumeInStep(u, d, p, line, sub);
      case Directive(a) =>
        if a == StatementEnd {
          StatementEndInStep(u, d, p, line, sub);
        } else if a == Down {
          DownInStep(u, d, p, line, sub);
        } else {
          ObeyInStep(u, d, p, a, line, sub);
        }
    }
  }

  lemma {:induction false} EnvsubNeedsAnnotation(lines: seq<string>, dir: Direction, sub: Interpolation)
    requires forall line | line in lines :: Classify(line) != Directive(EnvsubOn)
    requires Lines(lines, dir, sub).Ok?
    ensures !Lines(lines, dir, sub).value.useEnvsub
  {
    hide Classify, EndsWithSemicolon, TrimSpace, IsComment, Render;
    if lines != [] {
      var last := lines[|lines| - 1];
      assert last in lines;
      EnvsubNeedsAnnotation(lines[..|lines| - 1], dir, sub);
    }
  }

  /** The Up run and the Down run stay in lockstep on every file for as long as neither fails, and
      the single pass fails at the first line at which one of them does. */
  lemma {:induction false} Lockstep(lines: seq<string>, sub: Interpolation)
    ensures StaysInStep(Lines(lines, DirectionUp, sub), Lines(lines, DirectionDown, sub), LinesBoth(lines, sub),
                        Harmless(lines, sub))
  {
    hide Classify, EndsWithSemicolon, TrimSpace, IsComment, Render;
    if lines != [] {
      var front, last := lines[..|lines| - 1], lines[|lines| - 1];
      assert last in lines;
      Lockstep(front, sub);
      if Lines(front, DirectionUp, sub).Ok? && Lines(front, DirectionDown, sub).Ok? {
        var u, d := Lines(front, DirectionUp, sub).value, Lines(front, DirectionDown, sub).value;
        if Harmless(lines, sub) && !CommentsSubstitute([last], sub) {
          EnvsubNeedsAnnotation(front, DirectionUp, sub);
        }
        StepInStep(u, d, LinesBoth(front, sub).value, last, sub);
      }
    }
  }

  /** In particular the two runs agree on where they are and on the transaction flag. */
  lemma RunsAgree(lines: seq<string>, sub: Interpolation)
    requires Lines(lines, DirectionUp, sub).Ok? && Lines(lines, DirectionDown, sub).Ok?
    ensures
      var u, d := Lines(lines, DirectionUp, sub).value, Lines(lines, DirectionDown, sub).value;
      AfterBlock(u.state) == AfterBlock(d.state) && u.useTx == d.useTx && u.useEnvsub == d.useEnvsub
  {
    hide Classify, EndsWithSemicolon, TrimSpace, IsComment, Render;
    Lockstep(lines, sub);
  }

  /** Whenever both directions parse, the single pass returns their results in one. */
  lemma OnePassSound(lines: seq<string>, sub: Interpolation)
    requires Parse(lines, DirectionUp, sub).Ok? && Parse(lines, DirectionDown, sub).Ok?
    ensures
      var up, down := Parse(lines, DirectionUp, sub).value, Parse(lines, DirectionDown, sub).value;
      && up.useTx == down.useTx
      && ParseBoth(lines, sub) == Ok(Migration(up.useTx, up.stmts, down.stmts))
  {
    hide Classify, EndsWithSemicolon, TrimSpace, IsComment, Render;
    Lockstep(lines, sub);
  }

  ghost predicate Agree(lines: seq<string>, sub: Interpolation) {
    ParseBoth(lines, sub).Ok? <==> Parse(lines, DirectionUp, sub).Ok? && Parse(lines, DirectionDown, sub).Ok?
  }

  /** The single pass fails no less than the two directions, if the environment has no say. */
  lemma OnePassComplete(lines: seq<string>, sub: Interpolation)
    requires Harmless(lines, sub)
    ensures Agree(lines, sub)
  {
    hide Classify, EndsWithSemicolon, IsComment;
    Lockstep(lines, sub);
    EmptyIsBlank();
    if Parse(lines, DirectionUp, sub).Ok? && Parse(lines, DirectionDown, sub).Ok? {
      OnePassSound(lines, sub);
    }
  }

  lemma EmptyIsBlank()
    ensures Blank([])
  {
    assert Render([]) == "";
  }

  /** Only an unfinished statement, or a failed substitution, is refused by one direction alone. */
  lemma DirectionsDisagree(lines: seq<string>, sub: Interpolation)
    ensures
      var up, down := Parse(lines, DirectionUp, sub), Parse(lines, DirectionDown, sub);
      && (up.Err? && down.Ok? ==> OneSided(up.error))
      && (down.Err? && up.Ok? ==> OneSided(down.error))
  {
    hide Render, TrimSpace, Lines, LinesBoth, Harmless;
    Lockstep(lines, sub);
    EmptyIsBlank();
  }

  // ----- Files on which the three parsers differ

  function BeforeSkipped(): seq<string> {
    [AnnotationLine(Up), " ", AnnotationLine(EnvsubOn), AnnotationLine(Down)]
  }

  function LeftoverFile(skipped: string): seq<string> {
    BeforeSkipped() + [skipped]
  }

  lemma LinesAppend(lines: seq<string>, line: string, dir: Direction, sub: Interpolation)
    requires Lines(lines, dir, sub).Ok?
    ensures Lines(lines + [line], dir, sub) == Step(Lines(lines, dir, sub).value, line, dir, sub)
  {
    assert (lines + [line])[..|lines|] == lines;
  }

  /** Where the Up run stands before the last line of that file. */
  const LEFTOVER := Run(GooseDown, true, true, [" "], [])

  /** Before its last line the file has left the space in the buffer of the Up run. */
  lemma UpRunKeepsSpace(sub: Interpolation)
    ensures Lines(BeforeSkipped(), DirectionUp, sub) == Ok(LEFTOVER)
  {
    hide Classify, Consume, AnnotationLine, Blank;
    var left, on := [AnnotationLine(Up), " "], [AnnotationLine(Up), " ", AnnotationLine(EnvsubOn)];
    SpaceLine();
    SpaceLeft(sub);
    var run := LEFTOVER.(state := GooseUp, useEnvsub := false);
    DirectiveSteps(run, EnvsubOn, DirectionUp, sub);
    assert left + [AnnotationLine(EnvsubOn)] == on;
    LinesAppend(left, AnnotationLine(EnvsubOn), DirectionUp, sub);
    DirectiveSteps(run.(useEnvsub := true), Down, DirectionUp, sub);
    assert on + [AnnotationLine(Down)] == BeforeSkipped();
    LinesAppend(on, AnnotationLine(Down), DirectionUp, sub);
  }

  lemma PassDropsSpace(sub: Interpolation)
    ensures Feed(Pass(INITIAL, []), BeforeSkipped(), sub) == Ok(Pass(LEFTOVER.(buf := []), []))
  {
    hide Classify, Consume, AnnotationLine, Blank;
    var left, on := [AnnotationLine(Up), " "], [AnnotationLine(Up), " ", AnnotationLine(EnvsubOn)];
    SpaceLine();
    SpaceLeftInPass(sub);
    var start, run := Pass(INITIAL, []), LEFTOVER.(state := GooseUp, useEnvsub := false);
    DirectiveSteps(run, EnvsubOn, DirectionUp, sub);
    assert left + [AnnotationLine(EnvsubOn)] == on;
    FeedAppend(start, left, AnnotationLine(EnvsubOn), sub);
    DirectiveSteps(run.(useEnvsub := true), Down, DirectionUp, sub);
    assert on + [AnnotationLine(Down)] == BeforeSkipped();
    FeedAppend(start, on, AnnotationLine(Down), sub);
  }

  /** A whitespace-only line stays in the buffer of the Up run, and comments and empty lines of the
      Down section are then substituted by that run alone. */
  lemma LeftoverSubstitutes(skipped: string, sub: Interpolation)
    requires Skippable(skipped) && sub(skipped).None?
    ensures Parse(LeftoverFile(skipped), DirectionUp, sub) == Err(SubstitutionFailed)
    ensures ParseBoth(LeftoverFile(skipped), sub).Ok?
  {
    hide Classify, TrimSpace, IsComment, Render, AnnotationLine, Lines, Feed;
    UpRunKeepsSpace(sub);
    LinesAppend(BeforeSkipped(), skipped, DirectionUp, sub);
    PassDropsSpace(sub);
    FeedAppend(Pass(INITIAL, []), BeforeSkipped(), skipped, sub);
    SkippableInOwnSection(LEFTOVER.(buf := []), skipped, sub);
    EmptyIsBlank();
  }

  lemma SkippableInOwnSection(run: Run, line: string, sub: Interpolation)
    requires Skippable(line) && run.state == GooseDown
    ensures run.buf == [] ==> Step(run, line, DirectionDown, sub) == Ok(run)
  {
  }

  lemma SpaceStep(sub: Interpolation)
    ensures Step(INITIAL.(state := GooseUp), " ", DirectionUp, sub) == Ok(Run(GooseUp, true, false, [" "], []))
  {
    hide Classify, EndsWithSemicolon, TrimSpace, IsComment, Render;
    SpaceLine();
    assert [] + [" "] == [" "];
  }

  lemma SpaceLeft(sub: Interpolation)
    ensures Lines([AnnotationLine(Up), " "], DirectionUp, sub) == Ok(Run(GooseUp, true, false, [" "], []))
  {
    hide Classify, Consume, AnnotationLine;
    var up := AnnotationLine(Up);
    DirectiveSteps(INITIAL, Up, DirectionUp, sub);
    assert [] + [up] == [up];
    LinesAppend([], up, DirectionUp, sub);
    assert [up] + [" "] == [up, " "];
    LinesAppend([up], " ", DirectionUp, sub);
    SpaceStep(sub);
  }

  lemma SpaceLeftInPass(sub: Interpolation)
    ensures Feed(Pass(INITIAL, []), [AnnotationLine(Up), " "], sub) == Ok(Pass(Run(GooseUp, true, false, [" "], []), []))
  {
    hide Classify, Consume, AnnotationLine;
    var up, start := AnnotationLine(Up), Pass(INITIAL, []);
    DirectiveSteps(INITIAL, Up, DirectionUp, sub);
    assert [] + [up] == [up];
    FeedAppend(start, [], up, sub);
    assert [up] + [" "] == [up, " "];
    FeedAppend(start, [up], " ", sub);
    SpaceStep(sub);
  }

  lemma DirectiveSteps(run: Run, a: Annotation, dir: Direction, sub: Interpolation)
    ensures Step(run, AnnotationLine(a), dir, sub) == Obey(run, a, AnnotationLine(a), dir, sub)
  {
    AnnotationRoundTrip(a);
  }

  /** The single pass and the two directions accept the same files exactly for the substitutions that
      fail on no line a parser may skip. */
  lemma AgreeOnAllFilesIff(sub: Interpolation)
    ensures (forall lines :: Agree(lines, sub)) <==> (forall line | Skippable(line) :: sub(line).Some?)
  {
    if forall line | Skippable(line) :: sub(line).Some? {
      forall lines ensures Agree(lines, sub) {
        OnePassComplete(lines, sub);
      }
    }
    forall line | Skippable(line) && sub(line).None?
      ensures !Agree(LeftoverFile(line), sub)
    {
      LeftoverSubstitutes(line, sub);
    }
  }

  lemma SpaceLine()
    ensures Classify(" ") == Text && !IsComment(" ") && !EndsWithSemicolon(" ") && Blank([" "])
  {
    BlankIffAllSpace(" ");
    assert Render([" "]) == Render([]) + " \n";
    BlankIffAllSpace(" \n");
  }
}
