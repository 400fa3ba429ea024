/** The text of one section has no influence on the statements of the other
    (internal/sqlparser/parser.go). First for lines that are taken as they are, then for files with
    substitution. */
module NonInterference {
  import opened Wrappers
  import opened GoStrings
  import opened Annotations
  import opened Semicolons
  import opened SqlParser
  import opened OnePass
  import opened Conservation
  import opened Substitution

  /** The file without the text of the section of the other direction: its annotations stay. */
  function Erased(lines: seq<string>, dir: Direction): seq<string> {
    if lines == [] then []
    else
      var front, last := lines[..|lines| - 1], lines[|lines| - 1];
      if Foreign(front, last, dir) then Erased(front, dir) else Erased(front, dir) + [last]
  }

  predicate Foreign(front: seq<string>, line: string, dir: Direction) {
    Classify(line) == Text && SectionAfter(front) != Preamble && SectionAfter(front) != Wanted(dir)
  }

  /** Two runs that differ in nothing but what whitespace they buffer outside their section. */
  ghost predicate Alike(a: Run, b: Run, dir: Direction, sub: Interpolation) {
    && Tidy(a, dir, sub) && Tidy(b, dir, sub)
    && a.(buf := b.buf) == b
    && if Requested(a.state, dir) then a.buf == b.buf else Blank(a.buf) && Blank(b.buf)
  }

  ghost predicate AlikeResults(a: Result<Run, ParseError>, b: Result<Run, ParseError>, dir: Direction, sub: Interpolation) {
    match (a, b)
    case (Ok(x), Ok(y)) => Alike(x, y, dir, sub)
    case (Err(x), Err(y)) => x == y
    case _ => false
  }

  lemma ForeignText(a: Run, b: Run, line: string, dir: Direction, sub: Interpolation)
    requires Alike(a, b, dir, sub) && Classify(line) == Text
    requires a.state != Start && !Requested(a.state, dir)
    ensures AlikeResults(Step(a, line, dir, sub), Ok(b), dir, sub)
  {
    hide Classify, IsComment, TrimSpace;
    EmptyIsBlank();
    EmptyHasNoContent();
    assert Tidy(a.(buf := []), dir, sub);
  }

  lemma SameText(a: Run, b: Run, line: string, dir: Direction, sub: Interpolation)
    requires Alike(a, b, dir, sub) && Classify(line) == Text
    requires a.state == Start || Requested(a.state, dir)
    ensures AlikeResults(Step(a, line, dir, sub), Step(b, line, dir, sub), dir, sub)
  {
    hide Classify, IsComment, TrimSpace, EndsWithSemicolon, Tidy;
    if a.state == Start {
      StartIsTidy(a, b, dir, sub);
    }
    assert a == b;
    if Step(a, line, dir, sub).Ok? && !(a.state == Start && TrimSpace(line) == "") {
      TextHolds(a, line, dir, sub);
    }
  }

  lemma StartIsTidy(a: Run, b: Run, dir: Direction, sub: Interpolation)
    requires Alike(a, b, dir, sub) && a.state == Start
    ensures a == b
  {
  }

  lemma SameDirective(a: Run, b: Run, line: string, dir: Direction, sub: Interpolation)
    requires Alike(a, b, dir, sub) && Classify(line).Directive?
    requires Classify(line) == Directive(EnvsubOn) ==> Identity(sub)
    ensures AlikeResults(Step(a, line, dir, sub), Step(b, line, dir, sub), dir, sub)
  {
    hide Classify, IsComment, TrimSpace, Alike, Obey;
    var annotation := Classify(line).annotation;
    AnnotationIsComment(line);
    AnnotationIsNotBlank(line);
    if annotation == StatementEnd {
      SameEnd(a, b, line, dir, sub);
    } else {
      SameOther(a, b, annotation, line, dir, sub);
    }
    assert Step(a, line, dir, sub) == Obey(a, annotation, line, dir, sub);
    assert Step(b, line, dir, sub) == Obey(b, annotation, line, dir, sub);
  }

  lemma SameOther(a: Run, b: Run, annotation: Annotation, line: string, dir: Direction, sub: Interpolation)
    requires Alike(a, b, dir, sub) && IsComment(line) && annotation != StatementEnd
    requires annotation == EnvsubOn ==> Identity(sub)
    ensures AlikeResults(Obey(a, annotation, line, dir, sub), Obey(b, annotation, line, dir, sub), dir, sub)
  {
    hide IsComment, TrimSpace, Render, Tidy, Held;
    if a.state == Start {
      StartIsTidy(a, b, dir, sub);
    }
    if Obey(a, annotation, line, dir, sub).Ok? {
      DirectiveHolds(a, annotation, line, dir, sub);
    }
    if Obey(b, annotation, line, dir, sub).Ok? {
      DirectiveHolds(b, annotation, line, dir, sub);
    }
    if annotation == Down {
      SameDown(a, b, line, dir, sub);
    }
  }

  lemma SameEnd(a: Run, b: Run, line: string, dir: Direction, sub: Interpolation)
    requires Alike(a, b, dir, sub) && IsComment(line)
    ensures AlikeResults(Obey(a, StatementEnd, line, dir, sub), Obey(b, StatementEnd, line, dir, sub), dir, sub)
  {
    hide IsComment, TrimSpace, Render, Tidy, Held;
    EmptyIsBlank();
    if Transition(a.state, StatementEnd).Ok? {
      EndHolds(a, line, dir, sub);
      EndHolds(b, line, dir, sub);
    }
  }

  lemma SameDown(a: Run, b: Run, line: string, dir: Direction, sub: Interpolation)
    requires Alike(a, b, dir, sub)
    ensures Obey(a, Down, line, dir, sub).Ok? == Obey(b, Down, line, dir, sub).Ok?
    ensures Obey(a, Down, line, dir, sub).Ok? ==>
      && (dir == DirectionDown ==> a.buf == b.buf)
      && Blank(a.buf) && Blank(b.buf)
  {
    hide TrimSpace, Render;
  }

  lemma AnnotationIsNotBlank(line: string)
    ensures Classify(line).Directive? ==> TrimSpace(line) != ""
  {
  }

  lemma FrontIsLiteral(lines: seq<string>, sub: Interpolation)
    requires Literal(lines, sub) && lines != []
    ensures Literal(lines[..|lines| - 1], sub)
    ensures Classify(lines[|lines| - 1]) == Directive(EnvsubOn) ==> Identity(sub)
  {
    hide Classify;
    assert lines[|lines| - 1] in lines;
    forall line | line in lines[..|lines| - 1] ensures line in lines {
    }
  }

  /** Dropping the text of the other section changes nothing but whitespace that is left over. */
  lemma {:induction false} ErasedRunsAlike(lines: seq<string>, dir: Direction, sub: Interpolation)
    requires Literal(lines, sub)
    ensures AlikeResults(Lines(lines, dir, sub), Lines(Erased(lines, dir), dir, sub), dir, sub)
  {
    hide Classify, Step, Alike, Foreign, Literal;
    if lines == [] {
      InitialAlike(dir, sub);
    } else {
      var front, last := lines[..|lines| - 1], lines[|lines| - 1];
      FrontIsLiteral(lines, sub);
      ErasedRunsAlike(front, dir, sub);
      var erased := Erased(front, dir);
      assert (erased + [last])[..|erased|] == erased;
      if Lines(front, dir, sub).Ok? {
        StepsAlike(front, last, Lines(front, dir, sub).value, Lines(erased, dir, sub).value, dir, sub);
      } else if Foreign(front, last, dir) {
      } else {
        assert Lines(erased + [last], dir, sub) == Lines(erased, dir, sub);
      }
    }
  }

  lemma InitialAlike(dir: Direction, sub: Interpolation)
    ensures Alike(INITIAL, INITIAL, dir, sub)
  {
    EmptyIsBlank();
    EmptyHasNoContent();
  }

  lemma StepsAlike(front: seq<string>, last: string, a: Run, b: Run, dir: Direction, sub: Interpolation)
    requires Literal(front, sub) && (Classify(last) == Directive(EnvsubOn) ==> Identity(sub))
    requires Lines(front, dir, sub) == Ok(a) && Alike(a, b, dir, sub)
    ensures AlikeResults(Step(a, last, dir, sub),
                         if Foreign(front, last, dir) then Ok(b) else Step(b, last, dir, sub), dir, sub)
  {
    hide Classify, Tidy, Consume, Obey;
    RunHolds(front, dir, sub);
    match Classify(last)
    case Malformed(_) => MalformedFails(a, b, last, dir, sub);
    case Directive(_) => SameDirective(a, b, last, dir, sub);
    case Text =>
      if Foreign(front, last, dir) {
        ForeignText(a, b, last, dir, sub);
      } else {
        SameText(a, b, last, dir, sub);
      }
  }

  lemma MalformedFails(a: Run, b: Run, line: string, dir: Direction, sub: Interpolation)
    requires Classify(line).Malformed?
    ensures Step(a, line, dir, sub) == Step(b, line, dir, sub) == Err(BadAnnotation(Classify(line).error))
  {
  }

  /** Non-interference: parsing a file and parsing it without the text of the other section give the
      same result, errors included. */
  lemma OtherSectionIsIgnored(lines: seq<string>, dir: Direction, sub: Interpolation)
    requires Literal(lines, sub)
    ensures Parse(lines, dir, sub) == Parse(Erased(lines, dir), dir, sub)
  {
    hide Lines, Classify;
    ErasedRunsAlike(lines, dir, sub);
  }

  /** So two files with the same annotations and the same requested section parse alike. */
  lemma SameSectionSameResult(a: seq<string>, b: seq<string>, dir: Direction, sub: Interpolation)
    requires Literal(a, sub) && Literal(b, sub) && Erased(a, dir) == Erased(b, dir)
    ensures Parse(a, dir, sub) == Parse(b, dir, sub)
  {
    OtherSectionIsIgnored(a, dir, sub);
    OtherSectionIsIgnored(b, dir, sub);
  }

  // ----- With substitution

  lemma {:induction false} SectionAfterExpanded(lines: seq<string>, sub: Interpolation)
    requires Transparent(lines, sub)
    ensures SectionAfter(Expanded(lines, sub)) == SectionAfter(lines)
  {
    hide Classify, KeepsItsRole, Expand, OnAfter, Transparent;
    if lines != [] {
      var front, last := lines[..|lines| - 1], lines[|lines| - 1];
      TransparentFront(lines, sub);
      SectionAfterExpanded(front, sub);
      ExpandKeepsRole(OnAfter(front), last, sub);
      assert Expanded(lines, sub)[..|Expanded(front, sub)|] == Expanded(front, sub);
    }
  }

  lemma OnAfterAppend(lines: seq<string>, line: string)
    ensures OnAfter(lines + [line]) ==
      match Classify(line)
      case Directive(EnvsubOn) => true
      case Directive(EnvsubOff) => false
      case _ => OnAfter(lines)
  {
    hide Classify;
    assert (lines + [line])[..|lines|] == lines;
  }

  lemma ExpandedAppend(lines: seq<string>, line: string, sub: Interpolation)
    ensures Expanded(lines + [line], sub) == Expanded(lines, sub) + [Expand(OnAfter(lines), line, sub)]
  {
    hide Expand, OnAfter;
    assert (lines + [line])[..|lines|] == lines;
  }

  lemma TransparentAppend(lines: seq<string>, line: string, sub: Interpolation)
    requires Transparent(lines, sub)
    requires OnAfter(lines) && Classify(line) == Text ==> KeepsItsRole(line, sub)
    ensures Transparent(lines + [line], sub)
  {
    hide Classify, KeepsItsRole, OnAfter;
    var all := lines + [line];
    forall i | 0 <= i < |all| && OnAfter(all[..i]) && Classify(all[i]) == Text ensures KeepsItsRole(all[i], sub) {
      assert all[..i] == if i < |lines| then lines[..i] else lines;
    }
  }

  /** Dropping the text of the other section and expanding what is left may be done in either order. */
  lemma {:induction false} ErasedExpanded(lines: seq<string>, dir: Direction, sub: Interpolation)
    requires Transparent(lines, sub)
    ensures Erased(Expanded(lines, sub), dir) == Expanded(Erased(lines, dir), sub)
    ensures OnAfter(Erased(lines, dir)) == OnAfter(lines) && Transparent(Erased(lines, dir), sub)
  {
    hide Classify, KeepsItsRole, Expand, Expanded, Erased, Transparent, Foreign, OnAfter;
    if lines == [] {
      EmptyFile(dir, sub);
    } else {
      var front, last := lines[..|lines| - 1], lines[|lines| - 1];
      var erased, expanded := Erased(front, dir), Expand(OnAfter(front), last, sub);
      assert lines == front + [last];
      TransparentFront(lines, sub);
      ErasedExpanded(front, dir, sub);
      ForeignExpanded(front, last, dir, sub);
      ErasedAppend(front, last, dir);
      ExpandedAppend(front, last, sub);
      ErasedAppend(Expanded(front, sub), expanded, dir);
      OnAfterAppend(front, last);
      if !Foreign(front, last, dir) {
        ExpandedAppend(erased, last, sub);
        OnAfterAppend(erased, last);
        TransparentAppend(erased, last, sub);
      } else {
        ForeignIsText(front, last, dir);
      }
    }
  }

  lemma ErasedAppend(lines: seq<string>, line: string, dir: Direction)
    ensures Erased(lines + [line], dir) ==
            if Foreign(lines, line, dir) then Erased(lines, dir) else Erased(lines, dir) + [line]
  {
    hide Foreign;
    assert (lines + [line])[..|lines|] == lines;
  }

  lemma ForeignIsText(front: seq<string>, line: string, dir: Direction)
    requires Foreign(front, line, dir)
    ensures Classify(line) == Text
  {
  }

  lemma ForeignExpanded(front: seq<string>, line: string, dir: Direction, sub: Interpolation)
    requires Transparent(front, sub) && (OnAfter(front) && Classify(line) == Text ==> KeepsItsRole(line, sub))
    ensures Foreign(Expanded(front, sub), Expand(OnAfter(front), line, sub), dir) <==> Foreign(front, line, dir)
  {
    hide Classify, KeepsItsRole, Expand, Transparent, SectionAfter, OnAfter;
    SectionAfterExpanded(front, sub);
    ExpandKeepsRole(OnAfter(front), line, sub);
  }

  lemma EmptyFile(dir: Direction, sub: Interpolation)
    ensures Transparent([], sub) && Expanded([], sub) == [] && Erased([], dir) == []
  {
  }

  /** Non-interference with substitution: the text of the other section has no influence on the result,
      errors included. */
  lemma OtherSectionIsIgnoredExpanded(lines: seq<string>, dir: Direction, sub: Interpolation)
    requires Transparent(lines, sub)
    ensures Parse(lines, dir, sub) == Parse(Erased(lines, dir), dir, sub)
  {
    hide Parse, Transparent, Erased;
    SubstitutionIsExpansion(lines, dir, sub);
    IdentityIsIdentity();
    OtherSectionIsIgnored(Expanded(lines, sub), dir, IDENTITY);
    ErasedExpanded(lines, dir, sub);
    SubstitutionIsExpansion(Erased(lines, dir), dir, sub);
  }
}
