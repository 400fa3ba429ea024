/** The order of the annotations of a file (internal/sqlparser/parser.go): Up comes first and once, Down at
    most once, and each StatementBegin is followed by its StatementEnd. The states of the splitter are
    put in terms of the annotations that it has read. */
module MarkOrder {
  import opened Wrappers
  import opened GoStrings
  import opened Annotations
  import opened Semicolons
  import opened SqlParser

  /** An annotation that structures the file. */
  predicate IsMark(kind: LineKind) {
    kind.Directive? && kind.annotation in {Up, Down, StatementBegin, StatementEnd}
  }

  /** The structuring annotations of a file, in order. */
  function Marks(lines: seq<string>): seq<Annotation> {
    if lines == [] then []
    else
      var kind := Classify(lines[|lines| - 1]);
      Marks(lines[..|lines| - 1]) + if IsMark(kind) then [kind.annotation] else []
  }

  /** Up comes first and once, Down at most once, and a StatementEnd exactly behind a StatementBegin. */
  predicate InOrder(marks: seq<Annotation>) {
    && (marks != [] ==> marks[0] == Up)
    && forall i | 0 < i < |marks| ::
         && marks[i] != Up
         && (marks[i] == StatementEnd <==> marks[i - 1] == StatementBegin)
         && (marks[i] == Down ==> Down !in marks[..i])
  }

  predicate BlockIsOpen(marks: seq<Annotation>) {
    marks != [] && marks[|marks| - 1] == StatementBegin
  }

  /** What the state tells of the annotations so far. */
  ghost predicate Tells(run: Run, marks: seq<Annotation>) {
    && InOrder(marks)
    && (run.state == Start <==> marks == [])
    && (run.state == Start ==> run.buf == [])
    && (SectionOf(run.state) == DownSection <==> Down in marks)
    && (InBlock(run.state) <==> BlockIsOpen(marks))
  }

  lemma OneMoreInOrder(marks: seq<Annotation>, a: Annotation)
    requires InOrder(marks) && a in {Up, Down, StatementBegin, StatementEnd}
    ensures InOrder(marks + [a]) <==>
      match a
      case Up => marks == []
      case Down => marks != [] && Down !in marks && !BlockIsOpen(marks)
      case StatementBegin => marks != [] && !BlockIsOpen(marks)
      case StatementEnd => BlockIsOpen(marks)
      case _ => false
  {
    var all, n := marks + [a], |marks|;
    assert all[n] == a && all[..n] == marks;
    assert forall i | 0 < i < n :: all[..i] == marks[..i];
  }

  /** The error of an annotation that is out of order. */
  function OrderError(a: Annotation): ParseError {
    match a
    case Up => DuplicateUp
    case Down => MustStartWithUp
    case StatementBegin => MisplacedBegin
    case _ => MisplacedEnd
  }

  lemma TransitionIff(run: Run, marks: seq<Annotation>, a: Annotation)
    requires Tells(run, marks) && a in {Up, Down, StatementBegin, StatementEnd}
    ensures if InOrder(marks + [a]) then Transition(run.state, a).Ok? else Transition(run.state, a) == Err(OrderError(a))
    ensures InOrder(marks + [a]) ==>
      var s := Transition(run.state, a).value;
      && s != Start
      && (SectionOf(s) == DownSection <==> Down in marks + [a])
      && (InBlock(s) <==> a == StatementBegin)
      && (AtBlockEnd(s) <==> a == StatementEnd)
  {
    hide InOrder;
    OneMoreInOrder(marks, a);
  }

  /** Text changes neither the section nor whether a block is open. */
  lemma TextTells(run: Run, line: string, dir: Direction, sub: Interpolation)
    requires Consume(run, line, dir, sub).Ok?
    ensures
      var next := Consume(run, line, dir, sub).value;
      && SectionOf(next.state) == SectionOf(run.state) && InBlock(next.state) == InBlock(run.state)
      && (run.state == Start ==> next == run)
      && next.useTx == run.useTx
  {
    hide IsComment, EndsWithSemicolon;
  }

  lemma DirectiveTells(run: Run, marks: seq<Annotation>, line: string, a: Annotation, dir: Direction, sub: Interpolation)
    requires Tells(run, marks)
    ensures
      var r := Obey(run, a, line, dir, sub);
      if a in {Up, Down, StatementBegin, StatementEnd} then
        && (!InOrder(marks + [a]) ==> r == Err(OrderError(a)))
        && (InOrder(marks + [a]) ==>
              if a == Down && !Blank(run.buf) then r == Err(MissingSemicolon)
              else r.Ok? && Tells(r.value, marks + [a]) && r.value.useTx == run.useTx)
      else r.Ok? && Tells(r.value, marks) && (r.value.useTx <==> run.useTx && a != NoTransaction)
  {
    hide InOrder, IsComment, EndsWithSemicolon, Blank, Transition;
    if a in {Up, Down, StatementBegin, StatementEnd} {
      TransitionIff(run, marks, a);
      if InOrder(marks + [a]) && a == StatementEnd {
        var ended := run.(state := Transition(run.state, a).value);
        EndIsConsumed(ended, line, dir, sub);
        TextTells(ended, line, dir, sub);
      }
    }
  }

  lemma EndIsConsumed(run: Run, line: string, dir: Direction, sub: Interpolation)
    requires AtBlockEnd(run.state)
    ensures Consume(run, line, dir, sub).Ok?
  {
  }

  lemma MarksAppend(lines: seq<string>, line: string)
    ensures Marks(lines + [line]) == Marks(lines) + if IsMark(Classify(line)) then [Classify(line).annotation] else []
  {
    assert (lines + [line])[..|lines|] == lines;
  }

  lemma StepTells(run: Run, marks: seq<Annotation>, line: string, dir: Direction, sub: Interpolation)
    requires Tells(run, marks) && Step(run, line, dir, sub).Ok?
    ensures
      var next := Step(run, line, dir, sub).value;
      var kind := Classify(line);
      && Tells(next, marks + if IsMark(kind) then [kind.annotation] else [])
      && (next.useTx <==> run.useTx && kind != Directive(NoTransaction))
  {
    hide InOrder, Classify, Consume, Obey, TrimSpace;
    assert marks + [] == marks;
    if run.state == Start && TrimSpace(line) == "" {
      BlankIsText(line);
    } else {
      match Classify(line)
      case Text => TextTells(run, line, dir, sub);
      case Directive(a) => DirectiveTells(run, marks, line, a, dir, sub);
      case Malformed(_) =>
    }
  }

  /** While no line is refused, the annotations read are in order and the state tells what they are; the
      script runs in a transaction unless one of the lines says otherwise. */
  lemma {:induction false} RunTells(lines: seq<string>, dir: Direction, sub: Interpolation)
    requires Lines(lines, dir, sub).Ok?
    ensures Tells(Lines(lines, dir, sub).value, Marks(lines))
    ensures Lines(lines, dir, sub).value.useTx <==> forall line | line in lines :: Classify(line) != Directive(NoTransaction)
  {
    hide Classify, Step, Tells, IsMark;
    if lines == [] {
      NothingTells();
    } else {
      var front, last := lines[..|lines| - 1], lines[|lines| - 1];
      assert lines == front + [last];
      RunTells(front, dir, sub);
      StepTells(Lines(front, dir, sub).value, Marks(front), last, dir, sub);
    }
  }

  lemma NothingTells()
    ensures Tells(INITIAL, []) && INITIAL.useTx
  {
  }

  /** Which line is refused, and why. A line that is no well-formed annotation where one is meant is
      refused for that. A structuring annotation is refused exactly if it is out of order, and a Down also
      if the section before it has an unfinished statement; a text that is neither blank nor a comment
      is refused before the first Up, unless its variables fail first; after that a text is refused only
      for its variables. Nothing else is refused. */
  lemma RefusedIff(lines: seq<string>, line: string, dir: Direction, sub: Interpolation)
    requires Lines(lines, dir, sub).Ok?
    ensures
      var run := Lines(lines, dir, sub).value;
      var marks := Marks(lines);
      var r := Lines(lines + [line], dir, sub);
      match Classify(line)
      case Malformed(e) => r == Err(BadAnnotation(e))
      case Directive(a) =>
        if !IsMark(Directive(a)) then r.Ok?
        else if !InOrder(marks + [a]) then r == Err(OrderError(a))
        else if a == Down && !Blank(run.buf) then r == Err(MissingSemicolon)
        else r.Ok?
      case Text =>
        if marks == [] then
          if TrimSpace(line) == "" || IsComment(line) then r.Ok?
          else r == Err(if Substitute(run.useEnvsub, line, sub).None? then SubstitutionFailed else UnexpectedState)
        else r.Ok? || (r == Err(SubstitutionFailed) && run.useEnvsub && sub(line) == None)
  {
    hide Classify, InOrder, Blank, TrimSpace, IsComment;
    var run := Lines(lines, dir, sub).value;
    RunTells(lines, dir, sub);
    assert (lines + [line])[..|lines|] == lines;
    assert Lines(lines + [line], dir, sub) == Step(run, line, dir, sub);
    match Classify(line)
    case Malformed(_) =>
      assert TrimSpace(line) != "" by { if TrimSpace(line) == "" { BlankIsText(line); } }
    case Directive(a) =>
      assert TrimSpace(line) != "" by { if TrimSpace(line) == "" { BlankIsText(line); } }
      DirectiveTells(run, Marks(lines), line, a, dir, sub);
    case Text =>
      EmptyTrimsToEmpty();
  }

  lemma EmptyTrimsToEmpty()
    ensures TrimSpace("") == ""
  {
  }

  /** A file none of whose lines is refused is accepted in a direction if and only if it has an Up, its
      last block is closed and nothing but white space is left over. */
  lemma AcceptedIff(lines: seq<string>, dir: Direction, sub: Interpolation)
    requires Lines(lines, dir, sub).Ok?
    ensures
      var marks, buf := Marks(lines), Lines(lines, dir, sub).value.buf;
      var r := Parse(lines, dir, sub);
      && InOrder(marks)
      && (r == Err(NoUpAnnotation) <==> Up !in marks)
      && (r == Err(MissingStatementEnd) <==> BlockIsOpen(marks))
      && (r == Err(MissingSemicolon) <==> Up in marks && !BlockIsOpen(marks) && !AllSpace(Render(buf)))
      && (r.Ok? <==> Up in marks && !BlockIsOpen(marks) && AllSpace(Render(buf)))
      && (r.Ok? ==> (r.value.useTx <==> forall line | line in lines :: Classify(line) != Directive(NoTransaction)))
  {
    hide Lines, Classify, Render, TrimSpace, AllSpace;
    RunTells(lines, dir, sub);
    BlankIffAllSpace(Render(Lines(lines, dir, sub).value.buf));
    var marks := Marks(lines);
    assert marks != [] ==> marks[0] == Up;
  }
}
