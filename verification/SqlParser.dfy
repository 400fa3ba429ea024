/** The splitter of SQL migration files: ParseSQLMigration and ParseAllFromFS
    (internal/sqlparser/parser.go, internal/sqlparser/parse.go). A file is a sequence of lines. */
module SqlParser {
  import opened Wrappers
  import opened GoStrings
  import opened Annotations
  import opened Semicolons

  datatype Direction = DirectionUp | DirectionDown

  datatype ParserState =
    | Start
    | GooseUp | StatementBeginUp | StatementEndUp
    | GooseDown | StatementBeginDown | StatementEndDown

  datatype ParseError =
    | BadAnnotation(reason: AnnotationError)
    | DuplicateUp
    | MustStartWithUp
    | MisplacedBegin
    | MisplacedEnd
    | MissingSemicolon
    | SubstitutionFailed
    | UnexpectedState
    | NoUpAnnotation
    | MissingStatementEnd

  /** Environment substitution on one line; None when it fails. */
  type Interpolation = string -> Option<string>

  /** Which section of the file a state belongs to. */
  datatype Section = Preamble | UpSection | DownSection

  function SectionOf(s: ParserState): Section {
    match s
    case Start => Preamble
    case GooseUp | StatementBeginUp | StatementEndUp => UpSection
    case GooseDown | StatementBeginDown | StatementEndDown => DownSection
  }

  predicate Requested(s: ParserState, dir: Direction) {
    SectionOf(s) == if dir == DirectionUp then UpSection else DownSection
  }

  predicate InBlock(s: ParserState) {
    s == StatementBeginUp || s == StatementBeginDown
  }

  predicate AtBlockEnd(s: ParserState) {
    s == StatementEndUp || s == StatementEndDown
  }

  /** The state after a block has been stored. */
  function AfterBlock(s: ParserState): ParserState {
    match s
    case StatementEndUp => GooseUp
    case StatementEndDown => GooseDown
    case _ => s
  }

  /** What the annotations do to the state; the unfinished-statement test of Down comes apart. */
  function Transition(s: ParserState, a: Annotation): Result<ParserState, ParseError> {
    match a
    case Up => if s == Start then Ok(GooseUp) else Err(DuplicateUp)
    case Down => if s == GooseUp || s == StatementEndUp then Ok(GooseDown) else Err(MustStartWithUp)
    case StatementBegin =>
      if s == GooseUp || s == StatementEndUp then Ok(StatementBeginUp)
      else if s == GooseDown || s == StatementEndDown then Ok(StatementBeginDown)
      else Err(MisplacedBegin)
    case StatementEnd =>
      if s == StatementBeginUp then Ok(StatementEndUp)
      else if s == StatementBeginDown then Ok(StatementEndDown)
      else Err(MisplacedEnd)
    case NoTransaction | EnvsubOn | EnvsubOff => Ok(s)
  }

  /** The text buffered for some lines: each is followed by a newline. */
  function Render(buf: seq<string>): string {
    if buf == [] then "" else Render(buf[..|buf| - 1]) + (buf[|buf| - 1] + "\n")
  }

  predicate Blank(buf: seq<string>) {
    TrimSpace(Render(buf)) == ""
  }

  function Cleanup(buf: seq<string>): string {
    TrimSpace(Render(buf))
  }

  function CleanupAll(stmts: seq<seq<string>>): (r: seq<string>)
    ensures |r| == |stmts|
    ensures forall i :: 0 <= i < |r| ==> r[i] == Cleanup(stmts[i])
  {
    if stmts == [] then [] else CleanupAll(stmts[..|stmts| - 1]) + [Cleanup(stmts[|stmts| - 1])]
  }

  /** What the loop over the lines keeps. The buffer and the statements are kept as the lines they
      were made from. */
  datatype Run = Run(
    state: ParserState,
    useTx: bool,
    useEnvsub: bool,
    buf: seq<string>,
    stmts: seq<seq<string>>)

  const INITIAL := Run(Start, true, false, [], [])

  function Store(run: Run): Run {
    run.(stmts := run.stmts + [run.buf], buf := [])
  }

  /** Leading comments and empty lines of a statement are skipped. */
  predicate Skipped(buf: seq<string>, line: string) {
    buf == [] && (IsComment(line) || line == "")
  }

  function Substitute(useEnvsub: bool, line: string, sub: Interpolation): Option<string> {
    if useEnvsub then sub(line) else Some(line)
  }

  /** Adds text to the statement being read and stores the statement if a semicolon ends it. */
  function Accept(run: Run, text: string): Run {
    var run' := run.(buf := run.buf + [text]);
    if !InBlock(run.state) && EndsWithSemicolon(text) then Store(run') else run'
  }

  /** What happens to a line that is no annotation, and to the line of a StatementEnd. */
  function Consume(run: Run, line: string, dir: Direction, sub: Interpolation): Result<Run, ParseError> {
    if Skipped(run.buf, line) then Ok(run)
    else if AtBlockEnd(run.state) then
      if Requested(run.state, dir) then Ok(Store(run).(state := AfterBlock(run.state)))
      else Ok(run.(buf := []))
    else
      match Substitute(run.useEnvsub, line, sub)
      case None => Err(SubstitutionFailed)
      case Some(text) =>
        if run.state == Start then Err(UnexpectedState)
        else if !Requested(run.state, dir) then Ok(run.(buf := []))
        else Ok(Accept(run, text))
  }

  function Obey(run: Run, a: Annotation, line: string, dir: Direction, sub: Interpolation): Result<Run, ParseError> {
    match a
    case NoTransaction => Ok(run.(useTx := false))
    case EnvsubOn => Ok(run.(useEnvsub := true))
    case EnvsubOff => Ok(run.(useEnvsub := false))
    case _ =>
      var s :- Transition(run.state, a);
      if a == Down && !Blank(run.buf) then Err(MissingSemicolon)
      else if a == StatementEnd then Consume(run.(state := s), line, dir, sub)
      else Ok(run.(state := s))
  }

  function Step(run: Run, line: string, dir: Direction, sub: Interpolation): Result<Run, ParseError> {
    if run.state == Start && TrimSpace(line) == "" then Ok(run)
    else
      match Classify(line)
      case Malformed(e) => Err(BadAnnotation(e))
      case Directive(a) => Obey(run, a, line, dir, sub)
      case Text => Consume(run, line, dir, sub)
  }

  function Lines(lines: seq<string>, dir: Direction, sub: Interpolation): Result<Run, ParseError> {
    if lines == [] then Ok(INITIAL)
    else
      var run :- Lines(lines[..|lines| - 1], dir, sub);
      Step(run, lines[|lines| - 1], dir, sub)
  }

  /** The tests at the end of the file. */
  function AtEOF(state: ParserState, buf: seq<string>): Option<ParseError> {
    if state == Start then Some(NoUpAnnotation)
    else if InBlock(state) then Some(MissingStatementEnd)
    else if !Blank(buf) then Some(MissingSemicolon)
    else None
  }

  datatype Script = Script(stmts: seq<string>, useTx: bool)

  /** The result of ParseSQLMigration for one direction. */
  function Parse(lines: seq<string>, dir: Direction, sub: Interpolation): Result<Script, ParseError> {
    var run :- Lines(lines, dir, sub);
    match AtEOF(run.state, run.buf)
    case Some(e) => Err(e)
    case None => Ok(Script(CleanupAll(run.stmts), run.useTx))
  }

  /** The variables of the source's loop: the buffer is text and the statements are cleaned up. */
  datatype Scanner = Scanner(
    state: ParserState,
    useTx: bool,
    useEnvsub: bool,
    buf: string,
    stmts: seq<string>)

  ghost function View(run: Run): Scanner {
    Scanner(run.state, run.useTx, run.useEnvsub, Render(run.buf), CleanupAll(run.stmts))
  }

  ghost predicate Matches(r: Result<Scanner, ParseError>, spec: Result<Run, ParseError>) {
    match spec
    case Ok(run) => r == Ok(View(run))
    case Err(e) => r == Err(e)
  }

  lemma RenderAppend(buf: seq<string>, text: string)
    ensures Render(buf + [text]) == Render(buf) + (text + "\n")
  {
    assert (buf + [text])[..|buf|] == buf;
  }

  lemma StoreView(run: Run)
    ensures View(Store(run)) == View(run).(stmts := CleanupAll(run.stmts) + [Cleanup(run.buf)], buf := "")
  {
    assert (run.stmts + [run.buf])[..|run.stmts|] == run.stmts;
  }

  method AcceptText(sc: Scanner, text: string, ghost run: Run) returns (r: Scanner)
    requires sc == View(run) && run.state != Start && !AtBlockEnd(run.state)
    ensures r == View(Accept(run, text))
  {
    hide Render, CleanupAll, TrimSpace, EndsWithSemicolon;
    ghost var extended := run.(buf := run.buf + [text]);
    RenderAppend(run.buf, text);
    r := sc.(buf := sc.buf + (text + "\n"));
    assert r == View(extended);
    if sc.state == GooseUp || sc.state == GooseDown {
      var ends := ScanWords(text);
      if ends {
        StoreView(extended);
        r := r.(stmts := r.stmts + [TrimSpace(r.buf)], buf := "");
        return;
      }
    }
  }

  /** The second half of the loop body: buffer the line and store a finished statement. */
  method AbsorbLine(sc: Scanner, line: string, dir: Direction, sub: Interpolation, ghost run: Run)
    returns (r: Result<Scanner, ParseError>)
    requires sc == View(run)
    ensures Matches(r, Consume(run, line, dir, sub))
  {
    hide CleanupAll, TrimSpace, IsComment, EndsWithSemicolon, Accept;
    if sc.buf == "" && (IsComment(line) || line == "") {
      return Ok(sc);
    }
    if AtBlockEnd(sc.state) {
      if !Requested(sc.state, dir) {
        return Ok(sc.(buf := ""));
      }
      StoreView(run);
      return Ok(sc.(stmts := sc.stmts + [TrimSpace(sc.buf)], buf := "", state := AfterBlock(sc.state)));
    }
    var text := line;
    if sc.useEnvsub {
      var expanded := sub(line);
      if expanded.None? {
        return Err(SubstitutionFailed);
      }
      text := expanded.value;
    }
    if sc.state == Start {
      return Err(UnexpectedState);
    }
    if !Requested(sc.state, dir) {
      return Ok(sc.(buf := ""));
    }
    var accepted := AcceptText(sc, text, run);
    return Ok(accepted);
  }

  /** The body of the loop: blank lines before the first annotation, annotations, statement text. */
  method ScanLine(sc: Scanner, line: string, dir: Direction, sub: Interpolation, ghost run: Run)
    returns (r: Result<Scanner, ParseError>)
    requires sc == View(run)
    ensures Matches(r, Step(run, line, dir, sub))
  {
    hide Render, CleanupAll, TrimSpace, Classify, Consume;
    if sc.state == Start && TrimSpace(line) == "" {
      return Ok(sc);
    }
    var kind := Classify(line);
    if kind.Malformed? {
      return Err(BadAnnotation(kind.error));
    }
    if kind.Text? {
      r := AbsorbLine(sc, line, dir, sub, run);
      return;
    }
    if kind.annotation == NoTransaction {
      return Ok(sc.(useTx := false));
    }
    if kind.annotation == EnvsubOn || kind.annotation == EnvsubOff {
      return Ok(sc.(useEnvsub := kind.annotation == EnvsubOn));
    }
    var s := Transition(sc.state, kind.annotation);
    if s.Err? {
      return Err(s.error);
    }
    if kind.annotation == Down && TrimSpace(sc.buf) != "" {
      return Err(MissingSemicolon);
    }
    if kind.annotation != StatementEnd {
      return Ok(sc.(state := s.value));
    }
    r := AbsorbLine(sc.(state := s.value), line, dir, sub, run.(state := s.value));
  }

  /** ParseSQLMigration: one pass over the lines with a text buffer and a state machine. */
  method ParseSQLMigration(lines: seq<string>, dir: Direction, sub: Interpolation)
    returns (r: Result<Script, ParseError>)
    ensures r == Parse(lines, dir, sub)
  {
    var sc := Scanner(Start, true, false, "", []);
    ghost var run := INITIAL;
    assert sc == View(run);
    hide View, Step, Render, CleanupAll, TrimSpace;
    for i := 0 to |lines|
      invariant Lines(lines[..i], dir, sub) == Ok(run)
      invariant sc == View(run)
    {
      assert lines[..i + 1][..i] == lines[..i];
      var scanned := ScanLine(sc, lines[i], dir, sub, run);
      if scanned.Err? {
        FailurePersists(lines, i + 1, dir, sub);
        return Err(scanned.error);
      }
      sc := scanned.value;
      run := Step(run, lines[i], dir, sub).value;
    }
    assert lines[..|lines|] == lines;
    r := Finish(sc, run);
  }

  /** The tests of ParseSQLMigration at the end of the file. */
  method Finish(sc: Scanner, ghost run: Run) returns (r: Result<Script, ParseError>)
    requires sc == View(run)
    ensures r ==
      match AtEOF(run.state, run.buf)
      case Some(e) => Err(e)
      case None => Ok(Script(CleanupAll(run.stmts), run.useTx))
  {
    if sc.state == Start {
      return Err(NoUpAnnotation);
    }
    if sc.state == StatementBeginUp || sc.state == StatementBeginDown {
      return Err(MissingStatementEnd);
    }
    if TrimSpace(sc.buf) != "" {
      return Err(MissingSemicolon);
    }
    return Ok(Script(sc.stmts, sc.useTx));
  }

  /** A run that has failed stays failed, with the same error. */
  lemma {:induction false} FailurePersists(lines: seq<string>, i: nat, dir: Direction, sub: Interpolation)
    requires i <= |lines| && Lines(lines[..i], dir, sub).Err?
    ensures Lines(lines, dir, sub) == Lines(lines[..i], dir, sub)
    decreases |lines| - i
  {
    if i == |lines| {
      assert lines[..i] == lines;
    } else {
      assert lines[..i + 1][..i] == lines[..i];
      FailurePersists(lines, i + 1, dir, sub);
    }
  }

  /** The fields that the two goroutines of ParseAllFromFS fill in. */
  class ParsedSQL {
    var useTx: bool
    var up: seq<string>
    var down: seq<string>

    constructor ()
      ensures !useTx && up == [] && down == []
    {
      useTx, up, down := false, [], [];
    }
  }

  /** ParseAllFromFS: both directions are parsed, each by its own goroutine, in either order. */
  method ParseAll(lines: seq<string>, sub: Interpolation) returns (parsed: ParsedSQL, err: Option<ParseError>)
    ensures fresh(parsed)
    ensures err.None? <==> Parse(lines, DirectionUp, sub).Ok? && Parse(lines, DirectionDown, sub).Ok?
    ensures err.None? ==>
      && Parse(lines, DirectionUp, sub) == Ok(Script(parsed.up, parsed.useTx))
      && Parse(lines, DirectionDown, sub).value.stmts == parsed.down
  {
    parsed := new ParsedSQL();
    err := None;
    var upFirst: bool := *;
    for round := 0 to 2
      invariant fresh(parsed)
      invariant err.None? ==> (round == 0 || (round == 1 && !upFirst) ||
                   Parse(lines, DirectionUp, sub) == Ok(Script(parsed.up, parsed.useTx)))
      invariant err.None? ==> (round == 0 || (round == 1 && upFirst) ||
                   (Parse(lines, DirectionDown, sub).Ok? &&
                    Parse(lines, DirectionDown, sub).value.stmts == parsed.down))
      invariant err.Some? ==> Parse(lines, DirectionUp, sub).Err? || Parse(lines, DirectionDown, sub).Err?
    {
      var dir := if (round == 0) == upFirst then DirectionUp else DirectionDown;
      var r := ParseSQLMigration(lines, dir, sub);
      match r
      case Err(e) =>
        err := if err.None? then Some(e) else err;
      case Ok(script) =>
        if dir == DirectionUp {
          parsed.up, parsed.useTx := script.stmts, script.useTx;
        } else {
          parsed.down := script.stmts;
        }
    }
  }
}
