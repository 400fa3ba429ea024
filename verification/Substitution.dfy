/** What substituting environment variables means: the same as parsing the file with the lines between
    ENVSUB ON and ENVSUB OFF already expanded (internal/sqlparser/parser.go). */
module Substitution {
  import opened Wrappers
  import opened GoStrings
  import opened Annotations
  import opened Semicolons
  import opened SqlParser

  const IDENTITY: Interpolation := line => Some(line)

  /** Expansion succeeds on a line of text, and does not turn it into an annotation, nor a line that may
      be skipped into one that may not, nor the other way round. */
  predicate KeepsItsRole(line: string, sub: Interpolation) {
    && sub(line).Some?
    && Classify(sub(line).value) == Text
    && (IsComment(sub(line).value) || sub(line).value == "" <==> IsComment(line) || line == "")
    && (TrimSpace(sub(line).value) == "" <==> TrimSpace(line) == "")
  }

  /** Whether substitution is on after some lines. */
  predicate OnAfter(lines: seq<string>) {
    if lines == [] then false
    else
      match Classify(lines[|lines| - 1])
      case Directive(EnvsubOn) => true
      case Directive(EnvsubOff) => false
      case _ => OnAfter(lines[..|lines| - 1])
  }

  /** Every line of text of the file that stands where substitution is on keeps its role. */
  ghost predicate Transparent(lines: seq<string>, sub: Interpolation) {
    forall i | 0 <= i < |lines| && OnAfter(lines[..i]) && Classify(lines[i]) == Text :: KeepsItsRole(lines[i], sub)
  }

  lemma TransparentFront(lines: seq<string>, sub: Interpolation)
    requires Transparent(lines, sub) && lines != []
    ensures
      var front, last := lines[..|lines| - 1], lines[|lines| - 1];
      && Transparent(front, sub)
      && (OnAfter(front) && Classify(last) == Text ==> KeepsItsRole(last, sub))
  {
    hide OnAfter, Classify, KeepsItsRole;
    var front := lines[..|lines| - 1];
    assert forall i | 0 <= i < |front| :: front[..i] == lines[..i] && front[i] == lines[i];
    assert lines[..|lines| - 1] == front;
  }

  function Expand(on: bool, line: string, sub: Interpolation): string {
    if on && Classify(line) == Text && sub(line).Some? then sub(line).value else line
  }

  /** The file with the text of its ENVSUB regions expanded. */
  function Expanded(lines: seq<string>, sub: Interpolation): seq<string> {
    if lines == [] then []
    else
      var front := lines[..|lines| - 1];
      Expanded(front, sub) + [Expand(OnAfter(front), lines[|lines| - 1], sub)]
  }

  lemma TextExpands(run: Run, line: string, dir: Direction, sub: Interpolation)
    requires Classify(line) == Text && (run.useEnvsub ==> KeepsItsRole(line, sub))
    ensures Step(run, line, dir, sub) == Step(run, Expand(run.useEnvsub, line, sub), dir, IDENTITY)
  {
    hide Classify, IsComment, TrimSpace, EndsWithSemicolon;
  }

  lemma OtherExpands(run: Run, line: string, dir: Direction, sub: Interpolation)
    requires Classify(line) != Text
    ensures Step(run, line, dir, sub) == Step(run, line, dir, IDENTITY)
  {
    hide Classify, TrimSpace, EndsWithSemicolon;
    AnnotationIsComment(line);
  }

  lemma FlagAfterStep(run: Run, line: string, dir: Direction, sub: Interpolation)
    requires Step(run, line, dir, sub).Ok? && !(run.state == Start && TrimSpace(line) == "")
    ensures Step(run, line, dir, sub).value.useEnvsub ==
      match Classify(line)
      case Directive(EnvsubOn) => true
      case Directive(EnvsubOff) => false
      case _ => run.useEnvsub
  {
    hide Classify, IsComment, TrimSpace, EndsWithSemicolon;
  }

  /** A run with substitution and a run over the expanded file go through the same states. */
  lemma {:induction false} RunsExpand(lines: seq<string>, dir: Direction, sub: Interpolation)
    requires Transparent(lines, sub)
    ensures Lines(lines, dir, sub) == Lines(Expanded(lines, sub), dir, IDENTITY)
    ensures Lines(lines, dir, sub).Ok? ==> Lines(lines, dir, sub).value.useEnvsub == OnAfter(lines)
  {
    hide Classify, Step, KeepsItsRole, Transparent;
    if lines != [] {
      var front, last := lines[..|lines| - 1], lines[|lines| - 1];
      TransparentFront(lines, sub);
      RunsExpand(front, dir, sub);
      var expanded := Expanded(front, sub);
      assert (expanded + [Expand(OnAfter(front), last, sub)])[..|expanded|] == expanded;
      if Lines(front, dir, sub).Ok? {
        var run := Lines(front, dir, sub).value;
        if Classify(last) == Text {
          TextExpands(run, last, dir, sub);
        } else {
          OtherExpands(run, last, dir, sub);
        }
        if run.state == Start && TrimSpace(last) == "" {
          BlankIsText(last);
          BlankStep(run, last, dir, sub);
        } else if Step(run, last, dir, sub).Ok? {
          FlagAfterStep(run, last, dir, sub);
        }
      }
    }
  }

  lemma BlankStep(run: Run, line: string, dir: Direction, sub: Interpolation)
    requires run.state == Start && TrimSpace(line) == ""
    ensures Step(run, line, dir, sub) == Ok(run)
  {
  }

  /** Parsing with substitution is parsing the expanded file, errors included. */
  lemma SubstitutionIsExpansion(lines: seq<string>, dir: Direction, sub: Interpolation)
    requires Transparent(lines, sub)
    ensures Parse(lines, dir, sub) == Parse(Expanded(lines, sub), dir, IDENTITY)
  {
    hide Lines, Transparent;
    RunsExpand(lines, dir, sub);
  }
}
