/** Annotation lines of a SQL migration file (internal/sqlparser/parser.go). */
module Annotations {
  import opened Wrappers
  import opened GoStrings

  datatype Annotation =
    | Up | Down | StatementBegin | StatementEnd | NoTransaction | EnvsubOn | EnvsubOff

  datatype AnnotationError = LeadingWhitespace | MultipleAnnotations | EmptyAnnotation | Unsupported

  /** What one line means to the splitter. */
  datatype LineKind = Directive(annotation: Annotation) | Malformed(error: AnnotationError) | Text

  const DASHES := "--"
  const GOOSE := "+goose"

  function Name(a: Annotation): string {
    match a
    case Up => "Up"
    case Down => "Down"
    case StatementBegin => "StatementBegin"
    case StatementEnd => "StatementEnd"
    case NoTransaction => "NO TRANSACTION"
    case EnvsubOn => "ENVSUB ON"
    case EnvsubOff => "ENVSUB OFF"
  }

  /** The supported annotation with the given name, up to case folding. */
  function Lookup(cmd: string): (r: Result<Annotation, AnnotationError>)
    ensures r.Ok? ==> EqualFold(Name(r.value), cmd)
    ensures r.Err? ==> r.error == Unsupported && forall a :: !EqualFold(Name(a), cmd)
  {
    if EqualFold(Name(Up), cmd) then Ok(Up)
    else if EqualFold(Name(Down), cmd) then Ok(Down)
    else if EqualFold(Name(StatementBegin), cmd) then Ok(StatementBegin)
    else if EqualFold(Name(StatementEnd), cmd) then Ok(StatementEnd)
    else if EqualFold(Name(NoTransaction), cmd) then Ok(NoTransaction)
    else if EqualFold(Name(EnvsubOn), cmd) then Ok(EnvsubOn)
    else if EqualFold(Name(EnvsubOff), cmd) then Ok(EnvsubOff)
    else Err(Unsupported)
  }

  function ExtractAnnotation(line: string): Result<Annotation, AnnotationError> {
    if HasPrefix(line, " ") || HasPrefix(line, "\t") then Err(LeadingWhitespace)
    else
      var cmd := RemoveFirst(RemoveAll(line, DASHES), GOOSE);
      if Contains(cmd, GOOSE) then Err(MultipleAnnotations)
      else if TrimSpace(cmd) == "" then Err(EmptyAnnotation)
      else Lookup(TrimSpace(cmd))
  }

  predicate IsComment(line: string) {
    HasPrefix(TrimSpace(line), DASHES)
  }

  predicate IsAnnotationLine(line: string) {
    IsComment(line) && Contains(line, GOOSE)
  }

  function Classify(line: string): LineKind {
    if IsAnnotationLine(line) then
      match ExtractAnnotation(line)
      case Ok(a) => Directive(a)
      case Err(e) => Malformed(e)
    else Text
  }

  lemma AnnotationIsComment(line: string)
    ensures Classify(line) != Text ==> IsComment(line)
  {
  }

  lemma BlankIsText(line: string)
    requires TrimSpace(line) == ""
    ensures Classify(line) == Text
  {
  }

  /** The canonical spelling of an annotation line, such as "-- +goose Up". */
  function AnnotationLine(a: Annotation): string {
    Marked([' '] + Name(a))
  }

  function Marked(rest: string): string {
    DASHES + ([' '] + (GOOSE + rest))
  }

  /** No two annotation names are equal up to case, so the order in which the supported names are
      tried does not matter. */
  lemma NamesAreDistinct(a: Annotation, b: Annotation)
    requires EqualFold(Name(a), Name(b))
    ensures a == b
  {
    // The only two names of equal length, "StatementBegin" and "NO TRANSACTION", differ at once.
    if |Name(a)| == 14 {
      assert Fold(Name(a)[0]) == Fold(Name(b)[0]);
    }
  }

  lemma LookupFindsName(a: Annotation)
    ensures Lookup(Name(a)) == Ok(a)
  {
    assert EqualFold(Name(a), Name(a));
    NamesAreDistinct(a, Lookup(Name(a)).value);
  }

  lemma NameHasNoMarkers(a: Annotation)
    ensures Trimmed(Name(a))
    ensures forall i :: 0 <= i < |Name(a)| ==> Name(a)[i] != '-' && Name(a)[i] != '+'
  {
  }

  /** Stripping the two markers of an annotation line leaves the rest. */
  lemma MarkersStripped(rest: string)
    requires forall i :: 0 <= i < |rest| ==> rest[i] != '-'
    ensures RemoveFirst(RemoveAll(Marked(rest), DASHES), GOOSE) == [' '] + rest
  {
    var tail := [' '] + (GOOSE + rest);
    forall i: nat | i <= |tail|
      ensures !OccursAt(tail, DASHES, i)
    {
      if i + 2 <= |tail| {
        assert tail[i..i + 2][0] == tail[i] != '-';
      }
    }
    RemoveAllLeading(DASHES, tail);
    RemoveAllAbsent(tail, DASHES);
    RemoveFirstSkips(' ', GOOSE + rest, GOOSE);
    RemoveFirstLeading(GOOSE, rest);
  }

  lemma MarkedIsAnnotationLine(rest: string)
    requires Trimmed(Marked(rest))
    ensures IsAnnotationLine(Marked(rest))
  {
    var line := Marked(rest);
    TrimSpaceOfCore("", line, "");
    assert "" + line + "" == line;
    assert line[3..9] == GOOSE;
    assert OccursAt(line, GOOSE, 3);
  }

  lemma NoPlusNoMarker(cmd: string)
    requires forall i :: 0 <= i < |cmd| ==> cmd[i] != '+'
    ensures !Contains(cmd, GOOSE)
  {
    forall i: nat | i <= |cmd|
      ensures !OccursAt(cmd, GOOSE, i)
    {
      if i + 6 <= |cmd| {
        assert cmd[i..i + 6][0] == cmd[i] != '+';
      }
    }
  }

  lemma MarkedNameExtracted(name: string)
    requires Trimmed(name)
    requires forall i :: 0 <= i < |name| ==> name[i] != '-' && name[i] != '+'
    ensures ExtractAnnotation(Marked([' '] + name)) == Lookup(name)
  {
    hide RemoveAll, RemoveFirst, TrimSpace, Contains, Lookup, AllSpace, IsSpace;
    var rest := [' '] + name;
    var cmd := [' '] + rest;
    MarkersStripped(rest);
    NoPlusNoMarker(cmd);
    assert AllSpace([' ', ' ']) && AllSpace([]) by { TwoSpaces(); }
    TrimSpaceOfCore([' ', ' '], name, []);
    assert [' ', ' '] + name + [] == cmd;
    assert Marked(rest)[0] == '-';
  }

  lemma TwoSpaces()
    ensures AllSpace([' ', ' ']) && AllSpace([])
  {
  }

  /** Every annotation printed in its canonical form is read back. */
  lemma AnnotationRoundTrip(a: Annotation)
    ensures Classify(AnnotationLine(a)) == Directive(a)
    ensures IsComment(AnnotationLine(a))
  {
    NameHasNoMarkers(a);
    LookupFindsName(a);
    MarkedNameExtracted(Name(a));
    MarkedIsAnnotationLine([' '] + Name(a));
  }
}
