/** Which spellings of an annotation line are read (internal/sqlparser/parser.go): letters in either case,
    any spaces between and behind the words, but neither a space nor a tab before the dashes. */
module Spellings {
  import opened Wrappers
  import opened GoStrings
  import opened Annotations

  /** The same character, the same letter in the other case, or the long form of an s. */
  predicate SameLetter(c: char, d: char) {
    || c == d
    || ((c == 's' || c == 'S') && d == '\U{17F}')
    || ('A' <= c <= 'Z' && d as int == c as int + 32)
    || ('A' <= d <= 'Z' && c as int == d as int + 32)
  }

  predicate SameLetters(a: string, b: string) {
    |a| == |b| && forall i :: 0 <= i < |a| ==> SameLetter(a[i], b[i])
  }

  predicate IsLetter(c: char) {
    'A' <= c <= 'Z' || 'a' <= c <= 'z'
  }

  /** Names begin and end with a letter and consist of letters and blanks. */
  lemma NameIsWords(a: Annotation)
    ensures Name(a) != "" && IsLetter(Name(a)[0]) && IsLetter(Name(a)[|Name(a)| - 1])
    ensures forall i :: 0 <= i < |Name(a)| ==> IsLetter(Name(a)[i]) || Name(a)[i] == ' '
    ensures Lacks(Name(a), 'k') && Lacks(Name(a), 'K')
  {
  }

  predicate Lacks(s: string, c: char) {
    forall i :: 0 <= i < |s| ==> s[i] != c
  }

  lemma SpelledIsWords(a: Annotation, name: string)
    requires SameLetters(Name(a), name)
    ensures Trimmed(name) && Lacks(name, '-') && Lacks(name, '+')
  {
    hide Name;
    NameIsWords(a);
    forall i | 0 <= i < |name|
      ensures name[i] != '-' && name[i] != '+' && (IsLetter(Name(a)[i]) ==> !IsSpace(name[i]))
    {
      assert SameLetter(Name(a)[i], name[i]);
    }
  }

  /** A name is that of an annotation if and only if it has its letters, each in either case. */
  lemma FoundInEitherCase(a: Annotation, name: string)
    ensures Lookup(name) == Ok(a) <==> SameLetters(Name(a), name)
  {
    hide Name;
    NameIsWords(a);
    if |name| == |Name(a)| {
      forall i | 0 <= i < |name| ensures Fold(Name(a)[i]) == Fold(name[i]) <==> SameLetter(Name(a)[i], name[i]) {
      }
    }
    assert EqualFold(Name(a), name) <==> SameLetters(Name(a), name);
    if EqualFold(Name(a), name) {
      EqualNames(a, Lookup(name).value, name);
    }
  }

  lemma EqualNames(a: Annotation, b: Annotation, name: string)
    requires EqualFold(Name(a), name) && EqualFold(Name(b), name)
    ensures a == b
  {
    hide Name, Fold;
    NamesAreDistinct(a, b);
  }

  // ----- Removing the markers

  lemma {:induction false} DashesGo(pre: string, rest: string)
    requires Lacks(pre, '-') && Lacks(rest, '-')
    ensures RemoveAll(pre + DASHES + rest, DASHES) == pre + rest
  {
    if pre == "" {
      forall i: nat | i <= |rest| ensures !OccursAt(rest, DASHES, i) {
        assert i + 2 <= |rest| ==> rest[i..i + 2][0] == rest[i] != '-';
      }
      RemoveAllLeading(DASHES, rest);
      RemoveAllAbsent(rest, DASHES);
      assert pre + DASHES + rest == DASHES + rest && pre + rest == rest;
    } else {
      DashesGo(pre[1..], rest);
      var s := pre + DASHES + rest;
      assert s[0] == pre[0] && s[1..] == pre[1..] + DASHES + rest;
      assert pre + rest == [pre[0]] + (pre[1..] + rest);
    }
  }

  lemma {:induction false} MarkerGoes(pre: string, rest: string)
    requires Lacks(pre, '+')
    ensures RemoveFirst(pre + GOOSE + rest, GOOSE) == pre + rest
  {
    if pre == "" {
      RemoveFirstLeading(GOOSE, rest);
      assert pre + GOOSE + rest == GOOSE + rest && pre + rest == rest;
    } else {
      MarkerGoes(pre[1..], rest);
      RemoveFirstSkips(pre[0], pre[1..] + GOOSE + rest, GOOSE);
      assert pre + GOOSE + rest == [pre[0]] + (pre[1..] + GOOSE + rest);
      assert pre + rest == [pre[0]] + (pre[1..] + rest);
    }
  }

  lemma SpacesLack(s: string)
    requires AllSpace(s)
    ensures Lacks(s, '-') && Lacks(s, '+')
  {
  }

  lemma SpacesJoin(a: string, b: string)
    requires AllSpace(a) && AllSpace(b)
    ensures AllSpace(a + b)
  {
    hide IsSpace;
  }

  lemma LacksJoin(a: string, b: string, c: char)
    requires Lacks(a, c) && Lacks(b, c)
    ensures Lacks(a + b, c)
  {
  }

  // ----- The whole line

  /** The words of an annotation line with what stands between them. */
  function Spelled(indent: string, gap: string, pad: string, name: string, tail: string): string {
    indent + "--" + (gap + "+goose" + (pad + name + tail))
  }

  lemma SpelledIsAnnotationLine(indent: string, gap: string, pad: string, name: string, tail: string)
    requires AllSpace(indent) && AllSpace(tail) && Trimmed(name)
    ensures IsAnnotationLine(Spelled(indent, gap, pad, name, tail))
  {
    hide IsSpace, AllSpace, TrimSpace;
    var line := Spelled(indent, gap, pad, name, tail);
    var core := "--" + gap + "+goose" + pad + name;
    assert line == indent + core + tail;
    DashIsNoSpace();
    assert core[|core| - 1] == name[|name| - 1];
    TrimSpaceOfCore(indent, core, tail);
    assert DASHES <= core;
    var at := |indent| + 2 + |gap|;
    assert line[at..at + 6] == GOOSE;
    assert OccursAt(line, GOOSE, at);
  }

  lemma DashIsNoSpace()
    ensures !IsSpace('-') && !IsSpace('e')
  {
  }

  /** What is left of a line when the markers have been removed. */
  lemma SpelledCommand(indent: string, gap: string, rest: string)
    requires AllSpace(indent) && AllSpace(gap) && Lacks(rest, '-')
    ensures RemoveFirst(RemoveAll(indent + "--" + (gap + "+goose" + rest), DASHES), GOOSE) == indent + gap + rest
  {
    hide IsSpace, AllSpace, Lacks, RemoveAll, RemoveFirst;
    SpacesLack(indent);
    SpacesLack(gap);
    GooseLacksDash();
    LacksJoin(gap, GOOSE, '-');
    LacksJoin(gap + GOOSE, rest, '-');
    DashesGo(indent, gap + GOOSE + rest);
    assert indent + (gap + GOOSE + rest) == (indent + gap) + GOOSE + rest;
    LacksJoin(indent, gap, '+');
    MarkerGoes(indent + gap, rest);
  }

  lemma SpelledIsStripped(indent: string, gap: string, pad: string, name: string, tail: string)
    requires AllSpace(indent) && AllSpace(gap) && AllSpace(pad) && AllSpace(tail)
    requires Trimmed(name) && Lacks(name, '-') && Lacks(name, '+')
    ensures
      var cmd := RemoveFirst(RemoveAll(Spelled(indent, gap, pad, name, tail), DASHES), GOOSE);
      !Contains(cmd, GOOSE) && TrimSpace(cmd) == name
  {
    hide IsSpace, AllSpace, TrimSpace, Lacks, RemoveAll, RemoveFirst, Contains;
    SpacesLack(indent);
    SpacesLack(gap);
    var rest := pad + name + tail;
    RestLacks(pad, name, tail, '-');
    RestLacks(pad, name, tail, '+');
    SpelledCommand(indent, gap, rest);
    var cmd := indent + gap + rest;
    LacksJoin(indent, gap, '+');
    LacksJoin(indent + gap, rest, '+');
    NoMarkerLeft(cmd);
    SpacesJoin(indent, gap);
    SpacesJoin(indent + gap, pad);
    TrimSpaceOfCore(indent + gap + pad, name, tail);
    assert cmd == (indent + gap + pad) + name + tail;
  }

  lemma RestLacks(pad: string, name: string, tail: string, c: char)
    requires AllSpace(pad) && AllSpace(tail) && Lacks(name, c) && (c == '-' || c == '+')
    ensures Lacks(pad + name + tail, c)
  {
    hide IsSpace, AllSpace, Lacks;
    SpacesLack(pad);
    SpacesLack(tail);
    LacksJoin(pad, name, c);
    LacksJoin(pad + name, tail, c);
  }

  lemma GooseLacksDash()
    ensures Lacks(GOOSE, '-')
  {
  }

  lemma NoMarkerLeft(cmd: string)
    requires Lacks(cmd, '+')
    ensures !Contains(cmd, GOOSE)
  {
    NoPlusNoMarker(cmd);
  }

  /** Whatever white space stands before, between and behind its words, and in whichever case its letters
      are, an annotation line is read as its annotation, unless it begins with a blank or a tab: then
      it is refused for leading whitespace. */
  lemma AnySpelling(a: Annotation, indent: string, gap: string, pad: string, name: string, tail: string)
    requires AllSpace(indent) && AllSpace(gap) && AllSpace(pad) && AllSpace(tail)
    requires SameLetters(Name(a), name)
    ensures Classify(Spelled(indent, gap, pad, name, tail)) ==
            if indent != "" && (indent[0] == ' ' || indent[0] == '\t') then Malformed(LeadingWhitespace)
            else Directive(a)
  {
    hide IsSpace, AllSpace, TrimSpace, Lacks, RemoveAll, RemoveFirst, Contains, Name, SameLetters, Lookup, IsAnnotationLine;
    SpelledIsWords(a, name);
    FoundInEitherCase(a, name);
    SpelledIsAnnotationLine(indent, gap, pad, name, tail);
    SpelledIsStripped(indent, gap, pad, name, tail);
    var line := Spelled(indent, gap, pad, name, tail);
    assert line[0] == if indent != "" then indent[0] else '-';
  }

  predicate NotIndented(indent: string) {
    AllSpace(indent) && (indent == "" || (indent[0] != ' ' && indent[0] != '\t'))
  }

  /** Without a blank or a tab in front, a line with any other words behind the marker is refused: for a
      second marker, or because they are not supported. */
  lemma UnknownIsRefused(indent: string, gap: string, pad: string, name: string, tail: string)
    requires NotIndented(indent) && AllSpace(gap) && AllSpace(pad) && AllSpace(tail)
    requires Trimmed(name) && Lacks(name, '-')
    ensures
      var kind := Classify(Spelled(indent, gap, pad, name, tail));
      && (Contains(name, GOOSE) ==> kind == Malformed(MultipleAnnotations))
      && (Lacks(name, '+') && (forall a :: !SameLetters(Name(a), name)) ==> kind == Malformed(Unsupported))
  {
    hide IsSpace, AllSpace, TrimSpace, Lacks, RemoveAll, RemoveFirst, Contains, Name, IsAnnotationLine, Lookup, SameLetters;
    SpelledIsAnnotationLine(indent, gap, pad, name, tail);
    var line := Spelled(indent, gap, pad, name, tail);
    assert line[0] == if indent != "" then indent[0] else '-';
    if Lacks(name, '+') {
      NoMarkerLeft(name);
      if forall a :: !SameLetters(Name(a), name) {
        SpelledIsStripped(indent, gap, pad, name, tail);
        NoneIsUnsupported(name);
      }
    } else if Contains(name, GOOSE) {
      RestLacks(pad, name, tail, '-');
      SpelledCommand(indent, gap, pad + name + tail);
      assert indent + gap + (pad + name + tail) == (indent + gap + pad) + name + tail;
      ContainsWithin(indent + gap + pad, name, tail);
    }
  }

  lemma NoneIsUnsupported(name: string)
    requires forall a :: !SameLetters(Name(a), name)
    ensures Lookup(name) == Err(Unsupported)
  {
    hide Name, SameLetters;
    match Lookup(name)
    case Ok(a) => FoundInEitherCase(a, name);
    case Err(_) =>
  }

  lemma ContainsWithin(pre: string, name: string, post: string)
    requires Contains(name, GOOSE)
    ensures Contains(pre + name + post, GOOSE)
  {
    var i: nat :| i <= |name| && OccursAt(name, GOOSE, i);
    var s := pre + name + post;
    assert s[|pre| + i..|pre| + i + 6] == name[i..i + 6];
    assert OccursAt(s, GOOSE, |pre| + i);
  }

  /** And a line with nothing behind the marker is refused as empty. */
  lemma NothingIsRefused(indent: string, gap: string, tail: string)
    requires NotIndented(indent) && AllSpace(gap) && AllSpace(tail)
    ensures Classify(indent + "--" + (gap + "+goose" + tail)) == Malformed(EmptyAnnotation)
  {
    hide IsSpace, AllSpace, TrimSpace, Lacks, RemoveAll, RemoveFirst, Contains, Lookup;
    var line := indent + "--" + (gap + "+goose" + tail);
    var core := "--" + gap + "+goose";
    assert line == indent + core + tail;
    DashIsNoSpace();
    assert core[0] == '-' && core[|core| - 1] == GOOSE[5];
    TrimSpaceOfCore(indent, core, tail);
    assert DASHES <= core;
    GooseWithin(indent + "--" + gap, tail);
    assert line == (indent + "--" + gap) + GOOSE + tail;
    assert line[0] == if indent != "" then indent[0] else '-';
    SpacesLack(indent);
    SpacesLack(gap);
    SpacesLack(tail);
    SpelledCommand(indent, gap, tail);
    var cmd := indent + gap + tail;
    LacksJoin(indent, gap, '+');
    LacksJoin(indent + gap, tail, '+');
    NoMarkerLeft(cmd);
    SpacesJoin(indent, gap);
    SpacesJoin(indent + gap, tail);
    BlankIffAllSpace(cmd);
  }

  lemma GooseWithin(pre: string, post: string)
    ensures Contains(pre + GOOSE + post, GOOSE)
  {
    assert OccursAt(GOOSE, GOOSE, 0);
    ContainsWithin(pre, GOOSE, post);
  }

  /** The spelling in lower case. */
  lemma LowerCase()
    ensures Classify("-- +goose up") == Directive(Up)
  {
    hide Classify, IsSpace;
    TwoSpaces();
    assert AllSpace(" ") by { assert [' ', ' '][0] == " "[0]; }
    AnySpelling(Up, "", " ", " ", "up", "");
    assert Spelled("", " ", " ", "up", "") == "-- +goose up";
  }
}
