/** When a line ends a statement: endsWithSemicolon in internal/sqlparser/parser.go. */
module Semicolons {
  import opened GoStrings

  /** A "--" that begins a word. */
  predicate CommentStart(line: string, k: nat) {
    k + 2 <= |line| && line[k] == '-' && line[k + 1] == '-' && (k == 0 || IsSpace(line[k - 1]))
  }

  /** The first comment start at or after k, or the end of the line. */
  function Cut(line: string, k: nat): (c: nat)
    requires k <= |line|
    ensures k <= c <= |line|
    ensures forall j :: k <= j < c ==> !CommentStart(line, j)
    ensures c < |line| ==> CommentStart(line, c)
    decreases |line| - k
  {
    if k == |line| || CommentStart(line, k) then k else Cut(line, k + 1)
  }

  /** Up to its first comment, the last character of the line that is no space is a semicolon. */
  predicate EndsWithSemicolon(line: string) {
    exists i | 0 <= i < Cut(line, 0) ::
      line[i] == ';' && forall j :: i < j < Cut(line, 0) ==> IsSpace(line[j])
  }

  function SkipSpaces(line: string, k: nat): (r: nat)
    requires k <= |line|
    ensures k <= r <= |line|
    ensures forall j :: k <= j < r ==> IsSpace(line[j])
    ensures r < |line| ==> !IsSpace(line[r])
    decreases |line| - k
  {
    if k < |line| && IsSpace(line[k]) then SkipSpaces(line, k + 1) else k
  }

  function WordEnd(line: string, k: nat): (r: nat)
    requires k <= |line|
    ensures k <= r <= |line|
    ensures forall j :: k <= j < r ==> !IsSpace(line[j])
    ensures r < |line| ==> IsSpace(line[r])
    decreases |line| - k
  {
    if k < |line| && !IsSpace(line[k]) then WordEnd(line, k + 1) else k
  }

  lemma WordStartsComment(line: string, k: nat)
    requires k < |line| && !IsSpace(line[k]) && (k == 0 || IsSpace(line[k - 1]))
    ensures CommentStart(line, k) <==> HasPrefix(line[k..WordEnd(line, k)], "--")
  {
    var word := line[k..WordEnd(line, k)];
    if CommentStart(line, k) {
      assert |word| >= 2 && word[0] == '-' && word[1] == '-';
    }
    if HasPrefix(word, "--") {
      assert word[0] == '-' && word[1] == '-';
    }
  }

  /** Up to the end of a word, no comment starts but at the start of the word. */
  lemma WordHasNoComment(line: string, pos: nat, next: nat)
    requires pos <= |line| && next == SkipSpaces(line, pos)
    ensures forall j :: pos <= j < WordEnd(line, next) && j != next ==> !CommentStart(line, j)
  {
    assert !IsSpace('-');
    hide IsSpace;
  }

  /** Whether the line ends with a semicolon is told by its last character before the spaces that
      run up to the comment. */
  lemma LastWordDecides(line: string, pos: nat)
    requires pos <= |line| && Cut(line, 0) == SkipSpaces(line, pos)
    requires pos == 0 || !IsSpace(line[pos - 1])
    ensures EndsWithSemicolon(line) <==> pos > 0 && line[pos - 1] == ';'
  {
    assert !IsSpace(';');
  }

  /** Code in which no "--" begins a word. */
  predicate NoComment(code: string) {
    forall k | 0 <= k < |code| - 1 :: code[k] == '-' && code[k + 1] == '-' ==> k > 0 && !IsSpace(code[k - 1])
  }

  /** A line is made of code, spaces, and perhaps a comment that begins the line or stands behind a space.
      It ends a statement if and only if the last character of the code is a semicolon. */
  lemma CodeDecides(code: string, spaces: string, comment: string)
    requires NoComment(code) && (code == "" || !IsSpace(code[|code| - 1])) && AllSpace(spaces)
    requires comment == "" || (HasPrefix(comment, "--") && (spaces != "" || code == ""))
    ensures EndsWithSemicolon(code + spaces + comment) <==> code != "" && code[|code| - 1] == ';'
  {
    var line := code + spaces + comment;
    var n := |code| + |spaces|;
    assert !IsSpace('-') && !IsSpace(';');
    forall j | 0 <= j < n ensures !CommentStart(line, j) {
      if |code| <= j {
        assert line[j] == spaces[j - |code|];
      }
    }
    assert comment != "" ==> CommentStart(line, n) by {
      if comment != "" {
        assert line[n] == comment[0] == '-' && line[n + 1] == comment[1] == '-';
      }
    }
    assert Cut(line, 0) == n;
    forall j | |code| <= j < n ensures IsSpace(line[j]) {
      assert line[j] == spaces[j - |code|];
    }
    assert SkipSpaces(line, |code|) == n;
    LastWordDecides(line, |code|);
  }

  /** The source's loop over the words of the line meets the character-level description. */
  method ScanWords(line: string) returns (r: bool)
    ensures r == EndsWithSemicolon(line)
  {
    hide IsSpace, CommentStart, HasPrefix, EndsWithSemicolon;
    var prev: string := "";
    var pos := 0;
    var next := SkipSpaces(line, 0);
    while next < |line| && !HasPrefix(line[next..WordEnd(line, next)], "--")
      invariant pos <= |line| && next == SkipSpaces(line, pos)
      invariant pos == 0 || !IsSpace(line[pos - 1])
      invariant pos == 0 || pos == |line| || IsSpace(line[pos])
      invariant forall j :: 0 <= j < pos ==> !CommentStart(line, j)
      invariant |prev| <= pos && line[pos - |prev|..pos] == prev
      invariant prev == "" ==> pos == 0
      decreases |line| - pos
    {
      var end := WordEnd(line, next);
      var word := line[next..end];
      WordStartsComment(line, next);
      WordHasNoComment(line, pos, next);
      prev, pos := word, end;
      next := SkipSpaces(line, pos);
    }
    if next < |line| {
      WordStartsComment(line, next);
    }
    WordHasNoComment(line, pos, next);
    assert Cut(line, 0) == next;
    LastWordDecides(line, pos);
    r := |prev| > 0 && prev[|prev| - 1] == ';';
    if pos > 0 {
      assert line[pos - 1] == prev[|prev| - 1];
    }
  }
}
