/** The few string operations of Go's standard library that the SQL splitter relies on,
    over sequences of characters (runes). */
module GoStrings {

  /** Unicode White_Space, the class used by strings.TrimSpace and bufio.ScanWords. */
  predicate IsSpace(c: char) {
    || '\t' <= c <= '\r'
    || c == ' '
    || c == '\U{85}' || c == '\U{A0}' || c == '\U{1680}'
    || '\U{2000}' <= c <= '\U{200A}'
    || c == '\U{2028}' || c == '\U{2029}' || c == '\U{202F}' || c == '\U{205F}' || c == '\U{3000}'
  }

  predicate AllSpace(s: string) {
    forall i :: 0 <= i < |s| ==> IsSpace(s[i])
  }

  /** Non-empty, with neither a leading nor a trailing space. */
  predicate Trimmed(s: string) {
    |s| > 0 && !IsSpace(s[0]) && !IsSpace(s[|s| - 1])
  }

  function TrimLeft(s: string): (r: string) {
    if |s| > 0 && IsSpace(s[0]) then TrimLeft(s[1..]) else s
  }

  function TrimRight(s: string): (r: string) {
    if |s| > 0 && IsSpace(s[|s| - 1]) then TrimRight(s[..|s| - 1]) else s
  }

  function TrimSpace(s: string): string {
    TrimRight(TrimLeft(s))
  }

  predicate HasPrefix(s: string, p: string) {
    p <= s
  }

  predicate OccursAt(s: string, sub: string, i: nat) {
    i + |sub| <= |s| && s[i..i + |sub|] == sub
  }

  predicate Contains(s: string, sub: string) {
    exists i: nat | i <= |s| :: OccursAt(s, sub, i)
  }

  /** strings.ReplaceAll(s, mark, ""). */
  function RemoveAll(s: string, mark: string): string
    requires |mark| > 0
  {
    if |s| < |mark| then s
    else if mark <= s then RemoveAll(s[|mark|..], mark)
    else [s[0]] + RemoveAll(s[1..], mark)
  }

  /** strings.Replace(s, mark, "", 1). */
  function RemoveFirst(s: string, mark: string): string
    requires |mark| > 0
  {
    if |s| < |mark| then s
    else if mark <= s then s[|mark|..]
    else [s[0]] + RemoveFirst(s[1..], mark)
  }

  /** Simple case folding, exact for comparisons against ASCII names: the letters A-Z, the long s
      and the Kelvin sign fold to ASCII, every other character stands for itself. */
  function Fold(c: char): char {
    if 'A' <= c <= 'Z' then (c as int + 32) as char
    else if c == '\U{17F}' then 's'
    else if c == '\U{212A}' then 'k'
    else c
  }

  predicate EqualFold(a: string, b: string) {
    |a| == |b| && forall i :: 0 <= i < |a| ==> Fold(a[i]) == Fold(b[i])
  }

  // ----- Facts about trimming

  /** TrimSpace only takes spaces away, and takes all of them at both ends. */
  lemma {:induction false} TrimSpaceSplits(s: string) returns (pre: string, post: string)
    ensures AllSpace(pre) && AllSpace(post)
    ensures s == pre + TrimSpace(s) + post
    ensures TrimSpace(s) == "" || Trimmed(TrimSpace(s))
  {
    pre := TrimLeftSplits(s);
    post := TrimRightSplits(TrimLeft(s));
    if TrimSpace(s) != "" {
      assert TrimLeft(s)[0] == TrimSpace(s)[0];
    }
  }

  lemma {:induction false} TrimLeftSplits(s: string) returns (pre: string)
    ensures AllSpace(pre) && s == pre + TrimLeft(s)
    ensures TrimLeft(s) == "" || !IsSpace(TrimLeft(s)[0])
  {
    if |s| > 0 && IsSpace(s[0]) {
      var rest := TrimLeftSplits(s[1..]);
      pre := [s[0]] + rest;
    } else {
      pre := "";
    }
  }

  lemma {:induction false} TrimRightSplits(s: string) returns (post: string)
    ensures AllSpace(post) && s == TrimRight(s) + post
    ensures TrimRight(s) == "" || !IsSpace(TrimRight(s)[|TrimRight(s)| - 1])
  {
    if |s| > 0 && IsSpace(s[|s| - 1]) {
      var rest := TrimRightSplits(s[..|s| - 1]);
      post := rest + [s[|s| - 1]];
      assert s == s[..|s| - 1] + [s[|s| - 1]];
    } else {
      post := "";
    }
  }

  /** The result is the only way to cut a string into spaces, a trimmed core and spaces. */
  lemma {:induction false} TrimSpaceOfCore(pre: string, core: string, post: string)
    requires AllSpace(pre) && AllSpace(post) && Trimmed(core)
    ensures TrimSpace(pre + core + post) == core
  {
    TrimLeftOfCore(pre, core + post);
    assert pre + core + post == pre + (core + post);
    TrimRightOfCore(core, post);
  }

  lemma {:induction false} TrimLeftOfCore(pre: string, rest: string)
    requires AllSpace(pre) && |rest| > 0 && !IsSpace(rest[0])
    ensures TrimLeft(pre + rest) == rest
  {
    if pre == "" {
      assert pre + rest == rest;
    } else {
      TrimLeftOfCore(pre[1..], rest);
      assert (pre + rest)[1..] == pre[1..] + rest;
    }
  }

  lemma {:induction false} TrimRightOfCore(core: string, post: string)
    requires AllSpace(post) && Trimmed(core)
    ensures TrimRight(core + post) == core
  {
    if post == "" {
      assert core + post == core;
    } else {
      TrimRightOfCore(core, post[..|post| - 1]);
      assert (core + post)[..|core + post| - 1] == core + post[..|post| - 1];
    }
  }

  lemma BlankIffAllSpace(s: string)
    ensures TrimSpace(s) == "" <==> AllSpace(s)
  {
    var pre, post := TrimSpaceSplits(s);
    assert TrimSpace(s) != "" ==> s[|pre|] == TrimSpace(s)[0];
  }

  // ----- Facts about removal

  lemma {:induction false} RemoveAllAbsent(s: string, mark: string)
    requires |mark| > 0 && forall i: nat :: i <= |s| ==> !OccursAt(s, mark, i)
    ensures RemoveAll(s, mark) == s
  {
    if |s| >= |mark| {
      assert !OccursAt(s, mark, 0);
      forall i: nat | i <= |s[1..]|
        ensures !OccursAt(s[1..], mark, i)
      {
        assert !OccursAt(s, mark, i + 1);
        if i + |mark| <= |s[1..]| {
          assert s[1..][i..i + |mark|] == s[i + 1..i + 1 + |mark|];
        }
      }
      RemoveAllAbsent(s[1..], mark);
    }
  }

  lemma RemoveAllLeading(mark: string, rest: string)
    requires |mark| > 0
    ensures RemoveAll(mark + rest, mark) == RemoveAll(rest, mark)
  {
    assert (mark + rest)[|mark|..] == rest;
  }

  lemma RemoveFirstLeading(mark: string, rest: string)
    requires |mark| > 0
    ensures RemoveFirst(mark + rest, mark) == rest
  {
    assert (mark + rest)[|mark|..] == rest;
  }

  lemma RemoveFirstSkips(c: char, s: string, mark: string)
    requires 0 < |mark| <= |s| && c != mark[0]
    ensures RemoveFirst([c] + s, mark) == [c] + RemoveFirst(s, mark)
  {
    assert ([c] + s)[1..] == s;
    assert ([c] + s)[0] != mark[0];
  }
}
