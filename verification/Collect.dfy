/** Which list of migrations a provider gets: merge (provider_collect.go), on versions. Files come in
    the order of their names, Go migrations from a registry without an order. */
module Collect {
  import opened Wrappers
  import opened Versions

  datatype MergeError = Unregistered(versions: seq<int>) | DuplicateVersion(version: int)

  /** The Go files for which nothing has been registered. */
  function NotIn(versions: seq<int>, registered: set<int>): seq<int> {
    if versions == [] then []
    else
      var v := versions[|versions| - 1];
      NotIn(versions[..|versions| - 1], registered) + if v in registered then [] else [v]
  }

  lemma EmptyIffNoMember(s: set<int>)
    ensures s == {} <==> forall v :: v !in s
  {
    if forall v :: v !in s {
      assert s == {};
    }
  }

  /** SQL files alone are returned as they come. With a Go file or a registered Go migration the call
      fails for an unregistered file, then for a version that is taken twice, and otherwise returns
      all migrations in ascending order. */
  method Merge(sqlVersions: seq<int>, goVersions: seq<int>, registered: set<int>) returns (r: Result<seq<int>, MergeError>)
    ensures goVersions == [] && registered == {} ==> r == Ok(sqlVersions)
    ensures NotIn(goVersions, registered) != [] ==> r == Err(Unregistered(NotIn(goVersions, registered)))
    ensures NotIn(goVersions, registered) == [] ==>
      match r
      case Err(e) => e.DuplicateVersion? && e.version in registered && e.version in sqlVersions
      case Ok(all) =>
        && (forall v | v in registered :: v !in sqlVersions)
        && multiset(all) == multiset(sqlVersions) + multiset(registered)
    ensures r.Ok? ==> (Ascending(r.value) <==> goVersions != [] || registered != {} || Ascending(sqlVersions))
  {
    var migrations := sqlVersions;
    if |goVersions| == 0 && |registered| == 0 {
      return Ok(migrations);
    }
    var unregistered: seq<int> := [];
    for i := 0 to |goVersions|
      invariant unregistered == NotIn(goVersions[..i], registered)
    {
      assert goVersions[..i + 1][..i] == goVersions[..i];
      if goVersions[i] !in registered {
        unregistered := unregistered + [goVersions[i]];
      }
    }
    assert goVersions[..|goVersions|] == goVersions;
    if |unregistered| > 0 {
      return Err(Unregistered(unregistered));
    }
    var todo := registered;
    while todo != {}
      invariant todo <= registered
      invariant forall v | v in registered - todo :: v !in sqlVersions
      invariant multiset(migrations) == multiset(sqlVersions) + multiset(registered - todo)
      decreases todo
    {
      EmptyIffNoMember(todo);
      var version :| version in todo;
      if version in sqlVersions {
        return Err(DuplicateVersion(version));
      }
      assert registered - (todo - {version}) == (registered - todo) + {version};
      migrations := migrations + [version];
      todo := todo - {version};
    }
    assert registered - todo == registered;
    SortIsOrdered(migrations);
    return Ok(Sort(migrations));
  }

  // ----- The order of file names

  /** The order in which a directory is listed. */
  predicate NameAtMost(a: string, b: string) {
    a == "" || (b != "" && (a[0] < b[0] || (a[0] == b[0] && NameAtMost(a[1..], b[1..]))))
  }

  ghost predicate InNameOrder(names: seq<string>) {
    forall i, j :: 0 <= i < j < |names| ==> NameAtMost(names[i], names[j])
  }

  /** The length of the part of a name before its first underscore. */
  function PrefixLength(name: string): (n: nat)
    ensures n <= |name|
  {
    if name == "" || name[0] == '_' then 0 else 1 + PrefixLength(name[1..])
  }

  predicate IsDigit(c: char) {
    '0' <= c <= '9'
  }

  predicate AllDigits(s: string) {
    forall i :: 0 <= i < |s| ==> IsDigit(s[i])
  }

  /** The number so far, followed by one more digit. */
  function WithDigit(acc: nat, c: char): nat
    requires IsDigit(c)
  {
    10 * acc + (c as int - '0' as int)
  }

  function NumberFrom(acc: nat, digits: string): nat
    requires AllDigits(digits)
    decreases |digits|
  {
    if digits == "" then acc else NumberFrom(WithDigit(acc, digits[0]), digits[1..])
  }

  predicate Numeric(name: string) {
    AllDigits(name[..PrefixLength(name)])
  }

  /** The version in a file name: the number before the first underscore. */
  function VersionOf(name: string): nat
    requires Numeric(name)
  {
    NumberFrom(0, name[..PrefixLength(name)])
  }

  lemma {:induction false} LargerStart(a: nat, b: nat, x: string, y: string)
    requires a < b && |x| == |y|
    requires AllDigits(x) && AllDigits(y)
    ensures NumberFrom(a, x) < NumberFrom(b, y)
    decreases |x|
  {
    if x != "" {
      LargerStart(WithDigit(a, x[0]), WithDigit(b, y[0]), x[1..], y[1..]);
    }
  }

  /** Numbers of the same length are ordered as their names are. */
  lemma {:induction false} SameLengthOrder(acc: nat, x: string, y: string, k: nat)
    requires k <= |x| && k <= |y| && NameAtMost(x, y)
    requires AllDigits(x[..k]) && AllDigits(y[..k])
    ensures NumberFrom(acc, x[..k]) <= NumberFrom(acc, y[..k])
    decreases k
  {
    if k > 0 {
      assert x[0] == x[..k][0] && y[0] == y[..k][0];
      assert x[..k][1..] == x[1..][..k - 1] && y[..k][1..] == y[1..][..k - 1];
      if x[0] < y[0] {
        LargerStart(WithDigit(acc, x[0]), WithDigit(acc, y[0]), x[..k][1..], y[..k][1..]);
      } else {
        SameLengthOrder(WithDigit(acc, x[0]), x[1..], y[1..], k - 1);
      }
    }
  }

  /** SQL files whose version numbers are written with the same number of digits, such as timestamps,
      come in ascending order. */
  lemma PaddedNamesAscend(names: seq<string>, k: nat)
    requires InNameOrder(names) && forall name | name in names :: Numeric(name) && PrefixLength(name) == k
    ensures Ascending(seq(|names|, i requires 0 <= i < |names| => assert names[i] in names; VersionOf(names[i])))
  {
    var versions := seq(|names|, i requires 0 <= i < |names| => assert names[i] in names; VersionOf(names[i]));
    forall i, j | 0 <= i < j < |names| ensures versions[i] <= versions[j] {
      assert names[i] in names && names[j] in names;
      SameLengthOrder(0, names[i], names[j], k);
    }
  }

  /** Others need not: version 10 is listed before version 2. */
  lemma UnpaddedNamesDescend()
    ensures
      var a, b := "10_b.sql", "2_a.sql";
      && InNameOrder([a, b])
      && Numeric(a) && Numeric(b) && VersionOf(a) == 10 && VersionOf(b) == 2
      && !Ascending([VersionOf(a), VersionOf(b)])
  {
    var a, b := "10_b.sql", "2_a.sql";
    assert a[1..] == "0_b.sql" && a[1..][1..] == "_b.sql" && b[1..] == "_a.sql";
    assert PrefixLength("_b.sql") == 0 && PrefixLength("_a.sql") == 0;
    assert PrefixLength("0_b.sql") == 1 && PrefixLength(a) == 2 && PrefixLength(b) == 1;
    assert a[..2] == "10" && b[..1] == "2";
    assert "10"[1..] == "0" && "0"[1..] == "" && "2"[1..] == "";
    assert NumberFrom(1, "0") == NumberFrom(10, "") == 10;
    assert NumberFrom(0, "10") == NumberFrom(1, "0");
    assert NumberFrom(0, "2") == NumberFrom(2, "") == 2;
    var versions := [VersionOf(a), VersionOf(b)];
    assert versions[0] > versions[1];
  }
}
