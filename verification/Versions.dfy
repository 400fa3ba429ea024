/** Lists of migration versions: sorting, as done by the slices and sort packages, and maxima. */
module Versions {

  /** The largest 64-bit signed integer: the target that stands for "all migrations". */
  const MAX_INT64: int := 0x7FFF_FFFF_FFFF_FFFF

  predicate Ascending(s: seq<int>) {
    forall i, j :: 0 <= i < j < |s| ==> s[i] <= s[j]
  }

  predicate Distinct(s: seq<int>) {
    forall i, j :: 0 <= i < j < |s| ==> s[i] != s[j]
  }

  predicate Positive(s: seq<int>) {
    forall v | v in s :: 0 < v <= MAX_INT64
  }

  function Insert(s: seq<int>, v: int): (r: seq<int>) {
    if s == [] || s[|s| - 1] <= v then s + [v]
    else Insert(s[..|s| - 1], v) + [s[|s| - 1]]
  }

  /** slices.Sort. */
  function Sort(s: seq<int>): (r: seq<int>) {
    if s == [] then [] else Insert(Sort(s[..|s| - 1]), s[|s| - 1])
  }

  lemma FrontAscending(s: seq<int>, front: seq<int>)
    requires s != [] && front == s[..|s| - 1] && Ascending(s)
    ensures Ascending(front) && forall v | v in front :: v <= s[|s| - 1]
  {
  }

  lemma AppendAscending(s: seq<int>, v: int)
    requires Ascending(s) && forall w | w in s :: w <= v
    ensures Ascending(s + [v])
  {
    forall i, j | 0 <= i < j < |s + [v]| ensures (s + [v])[i] <= (s + [v])[j] {
      if j == |s| {
        assert s[i] in s;
      } else {
        assert s[i] <= s[j];
      }
    }
  }

  lemma FrontMembers(s: seq<int>, front: seq<int>)
    requires s != [] && front == s[..|s| - 1]
    ensures forall v :: v in s <==> v in front || v == s[|s| - 1]
    ensures multiset(s) == multiset(front) + multiset{s[|s| - 1]}
  {
    assert s == s[..|s| - 1] + [s[|s| - 1]];
  }

  lemma {:induction false} InsertMembers(s: seq<int>, v: int)
    ensures multiset(Insert(s, v)) == multiset(s) + multiset{v}
  {
    if !(s == [] || s[|s| - 1] <= v) {
      FrontMembers(s, s[..|s| - 1]);
      InsertMembers(s[..|s| - 1], v);
    }
  }

  lemma {:induction false} InsertIsOrdered(s: seq<int>, v: int)
    requires Ascending(s)
    ensures Ascending(Insert(s, v))
  {
    hide Ascending;
    if s == [] || s[|s| - 1] <= v {
      forall w | w in s ensures w <= v {
        FrontAscending(s, s[..|s| - 1]);
        FrontMembers(s, s[..|s| - 1]);
      }
      AppendAscending(s, v);
    } else {
      var front, last := s[..|s| - 1], s[|s| - 1];
      FrontAscending(s, s[..|s| - 1]);
      InsertIsOrdered(front, v);
      InsertMembers(front, v);
      forall w | w in Insert(front, v) ensures w <= last {
        assert w in multiset(Insert(front, v));
        assert w in front || w == v;
      }
      AppendAscending(Insert(front, v), last);
    }
  }

  /** Sorting puts the same versions in ascending order. */
  lemma {:induction false} SortIsOrdered(s: seq<int>)
    ensures Ascending(Sort(s)) && multiset(Sort(s)) == multiset(s)
  {
    hide Ascending;
    if s == [] {
      EmptyAscending();
    } else {
      FrontMembers(s, s[..|s| - 1]);
      SortIsOrdered(s[..|s| - 1]);
      InsertIsOrdered(Sort(s[..|s| - 1]), s[|s| - 1]);
      InsertMembers(Sort(s[..|s| - 1]), s[|s| - 1]);
    }
  }

  lemma EmptyAscending()
    ensures Ascending([])
  {
  }

  lemma InsertAtEnd(s: seq<int>, v: int)
    requires s == [] || s[|s| - 1] <= v
    ensures Insert(s, v) == s + [v]
  {
  }

  lemma SortSameMembers(s: seq<int>)
    ensures |Sort(s)| == |s| && forall v :: v in Sort(s) <==> v in s
  {
    SortIsOrdered(s);
    assert |multiset(Sort(s))| == |multiset(s)|;
    forall v ensures v in Sort(s) <==> v in s {
      assert v in multiset(Sort(s)) <==> v in multiset(s);
    }
  }

  /** Sorting an ascending list changes nothing. */
  lemma {:induction false} SortedIsFixed(s: seq<int>)
    requires Ascending(s)
    ensures Sort(s) == s
  {
    hide Ascending, Insert;
    if s != [] {
      var front, last := s[..|s| - 1], s[|s| - 1];
      FrontAscending(s, front);
      SortedIsFixed(front);
      assert s == front + [last];
      assert front == [] || front[|front| - 1] in front;
      InsertAtEnd(front, last);
    }
  }

  lemma LastIsLargest(s: seq<int>, v: int)
    requires Ascending(s) && v in s
    ensures v <= s[|s| - 1]
  {
  }

  /** Ascending order and the members with their multiplicities determine a list. */
  lemma {:induction false} AscendingIsUnique(a: seq<int>, b: seq<int>)
    requires Ascending(a) && Ascending(b) && multiset(a) == multiset(b)
    ensures a == b
  {
    hide Ascending;
    assert |a| == |multiset(a)| == |multiset(b)| == |b|;
    if a != [] {
      var x, y := a[|a| - 1], b[|b| - 1];
      FrontMembers(a, a[..|a| - 1]);
      FrontMembers(b, b[..|b| - 1]);
      assert x in multiset(b) && y in multiset(a);
      LastIsLargest(a, y);
      LastIsLargest(b, x);
      FrontAscending(a, a[..|a| - 1]);
      FrontAscending(b, b[..|b| - 1]);
      CancelMember(a[..|a| - 1], b[..|b| - 1], x);
      AscendingIsUnique(a[..|a| - 1], b[..|b| - 1]);
      assert a == a[..|a| - 1] + [x] && b == b[..|b| - 1] + [y];
    }
  }

  lemma CancelMember(c: seq<int>, d: seq<int>, x: int)
    requires multiset(c) + multiset{x} == multiset(d) + multiset{x}
    ensures multiset(c) == multiset(d)
  {
    forall v ensures multiset(c)[v] == multiset(d)[v] {
      assert (multiset(c) + multiset{x})[v] == (multiset(d) + multiset{x})[v];
    }
  }

  lemma SortDistinct(s: seq<int>)
    requires Distinct(s)
    ensures Distinct(Sort(s))
  {
    SortIsOrdered(s);
    DistinctIffMultiset(s);
    DistinctIffMultiset(Sort(s));
  }

  lemma {:induction false} DistinctIffMultiset(s: seq<int>)
    ensures Distinct(s) <==> forall v :: multiset(s)[v] <= 1
  {
    if s != [] {
      var front, last := s[..|s| - 1], s[|s| - 1];
      assert s == front + [last];
      DistinctIffMultiset(front);
      assert forall v :: multiset(s)[v] == multiset(front)[v] + if v == last then 1 else 0;
      if Distinct(s) {
        assert last !in front;
        assert Distinct(front);
      } else if Distinct(front) {
        assert last in front;
        assert multiset(s)[last] >= 2;
      } else {
        var v :| multiset(front)[v] > 1;
        assert multiset(s)[v] > 1;
      }
    }
  }

  lemma SameMembersSameList(a: seq<int>, b: seq<int>)
    requires Ascending(a) && Ascending(b) && Distinct(a) && Distinct(b)
    requires forall v :: v in a <==> v in b
    ensures a == b
  {
    hide Ascending, Distinct;
    DistinctIffMultiset(a);
    DistinctIffMultiset(b);
    forall v ensures multiset(a)[v] == multiset(b)[v] {
      assert v in multiset(a) <==> v in a;
      assert v in multiset(b) <==> v in b;
    }
    assert multiset(a) == multiset(b);
    AscendingIsUnique(a, b);
  }

  lemma SuffixOfAscending(s: seq<int>, i: nat)
    requires Ascending(s) && Distinct(s) && i <= |s|
    ensures Ascending(s[i..]) && Distinct(s[i..])
    ensures forall v :: v in s[i..] <==> v in s && v !in s[..i]
    ensures forall v, w | v in s[i..] && w in s[..i] :: v > w
  {
    forall j | 0 <= j < i ensures s[j] in s[..i] {
      assert s[..i][j] == s[j];
    }
    forall v ensures v in s[i..] <==> v in s && v !in s[..i] {
      if v in s[i..] {
        var k :| 0 <= k < |s| - i && s[i..][k] == v;
        assert s[i + k] == v;
      }
      if v in s && v !in s[..i] {
        var k :| 0 <= k < |s| && s[k] == v;
        assert s[i..][k - i] == v;
      }
    }
  }

  /** slices.Sort on the caller's list. */
  method SortInPlace(a: array<int>)
    modifies a
    ensures a[..] == Sort(old(a[..]))
  {
    var sorted := Sort(a[..]);
    SortSameMembers(a[..]);
    for i := 0 to a.Length
      invariant a[..i] == sorted[..i]
    {
      a[i] := sorted[i];
    }
  }
}
