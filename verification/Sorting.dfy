/** Python's stable `sorted` as insertion from the right, over any total preorder. */
module Sorting {

  ghost predicate TotalPreorder<T(!new)>(leq: (T, T) -> bool) {
    && (forall a, b :: leq(a, b) || leq(b, a))
    && (forall a, b, c :: leq(a, b) && leq(b, c) ==> leq(a, c))
  }

  predicate SortedBy<T>(leq: (T, T) -> bool, s: seq<T>) {
    forall i, j :: 0 <= i < j < |s| ==> leq(s[i], s[j])
  }

  /** `x` goes after every element that is not greater than it. */
  function Insert<T>(leq: (T, T) -> bool, s: seq<T>, x: T): (r: seq<T>)
    ensures multiset(r) == multiset(s) + multiset{x}
  {
    if s == [] then [x]
    else
      var last := |s| - 1;
      assert s == s[..last] + [s[last]];
      if leq(s[last], x) then s + [x] else Insert(leq, s[..last], x) + [s[last]]
  }

  function Sort<T>(leq: (T, T) -> bool, s: seq<T>): (r: seq<T>)
    ensures multiset(r) == multiset(s) && |r| == |s|
  {
    if s == [] then []
    else
      var last := |s| - 1;
      assert s == s[..last] + [s[last]];
      var r := Insert(leq, Sort(leq, s[..last]), s[last]);
      SameSize(r, s);
      r
  }

  lemma SameSize<T>(a: seq<T>, b: seq<T>)
    requires multiset(a) == multiset(b)
    ensures |a| == |b|
  {
    assert |multiset(a)| == |a| && |multiset(b)| == |b|;
  }

  lemma SameElements<T>(a: seq<T>, b: seq<T>)
    requires multiset(a) == multiset(b)
    ensures forall x :: x in a <==> x in b
  {
    assert forall x :: x in a <==> x in multiset(a);
    assert forall x :: x in b <==> x in multiset(b);
  }

  lemma {:induction false} InsertSorted<T(!new)>(leq: (T, T) -> bool, s: seq<T>, x: T)
    requires TotalPreorder(leq) && SortedBy(leq, s)
    ensures SortedBy(leq, Insert(leq, s, x))
  {
    if s != [] && !leq(s[|s| - 1], x) {
      var front, last := s[..|s| - 1], s[|s| - 1];
      InsertSorted(leq, front, x);
      var r := Insert(leq, front, x);
      forall i | 0 <= i < |r|
        ensures leq(r[i], last)
      {
        assert r[i] in multiset(r);
        assert r[i] == x || r[i] in front;
      }
    }
  }

  lemma {:induction false} SortSorts<T(!new)>(leq: (T, T) -> bool, s: seq<T>)
    requires TotalPreorder(leq)
    ensures SortedBy(leq, Sort(leq, s))
  {
    if s != [] {
      SortSorts(leq, s[..|s| - 1]);
      InsertSorted(leq, Sort(leq, s[..|s| - 1]), s[|s| - 1]);
    }
  }

  /** Elements that tie stand in the order `lex`. */
  predicate TiesBy<T>(leq: (T, T) -> bool, lex: (T, T) -> bool, s: seq<T>) {
    forall i, j :: 0 <= i < j < |s| && leq(s[j], s[i]) ==> lex(s[i], s[j])
  }

  lemma {:induction false} InsertStable<T>(leq: (T, T) -> bool, lex: (T, T) -> bool, s: seq<T>, x: T)
    requires TiesBy(leq, lex, s) && forall y :: y in s ==> lex(y, x)
    ensures TiesBy(leq, lex, Insert(leq, s, x))
  {
    if s != [] && !leq(s[|s| - 1], x) {
      var front, last := s[..|s| - 1], s[|s| - 1];
      InsertStable(leq, lex, front, x);
      var r := Insert(leq, front, x);
      forall i | 0 <= i < |r| && leq(last, r[i])
        ensures lex(r[i], last)
      {
        assert r[i] in multiset(r);
        assert r[i] in front;
        var k :| 0 <= k < |front| && front[k] == r[i];
        assert s[k] == r[i];
      }
    }
  }

  /** Stability: what ties keeps the order it came in. */
  lemma {:induction false} SortStable<T>(leq: (T, T) -> bool, lex: (T, T) -> bool, s: seq<T>)
    requires SortedBy(lex, s)
    ensures TiesBy(leq, lex, Sort(leq, s))
  {
    if s != [] {
      var front, last := s[..|s| - 1], s[|s| - 1];
      SortStable(leq, lex, front);
      forall y | y in Sort(leq, front)
        ensures lex(y, last)
      {
        assert y in multiset(front);
        var k :| 0 <= k < |front| && front[k] == y;
        assert s[k] == y;
      }
      InsertStable(leq, lex, Sort(leq, front), last);
    }
  }

  lemma SameHead<T(!new)>(leq: (T, T) -> bool, a: seq<T>, b: seq<T>)
    requires a != [] && b != [] && SortedBy(leq, a) && SortedBy(leq, b) && multiset(a) == multiset(b)
    requires forall x, y :: x in a && y in a && leq(x, y) && leq(y, x) ==> x == y
    ensures a[0] == b[0]
  {
    assert a[0] in multiset(a) && b[0] in multiset(b);
    var i :| 0 <= i < |a| && a[i] == b[0];
    var j :| 0 <= j < |b| && b[j] == a[0];
    assert i > 0 ==> leq(a[0], a[i]);
    assert j > 0 ==> leq(b[0], b[j]);
  }

  lemma SameTails<T>(a: seq<T>, b: seq<T>)
    requires a != [] && b != [] && a[0] == b[0] && multiset(a) == multiset(b)
    ensures multiset(a[1..]) == multiset(b[1..])
  {
    assert a == [a[0]] + a[1..] && b == [b[0]] + b[1..];
    assert multiset(a[1..]) == multiset(a) - multiset{a[0]};
    assert multiset(b[1..]) == multiset(b) - multiset{b[0]};
  }

  /** Two sorted arrangements of the same elements are equal if no two different elements tie. */
  lemma {:induction false} SortedUnique<T(!new)>(leq: (T, T) -> bool, a: seq<T>, b: seq<T>)
    requires SortedBy(leq, a) && SortedBy(leq, b) && multiset(a) == multiset(b)
    requires forall x, y :: x in a && y in a && leq(x, y) && leq(y, x) ==> x == y
    ensures a == b
    decreases |a|
  {
    SameSize(a, b);
    if a != [] {
      SameHead(leq, a, b);
      SameTails(a, b);
      assert forall x :: x in a[1..] ==> x in a;
      SortedUnique(leq, a[1..], b[1..]);
      assert a == [a[0]] + a[1..] && b == [b[0]] + b[1..];
    }
  }

  predicate Distinct<T(==)>(s: seq<T>) { forall i, j :: 0 <= i < j < |s| ==> s[i] != s[j] }

  lemma {:induction false} DistinctOccurOnce<T>(s: seq<T>, x: T)
    requires Distinct(s)
    ensures multiset(s)[x] <= 1
  {
    if s != [] {
      var last := |s| - 1;
      assert s == s[..last] + [s[last]];
      DistinctOccurOnce(s[..last], x);
      if x == s[last] { assert x !in s[..last]; }
    }
  }

  /** Rearranging keeps elements distinct. */
  lemma DistinctRearranged<T>(a: seq<T>, b: seq<T>)
    requires multiset(a) == multiset(b) && Distinct(a)
    ensures Distinct(b)
  {
    forall i, j | 0 <= i < j < |b|
      ensures b[i] != b[j]
    {
      DistinctOccurOnce(a, b[i]);
      assert b == b[..j] + b[j..];
      assert b[i] == b[..j][i] && b[j] == b[j..][0];
      assert multiset(b) == multiset(b[..j]) + multiset(b[j..]);
      assert b[i] in multiset(b[..j]) && b[j] in multiset(b[j..]);
    }
  }
}
