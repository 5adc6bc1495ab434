/** Listing a finite set in the order of a total order. */
module Sorting {

  ghost predicate TotalOrder<T(!new)>(leq: (T, T) -> bool) {
    && (forall a :: leq(a, a))
    && (forall a, b :: leq(a, b) || leq(b, a))
    && (forall a, b :: leq(a, b) && leq(b, a) ==> a == b)
    && (forall a, b, c :: leq(a, b) && leq(b, c) ==> leq(a, c))
  }

  /** Strictly ascending: in order and without repeats. */
  ghost predicate Ascending<T>(s: seq<T>, leq: (T, T) -> bool) {
    forall i, j :: 0 <= i < j < |s| ==> s[i] != s[j] && leq(s[i], s[j])
  }

  function Elements<T(==)>(s: seq<T>): set<T> {
    set x | x in s
  }

  predicate IsLeast<T(==)>(m: T, s: set<T>, leq: (T, T) -> bool) {
    m in s && forall x | x in s :: leq(m, x)
  }

  lemma {:induction false} HasLeast<T(!new)>(s: set<T>, leq: (T, T) -> bool)
    requires TotalOrder(leq) && s != {}
    ensures exists m :: IsLeast(m, s, leq)
    decreases |s|
  {
    var x :| x in s;
    if s == {x} {
      assert IsLeast(x, s, leq);
    } else {
      HasLeast(s - {x}, leq);
      var m :| IsLeast(m, s - {x}, leq);
      assert IsLeast(if leq(m, x) then m else x, s, leq);
    }
  }

  function Sort<T(!new, ==)>(s: set<T>, leq: (T, T) -> bool): (r: seq<T>)
    requires TotalOrder(leq)
    ensures Elements(r) == s
    ensures Ascending(r, leq)
    decreases |s|
  {
    if s == {} then [] else
      HasLeast(s, leq);
      var m :| m in s && IsLeast(m, s, leq);
      var rest := Sort(s - {m}, leq);
      LeastFirst(m, rest, s, leq);
      [m] + rest
  }

  lemma LeastFirst<T>(m: T, rest: seq<T>, s: set<T>, leq: (T, T) -> bool)
    requires IsLeast(m, s, leq) && Elements(rest) == s - {m} && Ascending(rest, leq)
    ensures Elements([m] + rest) == s && Ascending([m] + rest, leq)
  {
    assert Elements([m] + rest) == {m} + Elements(rest);
    assert forall x | x in rest :: x in Elements(rest);
  }

  /** Two ascending lists of the same elements are the same list. */
  lemma {:induction false} AscendingIsUnique<T(!new)>(a: seq<T>, b: seq<T>, leq: (T, T) -> bool)
    requires TotalOrder(leq) && Ascending(a, leq) && Ascending(b, leq)
    requires Elements(a) == Elements(b)
    ensures a == b
  {
    assert |a| > 0 ==> a[0] in Elements(a) && a[0] in Elements(b);
    assert |b| > 0 ==> b[0] in Elements(b) && b[0] in Elements(a);
    if a == [] || b == [] {
    } else {
      assert a[0] == b[0];
      forall x ensures x in a[1..] <==> x in Elements(a) && x != a[0] {}
      forall x ensures x in b[1..] <==> x in Elements(b) && x != b[0] {}
      assert Elements(a[1..]) == Elements(b[1..]);
      AscendingIsUnique(a[1..], b[1..], leq);
      assert a == [a[0]] + a[1..] && b == [b[0]] + b[1..];
    }
  }

  /** Appending a list whose elements all come later. */
  lemma AscendingConcat<T>(a: seq<T>, b: seq<T>, leq: (T, T) -> bool)
    requires Ascending(a, leq) && Ascending(b, leq)
    requires forall x, y | x in a && y in b :: x != y && leq(x, y)
    ensures Ascending(a + b, leq)
  {
    var c := a + b;
    forall i, j | 0 <= i < j < |c| ensures c[i] != c[j] && leq(c[i], c[j]) {
      if i < |a| <= j {
        assert c[i] in a && c[j] in b;
      }
    }
  }

  function Reverse<T>(s: seq<T>): (r: seq<T>)
    ensures |r| == |s| && forall i | 0 <= i < |s| :: r[i] == s[|s| - 1 - i]
  {
    seq(|s|, i requires 0 <= i < |s| => s[|s| - 1 - i])
  }
}
