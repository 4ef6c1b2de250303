// slices.Sorted on map keys.
module Sorting {
  ghost predicate TotalOrder<T(!new)>(le: (T, T) -> bool) {
    && (forall a, b :: le(a, b) || le(b, a))
    && (forall a, b | le(a, b) && le(b, a) :: a == b)
    && (forall a, b, c | le(a, b) && le(b, c) :: le(a, c))
  }

  predicate IsLeast<T(==)>(le: (T, T) -> bool, x: T, xs: set<T>) {
    x in xs && forall y | y in xs :: le(x, y)
  }

  lemma Pick<T>(xs: set<T>) returns (x: T)
    requires xs != {}
    ensures x in xs
  {
    x :| x in xs;
  }

  lemma {:induction false} LeastExists<T(!new)>(le: (T, T) -> bool, xs: set<T>) returns (x: T)
    requires TotalOrder(le) && xs != {}
    ensures IsLeast(le, x, xs)
  {
    x := Pick(xs);
    var rest := xs - {x};
    assert le(x, x);
    assert forall y | y in xs :: y == x || y in rest;
    if rest != {} {
      var least := LeastExists(le, rest);
      assert le(x, least) || le(least, x);
      x := if le(x, least) then x else least;
    }
  }

  lemma LeastIsThere<T(!new)>(le: (T, T) -> bool, xs: set<T>)
    requires TotalOrder(le) && xs != {}
    ensures exists x :: IsLeast(le, x, xs)
  {
    var x := LeastExists(le, xs);
  }

  function LeastBy<T(==,!new)>(le: (T, T) -> bool, xs: set<T>): (x: T)
    requires TotalOrder(le) && xs != {}
    ensures IsLeast(le, x, xs)
  {
    LeastIsThere(le, xs);
    var x :| IsLeast(le, x, xs);
    x
  }

  function SortedBy<T(==,!new)>(le: (T, T) -> bool, xs: set<T>): (list: seq<T>)
    requires TotalOrder(le)
    ensures forall x :: x in list <==> x in xs
    ensures forall i, j | 0 <= i < j < |list| :: list[i] != list[j] && le(list[i], list[j])
  {
    if xs == {} then []
    else
      var x := LeastBy(le, xs);
      [x] + SortedBy(le, xs - {x})
  }

  // Whole numbers

  predicate AtMost(a: int, b: int) {
    a <= b
  }

  function Least(ns: set<int>): (p: int)
    requires ns != {}
    ensures p in ns && forall q | q in ns :: p <= q
  {
    assert TotalOrder(AtMost);
    var p := LeastBy(AtMost, ns);
    assert IsLeast(AtMost, p, ns);
    p
  }

  /** slices.Sorted of a set of keys. */
  function Sorted(ns: set<int>): (list: seq<int>)
    ensures forall p :: p in list <==> p in ns
    ensures forall i, j | 0 <= i < j < |list| :: list[i] < list[j]
  {
    assert TotalOrder(AtMost);
    var list := SortedBy(AtMost, ns);
    assert forall i, j | 0 <= i < j < |list| :: AtMost(list[i], list[j]);
    list
  }
}
