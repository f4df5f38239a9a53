/** `ORDER BY` over a finite set of rows. */
module Ordering {

  /** A collation: a strict total order. */
  ghost predicate StrictTotalOrder<T(!new)>(less: (T, T) -> bool) {
    && (forall x :: !less(x, x))
    && (forall x, y, z :: less(x, y) && less(y, z) ==> less(x, z))
    && (forall x, y :: x != y ==> less(x, y) || less(y, x))
  }

  ghost predicate Increasing<T(!new)>(xs: seq<T>, less: (T, T) -> bool) {
    forall i, j :: 0 <= i < j < |xs| ==> less(xs[i], xs[j])
  }

  ghost function Elements<T>(xs: seq<T>): set<T> {
    set x | x in xs
  }

  ghost predicate IsLeast<T(!new)>(least: T, s: set<T>, less: (T, T) -> bool) {
    least in s && forall x :: x in s && x != least ==> less(least, x)
  }

  lemma {:induction false} HasLeast<T(!new)>(s: set<T>, less: (T, T) -> bool)
    requires StrictTotalOrder(less) && s != {}
    ensures exists least :: IsLeast(least, s, less)
    decreases |s|
  {
    var y :| y in s;
    assert forall x :: x in s && x != y ==> x in s - {y};
    if s - {y} == {} {
      assert IsLeast(y, s, less);
    } else {
      HasLeast(s - {y}, less);
      var z :| IsLeast(z, s - {y}, less);
      if less(y, z) {
        assert IsLeast(y, s, less);
      } else {
        assert IsLeast(z, s, less);
      }
    }
  }

  ghost function Least<T(!new)>(s: set<T>, less: (T, T) -> bool): (least: T)
    requires StrictTotalOrder(less) && s != {}
    ensures IsLeast(least, s, less)
  {
    HasLeast(s, less);
    var least :| IsLeast(least, s, less); least
  }

  /** The rows of `s` in increasing order. */
  ghost function Sorted<T(!new)>(s: set<T>, less: (T, T) -> bool): seq<T>
    requires StrictTotalOrder(less)
    decreases |s|
  {
    if s == {} then [] else [Least(s, less)] + Sorted(s - {Least(s, less)}, less)
  }

  lemma {:induction false} SortedIsSorted<T(!new)>(s: set<T>, less: (T, T) -> bool)
    requires StrictTotalOrder(less)
    ensures var xs := Sorted(s, less); Increasing(xs, less) && Elements(xs) == s && |xs| == |s|
    decreases |s|
  {
    if s != {} {
      var least := Least(s, less);
      SortedIsSorted(s - {least}, less);
      var xs, rest := Sorted(s, less), Sorted(s - {least}, less);
      forall j | 0 <= j < |rest| ensures less(least, rest[j]) {
        assert rest[j] in Elements(rest);
      }
      forall x ensures x in xs <==> x in s {
        assert x in rest <==> x in Elements(rest);
      }
    }
  }

  lemma EmptyIff<T>(xs: seq<T>)
    ensures |xs| == 0 <==> Elements(xs) == {}
  {
    assert |xs| > 0 ==> xs[0] in Elements(xs);
  }

  /** Strictly increasing order leaves no choice: the rows fix the sequence. */
  lemma {:induction false} OrderIsUnique<T(!new)>(xs: seq<T>, ys: seq<T>, less: (T, T) -> bool)
    requires StrictTotalOrder(less) && Increasing(xs, less) && Increasing(ys, less)
    requires Elements(xs) == Elements(ys)
    ensures xs == ys
    decreases |xs|
  {
    if |xs| == 0 {
      EmptyIff(xs);
      EmptyIff(ys);
    } else {
      assert xs[0] in Elements(ys);
      EmptyIff(ys);
      assert ys[0] in Elements(xs);
      assert xs[0] == ys[0];
      forall x ensures x in xs[1..] <==> x in ys[1..] {
        assert x in xs[1..] <==> x in Elements(xs) && x != xs[0];
        assert x in ys[1..] <==> x in Elements(ys) && x != ys[0];
      }
      OrderIsUnique(xs[1..], ys[1..], less);
    }
  }
}
