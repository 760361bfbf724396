/** Stable sorting by a comparison, as the array sort of JavaScript does. */
module Sorting {

  ghost predicate TotalPreorder<T(!new)>(leq: (T, T) -> bool) {
    && (forall x, y :: leq(x, y) || leq(y, x))
    && (forall x, y, z :: leq(x, y) && leq(y, z) ==> leq(x, z))
  }

  ghost predicate Sorted<T>(xs: seq<T>, leq: (T, T) -> bool) {
    forall i, j | 0 <= i < j < |xs| :: leq(xs[i], xs[j])
  }

  /** Insertion after every element that may stand before `x`. */
  function InsertSorted<T>(x: T, xs: seq<T>, leq: (T, T) -> bool): seq<T> {
    if xs == [] then [x]
    else if leq(xs[0], x) then [xs[0]] + InsertSorted(x, xs[1..], leq)
    else [x] + xs
  }

  function Sort<T>(xs: seq<T>, leq: (T, T) -> bool): seq<T> {
    if xs == [] then [] else InsertSorted(xs[|xs| - 1], Sort(xs[..|xs| - 1], leq), leq)
  }

  lemma {:induction false} InsertPermutes<T>(x: T, xs: seq<T>, leq: (T, T) -> bool)
    ensures multiset(InsertSorted(x, xs, leq)) == multiset{x} + multiset(xs)
  {
    if xs != [] {
      assert xs == [xs[0]] + xs[1..];
      if leq(xs[0], x) {
        InsertPermutes(x, xs[1..], leq);
      }
    }
  }

  lemma {:induction false} InsertKeepsSorted<T(!new)>(x: T, xs: seq<T>, leq: (T, T) -> bool)
    requires TotalPreorder(leq) && Sorted(xs, leq)
    ensures Sorted(InsertSorted(x, xs, leq), leq)
  {
    if xs != [] && leq(xs[0], x) {
      var tail := InsertSorted(x, xs[1..], leq);
      InsertKeepsSorted(x, xs[1..], leq);
      InsertPermutes(x, xs[1..], leq);
      forall j | 0 <= j < |tail| ensures leq(xs[0], tail[j]) {
        assert tail[j] in multiset(tail);
      }
    } else if xs != [] {
      forall j | 0 <= j < |xs| ensures leq(x, xs[j]) {
        assert leq(x, xs[0]) && (j > 0 ==> leq(xs[0], xs[j]));
      }
    }
  }

  lemma SplitLast<T>(xs: seq<T>)
    requires xs != []
    ensures multiset(xs) == multiset{xs[|xs| - 1]} + multiset(xs[..|xs| - 1])
  {
    assert xs == xs[..|xs| - 1] + [xs[|xs| - 1]];
  }

  lemma {:induction false} SortPermutes<T>(xs: seq<T>, leq: (T, T) -> bool)
    ensures multiset(Sort(xs, leq)) == multiset(xs)
  {
    if xs != [] {
      SortPermutes(xs[..|xs| - 1], leq);
      InsertPermutes(xs[|xs| - 1], Sort(xs[..|xs| - 1], leq), leq);
      SplitLast(xs);
    }
  }

  lemma {:induction false} SortSorts<T(!new)>(xs: seq<T>, leq: (T, T) -> bool)
    requires TotalPreorder(leq)
    ensures Sorted(Sort(xs, leq), leq)
  {
    if xs != [] {
      SortSorts(xs[..|xs| - 1], leq);
      InsertKeepsSorted(xs[|xs| - 1], Sort(xs[..|xs| - 1], leq), leq);
    }
  }

  /** Elements that may stand in either order are equal. */
  ghost predicate Antisymmetric<T>(xs: seq<T>, leq: (T, T) -> bool) {
    forall i, j | 0 <= i < |xs| && 0 <= j < |xs| && leq(xs[i], xs[j]) && leq(xs[j], xs[i]) :: xs[i] == xs[j]
  }

  lemma SameHead<T>(xs: seq<T>, ys: seq<T>, leq: (T, T) -> bool)
    requires xs != [] && ys != [] && multiset(xs) == multiset(ys)
    requires Sorted(xs, leq) && Sorted(ys, leq) && Antisymmetric(xs, leq)
    ensures xs[0] == ys[0]
  {
    assert ys[0] in multiset(xs) && xs[0] in multiset(ys);
    var i :| 0 <= i < |xs| && xs[i] == ys[0];
    var j :| 0 <= j < |ys| && ys[j] == xs[0];
    assert i > 0 ==> leq(xs[0], ys[0]);
    assert j > 0 ==> leq(ys[0], xs[0]);
  }

  lemma WithoutHead<T>(xs: seq<T>)
    requires xs != []
    ensures multiset(xs[1..]) == multiset(xs) - multiset{xs[0]}
  {
    assert xs == [xs[0]] + xs[1..];
  }

  /** A sorted arrangement is determined by its elements. */
  lemma {:induction false} SortedIsUnique<T>(xs: seq<T>, ys: seq<T>, leq: (T, T) -> bool)
    requires Sorted(xs, leq) && Sorted(ys, leq) && Antisymmetric(xs, leq)
    requires multiset(xs) == multiset(ys)
    ensures xs == ys
  {
    assert |multiset(xs)| == |xs| && |multiset(ys)| == |ys|;
    if xs != [] {
      SameHead(xs, ys, leq);
      WithoutHead(xs);
      WithoutHead(ys);
      SortedIsUnique(xs[1..], ys[1..], leq);
    }
  }

  /** Two lists of the same elements, in any order, sort to the same list. */
  lemma SortIsCanonical<T(!new)>(xs: seq<T>, ys: seq<T>, leq: (T, T) -> bool)
    requires TotalPreorder(leq) && Antisymmetric(xs, leq)
    ensures Sort(xs, leq) == Sort(ys, leq) <==> multiset(xs) == multiset(ys)
  {
    SortPermutes(xs, leq);
    SortPermutes(ys, leq);
    SortSorts(xs, leq);
    SortSorts(ys, leq);
    if multiset(xs) == multiset(ys) {
      var s := Sort(xs, leq);
      forall i, j | 0 <= i < |s| && 0 <= j < |s| && leq(s[i], s[j]) && leq(s[j], s[i]) ensures s[i] == s[j] {
        assert s[i] in multiset(xs) && s[j] in multiset(xs);
      }
      SortedIsUnique(s, Sort(ys, leq), leq);
    }
  }
}
