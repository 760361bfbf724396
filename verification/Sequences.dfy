/** Sequences without repetition, their elements and their multisets. */
module Sequences {

  predicate Distinct<T(==)>(xs: seq<T>) {
    forall i, j | 0 <= i < j < |xs| :: xs[i] != xs[j]
  }

  function Elements<T>(xs: seq<T>): set<T> {
    set x | x in xs
  }

  lemma InLast<T>(xs: seq<T>, x: T)
    requires xs != []
    ensures x in xs <==> x in xs[..|xs| - 1] || x == xs[|xs| - 1]
  {
    assert xs == xs[..|xs| - 1] + [xs[|xs| - 1]];
  }

  lemma DistinctLast<T>(xs: seq<T>)
    requires xs != []
    ensures Distinct(xs) <==> Distinct(xs[..|xs| - 1]) && xs[|xs| - 1] !in xs[..|xs| - 1]
    ensures Elements(xs) == Elements(xs[..|xs| - 1]) + {xs[|xs| - 1]}
  {
    var init := xs[..|xs| - 1];
    assert forall i | 0 <= i < |init| :: init[i] == xs[i];
    assert xs == init + [xs[|xs| - 1]];
  }

  /** Comparing the size of the set of elements with the length is a test for distinctness. */
  lemma {:induction false} DistinctBySize<T>(xs: seq<T>)
    ensures |Elements(xs)| <= |xs|
    ensures |Elements(xs)| == |xs| <==> Distinct(xs)
  {
    if xs == [] {
      assert Elements(xs) == {};
    } else {
      var init, x := xs[..|xs| - 1], xs[|xs| - 1];
      DistinctBySize(init);
      assert Elements(xs) == Elements(init) + {x};
      assert x in Elements(init) <==> exists i :: 0 <= i < |init| && xs[i] == x;
    }
  }

  lemma {:induction false} DistinctMultiset<T>(xs: seq<T>)
    requires Distinct(xs)
    ensures multiset(xs) == multiset(Elements(xs))
  {
    if xs == [] {
      assert Elements(xs) == {};
    } else {
      var init, x := xs[..|xs| - 1], xs[|xs| - 1];
      DistinctMultiset(init);
      assert xs == init + [x];
      assert Elements(xs) == Elements(init) + {x} && x !in Elements(init);
    }
  }

  lemma SameElementsPermute<T>(xs: seq<T>, ys: seq<T>)
    requires Distinct(xs) && Distinct(ys)
    ensures multiset(xs) == multiset(ys) <==> Elements(xs) == Elements(ys)
  {
    DistinctMultiset(xs);
    DistinctMultiset(ys);
    if multiset(xs) == multiset(ys) {
      forall x ensures x in xs <==> x in ys {
        assert x in multiset(xs) <==> x in multiset(ys);
      }
    }
  }

  /** `us` and `vs` name the elements of `xs` and `ys` so that equal names mean equal elements. */
  ghost predicate SameNaming<T, U>(xs: seq<T>, us: seq<U>, ys: seq<T>, vs: seq<U>) {
    && |xs| == |us| && |ys| == |vs|
    && forall i, j | 0 <= i < |xs| && 0 <= j < |ys| :: xs[i] == ys[j] <==> us[i] == vs[j]
  }

  lemma RemoveAt<T>(xs: seq<T>, i: nat)
    requires i < |xs|
    ensures multiset(xs[..i] + xs[i + 1..]) == multiset(xs) - multiset{xs[i]}
    ensures multiset(xs) == multiset(xs[..i] + xs[i + 1..]) + multiset{xs[i]}
  {
    assert xs == xs[..i] + [xs[i]] + xs[i + 1..];
  }

  /** Renaming elements one-to-one keeps equality of multisets. */
  lemma {:induction false} NamesPermute<T, U>(xs: seq<T>, us: seq<U>, ys: seq<T>, vs: seq<U>)
    requires SameNaming(xs, us, ys, vs) && multiset(xs) == multiset(ys)
    ensures multiset(us) == multiset(vs)
  {
    assert |multiset(xs)| == |xs| && |multiset(ys)| == |ys|;
    if xs != [] {
      var n := |xs| - 1;
      assert xs[n] in multiset(ys);
      var j :| 0 <= j < |ys| && ys[j] == xs[n];
      assert us[n] == vs[j];
      var ys', vs' := ys[..j] + ys[j + 1..], vs[..j] + vs[j + 1..];
      RemoveAt(ys, j);
      RemoveAt(vs, j);
      RemoveAt(xs, n);
      RemoveAt(us, n);
      assert xs[..n] + xs[n + 1..] == xs[..n] && us[..n] + us[n + 1..] == us[..n];
      WithoutOne(xs, us, ys, vs, j);
      NamesPermute(xs[..n], us[..n], ys', vs');
    }
  }

  lemma WithoutOne<T, U>(xs: seq<T>, us: seq<U>, ys: seq<T>, vs: seq<U>, j: nat)
    requires SameNaming(xs, us, ys, vs) && xs != [] && j < |ys|
    ensures SameNaming(xs[..|xs| - 1], us[..|xs| - 1], ys[..j] + ys[j + 1..], vs[..j] + vs[j + 1..])
  {
    var ys', vs' := ys[..j] + ys[j + 1..], vs[..j] + vs[j + 1..];
    assert forall k | 0 <= k < |ys'| ::
        ys'[k] == ys[if k < j then k else k + 1] && vs'[k] == vs[if k < j then k else k + 1];
  }
}
