/** Lists up to order: what a list of lists gathers does not depend on the order it arrives in. */
module Bags {

  lemma MultisetWithoutOne<T>(xs: seq<T>, i: nat)
    requires i < |xs|
    ensures multiset(xs[..i] + xs[i + 1..]) == multiset(xs) - multiset{xs[i]}
  {
    assert xs == xs[..i] + [xs[i]] + xs[i + 1..];
  }

  /** `flat_map` */
  function ConcatMap<S, T>(f: S -> seq<T>, xs: seq<S>): seq<T> {
    if xs == [] then [] else ConcatMap(f, xs[..|xs| - 1]) + f(xs[|xs| - 1])
  }

  lemma {:induction false} ConcatMapOfConcat<S, T>(f: S -> seq<T>, xs: seq<S>, ys: seq<S>)
    ensures ConcatMap(f, xs + ys) == ConcatMap(f, xs) + ConcatMap(f, ys)
  {
    if ys == [] {
      assert xs + ys == xs;
    } else {
      var n := |ys| - 1;
      ConcatMapOfConcat(f, xs, ys[..n]);
      assert (xs + ys)[..|xs| + n] == xs + ys[..n];
    }
  }

  lemma ConcatMapOne<S, T>(f: S -> seq<T>, x: S)
    ensures ConcatMap(f, [x]) == f(x)
  {
    assert [x][..0] == [];
    assert ConcatMap(f, [x][..0]) == [];
  }

  lemma ConcatMapWithoutOne<S, T>(f: S -> seq<T>, xs: seq<S>, i: nat)
    requires i < |xs|
    ensures multiset(ConcatMap(f, xs)) == multiset(ConcatMap(f, xs[..i] + xs[i + 1..])) + multiset(f(xs[i]))
  {
    hide ConcatMap;
    var a, x, b := xs[..i], xs[i], xs[i + 1..];
    assert xs == a + [x] + b;
    ConcatMapOfConcat(f, a + [x], b);
    ConcatMapOfConcat(f, a, [x]);
    ConcatMapOfConcat(f, a, b);
    ConcatMapOne(f, x);
  }

  lemma {:induction false} ConcatMapPermutation<S, T>(f: S -> seq<T>, xs: seq<S>, ys: seq<S>)
    requires multiset(xs) == multiset(ys)
    ensures multiset(ConcatMap(f, xs)) == multiset(ConcatMap(f, ys))
  {
    hide ConcatMap;
    if xs == [] {
      assert |multiset(xs)| == |multiset(ys)|;
      assert ys == [];
    } else {
      assert xs[0] in multiset(ys);
      var i :| 0 <= i < |ys| && ys[i] == xs[0];
      MultisetWithoutOne(xs, 0);
      MultisetWithoutOne(ys, i);
      ConcatMapWithoutOne(f, xs, 0);
      ConcatMapWithoutOne(f, ys, i);
      ConcatMapPermutation(f, xs[..0] + xs[1..], ys[..i] + ys[i + 1..]);
    }
  }

  lemma SameMembers<T>(xs: seq<T>, ys: seq<T>)
    requires multiset(xs) == multiset(ys)
    ensures |xs| == |ys|
    ensures forall x :: x in xs <==> x in ys
  {
    assert |multiset(xs)| == |multiset(ys)|;
    assert forall x :: x in xs <==> x in multiset(xs);
    assert forall x :: x in ys <==> x in multiset(ys);
  }
}
