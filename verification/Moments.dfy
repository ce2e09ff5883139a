/** Sums, extremes and dispersion of a list of reals: what the reducers are meant to compute. */
module Moments {
  import opened Bags


  /** The sum of `f` over a list. */
  function SumBy(f: real -> real, xs: seq<real>): real {
    if xs == [] then 0.0 else SumBy(f, xs[..|xs| - 1]) + f(xs[|xs| - 1])
  }

  function Itself(x: real): real { x }

  function Square(x: real): real { x * x }

  /** Squared distance from `c`. */
  function Deviation(c: real): real -> real { x => Square(x - c) }

  function SumOf(xs: seq<real>): real { SumBy(Itself, xs) }

  function SumSq(xs: seq<real>): real { SumBy(Square, xs) }

  /** Sum of squared distances from `c`. */
  function SqDev(xs: seq<real>, c: real): real { SumBy(Deviation(c), xs) }

  function Mean(xs: seq<real>): real
    requires xs != []
  {
    SumOf(xs) / |xs| as real
  }

  function Min(x: real, y: real): real { if x <= y then x else y }

  function Max(x: real, y: real): real { if x <= y then y else x }

  function MinOf(xs: seq<real>): (m: real)
    requires xs != []
    ensures m in xs
    ensures forall x :: x in xs ==> m <= x
  {
    assert xs == xs[..|xs| - 1] + [xs[|xs| - 1]];
    if |xs| == 1 then xs[0] else Min(MinOf(xs[..|xs| - 1]), xs[|xs| - 1])
  }

  function MaxOf(xs: seq<real>): (m: real)
    requires xs != []
    ensures m in xs
    ensures forall x :: x in xs ==> x <= m
  {
    assert xs == xs[..|xs| - 1] + [xs[|xs| - 1]];
    if |xs| == 1 then xs[0] else Max(MaxOf(xs[..|xs| - 1]), xs[|xs| - 1])
  }

  lemma SumBySmall(f: real -> real, x: real)
    ensures SumBy(f, []) == 0.0 && SumBy(f, [x]) == f(x)
  {
  }

  lemma {:induction false} SumByConcat(f: real -> real, xs: seq<real>, ys: seq<real>)
    ensures SumBy(f, xs + ys) == SumBy(f, xs) + SumBy(f, ys)
  {
    if ys == [] {
      assert xs + ys == xs;
    } else {
      assert (xs + ys)[..|xs + ys| - 1] == xs + ys[..|ys| - 1];
      SumByConcat(f, xs, ys[..|ys| - 1]);
    }
  }

  lemma SumsOfConcat(xs: seq<real>, ys: seq<real>)
    ensures SumOf(xs + ys) == SumOf(xs) + SumOf(ys)
    ensures SumSq(xs + ys) == SumSq(xs) + SumSq(ys)
  {
    SumByConcat(Itself, xs, ys);
    SumByConcat(Square, xs, ys);
  }

  lemma SumsOfSmall(x: real)
    ensures SumOf([]) == 0.0 && SumOf([x]) == x
    ensures SumSq([]) == 0.0 && SumSq([x]) == Square(x)
  {
  }

  lemma ExtremesOfConcat(xs: seq<real>, ys: seq<real>)
    requires xs != [] && ys != []
    ensures MinOf(xs + ys) == Min(MinOf(xs), MinOf(ys))
    ensures MaxOf(xs + ys) == Max(MaxOf(xs), MaxOf(ys))
  {
    assert MinOf(xs) in xs + ys && MinOf(ys) in xs + ys;
    assert MaxOf(xs) in xs + ys && MaxOf(ys) in xs + ys;
  }

  lemma SumWithoutOne(f: real -> real, xs: seq<real>, i: nat)
    requires i < |xs|
    ensures SumBy(f, xs) == SumBy(f, xs[..i] + xs[i + 1..]) + f(xs[i])
  {
    hide SumBy;
    SumBySmall(f, xs[i]);
    var a, b := xs[..i], xs[i + 1..];
    assert xs == a + [xs[i]] + b;
    SumByConcat(f, a, b);
    SumByConcat(f, a, [xs[i]]);
    SumByConcat(f, a + [xs[i]], b);
  }

  lemma Occurrence(xs: seq<real>, ys: seq<real>) returns (i: nat)
    requires multiset(xs) == multiset(ys) && xs != []
    ensures i < |ys| && ys[i] == xs[0]
  {
    assert xs[0] in multiset(ys);
    i :| i < |ys| && ys[i] == xs[0];
  }

  /** A sum does not depend on the order of the list. */
  lemma {:induction false} SumByPermutation(f: real -> real, xs: seq<real>, ys: seq<real>)
    requires multiset(xs) == multiset(ys)
    ensures SumBy(f, xs) == SumBy(f, ys)
  {
    hide SumBy;
    if xs == [] {
      assert |multiset(ys)| == |multiset(xs)| == 0;
    } else {
      var i := Occurrence(xs, ys);
      MultisetWithoutOne(xs, 0);
      MultisetWithoutOne(ys, i);
      SumWithoutOne(f, xs, 0);
      SumWithoutOne(f, ys, i);
      SumByPermutation(f, xs[..0] + xs[1..], ys[..i] + ys[i + 1..]);
    }
  }

  lemma SumsOfPermutation(xs: seq<real>, ys: seq<real>)
    requires multiset(xs) == multiset(ys)
    ensures |xs| == |ys|
    ensures SumOf(xs) == SumOf(ys) && SumSq(xs) == SumSq(ys)
  {
    assert |multiset(xs)| == |multiset(ys)|;
    SumByPermutation(Itself, xs, ys);
    SumByPermutation(Square, xs, ys);
  }

  lemma ExtremesOfPermutation(xs: seq<real>, ys: seq<real>)
    requires multiset(xs) == multiset(ys)
    requires xs != []
    ensures ys != [] && MinOf(xs) == MinOf(ys) && MaxOf(xs) == MaxOf(ys)
  {
    assert xs[0] in multiset(ys);
    assert forall x :: x in xs <==> x in multiset(xs);
    assert forall y :: y in ys <==> y in multiset(ys);
    assert MinOf(ys) in multiset(xs) && MaxOf(ys) in multiset(xs);
    assert MinOf(xs) in multiset(ys) && MaxOf(xs) in multiset(ys);
  }

  lemma {:induction false} SqDevNonNegative(xs: seq<real>, c: real)
    ensures SqDev(xs, c) >= 0.0
  {
    hide Square;
    if xs != [] {
      SqDevNonNegative(xs[..|xs| - 1], c);
      SquareNonNegative(xs[|xs| - 1] - c);
    }
  }

  lemma SquareNonNegative(x: real)
    ensures Square(x) >= 0.0
  {
    if x < 0.0 { assert x * x == (-x) * (-x); }
  }

  function Steiner(q: real, s: real, n: nat, c: real): real {
    q - 2.0 * (c * s) + n as real * Square(c)
  }

  /** The squared deviations around any centre, from the sums alone. */
  lemma {:induction false} SqDevExpanded(xs: seq<real>, c: real)
    ensures SqDev(xs, c) == Steiner(SumSq(xs), SumOf(xs), |xs|, c)
  {
    hide Square, Steiner;
    if xs == [] {
      SteinerOfNothing(c);
    } else {
      var front, x := xs[..|xs| - 1], xs[|xs| - 1];
      SqDevExpanded(front, c);
      SteinerStep(SumSq(front), SumOf(front), |front|, c, x);
    }
  }

  lemma SteinerOfNothing(c: real)
    ensures Steiner(0.0, 0.0, 0, c) == 0.0
  {
  }

  lemma SteinerStep(q: real, s: real, n: nat, c: real, x: real)
    ensures Steiner(q, s, n, c) + Square(x - c) == Steiner(q + Square(x), s + x, n + 1, c)
  {
    assert Square(x - c) == Square(x) - 2.0 * (c * x) + Square(c);
    assert c * (s + x) == c * s + c * x;
    assert (n + 1) as real * Square(c) == n as real * Square(c) + Square(c);
  }

  // -- Welford's running mean and M2, and Chan's combination of two of them --------

  function WelfordMean(mean: real, n: nat, x: real): real {
    mean + (x - mean) / (n + 1) as real
  }

  function WelfordM2(mean: real, m2: real, n: nat, x: real): real {
    m2 + (x - mean) * (x - WelfordMean(mean, n, x))
  }

  function ChanMean(meanA: real, na: nat, meanB: real, nb: nat): real
    requires na + nb > 0
  {
    meanA + (meanB - meanA) * (nb as real / (na as real + nb as real))
  }

  function ChanCorrection(meanA: real, na: nat, meanB: real, nb: nat): real
    requires na + nb > 0
  {
    Square(meanB - meanA) * (na as real * nb as real / (na as real + nb as real))
  }

  function ChanM2(meanA: real, m2a: real, na: nat, meanB: real, m2b: real, nb: nat): real
    requires na + nb > 0
  {
    m2a + (m2b + ChanCorrection(meanA, na, meanB, nb))
  }

  /** `mean` and `m2` are the mean of `n` numbers with these sums, and the squared deviations. */
  ghost predicate MeanAndM2(mean: real, m2: real, n: nat, s: real, q: real) {
    mean * n as real == s && m2 == Steiner(q, s, n, mean)
  }

  ghost predicate Describes(mean: real, m2: real, xs: seq<real>) {
    MeanAndM2(mean, m2, |xs|, SumOf(xs), SumSq(xs))
  }

  /** What the two numbers mean: the mean, and the sum of squared distances from it. */
  lemma DescribesMeaning(mean: real, m2: real, xs: seq<real>)
    requires Describes(mean, m2, xs)
    ensures xs != [] ==> mean == Mean(xs)
    ensures m2 == SqDev(xs, mean) >= 0.0
  {
    hide Square, Steiner, SumSq, SumOf, SqDev;
    SqDevExpanded(xs, mean);
    SqDevNonNegative(xs, mean);
  }

  lemma WelfordStep(mean: real, m2: real, xs: seq<real>, x: real)
    requires Describes(mean, m2, xs)
    ensures Describes(WelfordMean(mean, |xs|, x), WelfordM2(mean, m2, |xs|, x), xs + [x])
  {
    hide MeanAndM2, Square, WelfordMean, WelfordM2, SumSq, SumOf;
    SumsOfConcat(xs, [x]);
    SumsOfSmall(x);
    WelfordAlgebra(mean, m2, |xs|, SumOf(xs), SumSq(xs), x);
  }

  lemma WelfordAlgebra(mean: real, m2: real, n: nat, s: real, q: real, x: real)
    requires MeanAndM2(mean, m2, n, s, q)
    ensures MeanAndM2(WelfordMean(mean, n, x), WelfordM2(mean, m2, n, x), n + 1, s + x, q + Square(x))
  {
    hide WelfordMean, Square, Steiner;
    WelfordQuotient(mean, n, x);
    CentreAlgebra(q, s, n, mean);
    CentreAlgebra(q + Square(x), s + x, n + 1, WelfordMean(mean, n, x));
  }

  lemma WelfordQuotient(mean: real, n: nat, x: real)
    ensures WelfordMean(mean, n, x) * (n + 1) as real == mean * n as real + x
    ensures (x - mean) * (x - WelfordMean(mean, n, x))
            == Square(x) + n as real * Square(mean) - (n + 1) as real * Square(WelfordMean(mean, n, x))
  {
    hide Square;
    var k := (n + 1) as real;
    assert (x - mean) / k * k == x - mean;
    assert mean * k == mean * n as real + mean;
    WelfordPolynomial(mean, WelfordMean(mean, n, x), n as real, x);
  }

  /** Around the mean itself the expansion loses its cross term. */
  lemma CentreAlgebra(q: real, s: real, n: nat, mean: real)
    requires mean * n as real == s
    ensures Steiner(q, s, n, mean) == q - n as real * Square(mean)
  {
    assert mean * s == n as real * Square(mean);
  }

  lemma WelfordPolynomial(mean: real, mean': real, n: real, x: real)
    requires mean' * (n + 1.0) == mean * n + x
    ensures (x - mean) * (x - mean') == Square(x) + n * Square(mean) - (n + 1.0) * Square(mean')
  {
    assert (n + 1.0) * Square(mean') == (mean * n + x) * mean';
    assert mean * (mean' * (n + 1.0)) == mean * (mean * n + x);
    assert (x - mean) * (x - mean') == Square(x) - x * mean' - mean * x + mean * mean';
  }

  lemma ChanCombine(meanA: real, m2a: real, xs: seq<real>, meanB: real, m2b: real, ys: seq<real>)
    requires xs + ys != []
    requires Describes(meanA, m2a, xs) && Describes(meanB, m2b, ys)
    ensures Describes(ChanMean(meanA, |xs|, meanB, |ys|),
                      ChanM2(meanA, m2a, |xs|, meanB, m2b, |ys|), xs + ys)
  {
    hide MeanAndM2, Square, ChanMean, ChanM2, SumSq, SumOf;
    SumsOfConcat(xs, ys);
    ChanAlgebra(meanA, m2a, |xs|, SumOf(xs), SumSq(xs), meanB, m2b, |ys|, SumOf(ys), SumSq(ys));
  }

  lemma ChanAlgebra(a: real, m2a: real, na: nat, sa: real, qa: real,
                    b: real, m2b: real, nb: nat, sb: real, qb: real)
    requires na + nb > 0
    requires MeanAndM2(a, m2a, na, sa, qa) && MeanAndM2(b, m2b, nb, sb, qb)
    ensures MeanAndM2(ChanMean(a, na, b, nb), ChanM2(a, m2a, na, b, m2b, nb),
                      na + nb, sa + sb, qa + qb)
  {
    hide ChanMean, ChanCorrection, Square, Steiner;
    ChanQuotient(a, na, b, nb);
    CentreAlgebra(qa, sa, na, a);
    CentreAlgebra(qb, sb, nb, b);
    CentreAlgebra(qa + qb, sa + sb, na + nb, ChanMean(a, na, b, nb));
  }

  lemma ChanQuotient(a: real, na: nat, b: real, nb: nat)
    requires na + nb > 0
    ensures ChanMean(a, na, b, nb) * (na + nb) as real == a * na as real + b * nb as real
    ensures ChanCorrection(a, na, b, nb)
            == na as real * Square(a) + nb as real * Square(b)
               - (na + nb) as real * Square(ChanMean(a, na, b, nb))
  {
    hide Square;
    var n := (na + nb) as real;
    Shares(na, nb);
    var q, w := nb as real / n, na as real * nb as real / n;
    ChanPolynomial(a, b, n, q, na as real, nb as real, w);
    assert ChanMean(a, na, b, nb) == a + (b - a) * q;
    assert ChanCorrection(a, na, b, nb) == Square(b - a) * w;
  }

  /** With q = nb / n: nb = n q and na = n (1 - q). */
  lemma Shares(na: nat, nb: nat)
    requires na + nb > 0
    ensures var n := (na + nb) as real; var q := nb as real / n;
            && n * q == nb as real && n * (1.0 - q) == na as real
            && na as real * nb as real / n == n * (1.0 - q) * q
  {
    var n := (na + nb) as real;
    var q := nb as real / n;
    assert q * n == nb as real;
    assert na as real * nb as real / n == na as real * q;
  }

  lemma ChanPolynomial(a: real, b: real, n: real, q: real, na: real, nb: real, w: real)
    requires n * q == nb && n * (1.0 - q) == na && w == n * (1.0 - q) * q
    ensures var mean := a + (b - a) * q;
            && mean * n == a * na + b * nb
            && Square(b - a) * w == na * Square(a) + nb * Square(b) - n * Square(mean)
  {
    hide Square;
    var mean, d := a + (b - a) * q, b - a;
    Spread(a, b, q);
    var x := (1.0 - q) * Square(a) + q * Square(b) - Square(mean);
    assert Square(d) * w == n * (Square(d) * ((1.0 - q) * q));
    assert n * x == n * (1.0 - q) * Square(a) + n * q * Square(b) - n * Square(mean);
  }

  /** Two points weighted 1 - q and q: how far they lie from their mean. */
  lemma Spread(a: real, b: real, q: real)
    ensures Square(b - a) * ((1.0 - q) * q) == (1.0 - q) * Square(a) + q * Square(b) - Square(a + (b - a) * q)
  {
    var mean, d := a + (b - a) * q, b - a;
    assert Square(mean) == Square(a) + 2.0 * a * d * q + Square(d) * q * q;
    assert Square(b) == Square(a) + 2.0 * a * d + Square(d);
  }
}
