/** Neumaier-compensated sums (`src/aggregators/kahan.rs`). */
module Kahan {
  import opened Values
  import opened Moments

  function Abs(x: real): real { if x < 0.0 then -x else x }

  /**
   * The running sum rounds, by any amount; the compensation then absorbs exactly what the
   * rounding lost, whichever operand is the larger. The total never drifts.
   */
  function KahanInc(m: Machine, inc: real, sum: real, c: real): (r: (real, real))
    ensures r.0 + r.1 == (sum + c) + inc
  {
    var t := m.round(sum + inc);
    if Abs(sum) >= Abs(inc) then (t, c + ((sum - t) + inc))
    else (t, c + ((inc - t) + sum))
  }

  datatype KahanSum = KahanSum(sum: real, compensation: real) {
    function Value(): real { sum + compensation }

    predicate IsEmpty() { sum == 0.0 && compensation == 0.0 }

    /** `+= f64` */
    function Add(m: Machine, inc: real): (r: KahanSum)
      ensures r.Value() == Value() + inc
    {
      var (t, c) := KahanInc(m, inc, sum, compensation);
      KahanSum(t, c)
    }

    /** `+= KahanSum` */
    function Merge(m: Machine, other: KahanSum): (r: KahanSum)
      ensures r.Value() == Value() + other.Value()
    {
      var (t, c) := KahanInc(m, other.sum, sum, compensation);
      KahanSum(t, c + other.compensation)
    }
  }

  const ZERO := KahanSum(0.0, 0.0)

  /** Any way of building a sum: single additions and merges of other sums, in any tree. */
  datatype Summation = Nothing | Plus(s: Summation, x: real) | Merged(a: Summation, b: Summation)

  function Run(m: Machine, s: Summation): KahanSum {
    match s
    case Nothing => ZERO
    case Plus(s', x) => Run(m, s').Add(m, x)
    case Merged(a, b) => Run(m, a).Merge(m, Run(m, b))
  }

  function Terms(s: Summation): seq<real> {
    match s
    case Nothing => []
    case Plus(s', x) => Terms(s') + [x]
    case Merged(a, b) => Terms(a) + Terms(b)
  }

  lemma TermsAddUp(s: Summation, x: real, s': Summation)
    ensures SumOf(Terms(Nothing)) == 0.0
    ensures SumOf(Terms(Plus(s, x))) == SumOf(Terms(s)) + x
    ensures SumOf(Terms(Merged(s, s'))) == SumOf(Terms(s)) + SumOf(Terms(s'))
  {
    hide SumOf, SumSq, Square;
    SumsOfSmall(x);
    SumsOfConcat(Terms(s), [x]);
    SumsOfConcat(Terms(s), Terms(s'));
  }

  /** However the terms are split over merged parts, the value is their exact sum. */
  lemma {:induction false} SummationConserves(m: Machine, s: Summation)
    ensures Run(m, s).Value() == SumOf(Terms(s))
  {
    hide SumOf, Terms, KahanSum.Add, KahanSum.Merge;
    match s
    case Nothing =>
      TermsAddUp(Nothing, 0.0, Nothing);
    case Plus(s', x) =>
      SummationConserves(m, s');
      TermsAddUp(s', x, Nothing);
    case Merged(a, b) =>
      SummationConserves(m, a);
      SummationConserves(m, b);
      TermsAddUp(a, 0.0, b);
  }

  /** Two trees over the same terms agree, on different machines and in different orders. */
  lemma MergeTreeIrrelevant(m: Machine, s: Summation, m': Machine, s': Summation)
    requires multiset(Terms(s)) == multiset(Terms(s'))
    ensures Run(m, s).Value() == Run(m', s').Value()
  {
    SummationConserves(m, s);
    SummationConserves(m', s');
    SumsOfPermutation(Terms(s), Terms(s'));
  }
}
