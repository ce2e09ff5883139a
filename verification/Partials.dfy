/**
 * Mergeable reducer state for GROUPBY/REDUCE push-down (`src/aggregators/partial_reducer.rs`):
 * shards ship accumulators, the coordinator merges and finalizes them.
 */
module Partials {
  import opened Values
  import opened Moments
  import opened Kahan
  import Aggregators

  type Config = Aggregators.AggregatorConfig

  datatype Kind =
    | Sum | SumIf | Count | CountIf | Min | Max | Range | Avg
    | StdP | StdS | VarP | VarS | First | Last

  datatype Acceptance = RejectNan | AcceptAll | NanOnly

  /** `acc1`, `acc2` and `acc1c` mean what the kind says; `ts` is used by first and last only. */
  datatype PartialState = PartialState(count: nat, acc1: real, acc2: real, acc1c: real, ts: int)

  const EMPTY := PartialState(0, 0.0, 0.0, 0.0, 0)

  datatype PartialReducer = PartialReducer(kind: Kind, filter: Option<Filter>, acceptance: Acceptance)

  /** The reducer for a config, if it can be decomposed: the coordinator's eligibility test. */
  function ForConfig(config: Config): (r: Option<PartialReducer>)
    ensures r.Some? <==> Aggregators.IsDecomposable(config.aggregation)
  {
    var filter := config.filter;
    match config.aggregation
    case Sum => Some(PartialReducer(if filter.Some? then SumIf else Sum, filter, RejectNan))
    case Count => Some(PartialReducer(if filter.Some? then CountIf else Count, filter, RejectNan))
    case SumIf => Some(PartialReducer(SumIf, filter, RejectNan))
    case CountIf => Some(PartialReducer(CountIf, filter, RejectNan))
    case CountAll => Some(PartialReducer(Count, filter, AcceptAll))
    case CountNan => Some(PartialReducer(Count, filter, NanOnly))
    case Min => Some(PartialReducer(Min, filter, RejectNan))
    case Max => Some(PartialReducer(Max, filter, RejectNan))
    case Range => Some(PartialReducer(Range, filter, RejectNan))
    case Avg => Some(PartialReducer(Avg, filter, RejectNan))
    case StdP => Some(PartialReducer(StdP, filter, RejectNan))
    case StdS => Some(PartialReducer(StdS, filter, RejectNan))
    case VarP => Some(PartialReducer(VarP, filter, RejectNan))
    case VarS => Some(PartialReducer(VarS, filter, RejectNan))
    case First => Some(PartialReducer(First, filter, RejectNan))
    case Last => Some(PartialReducer(Last, filter, RejectNan))
    case _ => None
  }

  predicate Accepts(r: PartialReducer, v: Value) {
    match r.acceptance
    case RejectNan => v.Num? && (r.filter.None? || Compare(r.filter.value, v))
    case AcceptAll => true
    case NanOnly => v.NaN?
  }

  /** The number an accepted value contributes; the counting kinds never look at it. */
  function Number(v: Value): real { if v.Num? then v.r else 0.0 }

  /** `PartialReducer::update` */
  function Update(m: Machine, r: PartialReducer, s: PartialState, ts: int, v: Value): PartialState {
    if Accepts(r, v) then AddNumber(m, r.kind, s, ts, Number(v)) else s
  }

  function AddNumber(m: Machine, kind: Kind, s: PartialState, ts: int, x: real): PartialState {
    var first := s.count == 0;
    var s' := s.(count := s.count + 1);
    match kind
    case Sum | SumIf | Avg =>
      var sum := KahanSum(s.acc1, s.acc1c).Add(m, x);
      s'.(acc1 := sum.sum, acc1c := sum.compensation)
    case Count | CountIf => s'
    case Min => s'.(acc1 := if first then x else Moments.Min(s.acc1, x))
    case Max => s'.(acc1 := if first then x else Moments.Max(s.acc1, x))
    case Range =>
      if first then s'.(acc1 := x, acc2 := x)
      else s'.(acc1 := Moments.Min(s.acc1, x), acc2 := Moments.Max(s.acc2, x))
    case StdP | StdS | VarP | VarS =>
      s'.(acc1 := WelfordMean(s.acc1, s.count, x), acc2 := WelfordM2(s.acc1, s.acc2, s.count, x))
    case First => if first || ts < s.ts then s'.(acc1 := x, ts := ts) else s'
    case Last => if first || ts >= s.ts then s'.(acc1 := x, ts := ts) else s'
  }

  /** `PartialReducer::merge`: no accepted value is lost or counted twice. */
  function Merge(m: Machine, kind: Kind, a: PartialState, b: PartialState): (r: PartialState)
    ensures r.count == a.count + b.count
  {
    if b.count == 0 then a
    else if a.count == 0 then b
    else
      var r := a.(count := a.count + b.count);
      match kind
      case Sum | SumIf | Avg =>
        var sum := KahanSum(a.acc1, a.acc1c).Merge(m, KahanSum(b.acc1, b.acc1c));
        r.(acc1 := sum.sum, acc1c := sum.compensation)
      case Count | CountIf => r
      case Min => r.(acc1 := Moments.Min(a.acc1, b.acc1))
      case Max => r.(acc1 := Moments.Max(a.acc1, b.acc1))
      case Range => r.(acc1 := Moments.Min(a.acc1, b.acc1), acc2 := Moments.Max(a.acc2, b.acc2))
      case StdP | StdS | VarP | VarS =>
        r.(acc1 := ChanMean(a.acc1, a.count, b.acc1, b.count),
           acc2 := ChanM2(a.acc1, a.acc2, a.count, b.acc1, b.acc2, b.count))
      case First => if b.ts < a.ts then r.(acc1 := b.acc1, ts := b.ts) else r
      case Last => if b.ts >= a.ts then r.(acc1 := b.acc1, ts := b.ts) else r
  }

  function FinalizeState(m: Machine, kind: Kind, s: PartialState): Value {
    if s.count == 0 then
      (if kind.Count? || kind.CountIf? || kind.SumIf? then Num(0.0) else NaN)
    else
      var n := s.count as real;
      Num(match kind
          case Sum | SumIf => s.acc1 + s.acc1c
          case Min | Max | First | Last => s.acc1
          case Count | CountIf => n
          case Range => s.acc2 - s.acc1
          case Avg => (s.acc1 + s.acc1c) / n
          case VarP => s.acc2 / n
          case VarS => if s.count == 1 then 0.0 else s.acc2 / (n - 1.0)
          case StdP => m.sqrt(s.acc2 / n)
          case StdS => if s.count == 1 then 0.0 else m.sqrt(s.acc2 / (n - 1.0)))
  }

  // -- the specification: what a reducer is meant to compute ----------------------------

  /** The reduction of a list of accepted numbers, with no accumulator in sight. */
  function Reduce(m: Machine, kind: Kind, xs: seq<real>): Value {
    if xs == [] then
      (if kind.Count? || kind.CountIf? || kind.SumIf? then Num(0.0) else NaN)
    else
      Num(match kind
          case Sum | SumIf => SumOf(xs)
          case Count | CountIf => |xs| as real
          case Min => MinOf(xs)
          case Max => MaxOf(xs)
          case Range => MaxOf(xs) - MinOf(xs)
          case Avg => Mean(xs)
          case VarP => Variance(xs)
          case VarS => SampleVariance(xs)
          case StdP => m.sqrt(Variance(xs))
          case StdS => if |xs| == 1 then 0.0 else m.sqrt(SampleVariance(xs))
          case First => xs[0]
          case Last => xs[|xs| - 1])
  }

  function Variance(xs: seq<real>): real
    requires xs != []
  {
    SqDev(xs, Mean(xs)) / |xs| as real
  }

  function SampleVariance(xs: seq<real>): real
    requires xs != []
  {
    if |xs| == 1 then 0.0 else SqDev(xs, Mean(xs)) / (|xs| - 1) as real
  }

  function Accepted(r: PartialReducer, vs: seq<Value>): (xs: seq<real>)
    ensures |xs| <= |vs|
  {
    if vs == [] then []
    else
      var n := |vs| - 1;
      Accepted(r, vs[..n]) + (if Accepts(r, vs[n]) then [Number(vs[n])] else [])
  }

  predicate IsDispersion(kind: Kind) { kind.StdP? || kind.StdS? || kind.VarP? || kind.VarS? }

  predicate OrderInsensitive(kind: Kind) { !kind.First? && !kind.Last? }

  /** `s` is an accumulation of exactly `xs`, in this order, all at timestamp `t`. */
  ghost predicate Represents(kind: Kind, t: int, s: PartialState, xs: seq<real>) {
    && s.count == |xs|
    && (kind.Sum? || kind.SumIf? || kind.Avg? ==> s.acc1 + s.acc1c == SumOf(xs))
    && (IsDispersion(kind) ==> Describes(s.acc1, s.acc2, xs))
    && (xs != [] ==>
          && (kind.Min? || kind.Range? ==> s.acc1 == MinOf(xs))
          && (kind.Max? ==> s.acc1 == MaxOf(xs))
          && (kind.Range? ==> s.acc2 == MaxOf(xs))
          && (kind.First? ==> s.acc1 == xs[0] && s.ts == t)
          && (kind.Last? ==> s.acc1 == xs[|xs| - 1] && s.ts == t))
  }

  lemma EmptyRepresents(kind: Kind, t: int)
    ensures Represents(kind, t, EMPTY, [])
  {
  }

  lemma AddRepresents(m: Machine, kind: Kind, t: int, s: PartialState, xs: seq<real>, x: real)
    requires Represents(kind, t, s, xs)
    ensures Represents(kind, t, AddNumber(m, kind, s, t, x), xs + [x])
  {
    hide KahanSum.Add, WelfordMean, WelfordM2, SumOf, SumSq, Square, Describes, MinOf, MaxOf;
    assert MinOf([x]) == MaxOf([x]) == x;
    if IsDispersion(kind) {
      WelfordStep(s.acc1, s.acc2, xs, x);
    } else if kind.Min? || kind.Max? || kind.Range? {
      if xs == [] { assert xs + [x] == [x]; } else { ExtremesOfConcat(xs, [x]); }
    } else {
      SumsOfConcat(xs, [x]);
      SumsOfSmall(x);
    }
  }

  lemma MergeRepresents(m: Machine, kind: Kind, t: int, a: PartialState, xs: seq<real>,
                        b: PartialState, ys: seq<real>)
    requires Represents(kind, t, a, xs) && Represents(kind, t, b, ys)
    ensures Represents(kind, t, Merge(m, kind, a, b), xs + ys)
  {
    hide KahanSum.Merge, ChanMean, ChanM2, SumOf, SumSq, Square, Describes, MinOf, MaxOf;
    if ys == [] {
      assert xs + ys == xs;
    } else if xs == [] {
      assert xs + ys == ys;
    } else if IsDispersion(kind) {
      ChanCombine(a.acc1, a.acc2, xs, b.acc1, b.acc2, ys);
    } else if kind.Min? || kind.Max? || kind.Range? {
      ExtremesOfConcat(xs, ys);
    } else {
      SumsOfConcat(xs, ys);
    }
  }

  lemma FinalizeRepresents(m: Machine, kind: Kind, t: int, s: PartialState, xs: seq<real>)
    requires Represents(kind, t, s, xs)
    ensures FinalizeState(m, kind, s) == Reduce(m, kind, xs)
  {
    hide SumOf, SumSq, Square, SqDev, Describes;
    if IsDispersion(kind) { DescribesMeaning(s.acc1, s.acc2, xs); }
  }

  lemma ReduceIgnoresOrder(m: Machine, kind: Kind, xs: seq<real>, ys: seq<real>)
    requires OrderInsensitive(kind)
    requires multiset(xs) == multiset(ys)
    ensures Reduce(m, kind, xs) == Reduce(m, kind, ys)
  {
    hide SumOf, SumSq, Square, SqDev, Steiner;
    SumsOfPermutation(xs, ys);
    if xs != [] {
      ExtremesOfPermutation(xs, ys);
      SqDevExpanded(xs, Mean(xs));
      SqDevExpanded(ys, Mean(ys));
    }
  }

  // -- one shard: a list of values ----------------------------------------------------

  function Accumulate(m: Machine, r: PartialReducer, t: int, vs: seq<Value>): PartialState {
    if vs == [] then EMPTY
    else Update(m, r, Accumulate(m, r, t, vs[..|vs| - 1]), t, vs[|vs| - 1])
  }

  lemma {:induction false} AccumulateRepresents(m: Machine, r: PartialReducer, t: int, vs: seq<Value>)
    ensures Represents(r.kind, t, Accumulate(m, r, t, vs), Accepted(r, vs))
  {
    hide Represents, AddNumber;
    if vs == [] {
      EmptyRepresents(r.kind, t);
    } else {
      var front, v := vs[..|vs| - 1], vs[|vs| - 1];
      AccumulateRepresents(m, r, t, front);
      assert Accepted(r, front) + [] == Accepted(r, front);
      AddRepresents(m, r.kind, t, Accumulate(m, r, t, front), Accepted(r, front), Number(v));
    }
  }

  lemma {:induction false} AcceptedOfConcat(r: PartialReducer, us: seq<Value>, vs: seq<Value>)
    ensures Accepted(r, us + vs) == Accepted(r, us) + Accepted(r, vs)
  {
    if vs == [] {
      assert us + vs == us;
    } else {
      AcceptedOfConcat(r, us, vs[..|vs| - 1]);
      assert (us + vs)[..|us + vs| - 1] == us + vs[..|vs| - 1];
    }
  }

  // -- any number of shards --------------------------------------------------------------

  function MergeAll(m: Machine, kind: Kind, states: seq<PartialState>): PartialState {
    if states == [] then EMPTY
    else Merge(m, kind, MergeAll(m, kind, states[..|states| - 1]), states[|states| - 1])
  }

  function TotalCount(states: seq<PartialState>): nat {
    if states == [] then 0 else TotalCount(states[..|states| - 1]) + states[|states| - 1].count
  }

  /** Merging conserves the number of accepted values, whatever the states hold. */
  lemma {:induction false} MergeAllConservesCount(m: Machine, kind: Kind, states: seq<PartialState>)
    ensures MergeAll(m, kind, states).count == TotalCount(states)
  {
    if states != [] { MergeAllConservesCount(m, kind, states[..|states| - 1]); }
  }

  function Flatten<T>(parts: seq<seq<T>>): seq<T> {
    if parts == [] then [] else Flatten(parts[..|parts| - 1]) + parts[|parts| - 1]
  }

  lemma {:induction false} MergeAllRepresents(m: Machine, kind: Kind, t: int,
                                              states: seq<PartialState>, parts: seq<seq<real>>)
    requires |states| == |parts|
    requires forall i :: 0 <= i < |states| ==> Represents(kind, t, states[i], parts[i])
    ensures Represents(kind, t, MergeAll(m, kind, states), Flatten(parts))
  {
    hide Represents, Merge;
    if states == [] {
      EmptyRepresents(kind, t);
    } else {
      var n := |states| - 1;
      MergeAllRepresents(m, kind, t, states[..n], parts[..n]);
      MergeRepresents(m, kind, t, MergeAll(m, kind, states[..n]), Flatten(parts[..n]), states[n], parts[n]);
    }
  }
}
