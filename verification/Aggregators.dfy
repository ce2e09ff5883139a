/**
 * The per-bucket aggregators (`src/aggregators/handlers.rs`, `src/aggregators/filtered.rs`):
 * accumulators that are fed samples, say whether they accepted each one, and report a value.
 */
module Aggregators {
  import opened Values
  import opened Kahan
  import Moments

  datatype AggregationType =
    | All | Any | Avg | Count | CountAll | CountIf | CountNan | First | Increase | IRate | Last
    | Max | Min | NoneOf | Range | Rate | Share | StdP | StdS | Sum | SumIf | VarP | VarS

  predicate IsFiltered(ty: AggregationType) {
    ty.All? || ty.Any? || ty.CountIf? || ty.SumIf? || ty.Share? || ty.NoneOf?
  }

  /** Whether a group nothing was accepted from reduces to 0 rather than NaN. */
  predicate ReducesEmptyToZero(ty: AggregationType) {
    ty.Count? || ty.CountAll? || ty.CountIf? || ty.CountNan? || ty.SumIf?
  }

  predicate IsDecomposable(ty: AggregationType) {
    match ty
    case Sum | SumIf | Count | CountIf | CountAll | CountNan | Min | Max | Range | Avg
       | StdP | StdS | VarP | VarS | First | Last => true
    case Increase | IRate | Rate | All | Any | NoneOf | Share => false
  }

  datatype AggregatorConfig = AggregatorConfig(aggregation: AggregationType, filter: Option<Filter>) {
    /** What `AggregatorConfig::new` refuses: a condition on a type that takes none. */
    predicate Valid() {
      filter.Some? ==> IsFiltered(aggregation) || aggregation.Count? || aggregation.Sum?
    }
  }

  // -- accumulator state ------------------------------------------------------

  datatype Counter = Counter(sumDeltas: real, last: Option<real>)

  datatype Welford = Welford(mean: real, m2: real, count: nat)

  datatype MatchRule = Every | AtLeastOne | NotOne

  datatype TallyRule = Numbers | Everything | Nans

  datatype Choice = Earliest | Latest | Least | Greatest

  /**
   * Accumulator state. Handlers that share a state struct share a constructor: `all`, `any`
   * and `none`; the three counts; `countif` and `sumif`; the four that hold one value; the
   * four dispersions. Numbers kept in state are never NaN.
   */
  datatype Aggregator =
    | Matching(rule: MatchRule, matches: Option<bool>, filter: Filter)
    | Sharing(count: nat, matchCount: nat, filter: Filter)
    | Averaging(n: nat, total: KahanSum)
    | Tallying(tally: TallyRule, count: nat)
    | Conditional(counts: bool, hasSamples: bool, total: KahanSum, filter: Filter)
    | Summing(total: KahanSum)
    | Holding(choice: Choice, held: Option<real>)
    | Ranging(min: real, max: real, init: bool)
    | Dispersing(root: bool, sample: bool, welford: Welford)
    | Increasing(counter: Counter)
    | Rating(windowMs: nat, counter: Counter)
    | InstantRating(dt: int, dv: real, lastSample: Option<(int, real)>)

  const NO_COUNTER := Counter(0.0, None)
  const NO_SAMPLES := Welford(0.0, 0.0, 0)

  function FreshOf(ty: AggregationType, filter: Filter): Aggregator {
    match ty
    case All => Matching(Every, None, filter)
    case Any => Matching(AtLeastOne, None, filter)
    case NoneOf => Matching(NotOne, None, filter)
    case Share => Sharing(0, 0, filter)
    case Avg => Averaging(0, ZERO)
    case Count => Tallying(Numbers, 0)
    case CountAll => Tallying(Everything, 0)
    case CountNan => Tallying(Nans, 0)
    case CountIf => Conditional(true, false, ZERO, filter)
    case SumIf => Conditional(false, false, ZERO, filter)
    case Sum => Summing(ZERO)
    case First => Holding(Earliest, None)
    case Last => Holding(Latest, None)
    case Min => Holding(Least, None)
    case Max => Holding(Greatest, None)
    case Range => Ranging(0.0, 0.0, false)
    case VarP => Dispersing(false, false, NO_SAMPLES)
    case VarS => Dispersing(false, true, NO_SAMPLES)
    case StdP => Dispersing(true, false, NO_SAMPLES)
    case StdS => Dispersing(true, true, NO_SAMPLES)
    case Increase => Increasing(NO_COUNTER)
    case Rate => Rating(0, NO_COUNTER)
    case IRate => InstantRating(0, 0.0, None)
  }

  /** The type `create_aggregator` runs: `count` and `sum` with a condition become `countif`, `sumif`. */
  function EffectiveType(config: AggregatorConfig): AggregationType {
    if config.filter.Some? && config.aggregation.Count? then CountIf
    else if config.filter.Some? && config.aggregation.Sum? then SumIf
    else config.aggregation
  }

  function Create(config: AggregatorConfig): Aggregator {
    FreshOf(EffectiveType(config), if config.filter.Some? then config.filter.value else ANYTHING)
  }

  // -- updates ---------------------------------------------------------------------

  function WelfordAdd(w: Welford, x: real): Welford {
    Welford(Moments.WelfordMean(w.mean, w.count, x),
            Moments.WelfordM2(w.mean, w.m2, w.count, x), w.count + 1)
  }

  function CounterAdd(c: Counter, x: real): Counter {
    Counter(c.sumDeltas + (if c.last.Some? then Moments.Max(x - c.last.value, 0.0) else 0.0), Some(x))
  }

  function Choose(choice: Choice, held: Option<real>, x: real): real {
    if held.None? then x
    else match choice
      case Earliest => held.value
      case Latest => x
      case Least => Moments.Min(held.value, x)
      case Greatest => Moments.Max(held.value, x)
  }

  /** Once `all` or `none` failed, or `any` succeeded, the verdict stands. */
  function Judge(rule: MatchRule, matches: Option<bool>, matched: bool): Option<bool> {
    match rule
    case Every => if matches == Some(false) then matches else Some(matched)
    case AtLeastOne => if matches == Some(true) then matches else Some(matched)
    case NotOne => if matches == Some(false) then matches else Some(!matched)
  }

  function UpdateIRate(a: Aggregator, ts: int, x: real): (Aggregator, bool)
    requires a.InstantRating?
  {
    if a.lastSample.None? then (InstantRating(a.dt, a.dv, Some((ts, x))), true)
    else
      var (prevTs, prev) := a.lastSample.value;
      if x < prev then (InstantRating(0, 0.0, Some((ts, x))), false)   // counter reset
      else if ts - prevTs > 0 then (InstantRating(ts - prevTs, x - prev, Some((ts, x))), true)
      else (InstantRating(ts - prevTs, a.dv, a.lastSample), true)
  }

  /** Feed one value; the flag says whether the accumulator accepted it. */
  function Update(m: Machine, a: Aggregator, ts: int, v: Value): (Aggregator, bool) {
    match a
    case Matching(rule, matches, f) => (Matching(rule, Judge(rule, matches, Compare(f, v)), f), true)
    case Sharing(n, k, f) => (Sharing(n + 1, if Compare(f, v) then k + 1 else k, f), true)
    case Tallying(rule, n) =>
      if rule.Everything? || (rule.Nans? <==> v.NaN?) then (Tallying(rule, n + 1), true) else (a, false)
    case _ => if v.NaN? then (a, false) else UpdateNumber(m, a, ts, v.r)
  }

  function UpdateNumber(m: Machine, a: Aggregator, ts: int, x: real): (Aggregator, bool) {
    match a
    case Averaging(n, total) => (Averaging(if n == U32_MAX then n else n + 1, total.Add(m, x)), true)
    case Conditional(counts, has, total, f) =>
      (if Compare(f, Num(x)) then Conditional(counts, true, total.Add(m, if counts then 1.0 else x), f)
       else a, true)
    case Summing(total) => (Summing(total.Add(m, x)), true)
    case Holding(choice, held) => (Holding(choice, Some(Choose(choice, held, x))), true)
    case Ranging(lo, hi, init) =>
      (if init then Ranging(Moments.Min(lo, x), Moments.Max(hi, x), true) else Ranging(x, x, true), true)
    case Dispersing(root, sample, w) => (Dispersing(root, sample, WelfordAdd(w, x)), true)
    case Increasing(c) => (Increasing(CounterAdd(c, x)), true)
    case Rating(window, c) => (Rating(window, CounterAdd(c, x)), true)
    case InstantRating(_, _, _) => UpdateIRate(a, ts, x)
    case _ => (a, false)
  }

  function Reset(a: Aggregator): Aggregator {
    match a
    case Matching(rule, _, f) => Matching(rule, None, f)
    case Sharing(_, _, f) => Sharing(0, 0, f)
    case Averaging(_, _) => Averaging(0, ZERO)
    case Tallying(rule, _) => Tallying(rule, 0)
    case Conditional(counts, _, _, f) => Conditional(counts, false, ZERO, f)
    case Summing(_) => Summing(ZERO)
    case Holding(choice, _) => Holding(choice, None)
    case Ranging(_, _, _) => Ranging(0.0, 0.0, false)
    case Dispersing(root, sample, _) => Dispersing(root, sample, NO_SAMPLES)
    case Increasing(_) => Increasing(NO_COUNTER)
    case Rating(window, _) => Rating(window, NO_COUNTER)
    case InstantRating(_, _, _) => InstantRating(0, 0.0, None)
  }

  predicate IsFresh(a: Aggregator) { Reset(a) == a }

  // -- reporting --------------------------------------------------------------------

  /** Variance over n or n - 1, or its root; a single sample has none. */
  function Dispersion(m: Machine, root: bool, sample: bool, m2: real, n: nat): real
    requires n > 0
  {
    if sample && n == 1 then 0.0
    else
      var variance := (if n <= 1 then 0.0 else m2) / (if sample then n - 1 else n) as real;
      if root then m.sqrt(variance) else variance
  }

  function Current(m: Machine, a: Aggregator): Option<Value> {
    match a
    case Matching(_, matches, _) =>
      if matches.None? then None else Some(Num(if matches.value then 1.0 else 0.0))
    case Sharing(n, k, _) => if n > 0 then Some(Num(k as real / n as real)) else None
    case Averaging(n, total) => if n == 0 then None else Some(Num(total.Value() / n as real))
    case Tallying(_, n) => if n == 0 then None else Some(Num(n as real))
    case Conditional(_, has, total, _) => if has then Some(Num(total.Value())) else None
    case Summing(total) => if total.IsEmpty() then None else Some(Num(total.Value()))
    case Holding(_, held) => if held.None? then None else Some(Num(held.value))
    case Ranging(lo, hi, init) => if init then Some(Num(hi - lo)) else None
    case Dispersing(root, sample, w) =>
      if w.count == 0 then None else Some(Num(Dispersion(m, root, sample, w.m2, w.count)))
    case Increasing(c) => if c.last.None? then None else Some(Num(c.sumDeltas))
    case Rating(window, c) =>
      if c.last.None? || window == 0 then None else Some(Num(c.sumDeltas / (window as real / 1000.0)))
    case InstantRating(dt, dv, prev) =>
      if prev.None? || dt == 0 then None else Some(Num(dv / (dt as real / 1000.0)))
  }

  /** What an empty bucket holds. */
  function EmptyValue(a: Aggregator): Value {
    if a.Summing? || a.Tallying? || a.Conditional? then Num(0.0) else NaN
  }

  /** What a group nothing was accepted from reduces to; differs from `EmptyValue` on `sum`. */
  function EmptyGroupValue(a: Aggregator): Value {
    if a.Tallying? || a.Conditional? then Num(0.0) else NaN
  }

  function Finalize(m: Machine, a: Aggregator): Value {
    var current := Current(m, a);
    if current.Some? then current.value else EmptyValue(a)
  }

  /** Feed a whole list: the state reached, and whether any sample was accepted. */
  function Feed(m: Machine, a: Aggregator, samples: seq<Sample>): (Aggregator, bool) {
    if samples == [] then (a, false)
    else
      var n := |samples| - 1;
      var (b, accepted) := Feed(m, a, samples[..n]);
      var (c, ok) := Update(m, b, samples[n].ts, samples[n].value);
      (c, accepted || ok)
  }

  // -- what every handler keeps -------------------------------------------------------

  lemma EmptyGroupValueByType(config: AggregatorConfig)
    ensures EmptyGroupValue(Create(config))
            == if ReducesEmptyToZero(EffectiveType(config)) then Num(0.0) else NaN
    ensures IsFresh(Create(config))
  {
  }

  lemma UpdateKeepsIdentity(m: Machine, a: Aggregator, ts: int, v: Value)
    ensures Reset(Update(m, a, ts, v).0) == Reset(a)
    ensures EmptyValue(Update(m, a, ts, v).0) == EmptyValue(a)
    ensures EmptyGroupValue(Update(m, a, ts, v).0) == EmptyGroupValue(a)
  {
    hide WelfordAdd, CounterAdd, KahanSum.Add;
  }

  /** An accumulator never changes what it is, so resetting it brings back the fresh one. */
  lemma {:induction false} FeedKeepsIdentity(m: Machine, a: Aggregator, samples: seq<Sample>)
    ensures Reset(Feed(m, a, samples).0) == Reset(a)
    ensures EmptyValue(Feed(m, a, samples).0) == EmptyValue(a)
    ensures EmptyGroupValue(Feed(m, a, samples).0) == EmptyGroupValue(a)
  {
    if samples != [] {
      var n := |samples| - 1;
      FeedKeepsIdentity(m, a, samples[..n]);
      UpdateKeepsIdentity(m, Feed(m, a, samples[..n]).0, samples[n].ts, samples[n].value);
    }
  }

  lemma RefusedWhileFresh(m: Machine, a: Aggregator, ts: int, v: Value)
    requires IsFresh(a)
    ensures !Update(m, a, ts, v).1 ==> Update(m, a, ts, v).0 == a
    ensures Current(m, a).None?
  {
    hide WelfordAdd, CounterAdd, KahanSum.Add;
  }

  /**
   * An accumulator that accepted nothing is still fresh and has nothing to report. `irate`
   * refuses a sample it nevertheless remembers (a counter reset), but only after accepting one.
   */
  lemma {:induction false} NothingAcceptedNothingReported(m: Machine, a: Aggregator, samples: seq<Sample>)
    requires IsFresh(a)
    requires !Feed(m, a, samples).1
    ensures Feed(m, a, samples).0 == a
    ensures Current(m, Feed(m, a, samples).0).None?
    ensures Finalize(m, Feed(m, a, samples).0) == EmptyValue(a)
  {
    if samples != [] {
      var n := |samples| - 1;
      NothingAcceptedNothingReported(m, a, samples[..n]);
      RefusedWhileFresh(m, a, samples[n].ts, samples[n].value);
    } else {
      RefusedWhileFresh(m, a, 0, NaN);
    }
  }

  /** `rate` is told its window, the bucket length; every other handler ignores it. */
  function WithWindow(a: Aggregator, windowMs: nat): (r: Aggregator)
    ensures IsFresh(a) ==> IsFresh(r)
  {
    if a.Rating? then Rating(windowMs, a.counter) else a
  }
}
