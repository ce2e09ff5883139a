/** What each aggregator reports for a bucket, said without its accumulator. */
module BucketMeaning {
  import opened Values
  import opened Moments
  import opened Kahan
  import opened Aggregators
  import opened Partials
  import opened GroupReduction
  import opened Timeline

  /** The reducers with a partial form: the same reduction, over the bucket's accepted values. */
  lemma DecomposableMeaning(m: Machine, config: AggregatorConfig, samples: seq<Sample>)
    requires config.Valid() && ForConfig(config).Some?
    requires config.aggregation.Avg? ==> |samples| <= U32_MAX
    ensures var (a, accepted) := Feed(m, Create(config), samples);
            var r := ForConfig(config).value;
            accepted ==> Finalize(m, a) == Reduce(m, r.kind, Accepted(r, ValuesOf(samples)))
  {
    hide Tracks, Create, ForConfig, Finalize, Reduce;
    FeedTracks(m, config, samples);
    ValuesCount(samples);
    var (a, accepted) := Feed(m, Create(config), samples);
    if accepted { TrackedValue(m, config, a, Accepted(ForConfig(config).value, ValuesOf(samples)), accepted); }
  }

  lemma {:induction false} ValuesCount(samples: seq<Sample>)
    ensures |ValuesOf(samples)| == |samples|
  {
    if samples != [] { ValuesCount(samples[..|samples| - 1]); }
  }

  // -- conditions ----------------------------------------------------------------------------------

  ghost predicate Holds(rule: MatchRule, f: Filter, samples: seq<Sample>) {
    match rule
    case Every => forall i :: 0 <= i < |samples| ==> Compare(f, samples[i].value)
    case AtLeastOne => exists i :: 0 <= i < |samples| && Compare(f, samples[i].value)
    case NotOne => forall i :: 0 <= i < |samples| ==> !Compare(f, samples[i].value)
  }

  /** `all`, `any` and `none` say whether their condition holds of the bucket. */
  lemma {:induction false} ConditionMeaning(m: Machine, rule: MatchRule, f: Filter, samples: seq<Sample>)
    ensures Feed(m, Matching(rule, None, f), samples)
            == (Matching(rule, if samples == [] then None else Some(Holds(rule, f, samples)), f), samples != [])
  {
    if samples != [] {
      var n := |samples| - 1;
      var front := samples[..n];
      ConditionMeaning(m, rule, f, front);
      HoldsStep(rule, f, samples);
    }
  }

  lemma HoldsStep(rule: MatchRule, f: Filter, samples: seq<Sample>)
    requires samples != []
    ensures var n := |samples| - 1; var last := Compare(f, samples[n].value);
            Holds(rule, f, samples) <==>
              (match rule
               case Every => Holds(rule, f, samples[..n]) && last
               case AtLeastOne => Holds(rule, f, samples[..n]) || last
               case NotOne => Holds(rule, f, samples[..n]) && !last)
  {
    hide Compare;
    var n := |samples| - 1;
    var front := samples[..n];
    assert forall i :: 0 <= i < n ==> front[i] == samples[i];
    if rule.AtLeastOne? && Holds(rule, f, front) {
      var i :| 0 <= i < n && Compare(f, front[i].value);
      assert Compare(f, samples[i].value);
    }
  }

  function Matches(f: Filter): Sample -> bool { (s: Sample) => Compare(f, s.value) }

  lemma {:induction false} WhereSnoc<T>(keep: T -> bool, xs: seq<T>, x: T)
    ensures Where(keep, xs + [x]) == Where(keep, xs) + (if keep(x) then [x] else [])
  {
    if xs == [] {
      assert xs + [x] == [x];
      assert [x][1..] == [];
    } else {
      WhereSnoc(keep, xs[1..], x);
      assert (xs + [x])[1..] == xs[1..] + [x];
    }
  }

  /** `share`: the matching samples among all of them. */
  lemma {:induction false} ShareMeaning(m: Machine, f: Filter, samples: seq<Sample>)
    ensures Feed(m, Sharing(0, 0, f), samples)
            == (Sharing(|samples|, |Where(Matches(f), samples)|, f), samples != [])
  {
    hide Compare;
    if samples != [] {
      var n := |samples| - 1;
      ShareMeaning(m, f, samples[..n]);
      WhereSnoc(Matches(f), samples[..n], samples[n]);
      assert samples[..n] + [samples[n]] == samples;
    }
  }

  // -- counters -----------------------------------------------------------------------------------

  function IsNumber(): Sample -> bool { (s: Sample) => s.value.Num? }

  /** The samples that are not NaN. */
  function Numbers(samples: seq<Sample>): seq<Sample> { Where(IsNumber(), samples) }

  /** The sum of the upward steps; a drop, a counter reset, adds nothing. */
  function IncreaseOf(xs: seq<Sample>): real {
    if |xs| < 2 then 0.0
    else
      var n := |xs| - 1;
      IncreaseOf(xs[..n]) + Moments.Max(Number(xs[n].value) - Number(xs[n - 1].value), 0.0)
  }

  /** A counter that never drops increased by what lies between its ends. */
  lemma {:induction false} IncreaseTelescopes(xs: seq<Sample>)
    requires xs != [] && forall i, j :: 0 <= i < j < |xs| ==> Number(xs[i].value) <= Number(xs[j].value)
    ensures IncreaseOf(xs) == Number(xs[|xs| - 1].value) - Number(xs[0].value)
  {
    if |xs| > 1 { IncreaseTelescopes(xs[..|xs| - 1]); }
  }

  /** The counter of a list: what it increased by, and where it stands. */
  function CounterOf(samples: seq<Sample>): Counter {
    var ns := Numbers(samples);
    Counter(IncreaseOf(ns), if ns == [] then None else Some(Number(ns[|ns| - 1].value)))
  }

  lemma CounterStep(samples: seq<Sample>)
    requires samples != []
    ensures var n := |samples| - 1;
            CounterOf(samples) == if samples[n].value.Num? then CounterAdd(CounterOf(samples[..n]), samples[n].value.r)
                                  else CounterOf(samples[..n])
  {
    hide Numbers;
    var n := |samples| - 1;
    var ns, last := Numbers(samples[..n]), samples[n];
    NumbersStep(samples);
    var longer := ns + [last];
    assert longer[..|ns|] == ns && longer[|ns|] == last;
    if ns != [] { assert longer[|ns| - 1] == ns[|ns| - 1]; }
  }

  /** `increase` and `rate` see the numbers only, and sum their upward steps. */
  lemma {:induction false} CounterMeaning(m: Machine, samples: seq<Sample>, windowMs: nat)
    ensures Feed(m, Increasing(NO_COUNTER), samples)
            == (Increasing(CounterOf(samples)), exists i :: 0 <= i < |samples| && samples[i].value.Num?)
    ensures Feed(m, Rating(windowMs, NO_COUNTER), samples)
            == (Rating(windowMs, CounterOf(samples)), exists i :: 0 <= i < |samples| && samples[i].value.Num?)
  {
    hide CounterOf, CounterAdd, KahanSum.Add;
    if samples == [] {
      NoCounter();
    } else {
      var n := |samples| - 1;
      CounterMeaning(m, samples[..n], windowMs);
      CounterStep(samples);
      assert forall i :: 0 <= i < n ==> samples[..n][i] == samples[i];
    }
  }

  lemma NoCounter()
    ensures CounterOf([]) == NO_COUNTER
  {
  }

  lemma NumbersStep(samples: seq<Sample>)
    requires samples != []
    ensures var n := |samples| - 1;
            Numbers(samples) == if samples[n].value.Num? then Numbers(samples[..n]) + [samples[n]] else Numbers(samples[..n])
  {
    var n := |samples| - 1;
    WhereSnoc(IsNumber(), samples[..n], samples[n]);
    assert samples[..n] + [samples[n]] == samples;
  }

  /** Where `irate` stands after some numbers at ascending timestamps: the last step, unless it was a drop. */
  function LastStep(xs: seq<Sample>): Aggregator {
    var n := |xs| - 1;
    if xs == [] then InstantRating(0, 0.0, None)
    else
      var last, x := Some((xs[n].ts, Number(xs[n].value))), Number(xs[n].value);
      if n == 0 || x < Number(xs[n - 1].value) then InstantRating(0, 0.0, last)
      else InstantRating(xs[n].ts - xs[n - 1].ts, x - Number(xs[n - 1].value), last)
  }

  lemma LastStepMoves(ns: seq<Sample>, s: Sample)
    requires s.value.Num? && (ns != [] ==> ns[|ns| - 1].ts < s.ts)
    ensures LastStep(ns + [s]) == UpdateIRate(LastStep(ns), s.ts, s.value.r).0
    ensures UpdateIRate(LastStep(ns), s.ts, s.value.r).1 <==> ns == [] || Number(ns[|ns| - 1].value) <= s.value.r
  {
    var longer := ns + [s];
    if ns != [] { assert longer[|ns| - 1] == ns[|ns| - 1]; }
  }

  lemma BeforeLast(samples: seq<Sample>)
    requires samples != [] && forall i, j :: 0 <= i < j < |samples| ==> samples[i].ts < samples[j].ts
    ensures var n := |samples| - 1; var ns := Numbers(samples[..n]);
            ns != [] ==> ns[|ns| - 1].ts < samples[n].ts
  {
    var n := |samples| - 1;
    var front := samples[..n];
    var ns := Numbers(front);
    WhereMembers(IsNumber(), front);
    if ns != [] {
      assert ns[|ns| - 1] in ns;
      var i :| 0 <= i < n && front[i] == ns[|ns| - 1];
      assert samples[i].ts < samples[n].ts;
    }
  }

  /** The slope per second between the last two numbers; none after a drop, and none of a single number. */
  function InstantRate(xs: seq<Sample>): Option<Value> {
    var n := |xs| - 1;
    if n < 1 then None
    else
      var dv, dt := Number(xs[n].value) - Number(xs[n - 1].value), xs[n].ts - xs[n - 1].ts;
      if dv < 0.0 || dt == 0 then None else Some(Num(dv / (dt as real / 1000.0)))
  }

  lemma LastStepReports(m: Machine, xs: seq<Sample>)
    ensures Current(m, LastStep(xs)) == InstantRate(xs)
  {
  }

  /** `irate`: what it reports, and that any number at all counts as accepted. */
  lemma {:induction false} InstantRateMeaning(m: Machine, samples: seq<Sample>)
    requires forall i, j :: 0 <= i < j < |samples| ==> samples[i].ts < samples[j].ts
    ensures Feed(m, InstantRating(0, 0.0, None), samples) == (LastStep(Numbers(samples)), Numbers(samples) != [])
    ensures Current(m, Feed(m, InstantRating(0, 0.0, None), samples).0) == InstantRate(Numbers(samples))
  {
    hide Numbers, LastStep, UpdateIRate, KahanSum.Add, InstantRate, Current;
    if samples == [] {
      NoStep();
    } else {
      var n := |samples| - 1;
      InstantRateMeaning(m, samples[..n]);
      NumbersStep(samples);
      BeforeLast(samples);
      if samples[n].value.Num? { LastStepMoves(Numbers(samples[..n]), samples[n]); }
      StillInstant(Numbers(samples[..n]));
    }
    LastStepReports(m, Numbers(samples));
  }

  lemma StillInstant(ns: seq<Sample>)
    ensures LastStep(ns).InstantRating?
    ensures ns == [] ==> forall ts, x :: UpdateIRate(LastStep(ns), ts, x).1
  {
  }

  lemma NoStep()
    ensures LastStep(Numbers([])) == InstantRating(0, 0.0, None) && Numbers([]) == []
  {
  }

  // -- the report of every type, from its config -------------------------------------------------------

  /** A sample passes a config's condition; without one, every number does. */
  predicate Passes(config: AggregatorConfig, v: Value) {
    if config.filter.Some? then Meets(config.filter.value, v) else v.Num?
  }

  /** What a type that works value by value counts in. */
  predicate Takes(config: AggregatorConfig, v: Value) {
    match config.aggregation
    case CountAll => true
    case CountNan => v.NaN?
    case _ => v.Num? && Passes(config, v)
  }

  function TakenNumbers(config: AggregatorConfig, samples: seq<Sample>): seq<real> {
    if samples == [] then []
    else
      var v := samples[|samples| - 1].value;
      TakenNumbers(config, samples[..|samples| - 1]) + (if Takes(config, v) then [Number(v)] else [])
  }

  /** What counts as a sample accepted: a condition that fails is still an answer. */
  predicate Considers(config: AggregatorConfig, v: Value) {
    match config.aggregation
    case CountAll | All | Any | NoneOf | Share => true
    case CountNan => v.NaN?
    case _ => v.Num?
  }

  function TruthValue(b: bool): Value { Num(if b then 1.0 else 0.0) }

  function PassesOf(config: AggregatorConfig): Sample -> bool { (s: Sample) => Passes(config, s.value) }

  /** What a bucket of samples is reported as, type by type. */
  ghost function BucketReport(m: Machine, config: AggregatorConfig, windowMs: nat, samples: seq<Sample>): Value {
    var xs, ns := TakenNumbers(config, samples), Numbers(samples);
    match config.aggregation
    case Count | CountAll | CountNan | CountIf => Num(|xs| as real)
    case Sum | SumIf => Num(SumOf(xs))
    case Min => if xs == [] then NaN else Num(MinOf(xs))
    case Max => if xs == [] then NaN else Num(MaxOf(xs))
    case Range => if xs == [] then NaN else Num(MaxOf(xs) - MinOf(xs))
    case First => if xs == [] then NaN else Num(xs[0])
    case Last => if xs == [] then NaN else Num(xs[|xs| - 1])
    case Avg => if xs == [] then NaN else Num(SumOf(xs) / SaturatedCount(|xs|) as real)
    case VarP => if xs == [] then NaN else Num(Variance(xs))
    case VarS => if xs == [] then NaN else Num(SampleVariance(xs))
    case StdP => if xs == [] then NaN else Num(m.sqrt(Variance(xs)))
    case StdS => if xs == [] then NaN else Num(if |xs| == 1 then 0.0 else m.sqrt(SampleVariance(xs)))
    case All => if samples == [] then NaN else TruthValue(forall s :: s in samples ==> Passes(config, s.value))
    case Any => if samples == [] then NaN else TruthValue(exists s :: s in samples && Passes(config, s.value))
    case NoneOf => if samples == [] then NaN else TruthValue(forall s :: s in samples ==> !Passes(config, s.value))
    case Share =>
      if samples == [] then NaN else Num(|Where(PassesOf(config), samples)| as real / |samples| as real)
    case Increase => if ns == [] then NaN else Num(IncreaseOf(ns))
    case Rate => if ns == [] || windowMs == 0 then NaN else Num(IncreaseOf(ns) / (windowMs as real / 1000.0))
    case IRate => if InstantRate(ns).None? then NaN else InstantRate(ns).value
  }

  lemma TakesIsAccepts(config: AggregatorConfig, v: Value)
    requires config.Valid() && ForConfig(config).Some?
    ensures Takes(config, v) <==> Accepts(ForConfig(config).value, v)
  {
    if config.filter.Some? { CompareMeaning(config.filter.value, v); }
  }

  lemma {:induction false} TakenIsAccepted(config: AggregatorConfig, samples: seq<Sample>)
    requires config.Valid() && ForConfig(config).Some?
    ensures TakenNumbers(config, samples) == Accepted(ForConfig(config).value, ValuesOf(samples))
  {
    hide Takes, Accepts, ForConfig;
    if samples != [] {
      var n := |samples| - 1;
      TakenIsAccepted(config, samples[..n]);
      TakesIsAccepts(config, samples[n].value);
      var vs := ValuesOf(samples[..n]);
      assert (vs + [samples[n].value])[..|vs|] == vs;
    }
  }

  /** The value-by-value types. */
  lemma DecomposedReport(m: Machine, config: AggregatorConfig, windowMs: nat, samples: seq<Sample>)
    requires config.Valid() && ForConfig(config).Some?
    ensures Finalize(m, Feed(m, Create(config), samples).0) == BucketReport(m, config, windowMs, samples)
  {
    hide Tracks, Feed, Accepted, TakenNumbers, ForConfig, Create, Finalize, BucketReport;
    FeedTracks(m, config, samples);
    TakenIsAccepted(config, samples);
    var (a, accepted) := Feed(m, Create(config), samples);
    if accepted {
      TrackedReport(m, config, windowMs, a, samples);
    } else {
      EmptyGroupValueByType(config);
      NothingAcceptedNothingReported(m, Create(config), samples);
      EmptyReport(m, config, windowMs, samples, a);
    }
  }

  lemma EmptyReport(m: Machine, config: AggregatorConfig, windowMs: nat, samples: seq<Sample>, a: Aggregator)
    requires config.Valid() && ForConfig(config).Some? && Tracks(config, a, TakenNumbers(config, samples), false)
    ensures EmptyValue(Create(config)) == BucketReport(m, config, windowMs, samples)
  {
    hide Describes, MinOf, MaxOf, Numbers;
  }

  lemma TrackedReport(m: Machine, config: AggregatorConfig, windowMs: nat, a: Aggregator, samples: seq<Sample>)
    requires config.Valid() && ForConfig(config).Some? && Tracks(config, a, TakenNumbers(config, samples), true)
    ensures Finalize(m, a) == BucketReport(m, config, windowMs, samples)
  {
    hide SumOf, SumSq, Square, SqDev, Describes, MinOf, MaxOf, Dispersion, Variance, SampleVariance, TakenNumbers, Numbers;
    var xs := TakenNumbers(config, samples);
    NoSum();
    if a.Dispersing? { DispersionValue(m, a.root, a.sample, a.welford, xs); }
  }

  lemma NoSum()
    ensures SumOf([]) == 0.0
  {
  }

  ghost predicate StrictlyLater(samples: seq<Sample>) {
    forall i, j :: 0 <= i < j < |samples| ==> samples[i].ts < samples[j].ts
  }

  /** The condition a config's aggregator is created with. */
  function FilterOf(config: AggregatorConfig): Filter { if config.filter.Some? then config.filter.value else ANYTHING }

  lemma PassesIsCompare(config: AggregatorConfig, v: Value)
    ensures Passes(config, v) <==> Compare(FilterOf(config), v)
  {
    CompareMeaning(FilterOf(config), v);
  }

  lemma HoldsReport(m: Machine, config: AggregatorConfig, windowMs: nat, samples: seq<Sample>)
    requires config.aggregation.All? || config.aggregation.Any? || config.aggregation.NoneOf?
    ensures Finalize(m, Feed(m, Create(config), samples).0) == BucketReport(m, config, windowMs, samples)
  {
    hide Feed, Compare, Passes, Numbers, TakenNumbers;
    var f := FilterOf(config);
    forall i | 0 <= i < |samples|
      ensures Passes(config, samples[i].value) <==> Compare(f, samples[i].value)
    {
      PassesIsCompare(config, samples[i].value);
    }
    var rule := if config.aggregation.All? then Every else if config.aggregation.Any? then AtLeastOne else NotOne;
    ConditionMeaning(m, rule, f, samples);
    assert Create(config) == Matching(rule, None, f);
    if samples != [] { assert samples[0] in samples; }
  }

  lemma {:induction false} SameMatches(config: AggregatorConfig, samples: seq<Sample>)
    ensures Where(PassesOf(config), samples) == Where(Matches(FilterOf(config)), samples)
  {
    hide Compare, Passes;
    if samples != [] {
      SameMatches(config, samples[1..]);
      PassesIsCompare(config, samples[0].value);
    }
  }

  lemma ShareReport(m: Machine, config: AggregatorConfig, windowMs: nat, samples: seq<Sample>)
    requires config.aggregation.Share?
    ensures Finalize(m, Feed(m, Create(config), samples).0) == BucketReport(m, config, windowMs, samples)
  {
    hide Feed, Compare, Passes, Numbers, TakenNumbers, Where;
    ShareMeaning(m, FilterOf(config), samples);
    SameMatches(config, samples);
  }

  lemma CounterReport(m: Machine, config: AggregatorConfig, windowMs: nat, samples: seq<Sample>)
    requires config.aggregation.Increase? || config.aggregation.Rate?
    ensures Finalize(m, Feed(m, WithWindow(Create(config), windowMs), samples).0)
            == BucketReport(m, config, windowMs, samples)
  {
    hide Feed, Numbers, TakenNumbers, IncreaseOf;
    CounterMeaning(m, samples, windowMs);
  }

  lemma InstantReport(m: Machine, config: AggregatorConfig, windowMs: nat, samples: seq<Sample>)
    requires config.aggregation.IRate? && StrictlyLater(samples)
    ensures Finalize(m, Feed(m, Create(config), samples).0) == BucketReport(m, config, windowMs, samples)
  {
    hide Feed, Numbers, TakenNumbers, InstantRate, Current;
    InstantRateMeaning(m, samples);
    FeedKeepsIdentity(m, Create(config), samples);
  }

  /** A fresh accumulator accepts exactly the values its type considers. */
  lemma FreshAccepts(m: Machine, config: AggregatorConfig, windowMs: nat, ts: int, v: Value)
    requires config.Valid()
    ensures Aggregators.Update(m, WithWindow(Create(config), windowMs), ts, v).1 <==> Considers(config, v)
    ensures IsFresh(WithWindow(Create(config), windowMs))
  {
    hide KahanSum.Add, WelfordAdd, CounterAdd, Compare;
  }

  lemma {:induction false} AcceptsOnce(m: Machine, config: AggregatorConfig, windowMs: nat, samples: seq<Sample>)
    requires config.Valid()
    ensures Feed(m, WithWindow(Create(config), windowMs), samples).1
            <==> exists i :: 0 <= i < |samples| && Considers(config, samples[i].value)
  {
    hide Considers, Create, WithWindow, Aggregators.Update, IsFresh;
    var a := WithWindow(Create(config), windowMs);
    if samples != [] {
      var n := |samples| - 1;
      AcceptsOnce(m, config, windowMs, samples[..n]);
      FreshAccepts(m, config, windowMs, samples[n].ts, samples[n].value);
      if !Feed(m, a, samples[..n]).1 { NothingAcceptedNothingReported(m, a, samples[..n]); }
      assert forall i :: 0 <= i < n ==> samples[..n][i] == samples[i];
    }
  }

  /**
   * What a column of the given config reports for a bucket, and when it has accepted a sample: all
   * twenty-three types, over any samples (`irate` over samples in time order).
   */
  lemma ReportMeaning(m: Machine, config: AggregatorConfig, windowMs: nat, samples: seq<Sample>)
    requires config.Valid() && (config.aggregation.IRate? ==> StrictlyLater(samples))
    ensures var (a, accepted) := Feed(m, WithWindow(Create(config), windowMs), samples);
            && Finalize(m, a) == BucketReport(m, config, windowMs, samples)
            && (accepted <==> exists i :: 0 <= i < |samples| && Considers(config, samples[i].value))
  {
    hide Feed, Finalize, BucketReport, Considers;
    AcceptsOnce(m, config, windowMs, samples);
    if config.aggregation.Increase? || config.aggregation.Rate? {
      CounterReport(m, config, windowMs, samples);
    } else {
      assert WithWindow(Create(config), windowMs) == Create(config);
      if ForConfig(config).Some? {
        DecomposedReport(m, config, windowMs, samples);
      } else if config.aggregation.Share? {
        ShareReport(m, config, windowMs, samples);
      } else if config.aggregation.IRate? {
        InstantReport(m, config, windowMs, samples);
      } else {
        HoldsReport(m, config, windowMs, samples);
      }
    }
  }

  // -- the values of one timestamp ------------------------------------------------------------------------

  /** At a single timestamp there is no slope. */
  lemma {:induction false} StandsStill(m: Machine, t: int, vs: seq<Value>)
    ensures var a := Feed(m, InstantRating(0, 0.0, None), SamplesAt(t, vs)).0;
            a.InstantRating? && a.dt == 0 && (a.lastSample.Some? ==> a.lastSample.value.0 == t)
  {
    if vs != [] {
      var front := SamplesAt(t, vs[..|vs| - 1]);
      StandsStill(m, t, vs[..|vs| - 1]);
      assert SamplesAt(t, vs)[..|front|] == front;
    }
  }

  /** What a reducer makes of the values of one timestamp, all twenty-three types; `rate` has no window there. */
  ghost function GroupReport(m: Machine, config: AggregatorConfig, t: int, vs: seq<Value>): Value {
    if forall i :: 0 <= i < |vs| ==> !Considers(config, vs[i]) then
      (if config.aggregation.Sum? && config.filter.None? then NaN else BucketReport(m, config, 0, []))
    else if config.aggregation.IRate? then NaN
    else BucketReport(m, config, 0, SamplesAt(t, vs))
  }

  lemma {:induction false} SamplesAtIndex(t: int, vs: seq<Value>)
    ensures |SamplesAt(t, vs)| == |vs|
    ensures forall i :: 0 <= i < |vs| ==> SamplesAt(t, vs)[i] == Sample(t, vs[i])
  {
    if vs != [] { SamplesAtIndex(t, vs[..|vs| - 1]); }
  }

  lemma GroupMeaning(m: Machine, config: AggregatorConfig, t: int, vs: seq<Value>)
    requires config.Valid()
    ensures ReduceGroup(m, config, t, vs) == GroupReport(m, config, t, vs)
  {
    hide Feed, BucketReport, Considers, SamplesAt, Create, EmptyGroupValue;
    var samples := SamplesAt(t, vs);
    SamplesAtIndex(t, vs);
    NoWindow(config);
    AcceptsOnce(m, config, 0, samples);
    var (a, accepted) := Feed(m, Create(config), samples);
    if !accepted {
      FeedKeepsIdentity(m, Create(config), samples);
      NothingReduced(m, config);
    } else if config.aggregation.IRate? {
      StandsStill(m, t, vs);
    } else {
      ReportMeaning(m, config, 0, samples);
    }
    assert accepted <==> exists i :: 0 <= i < |vs| && Considers(config, vs[i]);
  }

  lemma NoWindow(config: AggregatorConfig)
    ensures WithWindow(Create(config), 0) == Create(config)
    ensures config.aggregation.IRate? ==> Create(config) == InstantRating(0, 0.0, None)
  {
  }

  lemma NothingReduced(m: Machine, config: AggregatorConfig)
    requires config.Valid()
    ensures EmptyGroupValue(Create(config))
            == if config.aggregation.Sum? && config.filter.None? then NaN else BucketReport(m, config, 0, [])
  {
    NoSum();
  }
}
