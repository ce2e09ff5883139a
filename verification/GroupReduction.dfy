/**
 * Reducing one timestamp's values: on a single node with an aggregator
 * (`src/iterators/sample_reducer.rs`), or from merged shard states. The two agree.
 */
module GroupReduction {
  import opened Values
  import opened Moments
  import opened Kahan
  import opened Aggregators
  import opened Partials

  function SamplesAt(t: int, vs: seq<Value>): seq<Sample> {
    if vs == [] then [] else SamplesAt(t, vs[..|vs| - 1]) + [Sample(t, vs[|vs| - 1])]
  }

  function ValuesOf(samples: seq<Sample>): seq<Value> {
    if samples == [] then [] else ValuesOf(samples[..|samples| - 1]) + [samples[|samples| - 1].value]
  }

  lemma {:induction false} ValuesAt(t: int, vs: seq<Value>)
    ensures ValuesOf(SamplesAt(t, vs)) == vs
  {
    if vs != [] {
      var front := SamplesAt(t, vs[..|vs| - 1]);
      ValuesAt(t, vs[..|vs| - 1]);
      assert SamplesAt(t, vs)[..|front|] == front;
    }
  }

  /** Single node: finalize if anything was accepted, else the group's own empty value. */
  function ReduceGroup(m: Machine, config: AggregatorConfig, t: int, vs: seq<Value>): Value {
    var (a, accepted) := Feed(m, Create(config), SamplesAt(t, vs));
    if accepted then Finalize(m, a) else EmptyGroupValue(a)
  }

  function SaturatedCount(n: nat): nat { if n <= U32_MAX then n else U32_MAX }

  /** The aggregator of `config` has accumulated exactly `xs`. */
  ghost predicate Tracks(config: AggregatorConfig, a: Aggregator, xs: seq<real>, accepted: bool) {
    && Reset(a) == Create(config)
    && (accepted || xs == [])
    && (!a.Conditional? && accepted ==> xs != [])
    && (a.Averaging? ==> a.n == SaturatedCount(|xs|) && a.total.Value() == SumOf(xs))
    && (a.Tallying? ==> a.count == |xs|)
    && (a.Conditional? ==>
          && (a.hasSamples <==> xs != [])
          && a.total.Value() == if a.counts then |xs| as real else SumOf(xs))
    && (a.Summing? ==> a.total.Value() == SumOf(xs))
    && (a.Ranging? ==>
          && (a.init <==> xs != [])
          && (a.init ==> a.min == MinOf(xs) && a.max == MaxOf(xs)))
    && (a.Dispersing? ==> a.welford.count == |xs| && Describes(a.welford.mean, a.welford.m2, xs))
    && (a.Holding? ==>
          && (a.held.Some? <==> xs != [])
          && (xs != [] ==> a.held.value == match a.choice
                case Earliest => xs[0]
                case Latest => xs[|xs| - 1]
                case Least => MinOf(xs)
                case Greatest => MaxOf(xs)))
  }

  lemma CreateTracks(config: AggregatorConfig)
    ensures Tracks(config, Create(config), [], false)
  {
  }

  lemma TracksStep(m: Machine, config: AggregatorConfig, t: int, a: Aggregator, xs: seq<real>,
                   accepted: bool, v: Value)
    requires config.Valid() && ForConfig(config).Some?
    requires Tracks(config, a, xs, accepted)
    ensures var (b, ok) := Aggregators.Update(m, a, t, v);
            Tracks(config, b, if Accepts(ForConfig(config).value, v) then xs + [Number(v)] else xs,
                   accepted || ok)
  {
    hide KahanSum.Add, WelfordMean, WelfordM2, SumOf, SumSq, Square, Describes, MinOf, MaxOf;
    UpdateKeepsIdentity(m, a, t, v);
    AcceptanceAgrees(m, config, a, t, v);
    if Accepts(ForConfig(config).value, v) {
      var x := Number(v);
      assert MinOf([x]) == MaxOf([x]) == x;
      if a.Dispersing? {
        WelfordStep(a.welford.mean, a.welford.m2, xs, x);
      } else if a.Ranging? || a.Holding? {
        if xs == [] { assert xs + [x] == [x]; } else { ExtremesOfConcat(xs, [x]); }
      } else {
        SumsOfConcat(xs, [x]);
        SumsOfSmall(x);
      }
    }
  }

  /**
   * The handler and the partial reducer of a config take the same values, and the handler's flag
   * says so, except that `sumif` and `countif` also flag the numbers they pass over.
   */
  lemma AcceptanceAgrees(m: Machine, config: AggregatorConfig, a: Aggregator, t: int, v: Value)
    requires config.Valid() && ForConfig(config).Some?
    requires Reset(a) == Create(config)
    ensures Accepts(ForConfig(config).value, v)
            <==> match a
                 case Tallying(rule, _) => rule.Everything? || (rule.Nans? <==> v.NaN?)
                 case Conditional(_, _, _, f) => v.Num? && Compare(f, v)
                 case _ => v.Num?
    ensures Aggregators.Update(m, a, t, v).1 <==> if a.Conditional? then v.Num? else Accepts(ForConfig(config).value, v)
    ensures !Accepts(ForConfig(config).value, v) ==> Aggregators.Update(m, a, t, v).0 == a
    ensures a.Averaging? || a.Tallying? || a.Conditional? || a.Summing? || a.Holding?
            || a.Ranging? || a.Dispersing?
  {
  }

  lemma {:induction false} FeedTracks(m: Machine, config: AggregatorConfig, samples: seq<Sample>)
    requires config.Valid() && ForConfig(config).Some?
    ensures var (a, accepted) := Feed(m, Create(config), samples);
            Tracks(config, a, Accepted(ForConfig(config).value, ValuesOf(samples)), accepted)
  {
    hide Tracks, Aggregators.Update, Accepts, Create, ForConfig;
    if samples == [] {
      CreateTracks(config);
    } else {
      var front, s := samples[..|samples| - 1], samples[|samples| - 1];
      var vs := ValuesOf(front);
      assert (vs + [s.value])[..|vs|] == vs;
      FeedTracks(m, config, front);
      var (a, accepted) := Feed(m, Create(config), front);
      var xs := Accepted(ForConfig(config).value, vs);
      assert xs + [] == xs;
      TracksStep(m, config, s.ts, a, xs, accepted, s.value);
    }
  }

  lemma TrackedValue(m: Machine, config: AggregatorConfig, a: Aggregator, xs: seq<real>, accepted: bool)
    requires config.Valid() && ForConfig(config).Some?
    requires Tracks(config, a, xs, accepted)
    requires config.aggregation.Avg? ==> |xs| <= U32_MAX
    ensures (if accepted then Finalize(m, a) else EmptyGroupValue(a))
            == Reduce(m, ForConfig(config).value.kind, xs)
  {
    hide SumOf, SumSq, Square, SqDev, Describes, MinOf, MaxOf, Dispersion, Variance, SampleVariance;
    if a.Dispersing? {
      DispersionValue(m, a.root, a.sample, a.welford, xs);
    }
  }

  lemma DispersionValue(m: Machine, root: bool, sample: bool, w: Welford, xs: seq<real>)
    requires w.count == |xs| && Describes(w.mean, w.m2, xs)
    ensures xs != [] ==>
              Num(Dispersion(m, root, sample, w.m2, w.count))
              == Reduce(m, if sample then (if root then Kind.StdS else Kind.VarS)
                           else (if root then Kind.StdP else Kind.VarP), xs)
  {
    hide SumOf, SumSq, Square, SqDev, Describes, MinOf, MaxOf;
    DescribesMeaning(w.mean, w.m2, xs);
    if |xs| == 1 { SingleHasNoSpread(xs); }
  }

  lemma SingleHasNoSpread(xs: seq<real>)
    requires |xs| == 1
    ensures SqDev(xs, Mean(xs)) == 0.0
  {
    var x := xs[0];
    assert xs == [x];
    SumBySmall(Itself, x);
    SumBySmall(Deviation(x), x);
    assert Mean(xs) == x;
    assert Deviation(x)(x) == Square(0.0) == 0.0;
  }

  /** The single-node reducer computes the declarative reduction of the values it accepts. */
  lemma HandlerMeaning(m: Machine, config: AggregatorConfig, t: int, vs: seq<Value>)
    requires config.Valid() && ForConfig(config).Some?
    requires config.aggregation.Avg? ==> |Accepted(ForConfig(config).value, vs)| <= U32_MAX
    ensures var r := ForConfig(config).value;
            ReduceGroup(m, config, t, vs) == Reduce(m, r.kind, Accepted(r, vs))
  {
    hide Tracks, Create, ForConfig, Finalize, EmptyGroupValue, Reduce;
    FeedTracks(m, config, SamplesAt(t, vs));
    ValuesAt(t, vs);
    var (a, accepted) := Feed(m, Create(config), SamplesAt(t, vs));
    TrackedValue(m, config, a, Accepted(ForConfig(config).value, vs), accepted);
  }

  /**
   * `avg` counts in a saturating u32. Past 2^32 - 1 accepted values the single node divides by
   * too small a number, so it is right exactly when the count fits or the sum is zero.
   */
  lemma AvgMeaningIff(m: Machine, config: AggregatorConfig, t: int, vs: seq<Value>)
    requires config.Valid() && config.aggregation.Avg?
    ensures var r := ForConfig(config).value; var xs := Accepted(r, vs);
            ReduceGroup(m, config, t, vs) == Reduce(m, r.kind, xs)
            <==> |xs| <= U32_MAX || SumOf(xs) == 0.0
  {
    hide SumOf, Feed, Accepted;
    FeedTracks(m, config, SamplesAt(t, vs));
    ValuesAt(t, vs);
    var xs := Accepted(ForConfig(config).value, vs);
    if |xs| > U32_MAX {
      QuotientsDiffer(SumOf(xs), U32_MAX as real, |xs| as real);
    } else {
      HandlerMeaning(m, config, t, vs);
    }
  }

  function Ones(n: nat): seq<Value> { seq(n, i => Num(1.0)) }

  lemma {:induction false} OnesAccepted(r: PartialReducer, n: nat)
    requires Accepts(r, Num(1.0))
    ensures |Accepted(r, Ones(n))| == n && SumOf(Accepted(r, Ones(n))) == n as real
  {
    hide Accepts;
    if n > 0 {
      OnesAccepted(r, n - 1);
      assert Ones(n)[..n - 1] == Ones(n - 1);
      var front := Accepted(r, Ones(n - 1));
      assert (front + [1.0])[..|front|] == front;
    }
  }

  /** One value too many: the average of 2^32 ones is not one. */
  lemma AvgMeaningFails(m: Machine, config: AggregatorConfig, t: int)
    requires config.Valid() && config.aggregation.Avg?
    ensures var r := ForConfig(config).value; var vs := Ones(U32_MAX + 1);
            ReduceGroup(m, config, t, vs) != Reduce(m, r.kind, Accepted(r, vs))
  {
    hide ReduceGroup, Reduce, Accepted, SumOf, Ones;
    AvgMeaningIff(m, config, t, Ones(U32_MAX + 1));
    OnesAccepted(ForConfig(config).value, U32_MAX + 1);
  }

  lemma QuotientsDiffer(s: real, a: real, b: real)
    requires 0.0 < a < b
    ensures s / a == s / b <==> s == 0.0
  {
    var q := s / a;
    assert q * a == s;
    if q == s / b { assert q * b == s; assert q * (b - a) == 0.0; }
  }

  /**
   * Push-down is exact: however the values of a timestamp are split over shards, merging the
   * shards' states in order and finalizing gives the single-node result over all of them.
   */
  lemma PushDownExact(m: Machine, config: AggregatorConfig, t: int, shards: seq<seq<Value>>,
                      states: seq<PartialState>)
    requires config.Valid() && ForConfig(config).Some?
    requires |states| == |shards|
    requires forall i :: 0 <= i < |shards| ==>
               states[i] == Accumulate(m, ForConfig(config).value, t, shards[i])
    requires config.aggregation.Avg?
             ==> |Accepted(ForConfig(config).value, Flatten(shards))| <= U32_MAX
    ensures FinalizeState(m, ForConfig(config).value.kind, MergeAll(m, ForConfig(config).value.kind, states))
            == ReduceGroup(m, config, t, Flatten(shards))
  {
    hide Represents, Accumulate, Accepted, ForConfig, Reduce, FinalizeState, MergeAll, ReduceGroup;
    var r := ForConfig(config).value;
    var parts := seq(|shards|, i requires 0 <= i < |shards| => Accepted(r, shards[i]));
    forall i | 0 <= i < |states|
      ensures Represents(r.kind, t, states[i], parts[i])
    {
      AccumulateRepresents(m, r, t, shards[i]);
    }
    MergeAllRepresents(m, r.kind, t, states, parts);
    AcceptedOfFlatten(r, shards, parts);
    FinalizeRepresents(m, r.kind, t, MergeAll(m, r.kind, states), Flatten(parts));
    HandlerMeaning(m, config, t, Flatten(shards));
  }

  lemma {:induction false} AcceptedOfFlatten(r: PartialReducer, shards: seq<seq<Value>>, parts: seq<seq<real>>)
    requires |parts| == |shards|
    requires forall i :: 0 <= i < |shards| ==> parts[i] == Accepted(r, shards[i])
    ensures Accepted(r, Flatten(shards)) == Flatten(parts)
  {
    if shards != [] {
      var n := |shards| - 1;
      AcceptedOfFlatten(r, shards[..n], parts[..n]);
      AcceptedOfConcat(r, Flatten(shards[..n]), shards[n]);
    }
  }
}
