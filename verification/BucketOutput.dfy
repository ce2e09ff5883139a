/** What the bucketing iterator's output is, said without the iterator. */
module BucketOutput {
  import opened Values
  import opened Aggregators
  import opened BucketGrid
  import opened Timeline
  import opened AggregateIterator

  function Start(slot: Slot): int { slot.start }

  /** The options' grid as an alignment predicate. */
  predicate OnGrid(o: AggregationOptions, b: int)
    requires o.Valid()
  {
    Aligned(b, o.alignTimestamp, o.bucketDuration)
  }

  lemma BucketsSorted(o: AggregationOptions, samples: seq<Sample>)
    requires o.Valid() && Readable(samples)
    ensures Sorted(o.Bucket(), samples)
  {
    forall i, j | 0 <= i < j < |samples|
      ensures o.Bucket()(samples[i]) <= o.Bucket()(samples[j])
    {
      assert TsOf(samples[i]) <= TsOf(samples[j]);
      StartMonotone(samples[i].ts, samples[j].ts, o.alignTimestamp, o.bucketDuration);
    }
  }

  /** Every run is a bucket on the grid, within reach of a valid timestamp. */
  lemma RunsOnGrid(o: AggregationOptions, samples: seq<Sample>)
    requires o.Valid() && Readable(samples)
    ensures Ascending(RunKey, Runs(o.Bucket(), samples))
    ensures forall i :: 0 <= i < |Runs(o.Bucket(), samples)| ==>
              var b := Runs(o.Bucket(), samples)[i].0;
              OnGrid(o, b) && -o.bucketDuration < b < I64_MAX
  {
    var key := o.Bucket();
    BucketsSorted(o, samples);
    RunsAscend(key, samples);
    forall i | 0 <= i < |Runs(key, samples)|
      ensures var b := Runs(key, samples)[i].0;
              OnGrid(o, b) && -o.bucketDuration < b < I64_MAX
    {
      var b := Runs(key, samples)[i].0;
      assert RunKey(Runs(key, samples)[i]) == b;
      RunKeysOccur(key, samples, b);
      var j :| 0 <= j < |samples| && key(samples[j]) == b;
      assert o.StartOf(samples[j].ts) == b;
    }
  }

  // -- without EMPTY ----------------------------------------------------------------------

  ghost function IsKept(m: Machine, o: AggregationOptions): ((int, seq<Sample>)) -> bool
    requires o.Valid()
  {
    (run: (int, seq<Sample>)) => AnyAccepted(m, o, run.1)
  }

  /** The buckets some aggregator accepted a sample of. */
  ghost function KeptRuns(m: Machine, o: AggregationOptions, samples: seq<Sample>): seq<(int, seq<Sample>)>
    requires o.Valid()
  {
    Where(IsKept(m, o), Runs(o.Bucket(), samples))
  }

  ghost function RunRow(m: Machine, o: AggregationOptions, run: (int, seq<Sample>)): Row
    requires o.Valid()
  {
    Row(o.RenderAt(run.0), Aggregates(m, o, run.1))
  }

  lemma {:induction false} RowsOfRuns(m: Machine, o: AggregationOptions, fill: EmptyFillBounds,
                                      runs: seq<(int, seq<Sample>)>)
    requires o.Valid() && !o.reportEmpty
    ensures var kept := Where(IsKept(m, o), runs);
            && |Rows(m, o, SlotsFrom(o, fill, runs))| == |kept|
            && forall i :: 0 <= i < |kept| ==> Rows(m, o, SlotsFrom(o, fill, runs))[i] == RunRow(m, o, kept[i])
  {
    hide AnyAccepted, Aggregates;
    if runs != [] {
      RowsOfRuns(m, o, fill, runs[1..]);
      var slots := SlotsFrom(o, fill, runs);
      assert slots == [Filled(runs[0].0, runs[0].1)] + SlotsFrom(o, fill, runs[1..]);
      assert slots[1..] == SlotsFrom(o, fill, runs[1..]);
    }
  }

  /** A run is kept exactly when it is a whole grid bucket some aggregator accepted a sample of. */
  lemma KeptMembers(m: Machine, o: AggregationOptions, samples: seq<Sample>, b: int, group: seq<Sample>)
    requires o.Valid() && Readable(samples)
    ensures (b, group) in KeptRuns(m, o, samples) <==>
              && HasKey(o.Bucket(), b, samples)
              && group == With(o.Bucket(), b, samples)
              && AnyAccepted(m, o, group)
  {
    hide AnyAccepted, With, HasKey, Readable, Runs, Where, AggregationOptions.Bucket;
    var key := o.Bucket();
    BucketsSorted(o, samples);
    WhereMembers(IsKept(m, o), Runs(key, samples));
    RunMembers(key, samples, b, group);
    assert IsKept(m, o)((b, group)) == AnyAccepted(m, o, group);
  }

  /**
   * Without EMPTY the output is: one row per grid bucket that holds samples and that some
   * aggregator accepted one of, each column aggregating all the bucket's samples, in bucket order.
   */
  lemma OutputIsGrouping(m: Machine, o: AggregationOptions, fill: EmptyFillBounds, samples: seq<Sample>)
    requires o.Valid() && Readable(samples) && !o.reportEmpty
    ensures Ascending(RunKey, KeptRuns(m, o, samples))
    ensures forall b, group :: (b, group) in KeptRuns(m, o, samples) <==>
              && HasKey(o.Bucket(), b, samples)
              && group == With(o.Bucket(), b, samples)
              && AnyAccepted(m, o, group)
    ensures |Output(m, o, fill, samples)| == |KeptRuns(m, o, samples)|
    ensures forall i :: 0 <= i < |KeptRuns(m, o, samples)| ==>
              Output(m, o, fill, samples)[i] == RunRow(m, o, KeptRuns(m, o, samples)[i])
  {
    hide AnyAccepted, Aggregates, With, HasKey, Readable, Runs, Where, SlotsFrom, Rows, RunRow,
         AggregationOptions.Bucket;
    var runs := Runs(o.Bucket(), samples);
    BucketsSorted(o, samples);
    RunsAscend(o.Bucket(), samples);
    WhereAscends(RunKey, IsKept(m, o), runs);
    forall b, group { KeptMembers(m, o, samples, b, group); }
    RowsOfRuns(m, o, fill, runs);
    OutputSplits(m, o, fill, samples);
  }

  lemma RunMembers<T>(key: T -> int, xs: seq<T>, k: int, group: seq<T>)
    requires Sorted(key, xs)
    ensures (k, group) in Runs(key, xs) <==> HasKey(key, k, xs) && group == With(key, k, xs)
  {
    hide Runs, With;
    var runs := Runs(key, xs);
    RunKeysOccur(key, xs, k);
    if (k, group) in runs {
      var i :| 0 <= i < |runs| && runs[i] == (k, group);
      assert RunKey(runs[i]) == k;
      RunIsGroup(key, xs, i);
    }
    if HasKey(key, k, xs) {
      var i :| 0 <= i < |runs| && RunKey(runs[i]) == k;
      RunIsGroup(key, xs, i);
    }
  }

  // -- with EMPTY --------------------------------------------------------------------------

  /** One bucket follows another, with none left out. */
  ghost predicate Progression(d: int, slots: seq<Slot>) {
    forall i, j :: 0 <= i && j == i + 1 && j < |slots| ==> slots[j].start == slots[i].start + d
  }

  ghost predicate Joins(d: int, a: seq<Slot>, b: seq<Slot>) {
    a != [] && b != [] ==> b[0].start == a[|a| - 1].start + d
  }

  lemma ProgressionOfConcat(d: int, a: seq<Slot>, b: seq<Slot>)
    ensures Progression(d, a + b) <==> Progression(d, a) && Progression(d, b) && Joins(d, a, b)
  {
    var all := a + b;
    if Progression(d, all) {
      forall i, j | 0 <= i && j == i + 1 && j < |a|
        ensures a[j].start == a[i].start + d
      {
        assert all[i] == a[i] && all[j] == a[j];
      }
      forall i, j | 0 <= i && j == i + 1 && j < |b|
        ensures b[j].start == b[i].start + d
      {
        assert all[|a| + i] == b[i] && all[|a| + j] == b[j];
      }
      if a != [] && b != [] {
        assert all[|a| - 1] == a[|a| - 1] && all[|a|] == b[0];
      }
    }
  }

  /** The lazy cursor leaves nothing out between `next` and `end`, also when `end` saturated. */
  lemma {:induction false} GapRun(o: AggregationOptions, next: int, end: int)
    requires o.Valid() && OnGrid(o, next) && next < end <= I64_MAX
    ensures var gap := GapSlots(o, next, end);
            && gap != [] && gap[0].start == next && Progression(o.bucketDuration, gap)
            && OnGrid(o, gap[|gap| - 1].start)
            && gap[|gap| - 1].start < end <= gap[|gap| - 1].start + o.bucketDuration
    decreases I64_MAX - next
  {
    hide Aligned;
    var next' := o.EndOf(next);
    if next' < end {
      AlignedNext(next, o.alignTimestamp, o.bucketDuration);
      GapRun(o, next', end);
    } else {
      assert GapSlots(o, next, end) == [Gap(next)];
    }
  }

  /** A gap that ends on the grid runs right up to it. */
  lemma GapUpTo(o: AggregationOptions, next: int, c: int)
    requires o.Valid() && OnGrid(o, next) && OnGrid(o, c) && next <= c < I64_MAX
    ensures var gap := GapSlots(o, next, c);
            && Progression(o.bucketDuration, gap)
            && (next == c ==> gap == [])
            && (next < c ==> gap != [] && gap[0].start == next
                             && gap[|gap| - 1].start + o.bucketDuration == c)
  {
    if next < c {
      GapRun(o, next, c);
      var gap := GapSlots(o, next, c);
      AlignedApart(gap[|gap| - 1].start, c, o.alignTimestamp, o.bucketDuration);
    }
  }

  /** Where an interior gap is entered: the next bucket, or one too far when buckets are 1 ms. */
  lemma InteriorEntry(o: AggregationOptions, b: int)
    requires o.Valid() && OnGrid(o, b) && b + o.bucketDuration < I64_MAX
    ensures o.StartOf(o.EndOf(b) + 1) == if o.bucketDuration >= 2 then b + o.bucketDuration else b + 2
  {
    var d := o.bucketDuration;
    AlignedNext(b, o.alignTimestamp, d);
    StartUnique(b + d + 1, b + d, o.alignTimestamp, d);
  }

  /** Bucket `b`, the gap behind it and bucket `c` join up iff buckets are longer than 1 ms or adjacent. */
  lemma InteriorJoins(o: AggregationOptions, b: int, c: int)
    requires o.Valid() && o.reportEmpty && OnGrid(o, b) && OnGrid(o, c) && b < c < I64_MAX
    ensures var gap, d := InteriorGap(o, b, c), o.bucketDuration;
            && Progression(d, gap)
            && ((if gap == [] then c == b + d
                 else gap[0].start == b + d && c == gap[|gap| - 1].start + d)
                <==> d >= 2 || c == b + d)
  {
    var d := o.bucketDuration;
    AlignedApart(b, c, o.alignTimestamp, d);
    InteriorEntry(o, b);
    AlignedNext(b, o.alignTimestamp, d);
    var entry := o.StartOf(o.EndOf(b) + 1);
    if entry <= c {
      GapUpTo(o, entry, c);
    }
  }

  /** Consecutive non-empty buckets are adjacent on the grid. */
  ghost predicate Adjacent(d: int, runs: seq<(int, seq<Sample>)>) {
    forall i, j :: 0 <= i && j == i + 1 && j < |runs| ==> runs[j].0 == runs[i].0 + d
  }

  lemma AdjacentTail(d: int, runs: seq<(int, seq<Sample>)>)
    requires |runs| >= 2
    ensures Adjacent(d, runs) <==> runs[1].0 == runs[0].0 + d && Adjacent(d, runs[1..])
  {
    var rest := runs[1..];
    if Adjacent(d, runs) {
      forall i, j | 0 <= i && j == i + 1 && j < |rest|
        ensures rest[j].0 == rest[i].0 + d
      {
        assert rest[i] == runs[i + 1] && rest[j] == runs[j + 1];
      }
    }
    if runs[1].0 == runs[0].0 + d && Adjacent(d, rest) {
      forall i, j | 0 <= i && j == i + 1 && j < |runs|
        ensures runs[j].0 == runs[i].0 + d
      {
        if i > 0 { assert runs[i] == rest[i - 1] && runs[j] == rest[j - 1]; }
      }
    }
  }

  lemma AloneTrivial(d: int, slot: Slot, run: (int, seq<Sample>))
    ensures Progression(d, [slot]) && Adjacent(d, [run])
  {
  }

  ghost predicate RunsFit(o: AggregationOptions, runs: seq<(int, seq<Sample>)>)
    requires o.Valid()
  {
    && Ascending(RunKey, runs)
    && forall i :: 0 <= i < |runs| ==> OnGrid(o, runs[i].0) && runs[i].0 < I64_MAX
  }

  lemma RunsFitTail(o: AggregationOptions, runs: seq<(int, seq<Sample>)>)
    requires o.Valid() && RunsFit(o, runs) && |runs| >= 2
    ensures RunsFit(o, runs[1..]) && runs[0].0 < runs[1].0
  {
    assert RunKey(runs[0]) < RunKey(runs[1]);
    forall i, j | 0 <= i < j < |runs[1..]|
      ensures RunKey(runs[1..][i]) < RunKey(runs[1..][j])
    {
      assert RunKey(runs[i + 1]) < RunKey(runs[j + 1]);
    }
  }

  /** The last bucket a fill past `b` reaches. */
  function LastStart(o: AggregationOptions, fill: EmptyFillBounds, b: int): int
    requires o.Valid()
  {
    if fill.end.Some? && o.StartOf(fill.end.value) > b then o.StartOf(fill.end.value) else b
  }

  lemma TrailingJoins(o: AggregationOptions, fill: EmptyFillBounds, b: int, group: seq<Sample>)
    requires o.Valid() && o.reportEmpty && OnGrid(o, b) && b < I64_MAX
    requires fill.end.Some? ==> o.StartOf(fill.end.value) < I64_MAX
    ensures var slots := [Filled(b, group)] + TrailingGap(o, fill, b);
            && Progression(o.bucketDuration, slots)
            && slots[|slots| - 1].start == LastStart(o, fill, b)
  {
    var d := o.bucketDuration;
    if fill.end.Some? {
      var c := o.StartOf(fill.end.value);
      var gap := TrailingGap(o, fill, b);
      if c > b {
        AlignedApart(b, c, o.alignTimestamp, d);
        AlignedNext(b, o.alignTimestamp, d);
        GapRun(o, b + d, o.EndOf(c));
        var last := gap[|gap| - 1].start;
        if last < c { AlignedApart(last, c, o.alignTimestamp, d); }
        if c < last { AlignedApart(c, last, o.alignTimestamp, d); }
      }
      ProgressionOfConcat(d, [Filled(b, group)], gap);
    }
  }

  lemma LeadingJoins(o: AggregationOptions, fill: EmptyFillBounds, firstTs: int)
    requires o.Valid() && o.reportEmpty && firstTs < I64_MAX
    ensures var lead, first := LeadingGap(o, fill, firstTs), o.StartOf(firstTs);
            && Progression(o.bucketDuration, lead)
            && (lead != [] <==> fill.start.Some? && o.StartOf(fill.start.value) < first)
            && (lead != [] ==> lead[0].start == o.StartOf(fill.start.value)
                               && lead[|lead| - 1].start + o.bucketDuration == first)
  {
    if fill.start.Some? && o.StartOf(fill.start.value) <= o.StartOf(firstTs) {
      GapUpTo(o, o.StartOf(fill.start.value), o.StartOf(firstTs));
    }
  }

  lemma {:induction false} SlotsFromProgression(o: AggregationOptions, fill: EmptyFillBounds,
                                                runs: seq<(int, seq<Sample>)>)
    requires o.Valid() && o.reportEmpty && RunsFit(o, runs) && runs != []
    requires fill.end.Some? ==> o.StartOf(fill.end.value) < I64_MAX
    ensures var slots := SlotsFrom(o, fill, runs);
            && slots != [] && slots[0].start == runs[0].0
            && slots[|slots| - 1].start == LastStart(o, fill, runs[|runs| - 1].0)
            && (Progression(o.bucketDuration, slots)
                <==> o.bucketDuration >= 2 || Adjacent(o.bucketDuration, runs))
  {
    hide Aligned, InteriorGap, TrailingGap, Progression, Adjacent, LastStart;
    var d := o.bucketDuration;
    var (b, group) := runs[0];
    var head := [Filled(b, group)];
    AloneTrivial(d, head[0], runs[0]);
    if |runs| == 1 {
      TrailingJoins(o, fill, b, group);
      assert SlotsFrom(o, fill, runs) == head + TrailingGap(o, fill, b);
      assert runs == [runs[0]];
    } else {
      var c := runs[1].0;
      var gap, rest := InteriorGap(o, b, c), SlotsFrom(o, fill, runs[1..]);
      RunsFitTail(o, runs);
      SlotsFromProgression(o, fill, runs[1..]);
      AdjacentTail(d, runs);
      InteriorJoins(o, b, c);
      ProgressionOfConcat(d, head, gap);
      ProgressionOfConcat(d, head + gap, rest);
      assert SlotsFrom(o, fill, runs) == head + gap + rest;
    }
  }

  /**
   * With EMPTY the buckets reported form one gap-free progression, from the fill's start bucket
   * (or the first sample's) to its end bucket (or the last sample's) -- exactly when buckets are
   * longer than 1 ms, or no two consecutive non-empty buckets have a gap between them.
   */
  lemma EmptyFillProgression(o: AggregationOptions, fill: EmptyFillBounds, samples: seq<Sample>)
    requires o.Valid() && o.reportEmpty && Readable(samples) && samples != []
    requires fill.end.Some? ==> o.StartOf(fill.end.value) < I64_MAX
    ensures var slots, runs := Slots(o, fill, samples), Runs(o.Bucket(), samples);
            && runs != [] && slots != []
            && (Progression(o.bucketDuration, slots)
                <==> o.bucketDuration >= 2 || Adjacent(o.bucketDuration, runs))
            && slots[0].start == (if fill.start.Some? && o.StartOf(fill.start.value) < runs[0].0
                                  then o.StartOf(fill.start.value) else runs[0].0)
            && slots[|slots| - 1].start == LastStart(o, fill, runs[|runs| - 1].0)
  {
    hide SlotsFrom, Aligned, Progression, Adjacent, LastStart, LeadingGap;
    var d := o.bucketDuration;
    var runs := Runs(o.Bucket(), samples);
    RunsOnGrid(o, samples);
    SlotsFromProgression(o, fill, runs);
    var first := o.StartOf(samples[0].ts);
    assert runs[0].0 == first;
    var lead, rest := LeadingGap(o, fill, samples[0].ts), SlotsFrom(o, fill, runs);
    LeadingJoins(o, fill, samples[0].ts);
    ProgressionOfConcat(d, lead, rest);
  }

  /** A window with no sample is reported, as one progression, iff there is data on both sides. */
  lemma EmptyWindowProgression(o: AggregationOptions, fill: EmptyFillBounds)
    requires o.Valid() && o.reportEmpty
    requires fill.start.Some? && fill.end.Some? ==>
               fill.start.value <= fill.end.value && o.StartOf(fill.end.value) < I64_MAX
    ensures var slots := Slots(o, fill, []);
            && Progression(o.bucketDuration, slots)
            && (slots != [] <==> fill.start.Some? && fill.end.Some?)
            && (slots != [] ==> slots[0].start == o.StartOf(fill.start.value)
                                && slots[|slots| - 1].start == o.StartOf(fill.end.value))
  {
    if fill.start.Some? && fill.end.Some? {
      var d := o.bucketDuration;
      var b, c := o.StartOf(fill.start.value), o.StartOf(fill.end.value);
      StartMonotone(fill.start.value, fill.end.value, o.alignTimestamp, d);
      GapRun(o, b, o.EndOf(c));
      var slots := Slots(o, fill, []);
      var last := slots[|slots| - 1].start;
      if last < c { AlignedApart(last, c, o.alignTimestamp, d); }
      if c < last { AlignedApart(c, last, o.alignTimestamp, d); }
    }
  }

  /** The defect at 1 ms: between samples at 0 and 2, the empty bucket at 1 is never reported. */
  lemma OneMillisecondSkips(o: AggregationOptions, v: Value, w: Value)
    requires o.Valid() && o.reportEmpty && o.bucketDuration == 1
    ensures Slots(o, NO_FILL, [Sample(0, v), Sample(2, w)])
            == [Filled(0, [Sample(0, v)]), Filled(2, [Sample(2, w)])]
  {
    hide BucketStart, Aligned;
    var g, rest := [Sample(0, v)], [Sample(2, w)];
    assert g + rest == [Sample(0, v), Sample(2, w)] && rest + [] == rest;
    assert o.StartOf(0) == 0 && o.StartOf(2) == 2;
    RunsOfGroup(o.Bucket(), 0, g, rest);
    RunsOfGroup(o.Bucket(), 2, rest, []);
    var runs := Runs(o.Bucket(), g + rest);
    assert runs == [(0, g), (2, rest)] && runs[1..] == [(2, rest)];
    assert InteriorGap(o, 0, 2) == [];
    assert SlotsFrom(o, NO_FILL, runs[1..]) == [Filled(2, rest)];
  }

  /** With EMPTY every slot is one row, at the slot's own timestamp. */
  lemma {:induction false} EverySlotARow(m: Machine, o: AggregationOptions, slots: seq<Slot>)
    requires o.Valid() && o.reportEmpty
    ensures |Rows(m, o, slots)| == |slots|
    ensures forall i :: 0 <= i < |slots| ==>
              && SlotRow(m, o, slots[i]) == Some(Rows(m, o, slots)[i])
              && Rows(m, o, slots)[i].ts == o.RenderAt(slots[i].start)
  {
    hide AnyAccepted, Aggregates, EmptyValues;
    if slots != [] { EverySlotARow(m, o, slots[1..]); }
  }

  // -- reported timestamps ------------------------------------------------------------------

  /** Starts ascend on the grid, each within reach of a valid timestamp. */
  ghost predicate Placed(o: AggregationOptions, slots: seq<Slot>, low: int, high: int)
    requires o.Valid()
  {
    && Ascending(Start, slots)
    && forall i :: 0 <= i < |slots| ==> OnGrid(o, slots[i].start) && low <= slots[i].start < high
  }

  lemma PlacedConcat(o: AggregationOptions, a: seq<Slot>, b: seq<Slot>, low: int, mid: int, high: int)
    requires o.Valid() && Placed(o, a, low, mid) && Placed(o, b, mid, high) && low <= mid <= high
    ensures Placed(o, a + b, low, high)
  {
    hide Aligned;
    forall i, j | 0 <= i < j < |a + b|
      ensures Start((a + b)[i]) < Start((a + b)[j])
    {
      if j < |a| {
        assert Start(a[i]) < Start(a[j]);
      } else if i >= |a| {
        assert Start(b[i - |a|]) < Start(b[j - |a|]);
      }
    }
  }

  lemma {:induction false} GapPlaced(o: AggregationOptions, next: int, end: int)
    requires o.Valid() && (next < I64_MAX ==> OnGrid(o, next)) && end <= I64_MAX
    ensures Placed(o, GapSlots(o, next, end), next, if next < end then end else next)
    decreases I64_MAX - next
  {
    hide Aligned;
    if next < end {
      var next' := o.EndOf(next);
      if next' < I64_MAX { AlignedNext(next, o.alignTimestamp, o.bucketDuration); }
      GapPlaced(o, next', end);
      var rest := GapSlots(o, next', end);
      assert GapSlots(o, next, end) == [Gap(next)] + rest;
      PlacedConcat(o, [Gap(next)], rest, next, next', if next' < end then end else next');
    }
  }

  lemma {:induction false} SlotsFromPlaced(o: AggregationOptions, fill: EmptyFillBounds,
                                           runs: seq<(int, seq<Sample>)>)
    requires o.Valid() && RunsFit(o, runs) && runs != []
    ensures Placed(o, SlotsFrom(o, fill, runs), runs[0].0, I64_MAX)
  {
    hide Aligned, GapSlots;
    var d := o.bucketDuration;
    var (b, group) := runs[0];
    var head := [Filled(b, group)];
    var next := o.EndOf(b);
    if next < I64_MAX { AlignedNext(b, o.alignTimestamp, d); }
    if |runs| == 1 {
      var gap := TrailingGap(o, fill, b);
      if o.reportEmpty && fill.end.Some? {
        GapPlaced(o, next, o.EndOf(o.StartOf(fill.end.value)));
      }
      assert SlotsFrom(o, fill, runs) == head + gap;
      PlacedConcat(o, head, gap, b, next, I64_MAX);
    } else {
      var c := runs[1].0;
      RunsFitTail(o, runs);
      SlotsFromPlaced(o, fill, runs[1..]);
      AlignedApart(b, c, o.alignTimestamp, d);
      InteriorEntry(o, b);
      var gap, rest := InteriorGap(o, b, c), SlotsFrom(o, fill, runs[1..]);
      if o.reportEmpty { GapPlaced(o, o.StartOf(next + 1), c); }
      assert SlotsFrom(o, fill, runs) == head + gap + rest;
      assert Placed(o, gap, next, c);
      PlacedConcat(o, head, gap, b, next, c);
      PlacedConcat(o, head + gap, rest, b, c, I64_MAX);
    }
  }

  /** All the output's slots, leading and trailing fill included, ascend on the grid. */
  lemma SlotsPlaced(o: AggregationOptions, fill: EmptyFillBounds, samples: seq<Sample>)
    requires o.Valid() && Readable(samples) && fill.Valid()
    ensures Placed(o, Slots(o, fill, samples), 1 - o.bucketDuration, I64_MAX)
  {
    hide Aligned, GapSlots, SlotsFrom;
    var low := 1 - o.bucketDuration;
    if samples == [] {
      if o.reportEmpty && fill.start.Some? && fill.end.Some? {
        GapPlaced(o, o.StartOf(fill.start.value), o.EndOf(o.StartOf(fill.end.value)));
      }
    } else {
      var runs := Runs(o.Bucket(), samples);
      RunsOnGrid(o, samples);
      SlotsFromPlaced(o, fill, runs);
      var first := o.StartOf(samples[0].ts);
      assert runs[0].0 == first;
      var lead, rest := LeadingGap(o, fill, samples[0].ts), SlotsFrom(o, fill, runs);
      if o.reportEmpty && fill.start.Some? { GapPlaced(o, o.StartOf(fill.start.value), first); }
      PlacedConcat(o, lead, rest, low, first, I64_MAX);
    }
  }

  /** The rows are the slots' rows. */
  lemma {:induction false} RowSources(m: Machine, o: AggregationOptions, slots: seq<Slot>)
    requires o.Valid()
    ensures forall row :: row in Rows(m, o, slots) ==>
              exists i :: 0 <= i < |slots| && SlotRow(m, o, slots[i]) == Some(row)
    ensures forall i :: 0 <= i < |slots| && SlotRow(m, o, slots[i]).Some? ==>
              SlotRow(m, o, slots[i]).value in Rows(m, o, slots)
  {
    hide SlotRow;
    if slots != [] {
      var tail := slots[1..];
      RowSources(m, o, tail);
      forall row | row in Rows(m, o, slots)
        ensures exists i :: 0 <= i < |slots| && SlotRow(m, o, slots[i]) == Some(row)
      {
        if SlotRow(m, o, slots[0]) != Some(row) {
          assert row in Rows(m, o, tail);
          var i :| 0 <= i < |tail| && SlotRow(m, o, tail[i]) == Some(row);
          assert slots[i + 1] == tail[i];
        }
      }
    }
  }

  lemma SlotRowAt(m: Machine, o: AggregationOptions, slot: Slot)
    requires o.Valid()
    ensures SlotRow(m, o, slot).Some? ==>
              && SlotRow(m, o, slot).value.ts == o.RenderAt(slot.start)
              && |SlotRow(m, o, slot).value.values| == |o.aggregations|
  {
  }

  lemma PlacedRender(o: AggregationOptions, slots: seq<Slot>, i: nat, j: nat)
    requires o.Valid() && Placed(o, slots, 1 - o.bucketDuration, I64_MAX)
    requires i < j < |slots|
    ensures o.RenderAt(slots[i].start) < o.RenderAt(slots[j].start)
  {
    hide Aligned;
    var b, c := slots[i].start, slots[j].start;
    assert Start(slots[i]) < Start(slots[j]);
    AlignedApart(b, c, o.alignTimestamp, o.bucketDuration);
    RenderAscends(o.timestampOutput, b, c, o.alignTimestamp, o.bucketDuration);
  }

  lemma PlacedTail(o: AggregationOptions, slots: seq<Slot>, low: int, high: int)
    requires o.Valid() && Placed(o, slots, low, high) && slots != []
    ensures Placed(o, slots[1..], low, high)
  {
    hide Aligned;
    var tail := slots[1..];
    forall i, j | 0 <= i < j < |tail|
      ensures Start(tail[i]) < Start(tail[j])
    {
      assert Start(slots[i + 1]) < Start(slots[j + 1]);
    }
  }

  /** The rows of the later slots come after the first slot's. */
  lemma RowsAbove(m: Machine, o: AggregationOptions, slots: seq<Slot>, row: Row)
    requires o.Valid() && Placed(o, slots, 1 - o.bucketDuration, I64_MAX) && slots != []
    requires row in Rows(m, o, slots[1..])
    ensures o.RenderAt(slots[0].start) < row.ts
  {
    hide SlotRow, Placed, Rows, AggregationOptions.RenderAt;
    var tail := slots[1..];
    RowSources(m, o, tail);
    var i :| 0 <= i < |tail| && SlotRow(m, o, tail[i]) == Some(row);
    SlotRowAt(m, o, tail[i]);
    PlacedRender(o, slots, 0, i + 1);
  }

  lemma {:induction false} RowsAscend(m: Machine, o: AggregationOptions, slots: seq<Slot>)
    requires o.Valid() && Placed(o, slots, 1 - o.bucketDuration, I64_MAX)
    ensures Ascending(RowTs, Rows(m, o, slots))
  {
    hide SlotRow, Placed, AggregationOptions.RenderAt;
    if slots != [] {
      PlacedTail(o, slots, 1 - o.bucketDuration, I64_MAX);
      RowsAscend(m, o, slots[1..]);
      SlotRowAt(m, o, slots[0]);
      var rest := Rows(m, o, slots[1..]);
      forall k | 0 <= k < |rest|
        ensures o.RenderAt(slots[0].start) < RowTs(rest[k])
      {
        assert rest[k] in rest;
        RowsAbove(m, o, slots, rest[k]);
      }
    }
  }

  /** Reported timestamps strictly increase, whatever the fill, the alignment and the rendering. */
  lemma OutputAscends(m: Machine, o: AggregationOptions, fill: EmptyFillBounds, samples: seq<Sample>)
    requires o.Valid() && Readable(samples) && fill.Valid()
    ensures Ascending(RowTs, Output(m, o, fill, samples))
    ensures forall row :: row in Output(m, o, fill, samples) ==> |row.values| == |o.aggregations|
  {
    hide SlotRow, Placed, Slots, Rows;
    var slots := Slots(o, fill, samples);
    SlotsPlaced(o, fill, samples);
    RowsAscend(m, o, slots);
    RowSources(m, o, slots);
    forall i | 0 <= i < |slots| { SlotRowAt(m, o, slots[i]); }
  }
}
