/**
 * The streaming bucketing iterator (`src/aggregators/aggregate_iterator.rs`) and its
 * specification: cut the stream into grid buckets, aggregate each, fill the gaps.
 */
module AggregateIterator {
  import opened Values
  import opened Aggregators
  import opened BucketGrid
  import opened Timeline

  /** How far an EMPTY fill may run past the samples: set when data exists on that side. */
  datatype EmptyFillBounds = EmptyFillBounds(start: Option<int>, end: Option<int>, carrySeed: Value) {
    predicate Valid() {
      && (start.Some? ==> 0 <= start.value <= I64_MAX)
      && (end.Some? ==> 0 <= end.value <= I64_MAX)
    }
  }

  const NO_FILL := EmptyFillBounds(None, None, NaN)

  datatype AggregationOptions = AggregationOptions(
    aggregations: seq<AggregatorConfig>,
    bucketDuration: int,
    timestampOutput: BucketTimestamp,
    alignTimestamp: int,
    reportEmpty: bool) {

    /** Longer durations overflow the grid arithmetic, see `MachineStartIff`. */
    predicate Valid() { 0 < bucketDuration <= TWO_63 / 2 && 0 <= alignTimestamp <= I64_MAX }

    function StartOf(ts: int): int
      requires Valid()
    {
      BucketStart(ts, alignTimestamp, bucketDuration)
    }

    /** One past the bucket that starts at `b`, saturated. */
    function EndOf(b: int): int { SaturatingAdd(b, bucketDuration) }

    function RenderAt(b: int): int { Render(timestampOutput, b, bucketDuration) }

    function Fresh(): seq<Aggregator>
      requires Valid()
    {
      seq(|aggregations|, i requires 0 <= i < |aggregations| =>
        WithWindow(Create(aggregations[i]), bucketDuration))
    }

    /** The bucket of a sample. */
    function Bucket(): Sample -> int { BucketOn(alignTimestamp, bucketDuration) }
  }

  function BucketOn(align: int, d: int): Sample -> int {
    (s: Sample) => if d > 0 then BucketStart(s.ts, align, d) else 0
  }

  function TsOf(s: Sample): int { s.ts }

  /** What the readers feed the iterator; i64::MAX itself is excluded, see `SaturatedMembership`. */
  ghost predicate Readable(samples: seq<Sample>) {
    && Sorted(TsOf, samples)
    && forall i :: 0 <= i < |samples| ==> 0 <= samples[i].ts < I64_MAX
  }

  // -- specification --------------------------------------------------------------------

  /** A place in the output: a bucket with the samples it holds, or an empty one to fill. */
  datatype Slot = Filled(start: int, group: seq<Sample>) | Gap(start: int)

  /** Empty buckets from `next` up to `end`, the way the lazy cursor steps through them. */
  function GapSlots(o: AggregationOptions, next: int, end: int): seq<Slot>
    requires o.Valid()
    decreases I64_MAX - next
  {
    if next >= end || next >= I64_MAX then [] else [Gap(next)] + GapSlots(o, o.EndOf(next), end)
  }

  function LeadingGap(o: AggregationOptions, fill: EmptyFillBounds, firstTs: int): seq<Slot>
    requires o.Valid()
  {
    if o.reportEmpty && fill.start.Some? then GapSlots(o, o.StartOf(fill.start.value), o.StartOf(firstTs))
    else []
  }

  /** The gap between two consecutive non-empty buckets; it is entered at `EndOf(b) + 1`. */
  function InteriorGap(o: AggregationOptions, b: int, c: int): seq<Slot>
    requires o.Valid()
  {
    if o.reportEmpty then GapSlots(o, o.StartOf(o.EndOf(b) + 1), c) else []
  }

  function TrailingGap(o: AggregationOptions, fill: EmptyFillBounds, b: int): seq<Slot>
    requires o.Valid()
  {
    if o.reportEmpty && fill.end.Some? then GapSlots(o, o.EndOf(b), o.EndOf(o.StartOf(fill.end.value)))
    else []
  }

  function SlotsFrom(o: AggregationOptions, fill: EmptyFillBounds, runs: seq<(int, seq<Sample>)>): seq<Slot>
    requires o.Valid()
  {
    if runs == [] then []
    else
      var (b, group) := runs[0];
      [Filled(b, group)]
      + (if |runs| == 1 then TrailingGap(o, fill, b) else InteriorGap(o, b, runs[1].0))
      + SlotsFrom(o, fill, runs[1..])
  }

  function Slots(o: AggregationOptions, fill: EmptyFillBounds, samples: seq<Sample>): seq<Slot>
    requires o.Valid()
  {
    if samples != [] then
      LeadingGap(o, fill, samples[0].ts) + SlotsFrom(o, fill, Runs(o.Bucket(), samples))
    else if o.reportEmpty && fill.start.Some? && fill.end.Some? then
      GapSlots(o, o.StartOf(fill.start.value), o.EndOf(o.StartOf(fill.end.value)))
    else []
  }

  function EmptyValues(aggregators: seq<Aggregator>): seq<Value> {
    seq(|aggregators|, i requires 0 <= i < |aggregators| => EmptyValue(aggregators[i]))
  }

  ghost predicate AnyAccepted(m: Machine, o: AggregationOptions, group: seq<Sample>)
    requires o.Valid()
  {
    exists i :: 0 <= i < |o.aggregations| && Feed(m, o.Fresh()[i], group).1
  }

  /** Each column's aggregate of a bucket's samples. */
  function Aggregates(m: Machine, o: AggregationOptions, group: seq<Sample>): seq<Value>
    requires o.Valid()
  {
    seq(|o.aggregations|, i requires 0 <= i < |o.aggregations| =>
      Finalize(m, Feed(m, o.Fresh()[i], group).0))
  }

  /** A slot's row; without EMPTY a bucket no aggregator accepted a sample of has none. */
  ghost function SlotRow(m: Machine, o: AggregationOptions, slot: Slot): Option<Row>
    requires o.Valid()
  {
    match slot
    case Gap(b) => Some(Row(o.RenderAt(b), EmptyValues(o.Fresh())))
    case Filled(b, group) =>
      if AnyAccepted(m, o, group) then Some(Row(o.RenderAt(b), Aggregates(m, o, group)))
      else if o.reportEmpty then Some(Row(o.RenderAt(b), EmptyValues(o.Fresh())))
      else None
  }

  function AsList<T>(x: Option<T>): seq<T> { if x.Some? then [x.value] else [] }

  ghost function Rows(m: Machine, o: AggregationOptions, slots: seq<Slot>): seq<Row>
    requires o.Valid()
  {
    if slots == [] then [] else AsList(SlotRow(m, o, slots[0])) + Rows(m, o, slots[1..])
  }

  /** The rows of a stream from its first bucket on, leading gap excluded. */
  ghost function Upcoming(m: Machine, o: AggregationOptions, fill: EmptyFillBounds, stream: seq<Sample>): seq<Row>
    requires o.Valid()
  {
    Rows(m, o, SlotsFrom(o, fill, Runs(o.Bucket(), stream)))
  }

  /** The iterator's whole output. */
  ghost function Output(m: Machine, o: AggregationOptions, fill: EmptyFillBounds, samples: seq<Sample>): seq<Row>
    requires o.Valid()
  {
    Rows(m, o, Slots(o, fill, samples))
  }

  lemma {:induction false} RowsOfConcat(m: Machine, o: AggregationOptions, a: seq<Slot>, b: seq<Slot>)
    requires o.Valid()
    ensures Rows(m, o, a + b) == Rows(m, o, a) + Rows(m, o, b)
  {
    hide SlotRow;
    if a == [] {
      assert a + b == b;
    } else {
      assert (a + b)[1..] == a[1..] + b;
      RowsOfConcat(m, o, a[1..], b);
    }
  }

  lemma OutputSplits(m: Machine, o: AggregationOptions, fill: EmptyFillBounds, samples: seq<Sample>)
    requires o.Valid()
    ensures Upcoming(m, o, fill, []) == [] == Rows(m, o, [])
    ensures samples != [] ==>
              Output(m, o, fill, samples)
              == Rows(m, o, LeadingGap(o, fill, samples[0].ts)) + Upcoming(m, o, fill, samples)
    ensures samples == [] ==> Output(m, o, fill, samples) == Rows(m, o, Slots(o, fill, []))
  {
    if samples != [] {
      RowsOfConcat(m, o, LeadingGap(o, fill, samples[0].ts), SlotsFrom(o, fill, Runs(o.Bucket(), samples)));
    }
  }

  /** Closing a bucket: its own row, then the gap behind it, then the rest of the stream. */
  lemma CloseStep(m: Machine, o: AggregationOptions, fill: EmptyFillBounds, b: int,
                  group: seq<Sample>, rest: seq<Sample>)
    requires o.Valid()
    requires group != [] && forall i :: 0 <= i < |group| ==> o.StartOf(group[i].ts) == b
    requires rest == [] || o.StartOf(rest[0].ts) != b
    ensures Upcoming(m, o, fill, group + rest)
            == AsList(SlotRow(m, o, Filled(b, group)))
               + Rows(m, o, if rest == [] then TrailingGap(o, fill, b)
                            else InteriorGap(o, b, o.StartOf(rest[0].ts)))
               + Upcoming(m, o, fill, rest)
    ensures Upcoming(m, o, fill, []) == []
  {
    hide SlotRow, TrailingGap, InteriorGap;
    var key := o.Bucket();
    RunsOfGroup(key, b, group, rest);
    var runs := Runs(key, group + rest);
    assert runs[1..] == Runs(key, rest);
    var gap := if rest == [] then TrailingGap(o, fill, b) else InteriorGap(o, b, o.StartOf(rest[0].ts));
    assert SlotsFrom(o, fill, runs) == [Filled(b, group)] + gap + SlotsFrom(o, fill, runs[1..]);
    RowsOfConcat(m, o, [Filled(b, group)] + gap, SlotsFrom(o, fill, runs[1..]));
    RowsOfConcat(m, o, [Filled(b, group)], gap);
    assert Rows(m, o, [Filled(b, group)]) == AsList(SlotRow(m, o, Filled(b, group))) + Rows(m, o, []);
  }

  /** The iterator's boundary test is the grid's: a later sample leaves the bucket or not. */
  lemma BoundaryTest(o: AggregationOptions, b: int, group: seq<Sample>, sample: Sample)
    requires o.Valid() && group != []
    requires o.StartOf(group[0].ts) == b
    requires group[0].ts <= sample.ts < I64_MAX
    ensures sample.ts < o.EndOf(b) <==> o.StartOf(sample.ts) == b
  {
    SaturatedMembership(b, sample.ts, o.alignTimestamp, o.bucketDuration);
  }

  lemma ReadableSuffix(xs: seq<Sample>, ys: seq<Sample>)
    requires Readable(xs + ys)
    ensures Readable(ys)
  {
    forall i | 0 <= i < |ys|
      ensures ys[i] == (xs + ys)[|xs| + i]
    {
    }
  }

  // -- the iterator ------------------------------------------------------------------------

  datatype EmptyBucketRun = EmptyBucketRun(next: int, end: int) {
    predicate IsEmpty() { next >= end }
  }

  class MultiAggregateIterator {
    const m: Machine
    const o: AggregationOptions
    const fill: EmptyFillBounds
    var inner: seq<Sample>
    var aggregators: seq<Aggregator>
    var accepted: seq<bool>
    var rangeStart: int
    var rangeEnd: int
    var sawSample: bool
    var run: EmptyBucketRun
    var init: bool
    /** The samples of the current bucket so far. */
    ghost var group: seq<Sample>

    /** Every accumulator has been fed exactly the current bucket's samples. */
    ghost predicate Accumulated()
      requires o.Valid()
      reads this`aggregators, this`accepted, this`group
    {
      && |aggregators| == |accepted| == |o.aggregations|
      && forall i :: 0 <= i < |aggregators| ==>
           (aggregators[i], accepted[i]) == Feed(m, o.Fresh()[i], group)
    }

    ghost predicate InBucket()
      requires o.Valid()
      reads this`rangeStart, this`rangeEnd, this`group
    {
      && (forall i :: 0 <= i < |group| ==> o.StartOf(group[i].ts) == rangeStart)
      && rangeEnd == o.EndOf(rangeStart)
    }

    /** The queued run of empty buckets that has not been drained yet. */
    ghost function Pending(): seq<Slot>
      requires o.Valid()
      reads this`run
    {
      GapSlots(o, run.next, run.end)
    }

    /** All of the invariant that does not concern the pending run. */
    ghost predicate Consistent()
      reads this`inner, this`aggregators, this`accepted, this`rangeStart, this`rangeEnd,
            this`sawSample, this`init, this`group
    {
      && o.Valid() && fill.Valid()
      && Readable(group + inner)
      && Accumulated()
      && (sawSample <==> group != [])
      && (sawSample ==> init && InBucket())
      && (init && !sawSample ==> inner == [])
    }

    ghost predicate Valid()
      reads this
    {
      Consistent() && (!init ==> run.IsEmpty()) && run.end <= I64_MAX
    }

    /** The rows still to come after the pending run. */
    ghost function Later(): seq<Row>
      requires o.Valid()
      reads this`init, this`group, this`inner
    {
      if !init then Output(m, o, fill, group + inner) else Upcoming(m, o, fill, group + inner)
    }

    /** The rows still to come. */
    ghost function Remaining(): seq<Row>
      requires Valid()
      reads this
    {
      Rows(m, o, Pending()) + Later()
    }

    constructor (m: Machine, o: AggregationOptions, fill: EmptyFillBounds, samples: seq<Sample>)
      requires o.Valid() && fill.Valid() && Readable(samples)
      ensures Valid()
      ensures this.m == m && this.o == o && this.fill == fill
      ensures Remaining() == Output(m, o, fill, samples)
    {
      this.m, this.o, this.fill, inner := m, o, fill, samples;
      aggregators := o.Fresh();
      accepted := seq(|o.aggregations|, _ => false);
      rangeStart, rangeEnd, sawSample := 0, 0, false;
      run, init := EmptyBucketRun(0, 0), false;
      group := [];
      new;
      assert group + inner == samples;
    }

    /** `AggregationHelper::update`: one scan, every accumulator. */
    method Update(sample: Sample)
      requires o.Valid() && Accumulated()
      modifies this`aggregators, this`accepted, this`sawSample, this`group
      ensures Accumulated() && sawSample
      ensures group == old(group) + [sample]
    {
      ghost var before := aggregators;
      var k := 0;
      while k < |aggregators|
        invariant 0 <= k <= |aggregators| == |accepted| == |o.aggregations|
        invariant group == old(group)
        invariant forall i :: 0 <= i < k ==>
                    (aggregators[i], accepted[i]) == Feed(m, o.Fresh()[i], group + [sample])
        invariant forall i :: k <= i < |aggregators| ==>
                    (aggregators[i], accepted[i]) == Feed(m, o.Fresh()[i], group)
      {
        assert (group + [sample])[..|group|] == group;
        var (next, ok) := Aggregators.Update(m, aggregators[k], sample.ts, sample.value);
        aggregators, accepted := aggregators[k := next], accepted[k := accepted[k] || ok];
        k := k + 1;
      }
      group := group + [sample];
      sawSample := true;
    }

    /** `update_bucket_timestamps`, then the bucket's first sample. */
    method StartNewBucket(sample: Sample)
      requires o.Valid() && Accumulated() && group == []
      modifies this`aggregators, this`accepted, this`sawSample, this`group, this`rangeStart, this`rangeEnd
      ensures Accumulated() && sawSample && InBucket()
      ensures group == [sample] && rangeStart == o.StartOf(sample.ts)
    {
      rangeStart := o.StartOf(sample.ts);
      rangeEnd := o.EndOf(rangeStart);
      Update(sample);
    }

    /** `EmptyBucketRun::queue`, guarded: never over a run that has not been drained. */
    method QueueRun(start: int, endExclusive: int)
      requires o.Valid() && run.IsEmpty()
      requires run.end <= I64_MAX && endExclusive <= I64_MAX
      modifies this`run
      ensures run.end <= I64_MAX && Pending() == GapSlots(o, start, endExclusive)
    {
      if start < endExclusive {
        run := EmptyBucketRun(start, endExclusive);
      }
    }

    lemma FreshIsFresh()
      requires o.Valid()
      ensures forall i :: 0 <= i < |o.aggregations| ==>
                Reset(o.Fresh()[i]) == o.Fresh()[i] && Feed(m, o.Fresh()[i], []) == (o.Fresh()[i], false)
    {
      forall i | 0 <= i < |o.aggregations|
        ensures IsFresh(o.Fresh()[i])
      {
        EmptyGroupValueByType(o.aggregations[i]);
      }
    }

    /** The row of the current bucket, leaving every accumulator reset. */
    method CloseBucket() returns (bucket: Option<Row>)
      requires o.Valid() && Accumulated()
      modifies this`aggregators, this`accepted, this`sawSample, this`group
      ensures bucket == SlotRow(m, o, Filled(rangeStart, old(group)))
      ensures Accumulated() && group == [] && !sawSample
    {
      hide Feed, Finalize, Create, Reset, WithWindow;
      FreshIsFresh();
      var anyAccepted := exists i | 0 <= i < |accepted| :: accepted[i];
      assert anyAccepted <==> AnyAccepted(m, o, group);
      var values: seq<Value> := [];
      var k := 0;
      while k < |aggregators|
        invariant 0 <= k <= |aggregators| == |o.aggregations|
        invariant |values| == k
        invariant group == old(group)
        invariant forall i :: 0 <= i < k ==>
                    values[i] == if anyAccepted then Finalize(m, Feed(m, o.Fresh()[i], group).0)
                                 else EmptyValue(o.Fresh()[i])
        invariant forall i :: 0 <= i < k ==> aggregators[i] == o.Fresh()[i]
        invariant forall i :: k <= i < |aggregators| ==> aggregators[i] == Feed(m, o.Fresh()[i], group).0
      {
        FeedKeepsIdentity(m, o.Fresh()[k], group);
        values := values + [if anyAccepted then Finalize(m, aggregators[k]) else EmptyValue(aggregators[k])];
        aggregators := aggregators[k := Reset(aggregators[k])];
        k := k + 1;
      }
      assert anyAccepted ==> values == Aggregates(m, o, group);
      assert !anyAccepted ==> values == EmptyValues(o.Fresh());
      bucket := if anyAccepted || o.reportEmpty then Some(Row(o.RenderAt(rangeStart), values)) else None;
      accepted := seq(|o.aggregations|, _ => false);
      sawSample := false;
      group := [];
    }

    /** `complete_bucket`: close the bucket and queue the gap up to the sample that ended it. */
    method CompleteBucket(lastTs: Option<int>) returns (bucket: Option<Row>)
      requires o.Valid() && Accumulated() && run.IsEmpty() && run.end <= I64_MAX
      requires rangeEnd == o.EndOf(rangeStart)
      requires lastTs.Some? ==> rangeEnd <= lastTs.value < I64_MAX
      modifies this`aggregators, this`accepted, this`sawSample, this`group, this`run
      ensures bucket == SlotRow(m, o, Filled(rangeStart, old(group)))
      ensures Accumulated() && group == [] && !sawSample
      ensures run.end <= I64_MAX
      ensures Pending() == if lastTs.Some? then InteriorGap(o, rangeStart, o.StartOf(lastTs.value)) else []
      ensures bucket.None? || lastTs.None? ==> run.IsEmpty()
    {
      bucket := CloseBucket();
      if o.reportEmpty && lastTs.Some? && lastTs.value >= rangeEnd {
        var start := rangeEnd + 1;
        QueueRun(o.StartOf(start), o.StartOf(lastTs.value));
      }
    }

    /** `pop_empty_bucket`: one bucket of the pending run, if any. */
    method PopEmptyBucket() returns (row: Option<Row>)
      requires Valid()
      modifies this`run
      ensures Valid()
      ensures row.None? ==> old(run.IsEmpty()) && run == old(run) && Remaining() == old(Remaining())
      ensures row.Some? ==> old(Remaining()) == [row.value] + Remaining()
    {
      hide Feed, Runs, SlotsFrom, Slots, Upcoming, Output, Readable;
      if run.IsEmpty() {
        return None;
      }
      var b, all := run.next, aggregators;
      run := EmptyBucketRun(o.EndOf(b), run.end);
      forall i | 0 <= i < |all|
        ensures EmptyValue(all[i]) == EmptyValue(o.Fresh()[i])
      {
        FeedKeepsIdentity(m, o.Fresh()[i], group);
      }
      assert EmptyValues(all) == EmptyValues(o.Fresh());
      row := Some(Row(o.RenderAt(b), EmptyValues(all)));
      assert old(Pending()) == [Gap(b)] + Pending();
      assert SlotRow(m, o, Gap(b)) == row;
    }

    /** `enqueue_leading_empty_buckets` */
    method EnqueueLeading(firstTs: int)
      requires o.Valid() && fill.Valid() && run.IsEmpty() && run.end <= I64_MAX && firstTs <= I64_MAX
      modifies this`run
      ensures run.end <= I64_MAX && Pending() == LeadingGap(o, fill, firstTs)
    {
      if o.reportEmpty && fill.start.Some? {
        QueueRun(o.StartOf(fill.start.value), o.StartOf(firstTs));
      }
    }

    /** `enqueue_full_empty_range_if_needed` */
    method EnqueueFullRange()
      requires o.Valid() && fill.Valid() && run.IsEmpty() && run.end <= I64_MAX
      modifies this`run
      ensures run.end <= I64_MAX && Pending() == Slots(o, fill, [])
    {
      if o.reportEmpty && fill.start.Some? && fill.end.Some? {
        QueueRun(o.StartOf(fill.start.value), o.EndOf(o.StartOf(fill.end.value)));
      }
    }

    /** `ensure_initialized`: read the first sample, queue what precedes it. */
    method EnsureInitialized() returns (hasSamples: bool)
      requires Valid() && run.IsEmpty()
      modifies this
      ensures Valid() && init
      ensures Remaining() == old(Remaining())
      ensures !hasSamples ==> !sawSample
    {
      hide Feed, SlotRow, Upcoming, Runs, GapSlots, SlotsFrom, Rows, Slots, LeadingGap, Output;
      if init {
        return true;
      }
      WhenDrained();
      ghost var all := group + inner;
      OutputSplits(m, o, fill, all);
      init := true;
      if inner != [] {
        var sample := inner[0];
        assert all == inner && all[0] == sample;
        inner := inner[1..];
        EnqueueLeading(sample.ts);
        StartNewBucket(sample);
        assert group + inner == all;
        hasSamples := true;
      } else {
        EnqueueFullRange();
        assert group + inner == [];
        hasSamples := false;
      }
    }

    /** A sample past the current bucket closes it, queues the gap, and opens its own. */
    method EndBucket(sample: Sample) returns (bucket: Option<Row>)
      requires o.Valid() && fill.Valid() && Readable(group + ([sample] + inner))
      requires Accumulated() && InBucket() && group != [] && init
      requires run.IsEmpty() && run.end <= I64_MAX
      requires rangeEnd <= sample.ts && o.StartOf(sample.ts) != rangeStart
      modifies this
      ensures Valid() && init && inner == old(inner)
      ensures bucket.None? ==> run.IsEmpty()
      ensures Upcoming(m, o, fill, old(group) + ([sample] + inner)) == AsList(bucket) + Remaining()
    {
      hide Feed, SlotRow, InteriorGap, Upcoming, Runs, GapSlots, Rows, Output;
      ghost var rest := [sample] + inner;
      CloseStep(m, o, fill, rangeStart, group, rest);
      ReadableSuffix(group, rest);
      assert rest[0] == sample;
      bucket := CompleteBucket(Some(sample.ts));
      StartNewBucket(sample);
      assert group + inner == rest;
    }

    /** One turn of the `process_bucket` loop: a sample joins its bucket or ends it. */
    method ReadSample() returns (bucket: Option<Row>)
      requires Valid() && init && run.IsEmpty() && inner != []
      modifies this
      ensures Valid() && init && inner == old(inner)[1..]
      ensures bucket.None? ==> run.IsEmpty() && Remaining() == old(Remaining())
      ensures bucket.Some? ==> old(Remaining()) == [bucket.value] + Remaining()
    {
      hide Feed, SlotRow, InteriorGap, Upcoming, Runs, GapSlots, Rows, Output;
      WhenDrained();
      var sample := inner[0];
      ghost var all := group + inner;
      inner := inner[1..];
      assert all == group + ([sample] + inner) == (group + [sample]) + inner;
      assert all[|group|] == sample && all[0] == group[0];
      BoundaryTest(o, rangeStart, group, sample);
      if sample.ts < rangeEnd {
        Update(sample);
        bucket := None;
        WhenDrained();
      } else {
        bucket := EndBucket(sample);
      }
    }

    /** `process_bucket`: read on until some bucket ends and has a row. */
    method ProcessBucket() returns (bucket: Option<Row>)
      requires Valid() && init && run.IsEmpty()
      modifies this
      ensures Valid() && init
      ensures bucket.Some? ==> old(Remaining()) == [bucket.value] + Remaining()
      ensures bucket.None? ==> Remaining() == old(Remaining()) && run.IsEmpty() && inner == []
    {
      hide *;
      while inner != []
        invariant Valid() && init && run.IsEmpty()
        invariant Remaining() == old(Remaining())
        decreases |inner|
      {
        bucket := ReadSample();
        if bucket.Some? {
          return;
        }
      }
      bucket := None;
    }

    /** `finalize_last_bucket_if_any`: the bucket the stream ended in, then the trailing gap. */
    method FinalizeLastBucket() returns (bucket: Option<Row>)
      requires Valid() && init && run.IsEmpty() && inner == []
      modifies this
      ensures Valid() && init && !sawSample
      ensures bucket.None? ==> Remaining() == old(Remaining())
      ensures bucket.Some? ==> old(Remaining()) == [bucket.value] + Remaining()
    {
      hide Feed, SlotRow, Upcoming, Runs, Rows, GapSlots, Output;
      if !sawSample {
        return None;
      }
      WhenDrained();
      assert group + inner == group + [];
      CloseStep(m, o, fill, rangeStart, group, []);
      bucket := CompleteBucket(None);
      if o.reportEmpty && fill.end.Some? {
        QueueRun(rangeEnd, o.EndOf(o.StartOf(fill.end.value)));
      }
      assert Pending() == TrailingGap(o, fill, rangeStart);
      assert group + inner == [];
    }

    /** With no run pending the remaining rows are the stream's. */
    lemma WhenDrained()
      requires Valid() && run.IsEmpty()
      ensures Pending() == [] && Remaining() == Later()
      ensures init && !sawSample ==> Remaining() == []
    {
      hide Feed, SlotRow, Runs, SlotsFrom, Upcoming, Output, Rows, Readable;
      OutputSplits(m, o, fill, []);
      assert init && !sawSample ==> group + inner == [];
    }

    /** `next`: the first of the remaining rows, and the others stay. */
    method Next() returns (row: Option<Row>)
      requires Valid()
      modifies this
      ensures Valid()
      ensures row.None? ==> old(Remaining()) == [] == Remaining()
      ensures row.Some? ==> old(Remaining()) == [row.value] + Remaining()
    {
      hide *;
      row := PopEmptyBucket();
      if row.Some? {
        return;
      }
      var hasSamples := EnsureInitialized();
      row := PopEmptyBucket();
      if row.Some? {
        return;
      }
      if !hasSamples {
        WhenDrained();
        return;
      }
      row := ProcessBucket();
      if row.Some? {
        return;
      }
      row := FinalizeLastBucket();
      if row.None? {
        row := PopEmptyBucket();
        if row.None? { WhenDrained(); }
      }
    }
  }

  /** Drain an iterator: `collect`. It yields the specified output, and always ends. */
  method Collect(m: Machine, o: AggregationOptions, fill: EmptyFillBounds, samples: seq<Sample>)
    returns (rows: seq<Row>)
    requires o.Valid() && fill.Valid() && Readable(samples)
    ensures rows == Output(m, o, fill, samples)
  {
    hide *;
    var iter := new MultiAggregateIterator(m, o, fill, samples);
    rows := [];
    var row := iter.Next();
    while row.Some?
      invariant iter.Valid()
      invariant row.Some? ==> rows + [row.value] + iter.Remaining() == Output(m, o, fill, samples)
      invariant row.None? ==> rows == Output(m, o, fill, samples)
      decreases row.Some?, |iter.Remaining()|
    {
      rows := rows + [row.value];
      ghost var left := iter.Remaining();
      row := iter.Next();
      assert row.Some? ==> rows + left == rows + [row.value] + iter.Remaining();
      assert row.None? ==> rows + left == rows;
    }
  }
}
