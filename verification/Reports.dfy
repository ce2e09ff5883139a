/** What the rows of a series are, column by column, from the options and the samples alone. */
module Reports {
  import opened Values
  import opened Aggregators
  import opened BucketGrid
  import opened BucketMeaning
  import opened Timeline
  import opened AggregateIterator
  import opened BucketOutput
  import opened Streams
  import opened Pipelines

  ghost predicate ConfigsValid(o: AggregationOptions) {
    forall c :: 0 <= c < |o.aggregations| ==> o.aggregations[c].Valid()
  }

  /** Column `c` of a bucket that holds the given samples. */
  ghost function ColumnReport(m: Machine, o: AggregationOptions, c: nat, samples: seq<Sample>): Value
    requires o.Valid() && c < |o.aggregations|
  {
    BucketReport(m, o.aggregations[c], o.bucketDuration, samples)
  }

  ghost predicate Considered(o: AggregationOptions, c: nat, samples: seq<Sample>)
    requires c < |o.aggregations|
  {
    exists i :: 0 <= i < |samples| && Considers(o.aggregations[c], samples[i].value)
  }

  /** What the iterator's accumulators report, and when: filled, ignored and empty buckets alike. */
  lemma ColumnMeaning(m: Machine, o: AggregationOptions, group: seq<Sample>, c: nat)
    requires o.Valid() && c < |o.aggregations| && o.aggregations[c].Valid() && StrictlyLater(group)
    ensures Aggregates(m, o, group)[c] == ColumnReport(m, o, c, group)
    ensures EmptyValues(o.Fresh())[c] == ColumnReport(m, o, c, [])
    ensures Feed(m, o.Fresh()[c], group).1 <==> Considered(o, c, group)
    ensures !Considered(o, c, group) ==> ColumnReport(m, o, c, group) == ColumnReport(m, o, c, [])
  {
    hide BucketReport, Considers, Create, WithWindow, Finalize, IsFresh, Aggregators.Update;
    ReportMeaning(m, o.aggregations[c], o.bucketDuration, group);
    ReportMeaning(m, o.aggregations[c], o.bucketDuration, []);
    FreshAccepts(m, o.aggregations[c], o.bucketDuration, 0, NaN);
    NothingAcceptedNothingReported(m, o.Fresh()[c], []);
    if !Feed(m, o.Fresh()[c], group).1 { NothingAcceptedNothingReported(m, o.Fresh()[c], group); }
  }

  function SamplesIn(slot: Slot): seq<Sample> { if slot.Filled? then slot.group else [] }

  /** A bucket's row: whether there is one, where it is reported, and every column of it. */
  lemma SlotMeaning(m: Machine, o: AggregationOptions, slot: Slot)
    requires o.Valid() && ConfigsValid(o) && StrictlyLater(SamplesIn(slot))
    ensures var row := SlotRow(m, o, slot);
            && (row.Some? <==>
                  o.reportEmpty || slot.Gap? || exists c :: 0 <= c < |o.aggregations| && Considered(o, c, slot.group))
            && (row.Some? ==> IsRow(m, o, slot.start, SamplesIn(slot), row.value))
  {
    hide Aggregates, EmptyValues, Considered, ColumnReport, AggregationOptions.Fresh, Feed;
    Lengths(m, o, SamplesIn(slot));
    forall c | 0 <= c < |o.aggregations|
      ensures Feed(m, o.Fresh()[c], SamplesIn(slot)).1 <==> Considered(o, c, SamplesIn(slot))
      ensures Aggregates(m, o, SamplesIn(slot))[c] == ColumnReport(m, o, c, SamplesIn(slot))
      ensures EmptyValues(o.Fresh())[c] == ColumnReport(m, o, c, [])
      ensures !Considered(o, c, SamplesIn(slot)) ==> ColumnReport(m, o, c, SamplesIn(slot)) == ColumnReport(m, o, c, [])
    {
      ColumnMeaning(m, o, SamplesIn(slot), c);
    }
  }

  lemma Lengths(m: Machine, o: AggregationOptions, group: seq<Sample>)
    requires o.Valid()
    ensures |Aggregates(m, o, group)| == |EmptyValues(o.Fresh())| == |o.aggregations| == |o.Fresh()|
  {
  }

  /** `row` reports the bucket that starts at `b` and holds `samples`. */
  ghost predicate IsRow(m: Machine, o: AggregationOptions, b: int, samples: seq<Sample>, row: Row)
    requires o.Valid()
  {
    && row.ts == o.RenderAt(b)
    && |row.values| == |o.aggregations|
    && forall c :: 0 <= c < |o.aggregations| ==> row.values[c] == ColumnReport(m, o, c, samples)
  }

  /** Where a bucket is reported: at its start, at the start of the next bucket, or half way there. */
  lemma RenderedAt(o: AggregationOptions, b: int)
    requires o.Valid() && OnGrid(o, b) && b < I64_MAX
    ensures var at, d, start := o.RenderAt(b), o.bucketDuration, if b < 0 then 0 else b;
            && 0 <= at <= I64_MAX
            && (start + d <= I64_MAX ==>
                  match o.timestampOutput
                  case Start => at == start
                  case End => at == start + d && (b >= 0 ==> o.StartOf(at) == at && o.StartOf(at - 1) == b)
                  case Mid => d - 1 <= 2 * (at - start) <= d && (b >= 0 ==> o.StartOf(at) == b))
  {
    hide Render, Aligned;
    var d := o.bucketDuration;
    RenderPlaces(b, o.alignTimestamp, d);
    RenderPlaces(0, 0, d);
    if 0 <= b && b + d <= I64_MAX {
      StartUnique(b + d, b + d, o.alignTimestamp, d);
    }
  }

  // -- which samples a slot holds ---------------------------------------------------------------------

  lemma {:induction false} GapsOnly(o: AggregationOptions, next: int, end: int)
    requires o.Valid()
    ensures forall slot :: slot in GapSlots(o, next, end) ==> slot.Gap?
    decreases I64_MAX - next
  {
    if next < end && next < I64_MAX { GapsOnly(o, o.EndOf(next), end); }
  }

  lemma {:induction false} FilledAreRuns(o: AggregationOptions, fill: EmptyFillBounds, runs: seq<(int, seq<Sample>)>)
    requires o.Valid()
    ensures forall b, group :: Filled(b, group) in SlotsFrom(o, fill, runs) <==> (b, group) in runs
  {
    hide GapSlots;
    if runs != [] {
      FilledAreRuns(o, fill, runs[1..]);
      var b := runs[0].0;
      if |runs| == 1 {
        if o.reportEmpty && fill.end.Some? { GapsOnly(o, o.EndOf(b), o.EndOf(o.StartOf(fill.end.value))); }
      } else if o.reportEmpty {
        GapsOnly(o, o.StartOf(o.EndOf(b) + 1), runs[1].0);
      }
      var gap := if |runs| == 1 then TrailingGap(o, fill, b) else InteriorGap(o, b, runs[1].0);
      assert SlotsFrom(o, fill, runs) == [Filled(runs[0].0, runs[0].1)] + gap + SlotsFrom(o, fill, runs[1..]);
      assert runs == [runs[0]] + runs[1..];
    }
  }

  lemma FilledInSlots(o: AggregationOptions, fill: EmptyFillBounds, samples: seq<Sample>)
    requires o.Valid()
    ensures forall b, group :: Filled(b, group) in Slots(o, fill, samples) <==> (b, group) in Runs(o.Bucket(), samples)
  {
    hide GapSlots, SlotsFrom, Runs;
    NoRuns(o);
    if samples != [] {
      FilledAreRuns(o, fill, Runs(o.Bucket(), samples));
      if o.reportEmpty && fill.start.Some? { GapsOnly(o, o.StartOf(fill.start.value), o.StartOf(samples[0].ts)); }
    } else if o.reportEmpty && fill.start.Some? && fill.end.Some? {
      GapsOnly(o, o.StartOf(fill.start.value), o.EndOf(o.StartOf(fill.end.value)));
    }
  }

  lemma NoRuns(o: AggregationOptions)
    ensures Runs(o.Bucket(), []) == []
  {
  }

  /** A slot holds exactly the samples of its grid bucket, a gap none; no bucket with samples is left out. */
  lemma SlotSamples(o: AggregationOptions, fill: EmptyFillBounds, samples: seq<Sample>)
    requires o.Valid() && Readable(samples) && fill.Valid()
    ensures forall i :: 0 <= i < |Slots(o, fill, samples)| ==>
              var slot := Slots(o, fill, samples)[i];
              OnGrid(o, slot.start) && SamplesIn(slot) == With(o.Bucket(), slot.start, samples)
    ensures forall b :: HasKey(o.Bucket(), b, samples) ==>
              Filled(b, With(o.Bucket(), b, samples)) in Slots(o, fill, samples)
  {
    hide Slots, Runs, With, HasKey, Aligned, AggregationOptions.Bucket, Readable;
    var slots, key := Slots(o, fill, samples), o.Bucket();
    BucketsSorted(o, samples);
    SlotsPlaced(o, fill, samples);
    FilledInSlots(o, fill, samples);
    forall b, group
      ensures Filled(b, group) in slots <==> HasKey(key, b, samples) && group == With(key, b, samples)
    {
      RunMembers(key, samples, b, group);
    }
    forall i | 0 <= i < |slots|
      ensures SamplesIn(slots[i]) == With(key, slots[i].start, samples)
    {
      var b := slots[i].start;
      if slots[i].Filled? {
        assert Filled(b, slots[i].group) in slots;
      } else {
        NoTwin(slots, i);
        assert Filled(b, With(key, b, samples)) !in slots;
        WithNone(key, b, samples);
      }
    }
  }

  /** Where starts ascend a gap has no filled twin. */
  lemma NoTwin(slots: seq<Slot>, i: nat)
    requires Ascending(BucketOutput.Start, slots) && i < |slots| && slots[i].Gap?
    ensures forall group :: Filled(slots[i].start, group) !in slots
  {
    forall j | 0 <= j < |slots|
      ensures slots[j].Filled? ==> slots[j].start != slots[i].start
    {
      if i < j {
        assert BucketOutput.Start(slots[i]) < BucketOutput.Start(slots[j]);
      } else if j < i {
        assert BucketOutput.Start(slots[j]) < BucketOutput.Start(slots[i]);
      }
    }
  }

  lemma {:induction false} WithLater(key: Sample -> int, k: int, samples: seq<Sample>)
    requires StrictlyLater(samples)
    ensures StrictlyLater(With(key, k, samples))
    ensures forall s :: s in With(key, k, samples) ==> s in samples
  {
    if samples != [] {
      var rest := samples[1..];
      WithLater(key, k, rest);
      forall s | s in With(key, k, rest)
        ensures samples[0].ts < s.ts
      {
        var j :| 0 <= j < |rest| && rest[j] == s;
        assert samples[j + 1] == s;
      }
    }
  }

  /**
   * The iterator's output: every row reports a grid bucket, at the place asked for, each column by
   * its own type over exactly the samples in that bucket; and every bucket that holds a sample some
   * column considers, or with EMPTY any sample at all, has its row.
   */
  lemma OutputMeaning(m: Machine, o: AggregationOptions, fill: EmptyFillBounds, samples: seq<Sample>)
    requires o.Valid() && ConfigsValid(o) && Readable(samples) && StrictlyLater(samples) && fill.Valid()
    ensures forall row :: row in Output(m, o, fill, samples) ==> exists b :: Reports(m, o, samples, b, row)
    ensures forall b :: HasKey(o.Bucket(), b, samples) && Reported(o, samples, b) ==>
              exists row :: row in Output(m, o, fill, samples) && Reports(m, o, samples, b, row)
  {
    hide Slots, SlotRow, Rows, With, HasKey, IsRow, Aligned, Considered, AggregationOptions.Bucket, StrictlyLater, Readable;
    var slots := Slots(o, fill, samples);
    SlotSamples(o, fill, samples);
    RowSources(m, o, slots);
    forall i | 0 <= i < |slots|
      ensures StrictlyLater(SamplesIn(slots[i]))
    {
      WithLater(o.Bucket(), slots[i].start, samples);
    }
    forall row | row in Output(m, o, fill, samples)
      ensures exists b :: Reports(m, o, samples, b, row)
    {
      var i :| 0 <= i < |slots| && SlotRow(m, o, slots[i]) == Some(row);
      SlotMeaning(m, o, slots[i]);
      if slots[i].Gap? { GapIsAsked(o, fill, samples, slots[i]); }
      assert Reports(m, o, samples, slots[i].start, row);
    }
    forall b | HasKey(o.Bucket(), b, samples) && Reported(o, samples, b)
      ensures exists row :: row in Output(m, o, fill, samples) && Reports(m, o, samples, b, row)
    {
      var slot := Filled(b, With(o.Bucket(), b, samples));
      assert slot in slots;
      var i :| 0 <= i < |slots| && slots[i] == slot;
      SlotMeaning(m, o, slots[i]);
      assert Reports(m, o, samples, b, SlotRow(m, o, slots[i]).value);
    }
  }

  /** Whether a bucket has something to report. */
  ghost predicate Reported(o: AggregationOptions, samples: seq<Sample>, b: int)
    requires o.Valid()
  {
    o.reportEmpty || exists c :: 0 <= c < |o.aggregations| && Considered(o, c, With(o.Bucket(), b, samples))
  }

  /** `row` is the report of the grid bucket that starts at `b`. */
  ghost predicate Reports(m: Machine, o: AggregationOptions, samples: seq<Sample>, b: int, row: Row)
    requires o.Valid()
  {
    && OnGrid(o, b) && Reported(o, samples, b)
    && IsRow(m, o, b, With(o.Bucket(), b, samples), row)
  }

  /** Only EMPTY makes gaps. */
  lemma GapIsAsked(o: AggregationOptions, fill: EmptyFillBounds, samples: seq<Sample>, slot: Slot)
    requires o.Valid() && slot in Slots(o, fill, samples) && slot.Gap?
    ensures o.reportEmpty
  {
    hide Runs;
    if !o.reportEmpty { NoGaps(o, fill, Runs(o.Bucket(), samples)); }
  }

  lemma {:induction false} NoGaps(o: AggregationOptions, fill: EmptyFillBounds, runs: seq<(int, seq<Sample>)>)
    requires o.Valid() && !o.reportEmpty
    ensures forall slot :: slot in SlotsFrom(o, fill, runs) ==> slot.Filled?
  {
    if runs != [] { NoGaps(o, fill, runs[1..]); }
  }

  // -- the rows of a series ----------------------------------------------------------------------------

  /**
   * An AGGREGATION query's rows of a series: the iterator's, and with EMPTY exactly the `last` columns
   * show the most recent number, reaching back to the number carried into the query.
   */
  lemma AggregatedRows(m: Machine, q: Query, samples: seq<Sample>, fill: EmptyFillBounds)
    requires q.Valid() && q.aggregation.Some?
    ensures var o := q.aggregation.value;
            var rows, all := SeriesRows(m, q, samples, fill), Output(m, o, fill, samples);
            && |rows| == |all|
            && forall i :: 0 <= i < |all| ==>
                 && rows[i].ts == all[i].ts && |rows[i].values| == |all[i].values| == |o.aggregations|
                 && forall c :: 0 <= c < |o.aggregations| ==>
                      rows[i].values[c] ==
                      if o.reportEmpty && o.aggregations[c].aggregation.Last?
                      then LastNumber(fill.carrySeed, c, all[..i + 1]) else all[i].values[c]
  {
    hide Output, CarryLast, LastNumber;
    var o := q.aggregation.value;
    var rows, all := SeriesRows(m, q, samples, fill), Output(m, o, fill, samples);
    OutputWide(m, o, fill, samples);
    if o.reportEmpty {
      forall i, c | 0 <= i < |all| && 0 <= c < |o.aggregations|
        ensures rows[i].values[c] ==
                if o.aggregations[c].aggregation.Last? then LastNumber(fill.carrySeed, c, all[..i + 1])
                else all[i].values[c]
      {
        CarryMeaning(LastColumns(o), seq(|o.aggregations|, j => fill.carrySeed), all, i, c);
      }
    }
  }

  lemma OutputWide(m: Machine, o: AggregationOptions, fill: EmptyFillBounds, samples: seq<Sample>)
    requires o.Valid()
    ensures Wide(|o.aggregations|, Output(m, o, fill, samples))
  {
    hide SlotRow, Slots, Rows;
    var slots, rows := Slots(o, fill, samples), Output(m, o, fill, samples);
    RowSources(m, o, slots);
    forall i | 0 <= i < |rows|
      ensures |rows[i].values| == |o.aggregations|
    {
      assert rows[i] in rows;
      var j :| 0 <= j < |slots| && SlotRow(m, o, slots[j]) == Some(rows[i]);
      SlotRowAt(m, o, slots[j]);
    }
  }

  /** Something is reported of a bucket only if it holds a sample, unless EMPTY is asked for. */
  lemma ReportedHolds(o: AggregationOptions, samples: seq<Sample>, b: int)
    requires o.Valid() && !o.reportEmpty && Reported(o, samples, b)
    ensures HasKey(o.Bucket(), b, samples)
  {
    hide With, HasKey, AggregationOptions.Bucket;
    WithNone(o.Bucket(), b, samples);
  }

  /** A bucket with something to report is reported at `t`. */
  ghost predicate BucketAt(o: AggregationOptions, samples: seq<Sample>, t: int, b: int)
    requires o.Valid()
  {
    o.RenderAt(b) == t && HasKey(o.Bucket(), b, samples) && Reported(o, samples, b)
  }

  lemma RowsAreBuckets(m: Machine, o: AggregationOptions, fill: EmptyFillBounds, samples: seq<Sample>)
    requires o.Valid() && ConfigsValid(o) && Readable(samples) && StrictlyLater(samples) && fill.Valid() && !o.reportEmpty
    ensures forall row :: row in Output(m, o, fill, samples) ==>
              exists b :: BucketAt(o, samples, row.ts, b) && Reports(m, o, samples, b, row)
    ensures forall t, b :: BucketAt(o, samples, t, b) ==> exists row :: row in Output(m, o, fill, samples) && row.ts == t
  {
    hide Output, HasKey, Reported, Reports, AggregationOptions.Bucket, AggregationOptions.RenderAt, Readable, StrictlyLater;
    OutputMeaning(m, o, fill, samples);
    forall row | row in Output(m, o, fill, samples)
      ensures exists b :: BucketAt(o, samples, row.ts, b) && Reports(m, o, samples, b, row)
    {
      var b :| Reports(m, o, samples, b, row);
      RowPlace(m, o, samples, b, row);
      assert BucketAt(o, samples, row.ts, b);
    }
    forall t, b | BucketAt(o, samples, t, b)
      ensures exists row :: row in Output(m, o, fill, samples) && row.ts == t
    {
      var row :| row in Output(m, o, fill, samples) && Reports(m, o, samples, b, row);
      RowPlace(m, o, samples, b, row);
    }
  }

  /**
   * A member of an AGGREGATION query has a row at a timestamp exactly when one of its buckets is
   * reported there, and the row is that bucket's.
   */
  lemma AggregatedMember(m: Machine, q: Query, s: Source, t: int)
    requires q.Valid() && q.aggregation.Some? && !q.FillsEmpty() && ConfigsValid(q.aggregation.value) && s.Valid()
    ensures var o, rows := q.aggregation.value, With(RowTs, t, SeriesRows(m, q, s.samples, s.fill));
            && (rows != [] <==> exists b :: BucketAt(o, s.samples, t, b))
            && forall row :: row in rows ==> exists b :: BucketAt(o, s.samples, t, b) && Reports(m, o, s.samples, b, row)
  {
    hide Output, With, HasKey, BucketAt, Reports, Readable, StrictlyLater, ConfigsValid;
    var o, all := q.aggregation.value, SeriesRows(m, q, s.samples, s.fill);
    SourceReadable(s);
    SourceLater(s);
    RowsAreBuckets(m, o, s.fill, s.samples);
    WithNone(RowTs, t, all);
    WithMembers(RowTs, t, all);
    HasRowAt(t, all);
  }

  lemma SourceLater(s: Source)
    requires s.Valid()
    ensures StrictlyLater(s.samples)
  {
    forall i, j | 0 <= i < j < |s.samples|
      ensures s.samples[i].ts < s.samples[j].ts
    {
      assert TsOf(s.samples[i]) < TsOf(s.samples[j]);
    }
  }

  lemma RowPlace(m: Machine, o: AggregationOptions, samples: seq<Sample>, b: int, row: Row)
    requires o.Valid() && Reports(m, o, samples, b, row)
    ensures row.ts == o.RenderAt(b) && Reported(o, samples, b)
    ensures !o.reportEmpty ==> HasKey(o.Bucket(), b, samples)
  {
    hide HasKey, Reported, AggregationOptions.Bucket;
    if !o.reportEmpty { ReportedHolds(o, samples, b); }
  }

  lemma HasRowAt(t: int, rows: seq<Row>)
    ensures HasKey(RowTs, t, rows) <==> exists row :: row in rows && row.ts == t
  {
    if HasKey(RowTs, t, rows) {
      var i :| 0 <= i < |rows| && RowTs(rows[i]) == t;
      assert rows[i] in rows;
    }
    if exists row :: row in rows && row.ts == t {
      var row :| row in rows && row.ts == t;
      var i :| 0 <= i < |rows| && rows[i] == row;
      assert RowTs(rows[i]) == t;
    }
  }

  lemma {:induction false} WithMembers(key: Row -> int, k: int, rows: seq<Row>)
    ensures forall row :: row in With(key, k, rows) ==> row in rows && key(row) == k
  {
    if rows != [] { WithMembers(key, k, rows[1..]); }
  }
}
