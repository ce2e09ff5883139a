/**
 * One pass with several aggregators against one pass per aggregator
 * (`MultiAggregateIterator` and `AggregateIterator`).
 */
module Columns {
  import opened Values
  import opened Aggregators
  import opened Timeline
  import opened AggregateIterator
  import opened BucketOutput
  import BucketGrid

  /** The same query asked for column `i` alone. */
  function Single(o: AggregationOptions, i: nat): AggregationOptions
    requires i < |o.aggregations|
  {
    AggregationOptions([o.aggregations[i]], o.bucketDuration, o.timestampOutput, o.alignTimestamp, o.reportEmpty)
  }

  ghost predicate SameGrid(o: AggregationOptions, p: AggregationOptions) {
    && o.bucketDuration == p.bucketDuration && o.timestampOutput == p.timestampOutput
    && o.alignTimestamp == p.alignTimestamp && o.reportEmpty == p.reportEmpty
  }

  lemma {:induction false} SameGaps(o: AggregationOptions, p: AggregationOptions, next: int, end: int)
    requires o.Valid() && p.Valid() && SameGrid(o, p)
    ensures GapSlots(o, next, end) == GapSlots(p, next, end)
    decreases I64_MAX - next
  {
    if next < end && next < I64_MAX { SameGaps(o, p, o.EndOf(next), end); }
  }

  lemma {:induction false} SameSlotsFrom(o: AggregationOptions, p: AggregationOptions, fill: EmptyFillBounds,
                                         runs: seq<(int, seq<Sample>)>)
    requires o.Valid() && p.Valid() && SameGrid(o, p)
    ensures SlotsFrom(o, fill, runs) == SlotsFrom(p, fill, runs)
  {
    hide GapSlots;
    if runs != [] {
      SameSlotsFrom(o, p, fill, runs[1..]);
      var b := runs[0].0;
      if fill.end.Some? { SameGaps(o, p, o.EndOf(b), o.EndOf(o.StartOf(fill.end.value))); }
      if |runs| > 1 { SameGaps(o, p, o.StartOf(o.EndOf(b) + 1), runs[1].0); }
    }
  }

  /** Which slots there are does not depend on the aggregators. */
  lemma SameSlots(o: AggregationOptions, p: AggregationOptions, fill: EmptyFillBounds, samples: seq<Sample>)
    requires o.Valid() && p.Valid() && SameGrid(o, p)
    ensures Slots(o, fill, samples) == Slots(p, fill, samples)
  {
    hide GapSlots, SlotsFrom;
    SameSlotsFrom(o, p, fill, Runs(o.Bucket(), samples));
    if fill.start.Some? {
      if samples != [] { SameGaps(o, p, o.StartOf(fill.start.value), o.StartOf(samples[0].ts)); }
      if fill.end.Some? {
        SameGaps(o, p, o.StartOf(fill.start.value), o.EndOf(o.StartOf(fill.end.value)));
      }
    }
  }

  lemma ColumnFresh(o: AggregationOptions, i: nat)
    requires o.Valid() && i < |o.aggregations|
    ensures IsFresh(o.Fresh()[i])
  {
  }

  /** At one slot: column `i` is the single aggregator's value, or its fill where that has no row. */
  lemma ColumnAtSlot(m: Machine, o: AggregationOptions, slot: Slot, i: nat)
    requires o.Valid() && i < |o.aggregations|
    ensures var all, one := SlotRow(m, o, slot), SlotRow(m, Single(o, i), slot);
            && (one.Some? ==> all.Some?)
            && (all.Some? ==> |all.value.values| == |o.aggregations|)
            && (one.Some? ==> one.value == Row(all.value.ts, [all.value.values[i]]))
            && (all.Some? && one.None? ==> all.value.values[i] == EmptyValue(o.Fresh()[i]))
  {
    hide Feed, EmptyValue, Finalize, Create;
    var p := Single(o, i);
    var a := o.Fresh()[i];
    assert p.Fresh() == [a];
    if slot.Filled? {
      var fed := Feed(m, a, slot.group);
      assert AnyAccepted(m, p, slot.group) <==> Feed(m, p.Fresh()[0], slot.group).1;
      assert Aggregates(m, p, slot.group) == [Finalize(m, fed.0)];
      if !fed.1 {
        ColumnFresh(o, i);
        NothingAcceptedNothingReported(m, a, slot.group);
      }
    }
  }

  lemma SomeColumnAtSlot(m: Machine, o: AggregationOptions, slot: Slot) returns (i: nat)
    requires o.Valid() && o.aggregations != []
    requires SlotRow(m, o, slot).Some?
    ensures i < |o.aggregations| && SlotRow(m, Single(o, i), slot).Some?
  {
    hide Feed, Aggregates, EmptyValues;
    i := 0;
    if slot.Filled? && AnyAccepted(m, o, slot.group) {
      i :| 0 <= i < |o.aggregations| && Feed(m, o.Fresh()[i], slot.group).1;
      assert Single(o, i).Fresh()[0] == o.Fresh()[i];
    }
  }

  /**
   * Column `i` of the joint pass agrees with the pass of aggregator `i` alone wherever that one
   * emits, and holds aggregator `i`'s fill value everywhere else.
   */
  lemma ColumnsAgree(m: Machine, o: AggregationOptions, fill: EmptyFillBounds, samples: seq<Sample>,
                     i: nat, row: Row)
    requires o.Valid() && Readable(samples) && fill.Valid() && i < |o.aggregations|
    requires row in Output(m, o, fill, samples)
    ensures |row.values| == |o.aggregations|
    ensures HasKey(RowTs, row.ts, Output(m, Single(o, i), fill, samples))
            ==> Row(row.ts, [row.values[i]]) in Output(m, Single(o, i), fill, samples)
    ensures !HasKey(RowTs, row.ts, Output(m, Single(o, i), fill, samples))
            ==> row.values[i] == EmptyValue(o.Fresh()[i])
  {
    hide SlotRow, Rows, Slots, Placed, EmptyValue, AggregationOptions.Fresh, BucketGrid.Render;
    var p := Single(o, i);
    var slots := Slots(o, fill, samples);
    SameSlots(o, p, fill, samples);
    SlotsPlaced(o, fill, samples);
    RowSources(m, o, slots);
    RowSources(m, p, slots);
    var k :| 0 <= k < |slots| && SlotRow(m, o, slots[k]) == Some(row);
    ColumnAtSlot(m, o, slots[k], i);
    SlotRowAt(m, o, slots[k]);
    var single := Rows(m, p, slots);
    if SlotRow(m, p, slots[k]).Some? {
      var r := SlotRow(m, p, slots[k]).value;
      var q :| 0 <= q < |single| && single[q] == r;
      assert RowTs(single[q]) == row.ts;
    } else if HasKey(RowTs, row.ts, single) {
      var q :| 0 <= q < |single| && RowTs(single[q]) == row.ts;
      assert single[q] in single;
      var j :| 0 <= j < |slots| && SlotRow(m, p, slots[j]) == Some(single[q]);
      SlotRowAt(m, p, slots[j]);
      if j < k { PlacedRender(o, slots, j, k); } else if k < j { PlacedRender(o, slots, k, j); }
    }
  }

  /** The joint pass reports exactly the timestamps some single pass reports. */
  lemma TimestampsAreUnion(m: Machine, o: AggregationOptions, fill: EmptyFillBounds, samples: seq<Sample>, t: int)
    requires o.Valid() && o.aggregations != []
    ensures HasKey(RowTs, t, Output(m, o, fill, samples))
            <==> exists i :: 0 <= i < |o.aggregations| && HasKey(RowTs, t, Output(m, Single(o, i), fill, samples))
  {
    hide SlotRow, Rows, Slots, BucketGrid.Render;
    var slots := Slots(o, fill, samples);
    var all := Rows(m, o, slots);
    RowSources(m, o, slots);
    if HasKey(RowTs, t, all) {
      var q :| 0 <= q < |all| && RowTs(all[q]) == t;
      assert all[q] in all;
      var k :| 0 <= k < |slots| && SlotRow(m, o, slots[k]) == Some(all[q]);
      var i := SomeColumnAtSlot(m, o, slots[k]);
      SameSlots(o, Single(o, i), fill, samples);
      RowSources(m, Single(o, i), slots);
      SlotRowAt(m, o, slots[k]);
      SlotRowAt(m, Single(o, i), slots[k]);
      HasRow(SlotRow(m, Single(o, i), slots[k]).value, Rows(m, Single(o, i), slots));
    }
    if i :| 0 <= i < |o.aggregations| && HasKey(RowTs, t, Output(m, Single(o, i), fill, samples)) {
      SameSlots(o, Single(o, i), fill, samples);
      RowSources(m, Single(o, i), slots);
      var one := Rows(m, Single(o, i), slots);
      var q :| 0 <= q < |one| && RowTs(one[q]) == t;
      assert one[q] in one;
      var k :| 0 <= k < |slots| && SlotRow(m, Single(o, i), slots[k]) == Some(one[q]);
      ColumnAtSlot(m, o, slots[k], i);
      HasRow(SlotRow(m, o, slots[k]).value, all);
    }
  }

  lemma HasRow(row: Row, rows: seq<Row>)
    requires row in rows
    ensures HasKey(RowTs, row.ts, rows)
  {
    var q :| 0 <= q < |rows| && rows[q] == row;
    assert RowTs(rows[q]) == row.ts;
  }
}
