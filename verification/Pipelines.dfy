/** The per-series pipeline of a range query (`src/iterators/utils.rs`), always ascending. */
module Pipelines {
  import opened Values
  import opened Aggregators
  import opened Partials
  import opened Timeline
  import opened AggregateIterator
  import opened BucketOutput
  import opened Streams

  /** A series as a query sees it: its group label, its filtered samples, its EMPTY bounds. */
  datatype Source = Source(key: string, tag: Option<string>, samples: seq<Sample>, fill: EmptyFillBounds) {
    ghost predicate Valid() {
      && Ascending(TsOf, samples)
      && (forall i :: 0 <= i < |samples| ==> 0 <= samples[i].ts < I64_MAX)
      && fill.Valid()
    }
  }

  /** `TS.MRANGE` / `TS.MREVRANGE` with GROUPBY .. REDUCE. */
  datatype Query = Query(aggregation: Option<AggregationOptions>, reducer: AggregatorConfig,
                         reverse: bool, count: Option<nat>) {
    predicate Valid() {
      aggregation.Some? ==> aggregation.value.Valid() && aggregation.value.aggregations != []
    }

    /** The reducer has a partial form; first and last, whose ties are arbitrary, are not reducers. */
    predicate PushesDown() {
      && Valid()
      && reducer.Valid()
      && ForConfig(reducer).Some?
      && OrderInsensitive(ForConfig(reducer).value.kind)
    }

    function Partial(): PartialReducer
      requires PushesDown()
    {
      ForConfig(reducer).value
    }

    function Columns(): (n: nat)
      requires Valid()
      ensures n > 0
    {
      if aggregation.Some? then |aggregation.value.aggregations| else 1
    }

    predicate IsMulti() { aggregation.Some? && |aggregation.value.aggregations| > 1 }

    predicate FillsEmpty() { aggregation.Some? && aggregation.value.reportEmpty }
  }

  function SampleRows(samples: seq<Sample>): seq<Row> {
    seq(|samples|, i requires 0 <= i < |samples| => Row(samples[i].ts, [samples[i].value]))
  }

  // -- `CarryLastEmpty` -------------------------------------------------------------------------

  function CarryValues(carry: seq<bool>, prev: seq<Value>, values: seq<Value>): (r: seq<Value>)
    ensures |r| == |values|
  {
    seq(|values|, i requires 0 <= i < |values| =>
      if i < |carry| && i < |prev| && carry[i] && values[i].NaN? then prev[i] else values[i])
  }

  /** Fills the `last` columns of an EMPTY query from the preceding bucket. */
  function CarryLast(carry: seq<bool>, prev: seq<Value>, rows: seq<Row>): (r: seq<Row>)
    ensures |r| == |rows|
    ensures forall i :: 0 <= i < |rows| ==> r[i].ts == rows[i].ts && |r[i].values| == |rows[i].values|
    decreases |rows|
  {
    if rows == [] then []
    else
      var values := CarryValues(carry, prev, rows[0].values);
      [Row(rows[0].ts, values)] + CarryLast(carry, values, rows[1..])
  }

  /** The most recent number of a column, or the seed. */
  function LastNumber(seed: Value, c: nat, rows: seq<Row>): Value {
    if rows == [] then seed
    else
      var row := rows[|rows| - 1];
      if c < |row.values| && row.values[c].Num? then row.values[c] else LastNumber(seed, c, rows[..|rows| - 1])
  }

  lemma {:induction false} LastNumberSplits(seed: Value, c: nat, first: Row, rest: seq<Row>)
    ensures LastNumber(seed, c, [first] + rest) == LastNumber(LastNumber(seed, c, [first]), c, rest)
  {
    var all := [first] + rest;
    if rest == [] {
      assert all == [first];
    } else {
      LastNumberSplits(seed, c, first, rest[..|rest| - 1]);
      assert all[..|all| - 1] == [first] + rest[..|rest| - 1];
    }
  }

  /** A `last` column reports, in every bucket, the most recent number; other columns are untouched. */
  lemma {:induction false} CarryMeaning(carry: seq<bool>, prev: seq<Value>, rows: seq<Row>, i: nat, c: nat)
    requires i < |rows| && c < |carry| == |prev| && Wide(|carry|, rows)
    ensures CarryLast(carry, prev, rows)[i].values[c]
            == if carry[c] then LastNumber(prev[c], c, rows[..i + 1]) else rows[i].values[c]
    decreases i
  {
    hide CarryLast, LastNumber, CarryValues, Wide;
    var rest := rows[1..];
    Prefixes(|carry|, rows, i);
    CarryStep(carry, prev, rows, c);
    if i > 0 {
      CarryMeaning(carry, CarryValues(carry, prev, rows[0].values), rest, i - 1, c);
      LastNumberSplits(prev[c], c, rows[0], rest[..i]);
    }
  }

  lemma Prefixes(columns: nat, rows: seq<Row>, i: nat)
    requires Wide(columns, rows) && i < |rows|
    ensures |rows[0].values| == |rows[i].values| == columns && Wide(columns, rows[1..])
    ensures rows[..1] == [rows[0]]
    ensures i > 0 ==> rows[..i + 1] == [rows[0]] + rows[1..][..i] && rows[1..][i - 1] == rows[i]
  {
  }

  lemma CarryStep(carry: seq<bool>, prev: seq<Value>, rows: seq<Row>, c: nat)
    requires rows != [] && c < |carry| == |prev| == |rows[0].values|
    ensures var values := CarryValues(carry, prev, rows[0].values);
            && CarryLast(carry, prev, rows) == [Row(rows[0].ts, values)] + CarryLast(carry, values, rows[1..])
            && values[c] == if carry[c] then LastNumber(prev[c], c, [rows[0]]) else rows[0].values[c]
  {
    assert [rows[0]][..0] == [];
    assert LastNumber(prev[c], c, []) == prev[c];
  }

  function LastColumns(o: AggregationOptions): seq<bool> {
    seq(|o.aggregations|, i requires 0 <= i < |o.aggregations| => o.aggregations[i].aggregation.Last?)
  }

  /** One series' rows, before any reversal or COUNT. */
  ghost function SeriesRows(m: Machine, q: Query, samples: seq<Sample>, fill: EmptyFillBounds): seq<Row>
    requires q.Valid()
  {
    if q.aggregation.None? then SampleRows(samples)
    else
      var o := q.aggregation.value;
      var rows := Output(m, o, fill, samples);
      if o.reportEmpty then CarryLast(LastColumns(o), seq(|o.aggregations|, i => fill.carrySeed), rows) else rows
  }

  lemma SeriesRowsShape(m: Machine, q: Query, s: Source)
    requires q.Valid() && s.Valid()
    ensures Ascending(RowTs, SeriesRows(m, q, s.samples, s.fill))
    ensures Wide(q.Columns(), SeriesRows(m, q, s.samples, s.fill))
  {
    hide Output, CarryLast, LastColumns;
    if q.aggregation.Some? {
      var o := q.aggregation.value;
      SourceReadable(s);
      OutputAscends(m, o, s.fill, s.samples);
      var rows, out := Output(m, o, s.fill, s.samples), SeriesRows(m, q, s.samples, s.fill);
      forall i | 0 <= i < |rows| ensures |rows[i].values| == q.Columns() { assert rows[i] in rows; }
      forall i, j | 0 <= i < j < |out|
        ensures RowTs(out[i]) < RowTs(out[j])
      {
        assert RowTs(rows[i]) < RowTs(rows[j]);
      }
    } else {
      SampleRowsAscend(s.samples);
    }
  }

  lemma SourceReadable(s: Source)
    requires s.Valid()
    ensures Readable(s.samples)
  {
  }

  lemma SampleRowsAscend(samples: seq<Sample>)
    requires Ascending(TsOf, samples)
    ensures Ascending(RowTs, SampleRows(samples))
  {
    forall i, j | 0 <= i < j < |samples|
      ensures RowTs(SampleRows(samples)[i]) < RowTs(SampleRows(samples)[j])
    {
      assert TsOf(samples[i]) < TsOf(samples[j]);
    }
  }

  lemma {:induction false} SlotsIgnoreFill(o: AggregationOptions, fill: EmptyFillBounds, fill': EmptyFillBounds,
                                           runs: seq<(int, seq<Sample>)>)
    requires o.Valid() && !o.reportEmpty
    ensures SlotsFrom(o, fill, runs) == SlotsFrom(o, fill', runs)
  {
    if runs != [] { SlotsIgnoreFill(o, fill, fill', runs[1..]); }
  }

  /** Without EMPTY the coordinator can aggregate raw samples itself: the bounds play no part. */
  lemma FillIrrelevant(m: Machine, q: Query, samples: seq<Sample>, fill: EmptyFillBounds, fill': EmptyFillBounds)
    requires q.Valid() && !q.FillsEmpty()
    ensures SeriesRows(m, q, samples, fill) == SeriesRows(m, q, samples, fill')
  {
    hide Rows, SlotsFrom, Runs;
    if q.aggregation.Some? {
      var o := q.aggregation.value;
      SlotsIgnoreFill(o, fill, fill', Runs(o.Bucket(), samples));
    }
  }
}
