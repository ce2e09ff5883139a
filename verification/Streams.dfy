/**
 * Group streams: a timestamp-ordered row stream reduced column by column, on one node to values
 * (`RowReducer`, and `SampleReducer` as its one-column case), on a shard to mergeable states
 * (`PartialRowReducer`, `PartialSampleReducer`).
 */
module Streams {
  import opened Values
  import opened Aggregators
  import opened Partials
  import opened GroupReduction
  import opened Timeline

  /** Column `c` of rows that have one. */
  function ColumnOf(c: nat, rows: seq<Row>): (vs: seq<Value>)
    ensures |vs| == |rows|
  {
    if rows == [] then []
    else
      var last := rows[|rows| - 1];
      ColumnOf(c, rows[..|rows| - 1]) + [if c < |last.values| then last.values[c] else NaN]
  }

  ghost predicate Wide(columns: nat, rows: seq<Row>) {
    forall i :: 0 <= i < |rows| ==> |rows[i].values| == columns
  }

  /** The reduced row of one timestamp. */
  function ReducedRow(m: Machine, config: AggregatorConfig, columns: nat, t: int, group: seq<Row>): Row {
    Row(t, seq(columns, c requires 0 <= c < columns => ReduceGroup(m, config, t, ColumnOf(c, group))))
  }

  /** A timestamp with one partial state per column. */
  datatype Bucket = Bucket(ts: int, states: seq<PartialState>)

  function BucketTs(b: Bucket): int { b.ts }

  /** The states of one timestamp. */
  function ReducedBucket(m: Machine, r: PartialReducer, columns: nat, t: int, group: seq<Row>): Bucket {
    Bucket(t, seq(columns, c requires 0 <= c < columns => Accumulate(m, r, t, ColumnOf(c, group))))
  }

  // -- consecutive rows of equal timestamp become one item ------------------------------------------

  function PerTimestamp<U>(f: (int, seq<Row>) -> U, rows: seq<Row>): seq<U> {
    var runs := Runs(RowTs, rows);
    seq(|runs|, i requires 0 <= i < |runs| => f(runs[i].0, runs[i].1))
  }

  function ToRow(m: Machine, config: AggregatorConfig, columns: nat): (int, seq<Row>) -> Row {
    (t: int, group: seq<Row>) => ReducedRow(m, config, columns, t, group)
  }

  function ToBucket(m: Machine, r: PartialReducer, columns: nat): (int, seq<Row>) -> Bucket {
    (t: int, group: seq<Row>) => ReducedBucket(m, r, columns, t, group)
  }

  /** What `RowReducer` yields. */
  function RowReduce(m: Machine, config: AggregatorConfig, columns: nat, rows: seq<Row>): seq<Row> {
    PerTimestamp(ToRow(m, config, columns), rows)
  }

  /** What `PartialRowReducer` yields. */
  function PartialReduce(m: Machine, r: PartialReducer, columns: nat, rows: seq<Row>): seq<Bucket> {
    PerTimestamp(ToBucket(m, r, columns), rows)
  }

  /** A sorted stream gives one item per timestamp that occurs, in order, made of all its rows. */
  lemma PerTimestampGroups<U>(key: U -> int, f: (int, seq<Row>) -> U, rows: seq<Row>)
    requires Sorted(RowTs, rows) && forall t, group :: key(f(t, group)) == t
    ensures Ascending(key, PerTimestamp(f, rows))
    ensures forall t :: HasKey(key, t, PerTimestamp(f, rows)) <==> HasKey(RowTs, t, rows)
    ensures forall i :: 0 <= i < |PerTimestamp(f, rows)| ==>
              var t := key(PerTimestamp(f, rows)[i]); PerTimestamp(f, rows)[i] == f(t, With(RowTs, t, rows))
  {
    hide Runs, With;
    var runs, out := Runs(RowTs, rows), PerTimestamp(f, rows);
    RunsAscend(RowTs, rows);
    forall i, j | 0 <= i < j < |out|
      ensures key(out[i]) < key(out[j])
    {
      assert RunKey(runs[i]) < RunKey(runs[j]);
    }
    forall t
      ensures HasKey(key, t, out) <==> HasKey(RowTs, t, rows)
    {
      RunKeysOccur(RowTs, rows, t);
      SameKeys(key, out, RunKey, runs, t);
    }
    forall i | 0 <= i < |out|
      ensures out[i] == f(key(out[i]), With(RowTs, key(out[i]), rows))
    {
      RunIsGroup(RowTs, rows, i);
    }
  }

  lemma SameKeys<T, U>(key: T -> int, xs: seq<T>, key': U -> int, ys: seq<U>, k: int)
    requires |xs| == |ys| && forall i :: 0 <= i < |xs| ==> key(xs[i]) == key'(ys[i])
    ensures HasKey(key, k, xs) <==> HasKey(key', k, ys)
  {
    if HasKey(key, k, xs) {
      var i :| 0 <= i < |xs| && key(xs[i]) == k;
      assert key'(ys[i]) == k;
    }
    if HasKey(key', k, ys) {
      var i :| 0 <= i < |ys| && key'(ys[i]) == k;
      assert key(xs[i]) == k;
    }
  }

  lemma RowReduceGroups(m: Machine, config: AggregatorConfig, columns: nat, rows: seq<Row>)
    requires Sorted(RowTs, rows)
    ensures Ascending(RowTs, RowReduce(m, config, columns, rows))
    ensures forall t :: HasKey(RowTs, t, RowReduce(m, config, columns, rows)) <==> HasKey(RowTs, t, rows)
    ensures forall i :: 0 <= i < |RowReduce(m, config, columns, rows)| ==>
              var row := RowReduce(m, config, columns, rows)[i];
              row == ReducedRow(m, config, columns, row.ts, With(RowTs, row.ts, rows))
  {
    hide PerTimestamp, With, HasKey;
    PerTimestampGroups(RowTs, ToRow(m, config, columns), rows);
  }

  lemma PartialReduceGroups(m: Machine, r: PartialReducer, columns: nat, rows: seq<Row>)
    requires Sorted(RowTs, rows)
    ensures Ascending(BucketTs, PartialReduce(m, r, columns, rows))
    ensures forall t :: HasKey(BucketTs, t, PartialReduce(m, r, columns, rows)) <==> HasKey(RowTs, t, rows)
    ensures forall i :: 0 <= i < |PartialReduce(m, r, columns, rows)| ==>
              var b := PartialReduce(m, r, columns, rows)[i];
              b == ReducedBucket(m, r, columns, b.ts, With(RowTs, b.ts, rows))
  {
    hide PerTimestamp, With, HasKey;
    PerTimestampGroups(BucketTs, ToBucket(m, r, columns), rows);
  }

  lemma RunLengthIs<T>(key: T -> int, xs: seq<T>, k: nat)
    requires 1 <= k <= |xs|
    requires forall i :: 0 <= i < k ==> key(xs[i]) == key(xs[0])
    requires k < |xs| ==> key(xs[k]) != key(xs[0])
    ensures RunLength(key, xs) == k
  {
    hide RunLength;
    var n := RunLength(key, xs);
    assert n < |xs| ==> key(xs[n]) != key(xs[0]);
  }

  lemma RunsStep<T>(key: T -> int, xs: seq<T>)
    ensures xs == [] ==> Runs(key, xs) == []
    ensures xs != [] ==>
              var n := RunLength(key, xs);
              Runs(key, xs) == [(key(xs[0]), xs[..n])] + Runs(key, xs[n..])
  {
  }

  /** A first row, its `k` followers of the same timestamp, and the rest. */
  lemma PerTimestampStep<U>(f: (int, seq<Row>) -> U, first: Row, rest: seq<Row>, k: nat)
    requires k <= |rest|
    requires forall i :: 0 <= i < k ==> rest[i].ts == first.ts
    requires k < |rest| ==> rest[k].ts != first.ts
    ensures PerTimestamp(f, []) == []
    ensures PerTimestamp(f, [first] + rest)
            == [f(first.ts, [] + [first] + rest[..k])] + PerTimestamp(f, rest[k..])
  {
    hide RunLength, Runs;
    var all := [first] + rest;
    assert all[..k + 1] == [] + [first] + rest[..k] && all[k + 1..] == rest[k..];
    RunLengthIs(RowTs, all, k + 1);
    RunsStep(RowTs, all);
    RunsStep<Row>(RowTs, []);
    var whole, tail := PerTimestamp(f, all), PerTimestamp(f, rest[k..]);
    assert forall i :: 0 <= i < |tail| ==> whole[i + 1] == tail[i];
  }

  lemma WideParts(columns: nat, first: Row, rest: seq<Row>, k: nat)
    requires Wide(columns, [first] + rest) && k <= |rest|
    ensures |first.values| == columns && Wide(columns, rest) && Wide(columns, rest[k..])
  {
    assert ([first] + rest)[0] == first;
    assert forall i :: 0 <= i < |rest| ==> rest[i] == ([first] + rest)[i + 1];
  }

  /**
   * `PartialRowReducer`: reads ahead one row to see where a timestamp ends, and keeps that row
   * for the next call.
   */
  class PartialRowReducer {
    const m: Machine
    const reducer: PartialReducer
    const columns: nat
    var inner: seq<Row>
    var buffer: Option<Row>
    var states: seq<PartialState>

    constructor (m: Machine, inner: seq<Row>, reducer: PartialReducer, columns: nat)
      ensures this.m == m && this.reducer == reducer && this.columns == columns
      ensures Valid() && Unread() == inner
    {
      this.m, this.reducer, this.columns := m, reducer, columns;
      this.inner, buffer := inner, None;
      states := seq(columns, i => EMPTY);
    }

    /** Between calls every column starts over. */
    ghost predicate Valid()
      reads `states
    {
      states == seq(columns, i => EMPTY)
    }

    /** The rows not yet part of a bucket. */
    ghost function Unread(): seq<Row>
      reads `inner, `buffer
    {
      (if buffer.Some? then [buffer.value] else []) + inner
    }

    /** Columns hold the accumulation of `group`. */
    ghost predicate Holds(t: int, group: seq<Row>)
      reads `states
    {
      states == ReducedBucket(m, reducer, columns, t, group).states
    }

    method UpdateColumns(row: Row, ghost group: seq<Row>)
      requires Holds(row.ts, group) && |row.values| == columns
      modifies `states
      ensures Holds(row.ts, group + [row])
    {
      hide Partials.Update, Accumulate, EMPTY;
      ghost var before := states;
      ghost var longer := group + [row];
      assert longer[..|longer| - 1] == group;
      var j := 0;
      while j < columns
        invariant 0 <= j <= columns && |states| == columns
        invariant forall c :: 0 <= c < j ==> states[c] == Accumulate(m, reducer, row.ts, ColumnOf(c, longer))
        invariant forall c :: j <= c < columns ==> states[c] == before[c]
      {
        var s := Partials.Update(m, reducer, states[j], row.ts, row.values[j]);
        AccumulateStep(j, group, row);
        states := states[j := s];
        j := j + 1;
      }
    }

    lemma AccumulateStep(c: nat, group: seq<Row>, row: Row)
      requires c < |row.values|
      ensures Accumulate(m, reducer, row.ts, ColumnOf(c, group + [row]))
              == Partials.Update(m, reducer, Accumulate(m, reducer, row.ts, ColumnOf(c, group)), row.ts, row.values[c])
    {
      hide Partials.Update, EMPTY;
      var longer := group + [row];
      assert longer[..|longer| - 1] == group;
      var vs := ColumnOf(c, longer);
      assert vs[..|vs| - 1] == ColumnOf(c, group);
    }

    lemma NothingHeld(t: int)
      requires Valid()
      ensures Holds(t, [])
    {
    }

    lemma HeldBucket(t: int, group: seq<Row>)
      requires Holds(t, group)
      ensures Bucket(t, states) == ReducedBucket(m, reducer, columns, t, group)
    {
    }

    /** The next row: the one read ahead, if there is one. */
    method Pull() returns (row: Option<Row>)
      modifies `inner, `buffer
      ensures buffer.None? && inner == Unread()
      ensures row.None? ==> old(Unread()) == [] == Unread()
      ensures row.Some? ==> old(Unread()) == [row.value] + Unread()
    {
      row := buffer;
      buffer := None;
      if row.None? && inner != [] {
        row := Some(inner[0]);
        inner := inner[1..];
      }
    }

    /** Adds the following rows of timestamp `t` to the group; the row after them is kept aside. */
    method Absorb(t: int, ghost group: seq<Row>) returns (ghost k: nat)
      requires Holds(t, group) && buffer.None? && Wide(columns, inner)
      modifies this
      ensures k <= |old(inner)| && Unread() == old(inner)[k..]
      ensures Holds(t, group + old(inner)[..k])
      ensures forall i :: 0 <= i < k ==> old(inner)[i].ts == t
      ensures k < |old(inner)| ==> old(inner)[k].ts != t
    {
      hide Holds;
      k := 0;
      ghost var all := inner;
      assert group + all[..0] == group;
      while inner != []
        invariant buffer.None? && k <= |all| && inner == all[k..]
        invariant Holds(t, group + all[..k])
        invariant forall i :: 0 <= i < k ==> all[i].ts == t
        decreases |inner|
      {
        var next := inner[0];
        inner := inner[1..];
        if next.ts != t {
          buffer := Some(next);
          return;
        }
        assert group + all[..k] + [next] == group + all[..k + 1];
        UpdateColumns(next, group + all[..k]);
        k := k + 1;
      }
    }

    /** The buckets still to come. */
    ghost function Remaining(): seq<Bucket>
      reads `inner, `buffer
    {
      PartialReduce(m, reducer, columns, Unread())
    }

    /** The next bucket: every row of the next timestamp, and no other row. */
    method Next() returns (bucket: Option<Bucket>)
      requires Valid() && Wide(columns, Unread())
      modifies this
      ensures Valid() && Wide(columns, Unread())
      ensures bucket.None? ==> Unread() == []
      ensures old(Remaining()) == (if bucket.Some? then [bucket.value] else []) + Remaining()
      ensures bucket.Some? ==> |Unread()| < |old(Unread())|
    {
      hide ReducedBucket, PerTimestamp, Holds, Wide;
      var first := Pull();
      if first.None? {
        PerTimestampStep(ToBucket(m, reducer, columns), Row(0, []), [], 0);
        return None;
      }
      ghost var rest := inner;
      WideParts(columns, first.value, rest, 0);
      NothingHeld(first.value.ts);
      UpdateColumns(first.value, []);
      ghost var k := Absorb(first.value.ts, [] + [first.value]);
      WideParts(columns, first.value, rest, k);
      PerTimestampStep(ToBucket(m, reducer, columns), first.value, rest, k);
      HeldBucket(first.value.ts, [] + [first.value] + rest[..k]);
      bucket := Some(Bucket(first.value.ts, states));
      states := seq(columns, i => EMPTY);
    }
  }

  /** Draining the reducer yields the whole partial reduction. */
  method ReducePartially(m: Machine, r: PartialReducer, columns: nat, rows: seq<Row>)
    returns (buckets: seq<Bucket>)
    requires Wide(columns, rows)
    ensures buckets == PartialReduce(m, r, columns, rows)
  {
    hide PerTimestamp, Wide;
    var reducer := new PartialRowReducer(m, rows, r, columns);
    buckets := [];
    var next := reducer.Next();
    while next.Some?
      invariant fresh(reducer) && reducer.m == m && reducer.reducer == r && reducer.columns == columns
      invariant reducer.Valid() && Wide(columns, reducer.Unread())
      invariant next.None? ==> reducer.Unread() == []
      invariant PartialReduce(m, r, columns, rows)
                == buckets + ((if next.Some? then [next.value] else []) + reducer.Remaining())
      decreases next.Some?, |reducer.Unread()|
    {
      buckets := buckets + [next.value];
      next := reducer.Next();
    }
    PerTimestampStep(ToBucket(m, r, columns), Row(0, []), [], 0);
  }
}
