/**
 * The single node's iterators: the k-way merge (`src/iterators/multi_series_row_iter.rs`,
 * `src/iterators/multi_series_sample_iter.rs`) and the column-wise group reducer
 * (`src/iterators/row_reducer.rs`), as the machines they are.
 */
module Iterators {
  import opened Values
  import opened Aggregators
  import opened GroupReduction
  import opened Timeline
  import opened Streams

  // -- k-way merge -----------------------------------------------------------------------------

  /** The source `Next` names is the only one with that property. */
  lemma NextIs<T>(key: T -> int, lists: seq<seq<T>>, i: nat)
    requires i < |lists| && lists[i] != []
    requires forall j :: 0 <= j < |lists| && lists[j] != [] ==>
               if j < i then key(lists[i][0]) < key(lists[j][0]) else key(lists[i][0]) <= key(lists[j][0])
    ensures Timeline.Next(key, lists) == i
  {
    hide Timeline.Next;
    var n := Timeline.Next(key, lists);
    assert n >= 0 && lists[n] != [];
  }

  /** The heap holds the next unread item of every live source. */
  class MultiSeriesIter<T> {
    const key: T -> int
    var heap: map<int, T>
    var inner: seq<seq<T>>
    var primed: bool

    constructor (key: T -> int, lists: seq<seq<T>>)
      ensures this.key == key && Valid() && Lists() == lists
    {
      this.key := key;
      heap, inner, primed := map[], lists, false;
      new;
      assert forall s :: 0 <= s < |lists| ==> Lists()[s] == [] + lists[s] == lists[s];
    }

    ghost predicate Valid()
      reads this
    {
      && (forall s :: s in heap ==> 0 <= s < |inner|)
      && (!primed ==> heap == map[])
      && (primed ==> forall s :: 0 <= s < |inner| && s !in heap ==> inner[s] == [])
    }

    /** What each source still has to yield. */
    ghost function Lists(): (lists: seq<seq<T>>)
      reads this
      ensures |lists| == |inner|
    {
      seq(|inner|, s requires 0 <= s < |inner| reads this => (if s in heap then [heap[s]] else []) + inner[s])
    }

    /** Seed the heap with the first item of every source. */
    method Prime()
      requires Valid() && !primed
      modifies this
      ensures Valid() && primed && Lists() == old(Lists())
    {
      ghost var lists := Lists();
      var s := 0;
      while s < |inner|
        invariant 0 <= s <= |inner| && !primed && Lists() == lists
        invariant forall t :: t in heap ==> 0 <= t < s
        invariant forall t :: 0 <= t < s && t !in heap ==> inner[t] == []
      {
        if inner[s] != [] {
          var x := inner[s][0];
          assert lists[s] == [] + inner[s] == [x] + inner[s][1..];
          heap := heap[s := x];
          inner := inner[s := inner[s][1..]];
          assert forall t :: 0 <= t < |inner| ==> Lists()[t] == lists[t];
        }
        s := s + 1;
      }
      primed := true;
    }

    /** The source of the least pending item, ties to the earlier source. */
    method Least() returns (least: int)
      requires Valid() && primed
      ensures least == Timeline.Next(key, Lists())
    {
      hide Timeline.Next;
      least := -1;
      var s := 0;
      while s < |inner|
        invariant 0 <= s <= |inner| && -1 <= least < s
        invariant least == -1 ==> forall t :: 0 <= t < s ==> t !in heap
        invariant least >= 0 ==> least in heap && forall t :: 0 <= t < s && t in heap ==>
                    if t < least then key(heap[least]) < key(heap[t]) else key(heap[least]) <= key(heap[t])
      {
        if s in heap && (least == -1 || key(heap[s]) < key(heap[least])) { least := s; }
        s := s + 1;
      }
      ghost var lists := Lists();
      assert forall t :: 0 <= t < |lists| ==> (lists[t] != [] <==> t in heap);
      assert forall t :: 0 <= t < |lists| && t in heap ==> lists[t][0] == heap[t];
      if least >= 0 { NextIs(key, lists, least); }
    }

    /** Emit the least pending item and refill from its source. */
    method Next() returns (item: Option<T>)
      requires Valid()
      modifies this
      ensures Valid()
      ensures item.None? ==> Lists() == old(Lists()) && KMerge(key, Lists()) == []
      ensures item.Some? ==> KMerge(key, old(Lists())) == [item.value] + KMerge(key, Lists())
      ensures item.Some? ==> Total(Lists()) < Total(old(Lists()))
    {
      hide Timeline.Next, Total, Valid, Lists;
      if !primed { Prime(); }
      ghost var lists := Lists();
      var s := Least();
      if s == -1 {
        Drained(key, lists);
        return None;
      }
      var x := Take(s);
      TotalWithoutHead(lists, s);
      item := Some(x);
    }

    /** Pop a source's item and refill from that source. */
    method Take(s: int) returns (x: T)
      requires Valid() && primed && 0 <= s < |inner| && Lists()[s] != []
      modifies `heap, `inner
      ensures Valid() && x == old(Lists())[s][0]
      ensures Lists() == old(Lists())[s := old(Lists())[s][1..]]
    {
      ghost var lists := Lists();
      assert s in heap && lists[s] == [heap[s]] + inner[s];
      x := heap[s];
      if inner[s] != [] {
        heap := heap[s := inner[s][0]];
        inner := inner[s := inner[s][1..]];
        assert Lists()[s] == lists[s][1..];
      } else {
        heap := heap - {s};
        assert Lists()[s] == [] + inner[s] == lists[s][1..];
      }
      assert forall t :: 0 <= t < |lists| && t != s ==> Lists()[t] == lists[t];
    }
  }

  lemma Drained<T>(key: T -> int, lists: seq<seq<T>>)
    requires Timeline.Next(key, lists) == -1
    ensures KMerge(key, lists) == []
  {
  }

  /** Draining the iterator yields the merge. */
  method MergeSources<T>(key: T -> int, lists: seq<seq<T>>) returns (items: seq<T>)
    ensures items == KMerge(key, lists)
  {
    hide KMerge, Total;
    var iter := new MultiSeriesIter(key, lists);
    items := [];
    var item := iter.Next();
    while item.Some?
      invariant fresh(iter) && iter.key == key && iter.Valid()
      invariant item.None? ==> items == KMerge(key, lists)
      invariant item.Some? ==> items + ([item.value] + KMerge(key, iter.Lists())) == KMerge(key, lists)
      decreases item.Some?, Total(iter.Lists())
    {
      items := items + [item.value];
      item := iter.Next();
    }
  }

  // -- column-wise group reduce -------------------------------------------------------------------

  /** An accumulator and whether it accepted anything. */
  ghost function Fed(m: Machine, config: AggregatorConfig, t: int, group: seq<Row>, c: nat): (Aggregator, bool) {
    Feed(m, Create(config), SamplesAt(t, ColumnOf(c, group)))
  }

  lemma FedStep(m: Machine, config: AggregatorConfig, group: seq<Row>, row: Row, c: nat)
    requires c < |row.values|
    ensures var (a, accepted) := Fed(m, config, row.ts, group, c);
            var (b, ok) := Aggregators.Update(m, a, row.ts, row.values[c]);
            Fed(m, config, row.ts, group + [row], c) == (b, accepted || ok)
  {
    hide Aggregators.Update, Create;
    var longer := group + [row];
    assert longer[..|longer| - 1] == group;
    var vs := ColumnOf(c, longer);
    assert vs[..|vs| - 1] == ColumnOf(c, group);
    var samples := SamplesAt(row.ts, vs);
    assert samples[..|samples| - 1] == SamplesAt(row.ts, ColumnOf(c, group));
  }

  class RowReducer {
    const m: Machine
    const config: AggregatorConfig
    const columns: nat
    var inner: seq<Row>
    var buffer: Option<Row>
    var aggregators: seq<Aggregator>
    var hasSamples: seq<bool>
    var done: bool

    constructor (m: Machine, inner: seq<Row>, config: AggregatorConfig, columns: nat)
      ensures this.m == m && this.config == config && this.columns == columns
      ensures Valid() && Unread() == inner
    {
      this.m, this.config, this.columns := m, config, columns;
      this.inner, buffer, done := inner, None, false;
      aggregators := seq(columns, i => Create(config));
      hasSamples := seq(columns, i => false);
    }

    /** Between calls every column starts over. */
    ghost predicate Valid()
      reads this
    {
      Holds(0, []) && (done ==> Unread() == [])
    }

    ghost function Unread(): seq<Row>
      reads `inner, `buffer
    {
      (if buffer.Some? then [buffer.value] else []) + inner
    }

    ghost predicate Holds(t: int, group: seq<Row>)
      reads `aggregators, `hasSamples
    {
      && |aggregators| == |hasSamples| == columns
      && forall c :: 0 <= c < columns ==> (aggregators[c], hasSamples[c]) == Fed(m, config, t, group, c)
    }

    /** A row reaches every column; a refused value leaves the column's flag as it was. */
    method Update(row: Row, ghost group: seq<Row>)
      requires Holds(row.ts, group) && |row.values| == columns
      modifies `aggregators, `hasSamples
      ensures Holds(row.ts, group + [row])
    {
      hide Fed, Aggregators.Update;
      var j := 0;
      while j < columns
        invariant 0 <= j <= columns && |aggregators| == |hasSamples| == columns
        invariant forall c :: 0 <= c < j ==> (aggregators[c], hasSamples[c]) == Fed(m, config, row.ts, group + [row], c)
        invariant forall c :: j <= c < columns ==> (aggregators[c], hasSamples[c]) == Fed(m, config, row.ts, group, c)
      {
        FedStep(m, config, group, row, j);
        var (a, ok) := Aggregators.Update(m, aggregators[j], row.ts, row.values[j]);
        aggregators := aggregators[j := a];
        if ok { hasSamples := hasSamples[j := true]; }
        j := j + 1;
      }
    }

    /** The group's row, every column reset. */
    method FinalizeGroup(t: int, ghost group: seq<Row>) returns (row: Row)
      requires Holds(t, group)
      modifies `aggregators, `hasSamples
      ensures row == ReducedRow(m, config, columns, t, group)
      ensures Holds(0, [])
    {
      hide Finalize, EmptyGroupValue, Reset, Create;
      var values := [];
      var j := 0;
      while j < columns
        invariant 0 <= j <= columns && |aggregators| == |hasSamples| == columns && |values| == j
        invariant forall c :: 0 <= c < j ==>
                    && (aggregators[c], hasSamples[c]) == Fed(m, config, 0, [], c)
                    && values[c] == ReduceGroup(m, config, t, ColumnOf(c, group))
        invariant forall c :: j <= c < columns ==> (aggregators[c], hasSamples[c]) == Fed(m, config, t, group, c)
      {
        var a := aggregators[j];
        values := values + [if hasSamples[j] then Finalize(m, a) else EmptyGroupValue(a)];
        ResetStartsOver(m, config, t, group, j);
        aggregators := aggregators[j := Reset(a)];
        hasSamples := hasSamples[j := false];
        j := j + 1;
      }
      row := Row(t, values);
    }

    /** Adds the following rows of timestamp `t` to the group; stops at another one, or at the end. */
    method Absorb(t: int, ghost group: seq<Row>) returns (ghost k: nat)
      requires Holds(t, group) && buffer.None? && Wide(columns, inner) && !done
      modifies this
      ensures k <= |old(inner)| && Unread() == old(inner)[k..]
      ensures Holds(t, group + old(inner)[..k])
      ensures forall i :: 0 <= i < k ==> old(inner)[i].ts == t
      ensures k < |old(inner)| ==> old(inner)[k].ts != t
      ensures done ==> Unread() == []
    {
      hide Holds;
      k := 0;
      ghost var all := inner;
      assert group + all[..0] == group;
      while inner != []
        invariant buffer.None? && !done && k <= |all| && inner == all[k..]
        invariant Holds(t, group + all[..k])
        invariant forall i :: 0 <= i < k ==> all[i].ts == t
        decreases |inner|
      {
        var next := inner[0];
        inner := inner[1..];
        if next.ts != t {
          buffer := Some(next);
          return;
        }
        assert group + all[..k] + [next] == group + all[..k + 1];
        Update(next, group + all[..k]);
        k := k + 1;
      }
      done := true;
    }

    /** The next row to start a group with: the one read ahead, or the next of the stream. */
    method Pull() returns (row: Option<Row>)
      modifies `inner, `buffer
      ensures buffer.None? && inner == Unread()
      ensures row.None? ==> old(Unread()) == [] == Unread()
      ensures row.Some? ==> old(Unread()) == [row.value] + Unread()
    {
      row := buffer;
      buffer := None;
      if row.None? && inner != [] {
        row := Some(inner[0]);
        inner := inner[1..];
      }
    }

    /** The rows still to come. */
    ghost function Remaining(): seq<Row>
      reads `inner, `buffer
    {
      RowReduce(m, config, columns, Unread())
    }

    method Next() returns (row: Option<Row>)
      requires Valid() && Wide(columns, Unread())
      modifies this
      ensures Valid() && Wide(columns, Unread())
      ensures row.None? ==> Unread() == []
      ensures old(Remaining()) == (if row.Some? then [row.value] else []) + Remaining()
      ensures row.Some? ==> |Unread()| < |old(Unread())|
    {
      hide ReducedRow, PerTimestamp, Holds, Wide;
      PerTimestampStep(ToRow(m, config, columns), Row(0, []), [], 0);
      if done { return None; }
      var first := Pull();
      if first.None? {
        done := true;
        return None;
      }
      ghost var rest := inner;
      WideParts(columns, first.value, rest, 0);
      StartGroup(first.value.ts);
      Update(first.value, []);
      ghost var k := Absorb(first.value.ts, [] + [first.value]);
      WideParts(columns, first.value, rest, k);
      PerTimestampStep(ToRow(m, config, columns), first.value, rest, k);
      var reduced := FinalizeGroup(first.value.ts, [] + [first.value] + rest[..k]);
      row := Some(reduced);
    }

    lemma StartGroup(t: int)
      requires Holds(0, [])
      ensures Holds(t, [])
    {
      hide Create;
      forall c | 0 <= c < columns
        ensures Fed(m, config, t, [], c) == Fed(m, config, 0, [], c)
      {
        FedNothing(m, config, t, c);
        FedNothing(m, config, 0, c);
      }
    }
  }

  lemma ResetStartsOver(m: Machine, config: AggregatorConfig, t: int, group: seq<Row>, c: nat)
    ensures (Reset(Fed(m, config, t, group, c).0), false) == Fed(m, config, 0, [], c)
  {
    hide Create, Reset, Feed;
    FeedKeepsIdentity(m, Create(config), SamplesAt(t, ColumnOf(c, group)));
    EmptyGroupValueByType(config);
    FedNothing(m, config, 0, c);
  }

  lemma FedNothing(m: Machine, config: AggregatorConfig, t: int, c: nat)
    ensures Fed(m, config, t, [], c) == (Create(config), false)
  {
    hide Create;
  }

  /** Draining the reducer yields the reduction. */
  method ReduceRows(m: Machine, config: AggregatorConfig, columns: nat, rows: seq<Row>) returns (out: seq<Row>)
    requires Wide(columns, rows)
    ensures out == RowReduce(m, config, columns, rows)
  {
    hide PerTimestamp, Wide;
    var reducer := new RowReducer(m, rows, config, columns);
    out := [];
    var next := reducer.Next();
    while next.Some?
      invariant fresh(reducer) && reducer.m == m && reducer.config == config && reducer.columns == columns
      invariant reducer.Valid() && Wide(columns, reducer.Unread())
      invariant next.None? ==> reducer.Unread() == []
      invariant RowReduce(m, config, columns, rows)
                == out + ((if next.Some? then [next.value] else []) + reducer.Remaining())
      decreases next.Some?, |reducer.Unread()|
    {
      out := out + [next.value];
      next := reducer.Next();
    }
    PerTimestampStep(ToRow(m, config, columns), Row(0, []), [], 0);
  }
}
