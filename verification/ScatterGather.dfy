/**
 * Grouped range queries over a cluster: shards pre-reduce, limit and ship, in whichever of the
 * three wire forms their version speaks; the coordinator compensates, merges and re-limits.
 * (`src/commands/ts_mrange_fanout_command.rs`, `src/series/mrange.rs`)
 */
module ScatterGather {
  import opened Values
  import opened Bags
  import opened Aggregators
  import opened Partials
  import opened GroupReduction
  import opened Timeline
  import opened AggregateIterator
  import opened Streams
  import opened Coordinator
  import opened MergeOrder
  import opened Supply
  import opened Pipelines

  // -- streams and groups --------------------------------------------------------------------

  /** A series' rows under its key and group label. */
  datatype Stream = Stream(key: string, tag: Option<string>, rows: seq<Row>)

  /** The members of a group, in order. */
  function Lists(tag: string, streams: seq<Stream>): seq<seq<Row>> {
    if streams == [] then []
    else
      var s := streams[|streams| - 1];
      Lists(tag, streams[..|streams| - 1]) + (if s.tag == Some(tag) then [s.rows] else [])
  }

  function MergedRows(tag: string, streams: seq<Stream>): seq<Row> { KMerge(RowTs, Lists(tag, streams)) }

  function TagsOf(streams: seq<Stream>): set<string> { set s | s in streams && s.tag.Some? :: s.tag.value }

  function KeysOf(tag: string, streams: seq<Stream>): set<string> {
    set s | s in streams && s.tag == Some(tag) :: s.key
  }

  ghost predicate Shaped(columns: nat, streams: seq<Stream>) {
    forall i :: 0 <= i < |streams| ==> Ascending(RowTs, streams[i].rows) && Wide(columns, streams[i].rows)
  }

  /** The rows a stream has at timestamp `t` in a group. */
  function Contributes(tag: string, t: int): Stream -> seq<Row> {
    (s: Stream) => if s.tag == Some(tag) then With(RowTs, t, s.rows) else []
  }

  function RowsAt(tag: string, t: int, streams: seq<Stream>): seq<Row> {
    ConcatMap(Contributes(tag, t), streams)
  }

  lemma {:induction false} ListsSorted(tag: string, columns: nat, streams: seq<Stream>)
    requires Shaped(columns, streams)
    ensures forall i :: 0 <= i < |Lists(tag, streams)| ==> Sorted(RowTs, Lists(tag, streams)[i])
  {
    hide Wide;
    if streams != [] { ListsSorted(tag, columns, streams[..|streams| - 1]); }
  }

  lemma {:induction false} WithInLists(tag: string, t: int, streams: seq<Stream>)
    ensures WithIn(RowTs, t, Lists(tag, streams)) == RowsAt(tag, t, streams)
  {
    hide With;
    if streams != [] {
      var n := |streams| - 1;
      WithInLists(tag, t, streams[..n]);
      var front := Lists(tag, streams[..n]);
      assert front + [] == front;
      if streams[n].tag == Some(tag) { assert (front + [streams[n].rows])[..|front|] == front; }
    }
  }

  /** Merged in timestamp order, a group has at each timestamp its members' rows. */
  lemma MergedRowsAt(tag: string, columns: nat, streams: seq<Stream>)
    requires Shaped(columns, streams)
    ensures Sorted(RowTs, MergedRows(tag, streams))
    ensures forall t :: With(RowTs, t, MergedRows(tag, streams)) == RowsAt(tag, t, streams)
    ensures forall t :: HasKey(RowTs, t, MergedRows(tag, streams)) <==> RowsAt(tag, t, streams) != []
  {
    hide KMerge, With, Lists, RowsAt, HasKey, Shaped;
    var lists := Lists(tag, streams);
    ListsSorted(tag, columns, streams);
    var low := LeastHead(lists);
    KMergeSorted(RowTs, lists, low);
    forall t
      ensures With(RowTs, t, MergedRows(tag, streams)) == RowsAt(tag, t, streams)
      ensures HasKey(RowTs, t, MergedRows(tag, streams)) <==> RowsAt(tag, t, streams) != []
    {
      KMergeStable(RowTs, t, lists);
      WithInLists(tag, t, streams);
      WithNone(RowTs, t, MergedRows(tag, streams));
    }
  }

  lemma {:induction false} LeastHead(lists: seq<seq<Row>>) returns (low: int)
    ensures forall j :: 0 <= j < |lists| && lists[j] != [] ==> low <= RowTs(lists[j][0])
  {
    low := 0;
    if lists != [] {
      var n := |lists| - 1;
      low := LeastHead(lists[..n]);
      assert forall j :: 0 <= j < n ==> lists[..n][j] == lists[j];
      if lists[n] != [] && RowTs(lists[n][0]) < low { low := RowTs(lists[n][0]); }
    }
  }

  // -- limits ---------------------------------------------------------------------------------

  /** COUNT as a head or tail of an ascending stream, where it applies. */
  function Limit<T>(q: Query, applies: bool, xs: seq<T>): seq<T> {
    if applies && q.count.Some? then Keep(q.reverse, q.count.value, xs) else xs
  }

  lemma LimitShape<T>(q: Query, applies: bool, key: T -> int, xs: seq<T>)
    requires Ascending(key, xs)
    ensures Ascending(key, Limit(q, applies, xs)) && Within(Limit(q, applies, xs), xs)
    ensures Times(key, Limit(q, applies, xs)) == Limit(q, applies, Times(key, xs))
  {
    hide Ascending, Keep, Times;
    if q.count.Some? {
      KeepAscends(key, q.reverse, q.count.value, xs);
      TimesOfKeep(key, q.reverse, q.count.value, xs);
    }
    forall i | 0 <= i < |xs| ensures xs[i] in xs {}
  }

  /** A timestamp the limit keeps of the whole, it keeps of every part that has it. */
  lemma LimitKeeps(q: Query, applies: bool, part: seq<int>, whole: seq<int>, t: int)
    requires Ascending(Identity, part) && Ascending(Identity, whole) && Within(part, whole)
    requires t in Limit(q, true, whole) && t in part
    ensures t in Limit(q, applies, part)
  {
    hide Ascending, Within, Keep;
    if applies && q.count.Some? { KeptByPart(Identity, q.reverse, q.count.value, part, whole, t); }
  }

  /** Limiting a member of a group loses no row the limited group needs. */
  lemma LimitedRowsAt(q: Query, applies: bool, rows: seq<Row>, whole: seq<int>, t: int)
    requires Ascending(RowTs, rows) && Ascending(Identity, whole) && Within(Times(RowTs, rows), whole)
    requires t in Limit(q, true, whole)
    ensures With(RowTs, t, Limit(q, applies, rows)) == With(RowTs, t, rows)
  {
    hide With, Limit, HasKey, Within;
    var short := Limit(q, applies, rows);
    LimitShape(q, applies, RowTs, rows);
    WithNone(RowTs, t, rows);
    WithNone(RowTs, t, short);
    TimesMembers(RowTs, rows, t);
    TimesMembers(RowTs, short, t);
    TimesAscend(RowTs, rows);
    if HasKey(RowTs, t, rows) {
      LimitKeeps(q, applies, Times(RowTs, rows), whole, t);
      SameRow(short, rows, t);
    } else {
      LimitedTimes(q, applies, Times(RowTs, rows), t);
    }
  }

  lemma LimitedTimes(q: Query, applies: bool, times: seq<int>, t: int)
    ensures t in Limit(q, applies, times) ==> t in times
  {
  }

  lemma SameRow(short: seq<Row>, rows: seq<Row>, t: int)
    requires Ascending(RowTs, short) && Ascending(RowTs, rows) && Within(short, rows)
    requires HasKey(RowTs, t, short)
    ensures With(RowTs, t, short) == With(RowTs, t, rows)
  {
    hide With;
    var j :| 0 <= j < |short| && RowTs(short[j]) == t;
    assert short[j] in rows;
    var i :| 0 <= i < |rows| && rows[i] == short[j];
    WithSingle(RowTs, short, j);
    WithSingle(RowTs, rows, i);
  }

  // -- packing a group's buckets into a partial -------------------------------------------------

  function StatesOf(buckets: seq<Bucket>): seq<seq<PartialState>> {
    seq(|buckets|, i requires 0 <= i < |buckets| => buckets[i].states)
  }

  function Pack(tag: string, keys: seq<string>, buckets: seq<Bucket>, columns: nat): GroupPartial {
    GroupPartial(tag, keys, Times(BucketTs, buckets), RowMajor(StatesOf(buckets)), columns)
  }

  ghost predicate WideBuckets(columns: nat, buckets: seq<Bucket>) {
    forall i :: 0 <= i < |buckets| ==> |buckets[i].states| == columns
  }

  /** Whatever is packed is unpacked again, bucket by bucket. */
  lemma PackRoundTrip(tag: string, keys: seq<string>, buckets: seq<Bucket>, columns: nat)
    requires columns > 0 && WideBuckets(columns, buckets)
    ensures WellFormed(Pack(tag, keys, buckets, columns), columns)
    ensures |Entries(Pack(tag, keys, buckets, columns), columns)| == |buckets|
    ensures forall i :: 0 <= i < |buckets| ==>
              Entries(Pack(tag, keys, buckets, columns), columns)[i] == Entry(tag, buckets[i].ts, buckets[i].states)
  {
    hide Chunks, RowMajor;
    ChunksOfRowMajor(columns, StatesOf(buckets));
    var p := Pack(tag, keys, buckets, columns);
    forall i | 0 <= i < |buckets|
      ensures Entries(p, columns)[i] == Entry(tag, buckets[i].ts, buckets[i].states)
    {
      assert Entries(p, columns)[i] == Entry(tag, p.timestamps[i], Chunks(columns, p.states)[i]);
      assert p.timestamps[i] == BucketTs(buckets[i]);
      assert Chunks(columns, p.states)[i] == StatesOf(buckets)[i];
    }
  }

  lemma {:induction false} AddressedNever(es: seq<Entry>, group: string, t: int, c: nat)
    requires forall i :: 0 <= i < |es| ==> es[i].group != group || es[i].ts != t
    ensures Addressed(es, group, t, c) == []
  {
    if es != [] { AddressedNever(es[..|es| - 1], group, t, c); }
  }

  lemma {:induction false} AddressedOnce(es: seq<Entry>, group: string, t: int, c: nat, i: nat)
    requires i < |es| && es[i].group == group && es[i].ts == t && c < |es[i].row|
    requires forall j :: 0 <= j < |es| && j != i ==> es[j].ts != t
    ensures Addressed(es, group, t, c) == [es[i].row[c]]
  {
    var n := |es| - 1;
    if i == n {
      AddressedNever(es[..n], group, t, c);
    } else {
      AddressedOnce(es[..n], group, t, c, i);
    }
  }

  lemma AddressedOfConcat(es: seq<Entry>, es': seq<Entry>, group: string, t: int, c: nat)
    ensures Addressed(es + es', group, t, c) == Addressed(es, group, t, c) + Addressed(es', group, t, c)
  {
    hide Addressed, ConcatMap;
    AddressedGathered(es, group, t, c);
    AddressedGathered(es', group, t, c);
    AddressedGathered(es + es', group, t, c);
    ConcatMapOfConcat(AddressedBy(group, t, c), es, es');
  }

  /** A cell of a packed group holds its own bucket's state, if the group has that bucket. */
  lemma PackedCell(tag: string, keys: seq<string>, buckets: seq<Bucket>, columns: nat, t: int, c: nat)
    requires c < columns && WideBuckets(columns, buckets) && Ascending(BucketTs, buckets)
    ensures WellFormed(Pack(tag, keys, buckets, columns), columns)
    ensures var addressed := Addressed(Entries(Pack(tag, keys, buckets, columns), columns), tag, t, c);
            && (!HasKey(BucketTs, t, buckets) ==> addressed == [])
            && forall i :: 0 <= i < |buckets| && buckets[i].ts == t ==> addressed == [buckets[i].states[c]]
  {
    hide Addressed, Pack;
    PackRoundTrip(tag, keys, buckets, columns);
    var es := Entries(Pack(tag, keys, buckets, columns), columns);
    if !HasKey(BucketTs, t, buckets) {
      assert forall i :: 0 <= i < |es| ==> BucketTs(buckets[i]) != t;
      AddressedNever(es, tag, t, c);
    }
    forall i | 0 <= i < |buckets| && buckets[i].ts == t
      ensures Addressed(es, tag, t, c) == [buckets[i].states[c]]
    {
      assert forall j :: 0 <= j < |es| && j != i ==> BucketTs(buckets[j]) != BucketTs(buckets[i]);
      AddressedOnce(es, tag, t, c, i);
    }
  }

  // -- one group of one batch ---------------------------------------------------------------------

  function SourceKeys(tag: string, streams: seq<Stream>): (keys: seq<string>)
    ensures forall k :: k in keys <==> k in KeysOf(tag, streams)
  {
    if streams == [] then []
    else
      var n := |streams| - 1;
      assert forall s :: s in streams <==> s in streams[..n] || s == streams[n];
      SourceKeys(tag, streams[..n]) + (if streams[n].tag == Some(tag) then [streams[n].key] else [])
  }

  /** Aggregated per series, merged, pre-reduced per timestamp, and limited. */
  function GroupBuckets(m: Machine, q: Query, tag: string, streams: seq<Stream>, applies: bool): seq<Bucket>
    requires q.PushesDown()
  {
    Limit(q, applies, PartialReduce(m, q.Partial(), q.Columns(), MergedRows(tag, streams)))
  }

  /** `process_mrange_group_partials`, `compensate_group_partials`. */
  function PartialFor(m: Machine, q: Query, tag: string, streams: seq<Stream>, applies: bool): GroupPartial
    requires q.PushesDown()
  {
    Pack(tag, SourceKeys(tag, streams), GroupBuckets(m, q, tag, streams, applies), q.Columns())
  }

  lemma BucketsShape(m: Machine, q: Query, tag: string, streams: seq<Stream>, applies: bool)
    requires q.PushesDown() && Shaped(q.Columns(), streams)
    ensures Ascending(BucketTs, GroupBuckets(m, q, tag, streams, applies))
    ensures WideBuckets(q.Columns(), GroupBuckets(m, q, tag, streams, applies))
    ensures forall i :: 0 <= i < |GroupBuckets(m, q, tag, streams, applies)| ==>
              var b := GroupBuckets(m, q, tag, streams, applies)[i];
              && b == ReducedBucket(m, q.Partial(), q.Columns(), b.ts, RowsAt(tag, b.ts, streams))
              && RowsAt(tag, b.ts, streams) != []
  {
    hide PartialReduce, MergedRows, RowsAt, Accumulate, Limit, Shaped, Query.Partial, Query.Columns;
    var rows := MergedRows(tag, streams);
    var all, limited := PartialReduce(m, q.Partial(), q.Columns(), rows), GroupBuckets(m, q, tag, streams, applies);
    MergedRowsAt(tag, q.Columns(), streams);
    PartialReduceGroups(m, q.Partial(), q.Columns(), rows);
    LimitShape(q, applies, BucketTs, all);
    forall i | 0 <= i < |limited|
      ensures var b := limited[i];
              && b == ReducedBucket(m, q.Partial(), q.Columns(), b.ts, RowsAt(tag, b.ts, streams))
              && RowsAt(tag, b.ts, streams) != []
    {
      assert limited[i] in all;
      var j :| 0 <= j < |all| && all[j] == limited[i];
      assert BucketTs(all[j]) == limited[i].ts;
      assert HasKey(BucketTs, limited[i].ts, all);
    }
  }

  lemma BucketsKeep(m: Machine, q: Query, tag: string, streams: seq<Stream>, applies: bool, whole: seq<int>, t: int)
    requires q.PushesDown() && Shaped(q.Columns(), streams)
    requires Ascending(Identity, whole) && forall u :: RowsAt(tag, u, streams) != [] ==> u in whole
    requires t in Limit(q, true, whole) && RowsAt(tag, t, streams) != []
    ensures HasKey(BucketTs, t, GroupBuckets(m, q, tag, streams, applies))
  {
    hide PartialReduce, MergedRows, RowsAt, Limit, Shaped, Query.Partial, Query.Columns, HasKey;
    var rows := MergedRows(tag, streams);
    var all, limited := PartialReduce(m, q.Partial(), q.Columns(), rows), GroupBuckets(m, q, tag, streams, applies);
    MergedRowsAt(tag, q.Columns(), streams);
    PartialReduceGroups(m, q.Partial(), q.Columns(), rows);
    LimitShape(q, applies, BucketTs, all);
    var times := Times(BucketTs, all);
    TimesAscend(BucketTs, all);
    forall i | 0 <= i < |times|
      ensures times[i] in whole
    {
      TimesMembers(BucketTs, all, times[i]);
    }
    TimesMembers(BucketTs, all, t);
    LimitKeeps(q, applies, times, whole, t);
    TimesMembers(BucketTs, limited, t);
  }

  /** What a batch's partial for a group addresses to one cell. */
  lemma OwnCell(m: Machine, q: Query, tag: string, streams: seq<Stream>, applies: bool, whole: seq<int>, t: int, c: nat)
    requires q.PushesDown() && Shaped(q.Columns(), streams) && c < q.Columns()
    requires Ascending(Identity, whole) && forall u :: RowsAt(tag, u, streams) != [] ==> u in whole
    ensures WellFormed(PartialFor(m, q, tag, streams, applies), q.Columns())
    ensures var addressed := Addressed(Entries(PartialFor(m, q, tag, streams, applies), q.Columns()), tag, t, c);
            var rows := RowsAt(tag, t, streams);
            && (addressed != [] ==> rows != [])
            && (t in Limit(q, true, whole) && rows != [] ==> addressed != [])
            && (t in Limit(q, true, whole) ==> Supplies(q.Partial(), t, addressed, ColumnOf(c, rows)))
  {
    hide GroupBuckets, RowsAt, Addressed, Limit, Shaped, Query.Columns, Query.Partial, Supplies, Pack, Entries, WellFormed,
         Accumulate, ColumnOf, SourceKeys;
    var r, columns := q.Partial(), q.Columns();
    var buckets, rows := GroupBuckets(m, q, tag, streams, applies), RowsAt(tag, t, streams);
    BucketsShape(m, q, tag, streams, applies);
    PackedCell(tag, SourceKeys(tag, streams), buckets, columns, t, c);
    if HasKey(BucketTs, t, buckets) {
      var i :| 0 <= i < |buckets| && BucketTs(buckets[i]) == t;
      assert buckets[i].states[c] == Accumulate(m, r, t, ColumnOf(c, rows));
      SuppliesOne(m, r, t, ColumnOf(c, rows));
    } else if t in Limit(q, true, whole) {
      if rows != [] { BucketsKeep(m, q, tag, streams, applies, whole, t); }
      SuppliesNothing(r, t);
      NoColumn(c);
    }
  }

  lemma NoColumn(c: nat)
    ensures ColumnOf(c, []) == []
  {
  }

  // -- a batch: the partials of one shard, or of all the series the coordinator compensates ---------

  /** Any order of a set of labels, hash order included. */
  ghost predicate Enumerates(order: seq<string>, tags: set<string>) {
    && (forall i, j :: 0 <= i < j < |order| ==> order[i] != order[j])
    && forall tag :: tag in order <==> tag in tags
  }

  function PartialsFor(m: Machine, q: Query, order: seq<string>, streams: seq<Stream>, applies: bool): seq<GroupPartial>
    requires q.PushesDown()
  {
    if order == [] then []
    else PartialsFor(m, q, order[..|order| - 1], streams, applies)
         + [PartialFor(m, q, order[|order| - 1], streams, applies)]
  }

  lemma PartialWellFormed(m: Machine, q: Query, tag: string, streams: seq<Stream>, applies: bool)
    requires q.PushesDown() && Shaped(q.Columns(), streams)
    ensures WellFormed(PartialFor(m, q, tag, streams, applies), q.Columns())
    ensures PartialFor(m, q, tag, streams, applies).group == tag
  {
    hide GroupBuckets, Shaped, Query.Columns, SourceKeys, WellFormed;
    BucketsShape(m, q, tag, streams, applies);
    PackRoundTrip(tag, SourceKeys(tag, streams), GroupBuckets(m, q, tag, streams, applies), q.Columns());
  }

  lemma {:induction false} PartialsWellFormed(m: Machine, q: Query, order: seq<string>, streams: seq<Stream>, applies: bool)
    requires q.PushesDown() && Shaped(q.Columns(), streams)
    ensures AllWellFormed(PartialsFor(m, q, order, streams, applies), q.Columns())
  {
    hide PartialFor, WellFormed, Shaped, Query.Columns;
    if order != [] {
      PartialsWellFormed(m, q, order[..|order| - 1], streams, applies);
      PartialWellFormed(m, q, order[|order| - 1], streams, applies);
    }
  }

  lemma EntriesStep(ps: seq<GroupPartial>, p: GroupPartial, columns: nat)
    requires columns > 0 && AllWellFormed(ps, columns) && WellFormed(p, columns)
    ensures AllWellFormed(ps + [p], columns)
    ensures AllEntries(ps + [p], columns) == AllEntries(ps, columns) + Entries(p, columns)
  {
    hide WellFormed, Entries;
    assert (ps + [p])[..|ps|] == ps;
  }

  /** Of a batch, only the group's own partial reaches the group's cells. */
  lemma {:induction false} BatchCell(m: Machine, q: Query, order: seq<string>, streams: seq<Stream>, applies: bool,
                                     tag: string, t: int, c: nat)
    requires q.PushesDown() && Shaped(q.Columns(), streams)
    requires forall i, j :: 0 <= i < j < |order| ==> order[i] != order[j]
    ensures AllWellFormed(PartialsFor(m, q, order, streams, applies), q.Columns())
    ensures WellFormed(PartialFor(m, q, tag, streams, applies), q.Columns())
    ensures Addressed(AllEntries(PartialsFor(m, q, order, streams, applies), q.Columns()), tag, t, c)
            == if tag in order
               then Addressed(Entries(PartialFor(m, q, tag, streams, applies), q.Columns()), tag, t, c)
               else []
  {
    hide PartialFor, WellFormed, Shaped, Query.Columns, Addressed, Entries, AllEntries;
    var columns := q.Columns();
    PartialWellFormed(m, q, tag, streams, applies);
    if order == [] {
      NoEntries(columns);
      AddressedNever([], tag, t, c);
    } else {
      var n := |order| - 1;
      var front, last := PartialsFor(m, q, order[..n], streams, applies), PartialFor(m, q, order[n], streams, applies);
      BatchCell(m, q, order[..n], streams, applies, tag, t, c);
      PartialWellFormed(m, q, order[n], streams, applies);
      EntriesStep(front, last, columns);
      AddressedOfConcat(AllEntries(front, columns), Entries(last, columns), tag, t, c);
      if order[n] != tag { AddressedNever(Entries(last, columns), tag, t, c); }
      assert order == order[..n] + [order[n]];
    }
  }

  lemma NoEntries(columns: nat)
    requires columns > 0
    ensures AllEntries([], columns) == []
  {
  }

  // -- all batches --------------------------------------------------------------------------------

  datatype Batch = Batch(streams: seq<Stream>, applies: bool, order: seq<string>)

  function Gathered(m: Machine, q: Query, batches: seq<Batch>): seq<GroupPartial>
    requires q.PushesDown()
  {
    if batches == [] then []
    else
      var b := batches[|batches| - 1];
      Gathered(m, q, batches[..|batches| - 1]) + PartialsFor(m, q, b.order, b.streams, b.applies)
  }

  /** The batch's streams stand in for `full`: where the limited result looks, they are the same. */
  ghost predicate Covers(q: Query, tag: string, whole: seq<int>, streams: seq<Stream>, full: seq<Stream>) {
    && (forall t :: RowsAt(tag, t, streams) != [] ==> RowsAt(tag, t, full) != [])
    && (forall t :: RowsAt(tag, t, full) != [] ==> t in whole)
    && forall t :: t in Limit(q, true, whole) ==> RowsAt(tag, t, streams) == RowsAt(tag, t, full)
  }

  ghost predicate Sound(q: Query, b: Batch)
    requires q.PushesDown()
  {
    Shaped(q.Columns(), b.streams) && Enumerates(b.order, TagsOf(b.streams))
  }

  /** The cell holds states for exactly the rows at `t`. */
  ghost predicate Fills(q: Query, whole: seq<int>, t: int, c: nat, addressed: seq<PartialState>, rows: seq<Row>)
    requires q.PushesDown()
  {
    && (addressed != [] ==> rows != [])
    && (t in Limit(q, true, whole) && rows != [] ==> addressed != [])
    && (t in Limit(q, true, whole) ==> Supplies(q.Partial(), t, addressed, ColumnOf(c, rows)))
  }

  lemma FillsNothing(q: Query, whole: seq<int>, t: int, c: nat)
    requires q.PushesDown()
    ensures Fills(q, whole, t, c, [], [])
  {
    hide Supplies;
    SuppliesNothing(q.Partial(), t);
    NoColumn(c);
  }

  lemma FillsBoth(q: Query, whole: seq<int>, t: int, c: nat, ss: seq<PartialState>, rows: seq<Row>,
                  ss': seq<PartialState>, rows': seq<Row>)
    requires q.PushesDown() && Fills(q, whole, t, c, ss, rows) && Fills(q, whole, t, c, ss', rows')
    ensures Fills(q, whole, t, c, ss + ss', rows + rows')
  {
    hide Supplies, ColumnOf, Limit, Query.Partial;
    if t in Limit(q, true, whole) {
      SuppliesBoth(q.Partial(), t, ss, ColumnOf(c, rows), ss', ColumnOf(c, rows'));
      ColumnOfConcat(c, rows, rows');
    }
  }

  lemma {:induction false} RowsAtNoTag(tag: string, t: int, streams: seq<Stream>)
    requires tag !in TagsOf(streams)
    ensures RowsAt(tag, t, streams) == []
  {
    if streams != [] {
      var n := |streams| - 1;
      assert streams[n] in streams;
      assert forall s :: s in streams[..n] ==> s in streams;
      assert TagsOf(streams[..n]) <= TagsOf(streams);
      RowsAtNoTag(tag, t, streams[..n]);
    }
  }

  lemma BatchFills(m: Machine, q: Query, b: Batch, full: seq<Stream>, tag: string, whole: seq<int>, t: int, c: nat)
    requires q.PushesDown() && Sound(q, b) && c < q.Columns()
    requires Ascending(Identity, whole) && Covers(q, tag, whole, b.streams, full)
    ensures AllWellFormed(PartialsFor(m, q, b.order, b.streams, b.applies), q.Columns())
    ensures Fills(q, whole, t, c,
                  Addressed(AllEntries(PartialsFor(m, q, b.order, b.streams, b.applies), q.Columns()), tag, t, c),
                  RowsAt(tag, t, full))
  {
    hide PartialFor, PartialsFor, WellFormed, Shaped, Query.Columns, Query.Partial, Addressed, Entries, AllEntries,
         Supplies, Limit, RowsAt, TagsOf;
    BatchCell(m, q, b.order, b.streams, b.applies, tag, t, c);
    if tag in b.order {
      OwnCell(m, q, tag, b.streams, b.applies, whole, t, c);
    } else {
      RowsAtNoTag(tag, t, b.streams);
      if t in Limit(q, true, whole) { FillsNothing(q, whole, t, c); }
    }
  }

  lemma {:induction false} AllEntriesOfConcat(ps: seq<GroupPartial>, ps': seq<GroupPartial>, columns: nat)
    requires columns > 0 && AllWellFormed(ps, columns) && AllWellFormed(ps', columns)
    ensures AllWellFormed(ps + ps', columns)
    ensures AllEntries(ps + ps', columns) == AllEntries(ps, columns) + AllEntries(ps', columns)
  {
    hide WellFormed, Entries;
    if ps' == [] {
      assert ps + ps' == ps;
    } else {
      var n := |ps'| - 1;
      AllEntriesOfConcat(ps, ps'[..n], columns);
      assert (ps + ps')[..|ps| + n] == ps + ps'[..n];
    }
  }

  lemma {:induction false} GatheredFills(m: Machine, q: Query, batches: seq<Batch>, fulls: seq<seq<Stream>>,
                                         tag: string, whole: seq<int>, t: int, c: nat)
    requires q.PushesDown() && c < q.Columns() && |fulls| == |batches|
    requires forall i :: 0 <= i < |batches| ==>
               Sound(q, batches[i]) && Covers(q, tag, whole, batches[i].streams, fulls[i])
    requires Ascending(Identity, whole)
    ensures AllWellFormed(Gathered(m, q, batches), q.Columns())
    ensures Fills(q, whole, t, c, Addressed(AllEntries(Gathered(m, q, batches), q.Columns()), tag, t, c),
                  RowsAt(tag, t, Flatten(fulls)))
  {
    hide PartialsFor, WellFormed, Query.Columns, Addressed, AllEntries, Fills, RowsAt, Sound, Covers;
    var columns := q.Columns();
    if batches == [] {
      NoEntries(columns);
      AddressedNever([], tag, t, c);
      NoRows(tag, t);
      FillsNothing(q, whole, t, c);
    } else {
      var n := |batches| - 1;
      var b := batches[n];
      GatheredFills(m, q, batches[..n], fulls[..n], tag, whole, t, c);
      BatchFills(m, q, b, fulls[n], tag, whole, t, c);
      var front, last := Gathered(m, q, batches[..n]), PartialsFor(m, q, b.order, b.streams, b.applies);
      AllEntriesOfConcat(front, last, columns);
      AddressedOfConcat(AllEntries(front, columns), AllEntries(last, columns), tag, t, c);
      RowsAtOfConcat(tag, t, Flatten(fulls[..n]), fulls[n]);
      FillsBoth(q, whole, t, c,
                Addressed(AllEntries(front, columns), tag, t, c), RowsAt(tag, t, Flatten(fulls[..n])),
                Addressed(AllEntries(last, columns), tag, t, c), RowsAt(tag, t, fulls[n]));
    }
  }

  lemma NoRows(tag: string, t: int)
    ensures RowsAt(tag, t, []) == []
  {
  }

  lemma RowsAtOfConcat(tag: string, t: int, a: seq<Stream>, b: seq<Stream>)
    ensures RowsAt(tag, t, a + b) == RowsAt(tag, t, a) + RowsAt(tag, t, b)
  {
    ConcatMapOfConcat(Contributes(tag, t), a, b);
  }

  // -- one group of the whole query ----------------------------------------------------------------

  /** On one node: aggregate each member, merge, reduce. */
  function GroupOnOneNode(m: Machine, q: Query, tag: string, all: seq<Stream>): seq<Row>
    requires q.Valid()
  {
    RowReduce(m, q.reducer, q.Columns(), MergedRows(tag, all))
  }

  lemma OneNodeShape(m: Machine, q: Query, tag: string, all: seq<Stream>)
    requires q.Valid() && Shaped(q.Columns(), all)
    ensures Ascending(RowTs, GroupOnOneNode(m, q, tag, all))
    ensures forall t :: t in Times(RowTs, GroupOnOneNode(m, q, tag, all)) <==> RowsAt(tag, t, all) != []
    ensures forall i :: 0 <= i < |GroupOnOneNode(m, q, tag, all)| ==>
              var row := GroupOnOneNode(m, q, tag, all)[i];
              row == ReducedRow(m, q.reducer, q.Columns(), row.ts, RowsAt(tag, row.ts, all))
  {
    hide RowReduce, MergedRows, RowsAt, ReducedRow, Shaped, Query.Columns, HasKey, Times;
    MergedRowsAt(tag, q.Columns(), all);
    RowReduceGroups(m, q.reducer, q.Columns(), MergedRows(tag, all));
    forall t
      ensures t in Times(RowTs, GroupOnOneNode(m, q, tag, all)) <==> RowsAt(tag, t, all) != []
    {
      TimesMembers(RowTs, GroupOnOneNode(m, q, tag, all), t);
    }
  }

  lemma TimesAddressed(es: seq<Entry>, group: string, t: int)
    requires forall i :: 0 <= i < |es| ==> |es[i].row| > 0
    ensures t in TimesOf(es, group) <==> Addressed(es, group, t, 0) != []
  {
    hide TimesOf, Addressed;
    if t in TimesOf(es, group) {
      var i :| 0 <= i < |es| && es[i].group == group && es[i].ts == t;
      assert es == es[..i] + [es[i]] + es[i + 1..];
      AddressedOfConcat(es[..i] + [es[i]], es[i + 1..], group, t, 0);
      AddressedStep(es[..i], es[i], group, t, 0);
    } else {
      UnaddressedIsEmpty(es, group, t, 0);
    }
  }

  lemma LimitOfBetween(q: Query, some: seq<int>, whole: seq<int>)
    requires Ascending(Identity, some) && Ascending(Identity, whole)
    requires Within(some, whole) && Within(Limit(q, true, whole), some)
    ensures Limit(q, true, some) == Limit(q, true, whole)
  {
    hide Ascending, Keep;
    if q.count.Some? {
      KeepOfBetween(Identity, q.reverse, q.count.value, some, whole);
    } else {
      AscendingUnique(Identity, some, whole);
    }
  }

  /** Rows with the same limited timestamps, and equal at each of those, are limited to the same rows. */
  lemma LimitedRowsAgree(q: Query, a: seq<Row>, b: seq<Row>)
    requires Ascending(RowTs, a) && Ascending(RowTs, b)
    requires Limit(q, true, Times(RowTs, a)) == Limit(q, true, Times(RowTs, b))
    requires forall x, y :: x in a && y in b && x.ts == y.ts && x.ts in Limit(q, true, Times(RowTs, b)) ==> x == y
    ensures Limit(q, true, a) == Limit(q, true, b)
  {
    hide Limit, Times, Ascending;
    var a', b' := Limit(q, true, a), Limit(q, true, b);
    LimitShape(q, true, RowTs, a);
    LimitShape(q, true, RowTs, b);
    var times := Times(RowTs, a');
    forall i | 0 <= i < |a'|
      ensures |a'| == |b'| && a'[i] == b'[i]
    {
      TimesIndex(RowTs, a', i);
      TimesIndex(RowTs, b', i);
      assert a'[i] in a && b'[i] in b;
      assert times[i] in times;
    }
  }

  lemma TimesIndex<T>(key: T -> int, xs: seq<T>, i: nat)
    requires i < |xs|
    ensures Times(key, xs)[i] == key(xs[i])
  {
  }

  /** Reversing and truncating is the same as reversing what the limit keeps. */
  lemma CollectIsLimit<T>(q: Query, xs: seq<T>)
    ensures CollectRows(q.reverse, q.count, xs)
            == if q.reverse then Reverse(Limit(q, true, xs)) else Limit(q, true, xs)
  {
    if q.reverse && q.count.Some? {
      var n := if q.count.value <= |xs| then q.count.value else |xs|;
      assert Reverse(xs)[..n] == Reverse(xs[|xs| - n..]);
    }
  }

  lemma RowsAtPermutation(tag: string, t: int, xs: seq<Stream>, ys: seq<Stream>)
    requires multiset(xs) == multiset(ys)
    ensures multiset(RowsAt(tag, t, xs)) == multiset(RowsAt(tag, t, ys))
    ensures |RowsAt(tag, t, xs)| == |RowsAt(tag, t, ys)|
  {
    hide ConcatMap;
    ConcatMapPermutation(Contributes(tag, t), xs, ys);
    SameMembers(RowsAt(tag, t, xs), RowsAt(tag, t, ys));
  }

  /** A series has at most one row per timestamp. */
  lemma {:induction false} RowsAtMost(tag: string, t: int, columns: nat, streams: seq<Stream>)
    requires Shaped(columns, streams)
    ensures |RowsAt(tag, t, streams)| <= |streams|
  {
    hide With;
    if streams != [] {
      var n := |streams| - 1;
      RowsAtMost(tag, t, columns, streams[..n]);
      var rows := streams[n].rows;
      WithNone(RowTs, t, rows);
      if HasKey(RowTs, t, rows) {
        var i :| 0 <= i < |rows| && RowTs(rows[i]) == t;
        WithSingle(RowTs, rows, i);
      }
    }
  }

  /** A cell the limited result looks at has the value one node computes. */
  lemma CellValue(m: Machine, q: Query, whole: seq<int>, t: int, c: nat, addressed: seq<PartialState>,
                  rows: seq<Row>, all: seq<Row>)
    requires q.PushesDown() && t in Limit(q, true, whole) && Fills(q, whole, t, c, addressed, rows)
    requires multiset(rows) == multiset(all)
    requires q.reducer.aggregation.Avg? ==> |all| <= U32_MAX
    ensures var kind := q.Partial().kind;
            FinalizeState(m, kind, MergeAll(m, kind, addressed)) == ReduceGroup(m, q.reducer, t, ColumnOf(c, all))
  {
    hide Limit, Supplies, ColumnOf, FinalizeState, MergeAll, ReduceGroup;
    ColumnPermutation(c, rows, all);
    SuppliesPermuted(q.Partial(), t, addressed, ColumnOf(c, rows), ColumnOf(c, all));
    SuppliedValue(m, q.reducer, t, addressed, ColumnOf(c, all));
  }

  /** The coordinator sees the group's timestamps: all those it will report, and no foreign ones. */
  lemma GatheredTimes(m: Machine, q: Query, batches: seq<Batch>, fulls: seq<seq<Stream>>, all: seq<Stream>,
                      tag: string, whole: seq<int>)
    requires q.PushesDown() && Shaped(q.Columns(), all) && |fulls| == |batches|
    requires whole == Times(RowTs, GroupOnOneNode(m, q, tag, all))
    requires forall i :: 0 <= i < |batches| ==>
               Sound(q, batches[i]) && Covers(q, tag, whole, batches[i].streams, fulls[i])
    requires multiset(Flatten(fulls)) == multiset(all)
    ensures Ascending(Identity, whole)
    ensures AllWellFormed(Gathered(m, q, batches), q.Columns())
    ensures var some := TimesOf(AllEntries(Gathered(m, q, batches), q.Columns()), tag);
            Within(some, whole) && Within(Limit(q, true, whole), some)
  {
    hide Sound, Covers, RowsAt, Shaped, GroupOnOneNode, TimesOf, AllEntries, Gathered, Addressed, Limit, Query.Columns,
         Flatten, Supplies, Times, AllWellFormed;
    var columns := q.Columns();
    OneNodeShape(m, q, tag, all);
    TimesAscend(RowTs, GroupOnOneNode(m, q, tag, all));
    forall t
      ensures AllWellFormed(Gathered(m, q, batches), columns)
      ensures Fills(q, whole, t, 0, Addressed(AllEntries(Gathered(m, q, batches), columns), tag, t, 0),
                    RowsAt(tag, t, Flatten(fulls)))
      ensures RowsAt(tag, t, Flatten(fulls)) != [] <==> t in whole
    {
      GatheredFills(m, q, batches, fulls, tag, whole, t, 0);
      RowsAtPermutation(tag, t, Flatten(fulls), all);
    }
    var es := AllEntries(Gathered(m, q, batches), columns);
    var some, kept := TimesOf(es, tag), Limit(q, true, whole);
    forall i | 0 <= i < |some|
      ensures some[i] in whole
    {
      TimesAddressed(es, tag, some[i]);
    }
    forall i | 0 <= i < |kept|
      ensures kept[i] in some
    {
      TimesAddressed(es, tag, kept[i]);
      LimitedTimes(q, true, whole, kept[i]);
    }
  }

  lemma CellRowExact(m: Machine, q: Query, batches: seq<Batch>, fulls: seq<seq<Stream>>, all: seq<Stream>,
                     tag: string, whole: seq<int>, t: int)
    requires q.PushesDown() && Shaped(q.Columns(), all) && |fulls| == |batches|
    requires Ascending(Identity, whole) && t in Limit(q, true, whole)
    requires forall i :: 0 <= i < |batches| ==>
               Sound(q, batches[i]) && Covers(q, tag, whole, batches[i].streams, fulls[i])
    requires multiset(Flatten(fulls)) == multiset(all)
    requires q.reducer.aggregation.Avg? ==> |all| <= U32_MAX
    requires AllWellFormed(Gathered(m, q, batches), q.Columns())
    ensures CellRow(m, q.Partial().kind, q.Columns(), AllEntries(Gathered(m, q, batches), q.Columns()), tag, t)
            == ReducedRow(m, q.reducer, q.Columns(), t, RowsAt(tag, t, all))
  {
    hide Sound, Covers, RowsAt, Shaped, AllEntries, Gathered, Addressed, Limit, Query.Columns, Query.Partial, Flatten,
         Fills, FinalizeState, MergeAll, ReduceGroup, ColumnOf, AllWellFormed;
    var columns := q.Columns();
    RowsAtPermutation(tag, t, Flatten(fulls), all);
    RowsAtMost(tag, t, columns, all);
    var es := AllEntries(Gathered(m, q, batches), columns);
    forall c | 0 <= c < columns
      ensures FinalizeState(m, q.Partial().kind, MergeAll(m, q.Partial().kind, Addressed(es, tag, t, c)))
              == ReduceGroup(m, q.reducer, t, ColumnOf(c, RowsAt(tag, t, all)))
    {
      GatheredFills(m, q, batches, fulls, tag, whole, t, c);
      CellValue(m, q, whole, t, c, Addressed(es, tag, t, c), RowsAt(tag, t, Flatten(fulls)), RowsAt(tag, t, all));
    }
  }

  lemma CellTimes(m: Machine, kind: Kind, columns: nat, es: seq<Entry>, group: string)
    ensures Times(RowTs, CellRows(m, kind, columns, es, group)) == TimesOf(es, group)
    ensures Ascending(RowTs, CellRows(m, kind, columns, es, group))
    ensures forall x :: x in CellRows(m, kind, columns, es, group) ==> x == CellRow(m, kind, columns, es, group, x.ts)
  {
    hide FinalizeState, MergeAll, Addressed, TimesOf;
    var times, rows := TimesOf(es, group), CellRows(m, kind, columns, es, group);
    forall i, j | 0 <= i < j < |rows|
      ensures RowTs(rows[i]) < RowTs(rows[j])
    {
      assert Identity(times[i]) < Identity(times[j]);
    }
    var rowTimes := Times(RowTs, rows);
    forall i | 0 <= i < |rows|
      ensures rowTimes[i] == times[i]
    {
      assert rowTimes[i] == RowTs(rows[i]);
    }
  }

  /** A group's reply from merged partials is its reply on one node, COUNT and reversal included. */
  lemma GroupExact(m: Machine, q: Query, batches: seq<Batch>, fulls: seq<seq<Stream>>, all: seq<Stream>,
                   tag: string, whole: seq<int>)
    requires q.PushesDown() && Shaped(q.Columns(), all) && |fulls| == |batches|
    requires whole == Times(RowTs, GroupOnOneNode(m, q, tag, all))
    requires forall i :: 0 <= i < |batches| ==>
               Sound(q, batches[i]) && Covers(q, tag, whole, batches[i].streams, fulls[i])
    requires multiset(Flatten(fulls)) == multiset(all)
    requires q.reducer.aggregation.Avg? ==> |all| <= U32_MAX
    ensures AllWellFormed(Gathered(m, q, batches), q.Columns())
    ensures CollectRows(q.reverse, q.count,
                        CellRows(m, q.Partial().kind, q.Columns(), AllEntries(Gathered(m, q, batches), q.Columns()), tag))
            == CollectRows(q.reverse, q.count, GroupOnOneNode(m, q, tag, all))
  {
    hide Sound, Covers, RowsAt, Shaped, GroupOnOneNode, TimesOf, AllEntries, Gathered, Limit, Query.Columns,
         Query.Partial, Flatten, Times, AllWellFormed, CellRows, CellRow, ReducedRow, CollectRows, Ascending, Within;
    var columns, kind := q.Columns(), q.Partial().kind;
    GatheredTimes(m, q, batches, fulls, all, tag, whole);
    OneNodeShape(m, q, tag, all);
    var es := AllEntries(Gathered(m, q, batches), columns);
    var cells, one := CellRows(m, kind, columns, es, tag), GroupOnOneNode(m, q, tag, all);
    CellTimes(m, kind, columns, es, tag);
    LimitOfBetween(q, TimesOf(es, tag), whole);
    forall x, y | x in cells && y in one && x.ts == y.ts && x.ts in Limit(q, true, whole)
      ensures x == y
    {
      CellRowExact(m, q, batches, fulls, all, tag, whole, x.ts);
    }
    LimitedRowsAgree(q, cells, one);
    CollectIsLimit(q, cells);
    CollectIsLimit(q, one);
  }

  // -- who is in a reply ---------------------------------------------------------------------------

  ghost predicate SameNames(a: seq<Stream>, b: seq<Stream>) {
    |a| == |b| && forall i :: 0 <= i < |a| ==> a[i].key == b[i].key && a[i].tag == b[i].tag
  }

  lemma NamesOf(a: seq<Stream>, b: seq<Stream>, tag: string)
    requires SameNames(a, b)
    ensures tag in TagsOf(a) ==> tag in TagsOf(b)
    ensures forall k :: k in KeysOf(tag, a) ==> k in KeysOf(tag, b)
  {
    if tag in TagsOf(a) {
      var i :| 0 <= i < |a| && a[i].tag == Some(tag);
      assert b[i] in b;
    }
    forall k | k in KeysOf(tag, a)
      ensures k in KeysOf(tag, b)
    {
      var i :| 0 <= i < |a| && a[i].tag == Some(tag) && a[i].key == k;
      assert b[i] in b;
    }
  }

  lemma NamesOfConcat(tag: string, a: seq<Stream>, b: seq<Stream>)
    ensures TagsOf(a + b) == TagsOf(a) + TagsOf(b)
    ensures KeysOf(tag, a + b) == KeysOf(tag, a) + KeysOf(tag, b)
  {
    assert forall s :: s in a + b <==> s in a || s in b;
  }

  lemma LabelsOfConcat(tag: string, a: seq<GroupPartial>, b: seq<GroupPartial>)
    ensures LabelsOf(a + b) == LabelsOf(a) + LabelsOf(b)
    ensures SourcesOf(a + b, tag) == SourcesOf(a, tag) + SourcesOf(b, tag)
  {
    assert forall p :: p in a + b <==> p in a || p in b;
  }

  lemma {:induction false} BatchNames(m: Machine, q: Query, order: seq<string>, streams: seq<Stream>, applies: bool,
                                      tag: string)
    requires q.PushesDown()
    ensures tag in LabelsOf(PartialsFor(m, q, order, streams, applies)) <==> tag in order
    ensures forall k :: k in SourcesOf(PartialsFor(m, q, order, streams, applies), tag)
                        <==> tag in order && k in KeysOf(tag, streams)
  {
    hide GroupBuckets, SourceKeys, KeysOf;
    if order != [] {
      var n := |order| - 1;
      BatchNames(m, q, order[..n], streams, applies, tag);
      LabelsOfConcat(tag, PartialsFor(m, q, order[..n], streams, applies), [PartialFor(m, q, order[n], streams, applies)]);
      assert order == order[..n] + [order[n]];
      OneName(PartialFor(m, q, order[n], streams, applies), tag);
    }
  }

  lemma OneName(p: GroupPartial, tag: string)
    ensures tag in LabelsOf([p]) <==> tag == p.group
    ensures forall k :: k in SourcesOf([p], tag) <==> tag == p.group && k in p.sources
  {
    assert p in [p];
  }
}
