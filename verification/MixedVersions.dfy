/**
 * The whole grouped query over shards of mixed versions. Each shard sends group partials,
 * per-series buckets or raw samples, and honors COUNT or not; the reply is the same as one
 * node's that holds every series.
 */
module MixedVersions {
  import opened Values
  import opened Bags
  import opened Aggregators
  import opened Partials
  import opened BucketGrid
  import opened Timeline
  import opened AggregateIterator
  import opened Streams
  import opened Coordinator
  import opened Descending
  import opened Pipelines
  import opened ScatterGather

  datatype Mode = SendsPartials | SendsBuckets | SendsSamples

  /** `order` is the order in which the shard lists its groups, when it sends partials. */
  datatype Shard = Shard(sources: seq<Source>, mode: Mode, honorsCount: bool, order: seq<string>)

  ghost function StreamOf(m: Machine, q: Query): Source -> seq<Stream>
    requires q.Valid()
  {
    (s: Source) => [Stream(s.key, s.tag, SeriesRows(m, q, s.samples, s.fill))]
  }

  /** Every series through its whole pipeline. */
  ghost function StreamsOf(m: Machine, q: Query, sources: seq<Source>): seq<Stream>
    requires q.Valid()
  {
    ConcatMap(StreamOf(m, q), sources)
  }

  /**
   * A series as the coordinator has it after `normalize_response_series`: buckets as they came,
   * raw samples aggregated with the default EMPTY bounds.
   */
  ghost function Normalized(m: Machine, q: Query, mode: Mode, honorsCount: bool): Source -> seq<Stream>
    requires q.Valid()
  {
    (s: Source) =>
      [Stream(s.key, s.tag,
              if mode.SendsSamples? then SeriesRows(m, q, Limit(q, honorsCount, s.samples), NO_FILL)
              else Limit(q, honorsCount, SeriesRows(m, q, s.samples, s.fill)))]
  }

  ghost function AllSources(shards: seq<Shard>): seq<Source> {
    if shards == [] then [] else AllSources(shards[..|shards| - 1]) + shards[|shards| - 1].sources
  }

  /** Shards that pre-reduced their groups. */
  ghost function WireBatches(m: Machine, q: Query, shards: seq<Shard>): seq<Batch>
    requires q.PushesDown()
  {
    if shards == [] then []
    else
      var shard := shards[|shards| - 1];
      WireBatches(m, q, shards[..|shards| - 1])
      + (if shard.mode.SendsPartials? then [Batch(StreamsOf(m, q, shard.sources), shard.honorsCount, shard.order)] else [])
  }

  /** The series of all other shards. */
  ghost function LateStreams(m: Machine, q: Query, shards: seq<Shard>): seq<Stream>
    requires q.Valid()
  {
    if shards == [] then []
    else
      var shard := shards[|shards| - 1];
      LateStreams(m, q, shards[..|shards| - 1])
      + (if shard.mode.SendsPartials? then []
         else ConcatMap(Normalized(m, q, shard.mode, shard.honorsCount), shard.sources))
  }

  ghost function Batches(m: Machine, q: Query, shards: seq<Shard>, lateOrder: seq<string>): seq<Batch>
    requires q.PushesDown()
  {
    WireBatches(m, q, shards) + [Batch(LateStreams(m, q, shards), false, lateOrder)]
  }

  /** `process_responses`: the wire partials, then those made for the remaining series. */
  ghost function Responses(m: Machine, q: Query, shards: seq<Shard>, lateOrder: seq<string>): seq<GroupPartial>
    requires q.PushesDown()
  {
    Gathered(m, q, Batches(m, q, shards, lateOrder))
  }

  /** One node that holds every series. */
  ghost function OneNodeReply(m: Machine, q: Query, all: seq<Source>): map<string, GroupReply>
    requires q.Valid()
  {
    var streams := StreamsOf(m, q, all);
    map tag | tag in TagsOf(streams) ::
      GroupReply(CollectRows(q.reverse, q.count, GroupOnOneNode(m, q, tag, streams)), KeysOf(tag, streams))
  }

  /**
   * What a shard may do: list its groups in any order, and ignore any push-down flag. Raw samples
   * of an AGGREGATION query are never pre-limited, and EMPTY is only filled where the series is.
   */
  ghost predicate Consistent(m: Machine, q: Query, shard: Shard)
    requires q.Valid()
  {
    && (shard.mode.SendsPartials? ==> Enumerates(shard.order, TagsOf(StreamsOf(m, q, shard.sources))))
    && (shard.mode.SendsSamples? ==> !q.FillsEmpty())
    && (shard.mode.SendsSamples? && q.aggregation.Some? ==> !shard.honorsCount)
  }

  // -- shapes -----------------------------------------------------------------------------------

  ghost predicate AllValid(sources: seq<Source>) {
    forall i :: 0 <= i < |sources| ==> sources[i].Valid()
  }

  lemma {:induction false} StreamsShape(m: Machine, q: Query, sources: seq<Source>)
    requires q.Valid() && AllValid(sources)
    ensures |StreamsOf(m, q, sources)| == |sources|
    ensures Shaped(q.Columns(), StreamsOf(m, q, sources))
    ensures forall i :: 0 <= i < |sources| ==> StreamOf(m, q)(sources[i]) == [StreamsOf(m, q, sources)[i]]
  {
    hide SeriesRows, Wide, Ascending, Query.Columns, Source.Valid;
    if sources != [] {
      var n := |sources| - 1;
      StreamsShape(m, q, sources[..n]);
      SeriesRowsShape(m, q, sources[n]);
    }
  }

  /** Whichever way a series travels, the coordinator ends up with a limit of its full rows, or all. */
  lemma NormalizedIsLimited(m: Machine, q: Query, shard: Shard, s: Source)
    requires q.Valid() && Consistent(m, q, shard)
    ensures Normalized(m, q, shard.mode, shard.honorsCount)(s)
            == [Stream(s.key, s.tag, Limit(q, shard.honorsCount, SeriesRows(m, q, s.samples, s.fill)))]
  {
    hide Output, TagsOf, StreamsOf;
    if shard.mode.SendsSamples? {
      var samples := Limit(q, shard.honorsCount, s.samples);
      FillIrrelevant(m, q, samples, s.fill, NO_FILL);
      if q.aggregation.None? {
        assert SampleRows(samples) == Limit(q, shard.honorsCount, SampleRows(s.samples));
      }
    }
  }

  lemma LimitedStreamCovers(q: Query, applies: bool, rows: seq<Row>, whole: seq<int>, t: int)
    requires Ascending(RowTs, rows) && Ascending(Identity, whole)
    requires forall u :: With(RowTs, u, rows) != [] ==> u in whole
    ensures With(RowTs, t, Limit(q, applies, rows)) != [] ==> With(RowTs, t, rows) != []
    ensures t in Limit(q, true, whole) ==> With(RowTs, t, Limit(q, applies, rows)) == With(RowTs, t, rows)
  {
    hide With, Limit, Times, HasKey;
    var times := Times(RowTs, rows);
    forall i | 0 <= i < |times|
      ensures times[i] in whole
    {
      TimesMembers(RowTs, rows, times[i]);
      WithNone(RowTs, times[i], rows);
    }
    LimitShape(q, applies, RowTs, rows);
    WithNone(RowTs, t, rows);
    WithNone(RowTs, t, Limit(q, applies, rows));
    TimesMembers(RowTs, rows, t);
    TimesMembers(RowTs, Limit(q, applies, rows), t);
    LimitedTimes(q, applies, times, t);
    if t in Limit(q, true, whole) { LimitedRowsAt(q, applies, rows, whole, t); }
  }

  lemma RowsAtOne(tag: string, t: int, s: Stream)
    ensures RowsAt(tag, t, [s]) == if s.tag == Some(tag) then With(RowTs, t, s.rows) else []
  {
    ConcatMapOne(Contributes(tag, t), s);
  }

  /** What the coordinator got of some series stands in for their full streams. */
  ghost predicate CoversAt(q: Query, tag: string, whole: seq<int>, t: int, got: seq<Stream>, full: seq<Stream>)
    requires q.Valid()
  {
    && SameNames(got, full)
    && Shaped(q.Columns(), got)
    && (RowsAt(tag, t, got) != [] ==> RowsAt(tag, t, full) != [])
    && (t in Limit(q, true, whole) ==> RowsAt(tag, t, got) == RowsAt(tag, t, full))
  }

  lemma CoversBoth(q: Query, tag: string, whole: seq<int>, t: int, got: seq<Stream>, full: seq<Stream>,
                   got': seq<Stream>, full': seq<Stream>)
    requires q.Valid() && CoversAt(q, tag, whole, t, got, full) && CoversAt(q, tag, whole, t, got', full')
    ensures CoversAt(q, tag, whole, t, got + got', full + full')
  {
    hide RowsAt, Ascending, Wide, Limit, Query.Columns;
    RowsAtOfConcat(tag, t, got, got');
    RowsAtOfConcat(tag, t, full, full');
  }

  lemma CoversNothing(q: Query, tag: string, whole: seq<int>, t: int)
    requires q.Valid()
    ensures CoversAt(q, tag, whole, t, [], [])
  {
  }

  lemma LimitedWide(q: Query, applies: bool, columns: nat, rows: seq<Row>)
    requires Wide(columns, rows)
    ensures Wide(columns, Limit(q, applies, rows))
  {
  }

  lemma CoversOne(q: Query, applies: bool, f: Stream, g: Stream, tag: string, whole: seq<int>, t: int)
    requires q.Valid() && Ascending(RowTs, f.rows) && Wide(q.Columns(), f.rows) && Ascending(Identity, whole)
    requires g == Stream(f.key, f.tag, Limit(q, applies, f.rows))
    requires forall u :: RowsAt(tag, u, [f]) != [] ==> u in whole
    ensures CoversAt(q, tag, whole, t, [g], [f])
  {
    hide RowsAt, Ascending, Wide, Limit, With, Query.Columns;
    LimitedWide(q, applies, q.Columns(), f.rows);
    LimitShape(q, applies, RowTs, f.rows);
    forall u { RowsAtOne(tag, u, f); }
    RowsAtOne(tag, t, g);
    if f.tag == Some(tag) { LimitedStreamCovers(q, applies, f.rows, whole, t); }
  }

  /** One late shard's series, as received and in full. */
  lemma {:induction false} ShardCovers(m: Machine, q: Query, shard: Shard, sources: seq<Source>,
                                       tag: string, whole: seq<int>, t: int)
    requires q.Valid() && Consistent(m, q, shard) && AllValid(sources) && Ascending(Identity, whole)
    requires forall u :: RowsAt(tag, u, StreamsOf(m, q, sources)) != [] ==> u in whole
    ensures CoversAt(q, tag, whole, t, ConcatMap(Normalized(m, q, shard.mode, shard.honorsCount), sources),
                     StreamsOf(m, q, sources))
  {
    hide SeriesRows, RowsAt, Wide, Ascending, Query.Columns, Source.Valid, Consistent, Limit, CoversAt, Normalized;
    if sources == [] {
      CoversNothing(q, tag, whole, t);
    } else {
      var n := |sources| - 1;
      var s := sources[n];
      var full := StreamsOf(m, q, sources[..n]);
      var rows := SeriesRows(m, q, s.samples, s.fill);
      var f, g := Stream(s.key, s.tag, rows), Stream(s.key, s.tag, Limit(q, shard.honorsCount, rows));
      forall u { RowsAtOfConcat(tag, u, full, [f]); }
      ShardCovers(m, q, shard, sources[..n], tag, whole, t);
      SeriesRowsShape(m, q, s);
      CoversOne(q, shard.honorsCount, f, g, tag, whole, t);
      NormalizedIsLimited(m, q, shard, s);
      CoversBoth(q, tag, whole, t, ConcatMap(Normalized(m, q, shard.mode, shard.honorsCount), sources[..n]), full,
                 [g], [f]);
    }
  }

  // -- where every series went -------------------------------------------------------------------

  ghost function LateSources(shards: seq<Shard>): seq<Source> {
    if shards == [] then []
    else
      var shard := shards[|shards| - 1];
      LateSources(shards[..|shards| - 1]) + (if shard.mode.SendsPartials? then [] else shard.sources)
  }

  ghost function WireFulls(m: Machine, q: Query, shards: seq<Shard>): seq<seq<Stream>>
    requires q.PushesDown()
  {
    if shards == [] then []
    else
      var shard := shards[|shards| - 1];
      WireFulls(m, q, shards[..|shards| - 1])
      + (if shard.mode.SendsPartials? then [StreamsOf(m, q, shard.sources)] else [])
  }

  ghost function Fulls(m: Machine, q: Query, shards: seq<Shard>): seq<seq<Stream>>
    requires q.PushesDown()
  {
    WireFulls(m, q, shards) + [StreamsOf(m, q, LateSources(shards))]
  }

  lemma StreamsOfConcat(m: Machine, q: Query, a: seq<Source>, b: seq<Source>)
    requires q.Valid()
    ensures StreamsOf(m, q, a + b) == StreamsOf(m, q, a) + StreamsOf(m, q, b)
  {
    ConcatMapOfConcat(StreamOf(m, q), a, b);
  }

  lemma FlattenSnoc<T>(parts: seq<seq<T>>, last: seq<T>)
    ensures Flatten(parts + [last]) == Flatten(parts) + last
  {
    assert (parts + [last])[..|parts|] == parts;
  }

  lemma {:induction false} WirePartition(m: Machine, q: Query, shards: seq<Shard>)
    requires q.PushesDown()
    ensures multiset(Flatten(WireFulls(m, q, shards)) + StreamsOf(m, q, LateSources(shards)))
            == multiset(StreamsOf(m, q, AllSources(shards)))
  {
    hide StreamsOf, Flatten;
    if shards == [] {
      assert Flatten<Stream>([]) == [] by { NothingFlat<Stream>(); }
    } else {
      var n := |shards| - 1;
      var front, shard := shards[..n], shards[n];
      WirePartition(m, q, front);
      StreamsOfConcat(m, q, AllSources(front), shard.sources);
      if shard.mode.SendsPartials? {
        FlattenSnoc(WireFulls(m, q, front), StreamsOf(m, q, shard.sources));
        assert LateSources(shards) == LateSources(front);
      } else {
        assert WireFulls(m, q, shards) == WireFulls(m, q, front);
        StreamsOfConcat(m, q, LateSources(front), shard.sources);
      }
    }
  }

  lemma NothingFlat<T>()
    ensures Flatten<T>([]) == []
  {
  }

  /** Every series is in exactly one place. */
  lemma Partition(m: Machine, q: Query, shards: seq<Shard>, all: seq<Source>)
    requires q.PushesDown() && multiset(AllSources(shards)) == multiset(all)
    ensures multiset(Flatten(Fulls(m, q, shards))) == multiset(StreamsOf(m, q, all))
  {
    hide Flatten, WireFulls, LateSources, AllSources;
    WirePartition(m, q, shards);
    FlattenSnoc(WireFulls(m, q, shards), StreamsOf(m, q, LateSources(shards)));
    ConcatMapPermutation(StreamOf(m, q), AllSources(shards), all);
  }

  lemma {:induction false} RowsAtPart(tag: string, t: int, fulls: seq<seq<Stream>>, i: nat)
    requires i < |fulls| && RowsAt(tag, t, fulls[i]) != []
    ensures RowsAt(tag, t, Flatten(fulls)) != []
  {
    hide RowsAt;
    var n := |fulls| - 1;
    RowsAtOfConcat(tag, t, Flatten(fulls[..n]), fulls[n]);
    if i < n { RowsAtPart(tag, t, fulls[..n], i); }
  }

  lemma {:induction false} LateCovers(m: Machine, q: Query, shards: seq<Shard>, tag: string, whole: seq<int>, t: int)
    requires q.Valid() && AllValid(AllSources(shards)) && Ascending(Identity, whole)
    requires forall i :: 0 <= i < |shards| ==> Consistent(m, q, shards[i])
    requires forall u :: RowsAt(tag, u, StreamsOf(m, q, LateSources(shards))) != [] ==> u in whole
    ensures CoversAt(q, tag, whole, t, LateStreams(m, q, shards), StreamsOf(m, q, LateSources(shards)))
  {
    hide RowsAt, StreamsOf, Consistent, CoversAt, Ascending, Limit, Source.Valid, Normalized;
    if shards == [] {
      assert StreamsOf(m, q, []) == [] by { NoStreams(m, q); }
      CoversNothing(q, tag, whole, t);
    } else {
      var n := |shards| - 1;
      var front, shard := shards[..n], shards[n];
      ValidParts(AllSources(front), shard.sources);
      if shard.mode.SendsPartials? {
        assert LateSources(shards) == LateSources(front) && LateStreams(m, q, shards) == LateStreams(m, q, front);
        LateCovers(m, q, front, tag, whole, t);
      } else {
        StreamsOfConcat(m, q, LateSources(front), shard.sources);
        forall u { RowsAtOfConcat(tag, u, StreamsOf(m, q, LateSources(front)), StreamsOf(m, q, shard.sources)); }
        LateCovers(m, q, front, tag, whole, t);
        ShardCovers(m, q, shard, shard.sources, tag, whole, t);
        CoversBoth(q, tag, whole, t, LateStreams(m, q, front), StreamsOf(m, q, LateSources(front)),
                   ConcatMap(Normalized(m, q, shard.mode, shard.honorsCount), shard.sources),
                   StreamsOf(m, q, shard.sources));
      }
    }
  }

  lemma NoStreams(m: Machine, q: Query)
    requires q.Valid()
    ensures StreamsOf(m, q, []) == []
  {
  }

  lemma ValidParts(a: seq<Source>, b: seq<Source>)
    requires AllValid(a + b)
    ensures AllValid(a) && AllValid(b)
  {
    hide Source.Valid;
    assert forall i :: 0 <= i < |a| ==> (a + b)[i] == a[i];
    assert forall i :: 0 <= i < |b| ==> (a + b)[|a| + i] == b[i];
  }

  // -- the theorem -------------------------------------------------------------------------------

  lemma {:induction false} WireReady(m: Machine, q: Query, shards: seq<Shard>)
    requires q.PushesDown() && AllValid(AllSources(shards))
    requires forall i :: 0 <= i < |shards| ==> Consistent(m, q, shards[i])
    ensures |WireBatches(m, q, shards)| == |WireFulls(m, q, shards)|
    ensures forall i :: 0 <= i < |WireFulls(m, q, shards)| ==>
              && Sound(q, WireBatches(m, q, shards)[i])
              && WireBatches(m, q, shards)[i].streams == WireFulls(m, q, shards)[i]
  {
    hide StreamsOf, Shaped, Enumerates, TagsOf, Source.Valid, Query.Columns;
    if shards != [] {
      var n := |shards| - 1;
      ValidParts(AllSources(shards[..n]), shards[n].sources);
      WireReady(m, q, shards[..n]);
      StreamsShape(m, q, shards[n].sources);
    }
  }

  /** Every batch is well made and stands in for the full streams of its series. */
  lemma BatchesReady(m: Machine, q: Query, shards: seq<Shard>, lateOrder: seq<string>, tag: string, whole: seq<int>)
    requires q.PushesDown() && AllValid(AllSources(shards)) && Ascending(Identity, whole)
    requires forall i :: 0 <= i < |shards| ==> Consistent(m, q, shards[i])
    requires Enumerates(lateOrder, TagsOf(LateStreams(m, q, shards)))
    requires forall u :: RowsAt(tag, u, Flatten(Fulls(m, q, shards))) != [] ==> u in whole
    ensures |Batches(m, q, shards, lateOrder)| == |Fulls(m, q, shards)|
    ensures forall i :: 0 <= i < |Fulls(m, q, shards)| ==>
              var b, full := Batches(m, q, shards, lateOrder)[i], Fulls(m, q, shards)[i];
              Sound(q, b) && SameNames(b.streams, full) && Covers(q, tag, whole, b.streams, full)
  {
    hide StreamsOf, Shaped, Enumerates, TagsOf, Source.Valid, Query.Columns, RowsAt, LateStreams, WireBatches, WireFulls,
         LateSources, Limit, Consistent, AllSources, Flatten, Ascending;
    WireReady(m, q, shards);
    var batches, fulls := Batches(m, q, shards, lateOrder), Fulls(m, q, shards);
    var n := |WireFulls(m, q, shards)|;
    forall u | RowsAt(tag, u, fulls[n]) != [] ensures u in whole { RowsAtPart(tag, u, fulls, n); }
    assert fulls[n] == StreamsOf(m, q, LateSources(shards));
    forall t
      ensures CoversAt(q, tag, whole, t, LateStreams(m, q, shards), fulls[n])
    {
      LateCovers(m, q, shards, tag, whole, t);
    }
    assert CoversAt(q, tag, whole, 0, LateStreams(m, q, shards), fulls[n]);
    forall i | 0 <= i < |fulls|
      ensures var b, full := batches[i], fulls[i];
              Sound(q, b) && SameNames(b.streams, full) && Covers(q, tag, whole, b.streams, full)
    {
      forall u | RowsAt(tag, u, fulls[i]) != [] ensures u in whole { RowsAtPart(tag, u, fulls, i); }
      if i < n {
        assert batches[i].streams == fulls[i];
      } else {
        assert batches[i] == Batch(LateStreams(m, q, shards), false, lateOrder);
        forall t
          ensures RowsAt(tag, t, batches[i].streams) != [] ==> RowsAt(tag, t, fulls[i]) != []
          ensures t in Limit(q, true, whole) ==> RowsAt(tag, t, batches[i].streams) == RowsAt(tag, t, fulls[i])
        {
          assert CoversAt(q, tag, whole, t, LateStreams(m, q, shards), fulls[n]);
        }
      }
    }
  }

  lemma {:induction false} GatheredNames(m: Machine, q: Query, batches: seq<Batch>, fulls: seq<seq<Stream>>, tag: string)
    requires q.PushesDown() && |fulls| == |batches|
    requires forall i :: 0 <= i < |batches| ==> Sound(q, batches[i]) && SameNames(batches[i].streams, fulls[i])
    ensures tag in LabelsOf(Gathered(m, q, batches)) <==> tag in TagsOf(Flatten(fulls))
    ensures forall k :: k in SourcesOf(Gathered(m, q, batches), tag) <==> k in KeysOf(tag, Flatten(fulls))
  {
    hide Shaped, TagsOf, KeysOf, LabelsOf, SourcesOf, SameNames, PartialsFor;
    if batches == [] {
      NoNames(tag);
    } else {
      var n := |batches| - 1;
      var b := batches[n];
      GatheredNames(m, q, batches[..n], fulls[..n], tag);
      LabelsOfConcat(tag, Gathered(m, q, batches[..n]), PartialsFor(m, q, b.order, b.streams, b.applies));
      NamesOfConcat(tag, Flatten(fulls[..n]), fulls[n]);
      BatchNames(m, q, b.order, b.streams, b.applies, tag);
      NamesSwap(b.streams, fulls[n]);
      NamesOf(b.streams, fulls[n], tag);
      NamesOf(fulls[n], b.streams, tag);
      KeyedAreTagged(tag, b.streams);
    }
  }

  lemma NamesSwap(a: seq<Stream>, b: seq<Stream>)
    requires SameNames(a, b)
    ensures SameNames(b, a)
  {
  }

  lemma NoNames(tag: string)
    ensures tag !in LabelsOf([]) && tag !in TagsOf([])
    ensures forall k :: k !in SourcesOf([], tag) && k !in KeysOf(tag, [])
  {
  }

  lemma KeyedAreTagged(tag: string, streams: seq<Stream>)
    ensures forall k :: k in KeysOf(tag, streams) ==> tag in TagsOf(streams)
  {
  }

  lemma NamesPermutation(tag: string, a: seq<Stream>, b: seq<Stream>)
    requires multiset(a) == multiset(b)
    ensures TagsOf(a) == TagsOf(b) && KeysOf(tag, a) == KeysOf(tag, b)
  {
    SameMembers(a, b);
  }

  lemma ValidPermutation(a: seq<Source>, b: seq<Source>)
    requires multiset(a) == multiset(b) && AllValid(b)
    ensures AllValid(a)
  {
    hide Source.Valid;
    SameMembers(a, b);
    forall i | 0 <= i < |a|
      ensures a[i].Valid()
    {
      assert a[i] in b;
    }
  }

  /** One group of the reply. */
  lemma GroupReplyExact(m: Machine, q: Query, all: seq<Source>, shards: seq<Shard>, lateOrder: seq<string>, tag: string)
    requires q.PushesDown() && AllValid(all)
    requires multiset(AllSources(shards)) == multiset(all)
    requires forall i :: 0 <= i < |shards| ==> Consistent(m, q, shards[i])
    requires Enumerates(lateOrder, TagsOf(LateStreams(m, q, shards)))
    requires q.reducer.aggregation.Avg? ==> |all| <= U32_MAX
    ensures AllWellFormed(Responses(m, q, shards, lateOrder), q.Columns())
    ensures CollectRows(q.reverse, q.count,
                        CellRows(m, q.Partial().kind, q.Columns(),
                                 AllEntries(Responses(m, q, shards, lateOrder), q.Columns()), tag))
            == CollectRows(q.reverse, q.count, GroupOnOneNode(m, q, tag, StreamsOf(m, q, all)))
    ensures tag in LabelsOf(Responses(m, q, shards, lateOrder)) <==> tag in TagsOf(StreamsOf(m, q, all))
    ensures SourcesOf(Responses(m, q, shards, lateOrder), tag) == KeysOf(tag, StreamsOf(m, q, all))
  {
    hide StreamsOf, Shaped, Enumerates, TagsOf, KeysOf, LabelsOf, SourcesOf, Source.Valid, Query.Columns, Query.Partial,
         RowsAt, LateStreams, WireBatches, Limit, Consistent, AllSources, Flatten, Fulls, Gathered, GroupOnOneNode, Times,
         CellRows, AllEntries, AllWellFormed, CollectRows, Covers, Sound, SameNames, Ascending;
    ValidPermutation(AllSources(shards), all);
    Partition(m, q, shards, all);
    var streams, fulls, batches := StreamsOf(m, q, all), Fulls(m, q, shards), Batches(m, q, shards, lateOrder);
    StreamsShape(m, q, all);
    OneNodeShape(m, q, tag, streams);
    var whole := Times(RowTs, GroupOnOneNode(m, q, tag, streams));
    TimesAscend(RowTs, GroupOnOneNode(m, q, tag, streams));
    forall u | RowsAt(tag, u, Flatten(fulls)) != []
      ensures u in whole
    {
      RowsAtPermutation(tag, u, Flatten(fulls), streams);
    }
    BatchesReady(m, q, shards, lateOrder, tag, whole);
    GroupExact(m, q, batches, fulls, streams, tag, whole);
    GatheredNames(m, q, batches, fulls, tag);
    NamesPermutation(tag, Flatten(fulls), streams);
  }

  /**
   * For every assignment of shards to wire forms, every honoring of COUNT, every order of arrival
   * and of groups, the coordinator's reply is the reply of one node that holds all the series.
   */
  lemma ScatterGatherExact(m: Machine, q: Query, all: seq<Source>, shards: seq<Shard>, lateOrder: seq<string>)
    requires q.PushesDown() && AllValid(all)
    requires multiset(AllSources(shards)) == multiset(all)
    requires forall i :: 0 <= i < |shards| ==> Consistent(m, q, shards[i])
    requires Enumerates(lateOrder, TagsOf(LateStreams(m, q, shards)))
    requires q.reducer.aggregation.Avg? ==> |all| <= U32_MAX
    ensures AllWellFormed(Responses(m, q, shards, lateOrder), q.Columns())
    ensures Reply(m, q.Partial().kind, q.Columns(), q.reverse, q.count, Responses(m, q, shards, lateOrder))
            == OneNodeReply(m, q, all)
  {
    hide StreamsOf, Enumerates, TagsOf, KeysOf, LabelsOf, SourcesOf, Source.Valid, Query.Columns, Query.Partial,
         LateStreams, Consistent, AllSources, GroupOnOneNode, CellRows, AllEntries, AllWellFormed, CollectRows, Responses;
    GroupReplyExact(m, q, all, shards, lateOrder, "");
    forall tag { GroupReplyExact(m, q, all, shards, lateOrder, tag); }
  }

  // -- reducers without a partial form ----------------------------------------------------------------

  /**
   * `process_group`: the coordinator reduces the collected series itself. One value per row and in
   * reverse, once no aggregation is left to do, it sorts them downward and truncates the reduction.
   */
  ghost function CollectedRows(m: Machine, q: Query, enabled: bool, tag: string, streams: seq<Stream>): seq<Row>
    requires q.Valid()
  {
    if q.reverse && !q.IsMulti() && (q.aggregation.None? || enabled) then
      var reduced := PerTimestamp(ToRow(m, q.reducer, q.Columns()), SortDown(Flatten(Lists(tag, streams))));
      if q.count.Some? then Head(q.count.value, reduced) else reduced
    else CollectRows(q.reverse, q.count, GroupOnOneNode(m, q, tag, streams))
  }

  lemma {:induction false} WithFlatten(t: int, lists: seq<seq<Row>>)
    ensures With(RowTs, t, Flatten(lists)) == WithIn(RowTs, t, lists)
  {
    hide With;
    if lists == [] {
      WithNone(RowTs, t, []);
    } else {
      var n := |lists| - 1;
      WithFlatten(t, lists[..n]);
      WithOfConcat(RowTs, t, Flatten(lists[..n]), lists[n]);
    }
  }

  /** Both ways of reversing give the same rows. */
  lemma CollectedEitherWay(m: Machine, q: Query, enabled: bool, tag: string, streams: seq<Stream>)
    requires q.Valid() && Shaped(q.Columns(), streams)
    ensures CollectedRows(m, q, enabled, tag, streams)
            == CollectRows(q.reverse, q.count, GroupOnOneNode(m, q, tag, streams))
  {
    hide With, SortDown, Flatten, MergedRows, Lists, PerTimestamp, RowsAt, Shaped, Query.Columns, ReducedRow;
    var up, down := MergedRows(tag, streams), SortDown(Flatten(Lists(tag, streams)));
    MergedRowsAt(tag, q.Columns(), streams);
    SortDownStable(0, Flatten(Lists(tag, streams)));
    forall t
      ensures With(RowTs, t, down) == With(RowTs, t, up)
    {
      SortDownStable(t, Flatten(Lists(tag, streams)));
      WithFlatten(t, Lists(tag, streams));
      WithInLists(tag, t, streams);
    }
    RowsCarryTheirTime(m, q.reducer, q.Columns());
    GroupsReversed(RowTs, ToRow(m, q.reducer, q.Columns()), up, down);
  }

  lemma RowsCarryTheirTime(m: Machine, config: AggregatorConfig, columns: nat)
    ensures forall t, group :: RowTs(ToRow(m, config, columns)(t, group)) == t
  {
  }

  /** `handle_grouping` */
  ghost function CollectedReply(m: Machine, q: Query, enabled: bool, shards: seq<Shard>): map<string, GroupReply>
    requires q.Valid()
  {
    var streams := LateStreams(m, q, shards);
    map tag | tag in TagsOf(streams) ::
      GroupReply(CollectedRows(m, q, enabled, tag, streams), KeysOf(tag, streams))
  }

  lemma {:induction false} AllAreLate(shards: seq<Shard>)
    requires forall i :: 0 <= i < |shards| ==> !shards[i].mode.SendsPartials?
    ensures LateSources(shards) == AllSources(shards)
  {
    if shards != [] { AllAreLate(shards[..|shards| - 1]); }
  }

  lemma ReducedAlike(m: Machine, q: Query, tag: string, got: seq<Stream>, full: seq<Stream>, whole: seq<int>)
    requires q.Valid() && Shaped(q.Columns(), got) && Shaped(q.Columns(), full)
    requires whole == Times(RowTs, GroupOnOneNode(m, q, tag, full))
    requires forall t :: CoversAt(q, tag, whole, t, got, full)
    ensures CollectRows(q.reverse, q.count, GroupOnOneNode(m, q, tag, got))
            == CollectRows(q.reverse, q.count, GroupOnOneNode(m, q, tag, full))
  {
    hide RowsAt, Shaped, GroupOnOneNode, Limit, Query.Columns, Times, ReducedRow, CollectRows, Ascending, SameNames;
    var a, b := GroupOnOneNode(m, q, tag, got), GroupOnOneNode(m, q, tag, full);
    OneNodeShape(m, q, tag, got);
    OneNodeShape(m, q, tag, full);
    TimesAscend(RowTs, a);
    TimesAscend(RowTs, b);
    var some := Times(RowTs, a);
    forall i | 0 <= i < |some|
      ensures some[i] in whole
    {
      assert some[i] in some && CoversAt(q, tag, whole, some[i], got, full);
    }
    var kept := Limit(q, true, whole);
    forall i | 0 <= i < |kept|
      ensures kept[i] in some
    {
      LimitedTimes(q, true, whole, kept[i]);
      assert kept[i] in kept && CoversAt(q, tag, whole, kept[i], got, full);
    }
    LimitOfBetween(q, some, whole);
    forall x, y | x in a && y in b && x.ts == y.ts && x.ts in kept
      ensures x == y
    {
      assert CoversAt(q, tag, whole, x.ts, got, full);
    }
    LimitedRowsAgree(q, a, b);
    CollectIsLimit(q, a);
    CollectIsLimit(q, b);
  }

  lemma CollectedGroupExact(m: Machine, q: Query, enabled: bool, shards: seq<Shard>, tag: string)
    requires q.Valid() && AllValid(AllSources(shards))
    requires forall i :: 0 <= i < |shards| ==> Consistent(m, q, shards[i]) && !shards[i].mode.SendsPartials?
    ensures var got, full := LateStreams(m, q, shards), StreamsOf(m, q, AllSources(shards));
            && CollectedRows(m, q, enabled, tag, got)
               == CollectRows(q.reverse, q.count, GroupOnOneNode(m, q, tag, full))
            && (tag in TagsOf(got) <==> tag in TagsOf(full))
            && KeysOf(tag, got) == KeysOf(tag, full)
  {
    hide RowsAt, Shaped, GroupOnOneNode, Limit, Query.Columns, Times, CollectRows, Ascending, StreamsOf, LateStreams,
         Consistent, Source.Valid, TagsOf, KeysOf, AllSources, LateSources, CollectedRows;
    var got, full := LateStreams(m, q, shards), StreamsOf(m, q, AllSources(shards));
    AllAreLate(shards);
    StreamsShape(m, q, AllSources(shards));
    OneNodeShape(m, q, tag, full);
    var whole := Times(RowTs, GroupOnOneNode(m, q, tag, full));
    TimesAscend(RowTs, GroupOnOneNode(m, q, tag, full));
    forall t
      ensures CoversAt(q, tag, whole, t, got, full)
    {
      LateCovers(m, q, shards, tag, whole, t);
    }
    assert CoversAt(q, tag, whole, 0, got, full);
    ReducedAlike(m, q, tag, got, full, whole);
    CollectedEitherWay(m, q, enabled, tag, got);
    NamesSwap(got, full);
    NamesOf(got, full, tag);
    NamesOf(full, got, tag);
  }

  /**
   * Without partials, for every reducer there is: from buckets, raw samples and limited streams the
   * coordinator computes what one node computes that lists the series in the order of arrival.
   */
  lemma CollectedExact(m: Machine, q: Query, enabled: bool, shards: seq<Shard>)
    requires q.Valid() && AllValid(AllSources(shards))
    requires forall i :: 0 <= i < |shards| ==> Consistent(m, q, shards[i]) && !shards[i].mode.SendsPartials?
    ensures CollectedReply(m, q, enabled, shards) == OneNodeReply(m, q, AllSources(shards))
  {
    hide StreamsOf, TagsOf, KeysOf, Source.Valid, Query.Columns, LateStreams, Consistent, AllSources, GroupOnOneNode,
         CollectRows, CollectedRows;
    forall tag { CollectedGroupExact(m, q, enabled, shards, tag); }
  }

  // -- what the coordinator asks for, and who understands it ------------------------------------------

  /** The push-down flags of a request, or those of them a peer acts on. */
  datatype Flags = Flags(applyAggregation: bool, applyGroupReduce: bool, applyCount: bool)

  /** `MRangeFanoutCommand::new` and `generate_request`. */
  function Requested(enabled: bool, q: Query): Flags {
    var pushdown := enabled && q.aggregation.Some?;
    Flags(pushdown,
          enabled && ForConfig(q.reducer).Some?,
          enabled && q.count.Some? && (q.aggregation.None? || pushdown))
  }

  /** `get_local_response`, for a peer that acts on the given flags. */
  function Peer(flags: Flags, sources: seq<Source>, order: seq<string>): Shard {
    Shard(sources,
          if flags.applyGroupReduce then SendsPartials else if flags.applyAggregation then SendsBuckets else SendsSamples,
          flags.applyCount, order)
  }

  /**
   * A peer of any version acts on some of the flags it is sent. It must not act on COUNT without
   * acting on the AGGREGATION it counts the buckets of, nor leave EMPTY to the coordinator.
   */
  predicate Understands(q: Query, requested: Flags, acted: Flags) {
    && (acted.applyAggregation ==> requested.applyAggregation)
    && (acted.applyGroupReduce ==> requested.applyGroupReduce)
    && (acted.applyCount ==> requested.applyCount)
    && (acted.applyCount && q.aggregation.Some? ==> acted.applyAggregation || acted.applyGroupReduce)
    && (q.FillsEmpty() ==> acted.applyAggregation || acted.applyGroupReduce)
  }

  lemma PeerConsistent(m: Machine, q: Query, acted: Flags, sources: seq<Source>, order: seq<string>)
    requires q.PushesDown() && Understands(q, Requested(true, q), acted)
    requires acted.applyGroupReduce ==> Enumerates(order, TagsOf(StreamsOf(m, q, sources)))
    ensures Consistent(m, q, Peer(acted, sources, order))
  {
    hide Enumerates, StreamsOf, TagsOf;
  }

  /**
   * A current peer acts on every flag it is sent, and the flags the coordinator sends allow that:
   * it asks for all the query has, partial states whenever the reducer decomposes, or for nothing.
   */
  lemma CurrentPeerUnderstands(q: Query)
    ensures Understands(q, Requested(true, q), Requested(true, q))
    ensures Requested(true, q) == Flags(q.aggregation.Some?, IsDecomposable(q.reducer.aggregation), q.count.Some?)
    ensures Requested(false, q) == Flags(false, false, false)
  {
  }

  /** So with any mix of peers the cluster answers like one node. */
  lemma ClusterExact(m: Machine, q: Query, all: seq<Source>, acted: seq<Flags>, shards: seq<Shard>, lateOrder: seq<string>)
    requires q.PushesDown() && AllValid(all) && |acted| == |shards|
    requires forall i :: 0 <= i < |shards| ==>
               && Understands(q, Requested(true, q), acted[i])
               && shards[i] == Peer(acted[i], shards[i].sources, shards[i].order)
               && (acted[i].applyGroupReduce ==>
                     Enumerates(shards[i].order, TagsOf(StreamsOf(m, q, shards[i].sources))))
    requires multiset(AllSources(shards)) == multiset(all)
    requires Enumerates(lateOrder, TagsOf(LateStreams(m, q, shards)))
    requires q.reducer.aggregation.Avg? ==> |all| <= U32_MAX
    ensures AllWellFormed(Responses(m, q, shards, lateOrder), q.Columns())
    ensures Reply(m, q.Partial().kind, q.Columns(), q.reverse, q.count, Responses(m, q, shards, lateOrder))
            == OneNodeReply(m, q, all)
  {
    hide Enumerates, StreamsOf, TagsOf, Consistent, Understands, Peer, Reply, OneNodeReply, AllWellFormed, Responses,
         AllSources, LateStreams, Query.Columns, Query.Partial;
    forall i | 0 <= i < |shards|
      ensures Consistent(m, q, shards[i])
    {
      PeerConsistent(m, q, acted[i], shards[i].sources, shards[i].order);
    }
    ScatterGatherExact(m, q, all, shards, lateOrder);
  }

  // -- why COUNT must not be acted on alone -----------------------------------------------------------

  const COUNT_PER_10MS :=
    AggregationOptions([AggregatorConfig(AggregationType.Count, None)], 10, BucketTimestamp.Start, 0, false)

  /** The first `n` buckets of a reading by tens of milliseconds, forwards or backwards. */
  function FirstBuckets(n: nat, reverse: bool): Query {
    Query(Some(COUNT_PER_10MS), AggregatorConfig(AggregationType.Sum, None), reverse, Some(n))
  }

  lemma {:induction false} CountsNumbers(m: Machine, samples: seq<Sample>)
    requires forall i :: 0 <= i < |samples| ==> samples[i].value.Num?
    ensures Feed(m, Tallying(Numbers, 0), samples) == (Tallying(Numbers, |samples|), samples != [])
  {
    if samples != [] { CountsNumbers(m, samples[..|samples| - 1]); }
  }

  lemma InOneBucket(samples: seq<Sample>)
    requires samples != [] && forall i :: 0 <= i < |samples| ==> 0 <= samples[i].ts < 10
    ensures Slots(COUNT_PER_10MS, NO_FILL, samples) == [Filled(0, samples)]
  {
    hide BucketStart, Runs, GapSlots;
    var o := COUNT_PER_10MS;
    forall i | 0 <= i < |samples|
      ensures o.Bucket()(samples[i]) == 0
    {
      StartUnique(samples[i].ts, 0, 0, 10);
    }
    RunsOfGroup(o.Bucket(), 0, samples, []);
    NoRuns(o.Bucket());
    assert samples + [] == samples;
    var runs := Runs(o.Bucket(), samples);
    assert runs == [(0, samples)] && runs[1..] == [];
    assert SlotsFrom(o, NO_FILL, runs[1..]) == [];
  }

  lemma NoRuns(key: Sample -> int)
    ensures Runs(key, []) == []
  {
  }

  lemma BucketRow(m: Machine, samples: seq<Sample>)
    requires samples != [] && forall i :: 0 <= i < |samples| ==> samples[i].value.Num?
    ensures SlotRow(m, COUNT_PER_10MS, Filled(0, samples)) == Some(Row(0, [Num(|samples| as real)]))
  {
    hide Feed;
    var o := COUNT_PER_10MS;
    CountsNumbers(m, samples);
    assert o.Fresh() == [Tallying(Numbers, 0)];
    assert Feed(m, o.Fresh()[0], samples).1;
    assert Aggregates(m, o, samples) == [Num(|samples| as real)];
  }

  lemma OneBucketOfNumbers(m: Machine, n: nat, reverse: bool, samples: seq<Sample>)
    requires samples != [] && forall i :: 0 <= i < |samples| ==> samples[i].value.Num? && 0 <= samples[i].ts < 10
    ensures SeriesRows(m, FirstBuckets(n, reverse), samples, NO_FILL) == [Row(0, [Num(|samples| as real)])]
  {
    hide SlotRow, Slots;
    InOneBucket(samples);
    BucketRow(m, samples);
    assert [Filled(0, samples)][1..] == [];
    assert Rows(m, COUNT_PER_10MS, []) == [];
  }

  /**
   * A peer that limits the raw samples of an AGGREGATION query hands over a bucket with samples
   * missing. Of numbers in one bucket it may only do so when the limit drops none of them.
   */
  lemma LimitedSamplesCorrupt(m: Machine, n: nat, reverse: bool, samples: seq<Sample>)
    requires n > 0 && samples != []
    requires forall i :: 0 <= i < |samples| ==> samples[i].value.Num? && 0 <= samples[i].ts < 10
    ensures var q := FirstBuckets(n, reverse);
            && q.PushesDown()
            && (SeriesRows(m, q, Limit(q, true, samples), NO_FILL) == Limit(q, true, SeriesRows(m, q, samples, NO_FILL))
                <==> |samples| <= n)
  {
    hide SeriesRows;
    var q := FirstBuckets(n, reverse);
    var kept := Limit(q, true, samples);
    OneBucketOfNumbers(m, n, reverse, samples);
    OneBucketOfNumbers(m, n, reverse, kept);
    var all, some := Row(0, [Num(|samples| as real)]), Row(0, [Num(|kept| as real)]);
    assert Limit(q, true, [all]) == [all];
    assert [all][0].values[0] == Num(|samples| as real) && [some][0].values[0] == Num(|kept| as real);
  }
}
