/**
 * The coordinator's merge of shard partials (`handle_group_partials` in
 * `src/commands/ts_mrange_fanout_command.rs`).
 */
module Coordinator {
  import opened Values
  import opened Partials
  import opened Timeline

  /** One (group, shard) partial on the wire; `states` is row-major, `columnCount` per timestamp. */
  datatype GroupPartial = GroupPartial(
    group: string,
    sources: seq<string>,
    timestamps: seq<int>,
    states: seq<PartialState>,
    columnCount: int)

  predicate WellFormed(p: GroupPartial, columns: nat) {
    p.columnCount == columns && |p.states| == |p.timestamps| * columns
  }

  // -- row-major layout --------------------------------------------------------------------

  /** `chunks_exact(columns)` */
  function Chunks<T>(columns: nat, flat: seq<T>): seq<seq<T>>
    requires columns > 0
    decreases |flat|
  {
    if |flat| < columns then [] else [flat[..columns]] + Chunks(columns, flat[columns..])
  }

  function RowMajor<T>(rows: seq<seq<T>>): seq<T> {
    if rows == [] then [] else rows[0] + RowMajor(rows[1..])
  }

  lemma {:induction false} ChunksCount<T>(columns: nat, flat: seq<T>, n: nat)
    requires columns > 0 && |flat| == n * columns
    ensures |Chunks(columns, flat)| == n
    ensures forall i :: 0 <= i < n ==> |Chunks(columns, flat)[i]| == columns
  {
    if n > 0 {
      assert n * columns == columns + (n - 1) * columns;
      ChunksCount(columns, flat[columns..], n - 1);
    }
  }

  /** Unpacking inverts packing. */
  lemma {:induction false} ChunksOfRowMajor<T>(columns: nat, rows: seq<seq<T>>)
    requires columns > 0 && forall i :: 0 <= i < |rows| ==> |rows[i]| == columns
    ensures |RowMajor(rows)| == |rows| * columns
    ensures Chunks(columns, RowMajor(rows)) == rows
  {
    if rows != [] {
      ChunksOfRowMajor(columns, rows[1..]);
      var flat, rest := RowMajor(rows), RowMajor(rows[1..]);
      assert flat[..columns] == rows[0] && flat[columns..] == rest;
      assert |rows| * columns == columns + (|rows| - 1) * columns;
    }
  }

  // -- what a list of partials addresses to each cell -------------------------------------

  /** One bucket of a partial. */
  datatype Entry = Entry(group: string, ts: int, row: seq<PartialState>)

  function Entries(p: GroupPartial, columns: nat): (es: seq<Entry>)
    requires columns > 0 && WellFormed(p, columns)
    ensures |es| == |p.timestamps|
    ensures forall i :: 0 <= i < |es| ==> |es[i].row| == columns && es[i].group == p.group
  {
    ChunksCount(columns, p.states, |p.timestamps|);
    var rows := Chunks(columns, p.states);
    seq(|p.timestamps|, i requires 0 <= i < |p.timestamps| => Entry(p.group, p.timestamps[i], rows[i]))
  }

  ghost predicate AllWellFormed(ps: seq<GroupPartial>, columns: nat) {
    forall i :: 0 <= i < |ps| ==> WellFormed(ps[i], columns)
  }

  function AllEntries(ps: seq<GroupPartial>, columns: nat): (es: seq<Entry>)
    requires columns > 0 && AllWellFormed(ps, columns)
    ensures forall i :: 0 <= i < |es| ==> |es[i].row| == columns
  {
    if ps == [] then []
    else AllEntries(ps[..|ps| - 1], columns) + Entries(ps[|ps| - 1], columns)
  }

  /** The states addressed to one cell, in arrival order. */
  function Addressed(es: seq<Entry>, group: string, t: int, c: nat): seq<PartialState> {
    if es == [] then []
    else
      var e := es[|es| - 1];
      Addressed(es[..|es| - 1], group, t, c)
      + (if e.group == group && e.ts == t && c < |e.row| then [e.row[c]] else [])
  }

  /** A new key of a `BTreeMap` takes its place in the order. */
  function Place(t: int, times: seq<int>): (r: seq<int>)
    ensures forall k :: k in r <==> k == t || k in times
  {
    if times == [] then [t]
    else if t < times[0] then [t] + times
    else if t == times[0] then times
    else [times[0]] + Place(t, times[1..])
  }

  lemma {:induction false} PlaceAscends(t: int, times: seq<int>)
    requires Ascending(Identity, times)
    ensures Ascending(Identity, Place(t, times))
  {
    if times != [] && times[0] < t {
      var tail := times[1..];
      forall i, j | 0 <= i < j < |tail|
        ensures Identity(tail[i]) < Identity(tail[j])
      {
        assert Identity(times[i + 1]) < Identity(times[j + 1]);
      }
      PlaceAscends(t, tail);
      var rest := Place(t, tail);
      forall i | 0 <= i < |rest|
        ensures times[0] < rest[i]
      {
        var k := rest[i];
        assert k in rest;
        if k in tail {
          var j :| 0 <= j < |tail| && tail[j] == k;
          assert Identity(times[0]) < Identity(times[j + 1]);
        }
      }
    } else if times != [] {
      forall j | 0 <= j < |times|
        ensures times[0] <= times[j]
      {
        if j > 0 { assert Identity(times[0]) < Identity(times[j]); }
      }
    }
  }

  /** The timestamps of a group's buckets, in order. */
  function TimesOf(es: seq<Entry>, group: string): (r: seq<int>)
    ensures Ascending(Identity, r)
    ensures forall i :: 0 <= i < |es| && es[i].group == group ==> es[i].ts in r
    ensures forall k :: k in r ==> exists i :: 0 <= i < |es| && es[i].group == group && es[i].ts == k
  {
    if es == [] then []
    else
      var e, r := es[|es| - 1], TimesOf(es[..|es| - 1], group);
      assert forall i :: 0 <= i < |es| - 1 ==> es[..|es| - 1][i] == es[i];
      PlaceAscends(e.ts, r);
      if e.group == group then Place(e.ts, r) else r
  }

  function LabelsOf(ps: seq<GroupPartial>): set<string> { set p | p in ps :: p.group }

  function SourcesOf(ps: seq<GroupPartial>, group: string): set<string> {
    set p, k | p in ps && p.group == group && k in p.sources :: k
  }

  // -- the reply ----------------------------------------------------------------------------

  function Reverse<T>(xs: seq<T>): seq<T> {
    seq(|xs|, i requires 0 <= i < |xs| => xs[|xs| - 1 - i])
  }

  /** `reverse`, then `truncate`. */
  function CollectRows<T>(reverse: bool, count: Option<nat>, xs: seq<T>): seq<T> {
    var ordered := if reverse then Reverse(xs) else xs;
    if count.Some? then Head(count.value, ordered) else ordered
  }

  datatype GroupReply = GroupReply(rows: seq<Row>, sources: set<string>)

  /** A cell's row: every column finalizes exactly the states addressed to it. */
  function CellRow(m: Machine, kind: Kind, columns: nat, es: seq<Entry>, group: string, t: int): Row {
    Row(t, seq(columns, c requires 0 <= c < columns =>
      FinalizeState(m, kind, MergeAll(m, kind, Addressed(es, group, t, c)))))
  }

  function CellRows(m: Machine, kind: Kind, columns: nat, es: seq<Entry>, group: string): seq<Row> {
    var times := TimesOf(es, group);
    seq(|times|, i requires 0 <= i < |times| => CellRow(m, kind, columns, es, group, times[i]))
  }

  ghost function Reply(m: Machine, kind: Kind, columns: nat, reverse: bool, count: Option<nat>,
                       ps: seq<GroupPartial>): map<string, GroupReply>
    requires columns > 0 && AllWellFormed(ps, columns)
  {
    map group | group in LabelsOf(ps) ::
      GroupReply(CollectRows(reverse, count, CellRows(m, kind, columns, AllEntries(ps, columns), group)),
                 SourcesOf(ps, group))
  }

  // -- the merge loops ------------------------------------------------------------------------

  /** The `BTreeMap` of a group's buckets, as its keys in order and its contents, and the group's sources. */
  datatype Group = Group(times: seq<int>, buckets: map<int, seq<PartialState>>, sources: set<string>)

  ghost predicate MergedGroup(m: Machine, kind: Kind, columns: nat, es: seq<Entry>, group: string, g: Group) {
    && g.times == TimesOf(es, group)
    && (forall t :: t in g.buckets <==> t in g.times)
    && forall t :: t in g.buckets ==>
         && |g.buckets[t]| == columns
         && forall c :: 0 <= c < columns ==> g.buckets[t][c] == MergeAll(m, kind, Addressed(es, group, t, c))
  }

  /** The groups hold exactly what the entries so far addressed to them. */
  ghost predicate Merged(m: Machine, kind: Kind, columns: nat, es: seq<Entry>, groups: map<string, Group>) {
    && (forall i :: 0 <= i < |es| ==> es[i].group in groups)
    && forall group :: group in groups ==> MergedGroup(m, kind, columns, es, group, groups[group])
  }

  method MergeRow(m: Machine, kind: Kind, into: seq<PartialState>, row: seq<PartialState>)
    returns (merged: seq<PartialState>)
    requires |into| == |row|
    ensures |merged| == |row|
    ensures forall c :: 0 <= c < |row| ==> merged[c] == Merge(m, kind, into[c], row[c])
  {
    hide Merge;
    merged := into;
    for j := 0 to |row|
      invariant |merged| == |row|
      invariant forall c :: 0 <= c < j ==> merged[c] == Merge(m, kind, into[c], row[c])
      invariant forall c :: j <= c < |row| ==> merged[c] == into[c]
    {
      merged := merged[j := Merge(m, kind, merged[j], row[j])];
    }
  }

  lemma {:induction false} UnaddressedIsEmpty(es: seq<Entry>, group: string, t: int, c: nat)
    requires t !in TimesOf(es, group)
    ensures Addressed(es, group, t, c) == []
  {
    if es != [] { UnaddressedIsEmpty(es[..|es| - 1], group, t, c); }
  }

  lemma AddressedStep(es: seq<Entry>, e: Entry, group: string, t: int, c: nat)
    ensures Addressed(es + [e], group, t, c)
            == Addressed(es, group, t, c)
               + (if e.group == group && e.ts == t && c < |e.row| then [e.row[c]] else [])
    ensures TimesOf(es + [e], group)
            == if e.group == group then Place(e.ts, TimesOf(es, group)) else TimesOf(es, group)
  {
    assert (es + [e])[..|es|] == es;
  }

  lemma MergeAllStep(m: Machine, kind: Kind, states: seq<PartialState>, s: PartialState)
    ensures MergeAll(m, kind, []) == EMPTY
    ensures MergeAll(m, kind, states + [s]) == Merge(m, kind, MergeAll(m, kind, states), s)
  {
    hide Merge;
    assert (states + [s])[..|states|] == states;
  }

  /** The group after one more bucket of its own. */
  lemma OwnBucket(m: Machine, kind: Kind, columns: nat, es: seq<Entry>, e: Entry, g: Group,
                  into: seq<PartialState>, merged: seq<PartialState>)
    requires MergedGroup(m, kind, columns, es, e.group, g) && |e.row| == columns
    requires |into| == |merged| == columns
    requires into == (if e.ts in g.buckets then g.buckets[e.ts] else seq(columns, c => EMPTY))
    requires forall c :: 0 <= c < columns ==> merged[c] == Merge(m, kind, into[c], e.row[c])
    ensures MergedGroup(m, kind, columns, es + [e], e.group,
                        Group(Place(e.ts, g.times), g.buckets[e.ts := merged], g.sources))
  {
    hide Merge, MergeAll, Addressed, TimesOf, Place;
    AddressedStep(es, e, e.group, e.ts, 0);
    var buckets := g.buckets[e.ts := merged];
    forall t, c | t in buckets && 0 <= c < columns
      ensures buckets[t][c] == MergeAll(m, kind, Addressed(es + [e], e.group, t, c))
    {
      AddressedStep(es, e, e.group, t, c);
      var states := Addressed(es, e.group, t, c);
      if t == e.ts {
        if t !in g.buckets { UnaddressedIsEmpty(es, e.group, t, c); }
        MergeAllStep(m, kind, states, e.row[c]);
      } else {
        assert states + [] == states;
      }
    }
  }

  lemma OtherBucket(m: Machine, kind: Kind, columns: nat, es: seq<Entry>, e: Entry, group: string, g: Group)
    requires MergedGroup(m, kind, columns, es, group, g) && e.group != group
    ensures MergedGroup(m, kind, columns, es + [e], group, g)
  {
    hide MergeAll, Addressed, TimesOf;
    AddressedStep(es, e, group, 0, 0);
    forall t, c | t in g.buckets && 0 <= c < columns
      ensures Addressed(es + [e], group, t, c) == Addressed(es, group, t, c)
    {
      AddressedStep(es, e, group, t, c);
    }
  }

  /** Merging one more bucket into its group. */
  method MergeEntry(m: Machine, kind: Kind, columns: nat, groups: map<string, Group>, e: Entry, ghost es: seq<Entry>)
    returns (groups': map<string, Group>)
    requires Merged(m, kind, columns, es, groups) && e.group in groups && |e.row| == columns
    ensures Merged(m, kind, columns, es + [e], groups')
    ensures groups'.Keys == groups.Keys
    ensures forall group :: group in groups ==> groups'[group].sources == groups[group].sources
  {
    hide MergedGroup, Merge, Place;
    var g := groups[e.group];
    var into := if e.ts in g.buckets then g.buckets[e.ts] else seq(columns, c => EMPTY);
    BucketWidth(m, kind, columns, es, e.group, g, e.ts);
    var merged := MergeRow(m, kind, into, e.row);
    groups' := groups[e.group := Group(Place(e.ts, g.times), g.buckets[e.ts := merged], g.sources)];
    OwnBucket(m, kind, columns, es, e, g, into, merged);
    forall group | group in groups' && group != e.group
      ensures MergedGroup(m, kind, columns, es + [e], group, groups'[group])
    {
      OtherBucket(m, kind, columns, es, e, group, groups[group]);
    }
  }

  lemma BucketWidth(m: Machine, kind: Kind, columns: nat, es: seq<Entry>, group: string, g: Group, t: int)
    requires MergedGroup(m, kind, columns, es, group, g)
    ensures t in g.buckets ==> |g.buckets[t]| == columns
  {
  }

  lemma {:induction false} NoBuckets(es: seq<Entry>, group: string)
    requires forall i :: 0 <= i < |es| ==> es[i].group != group
    ensures TimesOf(es, group) == []
  {
    if es != [] { NoBuckets(es[..|es| - 1], group); }
  }

  /** `entry(..).or_default()` and `sources.extend(..)`. */
  method OpenGroup(m: Machine, kind: Kind, columns: nat, groups: map<string, Group>, group: string,
                   sources: seq<string>, ghost es: seq<Entry>)
    returns (groups': map<string, Group>)
    requires Merged(m, kind, columns, es, groups)
    ensures Merged(m, kind, columns, es, groups')
    ensures forall g :: g in groups' <==> g in groups || g == group
    ensures forall g :: g in groups && g != group ==> groups'[g].sources == groups[g].sources
    ensures forall k :: k in groups'[group].sources <==>
              k in sources || (group in groups && k in groups[group].sources)
  {
    hide MergedGroup;
    var added := set k | k in sources;
    if group in groups {
      var g := groups[group];
      MoreSources(m, kind, columns, es, group, g, g.sources + added);
      groups' := groups[group := Group(g.times, g.buckets, g.sources + added)];
    } else {
      NewGroup(m, kind, columns, es, group, added);
      groups' := groups[group := Group([], map[], added)];
    }
  }

  lemma MoreSources(m: Machine, kind: Kind, columns: nat, es: seq<Entry>, group: string, g: Group,
                    sources: set<string>)
    requires MergedGroup(m, kind, columns, es, group, g)
    ensures MergedGroup(m, kind, columns, es, group, Group(g.times, g.buckets, sources))
  {
  }

  lemma NewGroup(m: Machine, kind: Kind, columns: nat, es: seq<Entry>, group: string, sources: set<string>)
    requires forall i :: 0 <= i < |es| ==> es[i].group != group
    ensures MergedGroup(m, kind, columns, es, group, Group([], map[], sources))
  {
    NoBuckets(es, group);
  }

  /** One shard's partial of one group. */
  method IngestPartial(m: Machine, kind: Kind, columns: nat, groups: map<string, Group>, p: GroupPartial,
                       ghost es: seq<Entry>)
    returns (groups': map<string, Group>)
    requires columns > 0 && WellFormed(p, columns)
    requires Merged(m, kind, columns, es, groups)
    ensures Merged(m, kind, columns, es + Entries(p, columns), groups')
    ensures forall g :: g in groups' <==> g in groups || g == p.group
    ensures forall g :: g in groups && g != p.group ==> groups'[g].sources == groups[g].sources
    ensures forall k :: k in groups'[p.group].sources <==>
              k in p.sources || (p.group in groups && k in groups[p.group].sources)
  {
    hide Merged, Chunks;
    groups' := OpenGroup(m, kind, columns, groups, p.group, p.sources, es);
    ghost var before := groups';
    ChunksCount(columns, p.states, |p.timestamps|);
    var rows := Chunks(columns, p.states);
    ghost var own := Entries(p, columns);
    assert es + own[..0] == es;
    for i := 0 to |p.timestamps|
      invariant Merged(m, kind, columns, es + own[..i], groups')
      invariant groups'.Keys == before.Keys
      invariant forall g :: g in before ==> groups'[g].sources == before[g].sources
    {
      var e := Entry(p.group, p.timestamps[i], rows[i]);
      assert e == own[i];
      assert es + own[..i] + [e] == es + own[..i + 1];
      groups' := MergeEntry(m, kind, columns, groups', e, es + own[..i]);
    }
    assert own[..|p.timestamps|] == own;
  }

  /** The reply for one merged group. */
  function GroupRows(m: Machine, kind: Kind, g: Group): seq<Row> {
    seq(|g.times|, i requires 0 <= i < |g.times| =>
      var t := g.times[i];
      var states := if t in g.buckets then g.buckets[t] else [];
      Row(t, seq(|states|, c requires 0 <= c < |states| => FinalizeState(m, kind, states[c]))))
  }

  lemma GroupRowsAreCells(m: Machine, kind: Kind, columns: nat, es: seq<Entry>, group: string, g: Group)
    requires MergedGroup(m, kind, columns, es, group, g)
    ensures GroupRows(m, kind, g) == CellRows(m, kind, columns, es, group)
  {
    hide FinalizeState, MergeAll, Addressed, TimesOf;
    var rows, cells := GroupRows(m, kind, g), CellRows(m, kind, columns, es, group);
    forall i | 0 <= i < |rows|
      ensures rows[i] == cells[i]
    {
      var t := g.times[i];
      assert t in g.buckets;
      assert rows[i].values == cells[i].values;
    }
  }

  lemma NothingIngested(m: Machine, kind: Kind, columns: nat)
    requires columns > 0
    ensures Merged(m, kind, columns, AllEntries([], columns), map[]) && Ingested([], map[])
  {
  }

  lemma OneMore(ps: seq<GroupPartial>, k: nat, columns: nat)
    requires columns > 0 && k < |ps| && AllWellFormed(ps[..k + 1], columns) && AllWellFormed(ps[..k], columns)
    ensures AllEntries(ps[..k + 1], columns) == AllEntries(ps[..k], columns) + Entries(ps[k], columns)
  {
    assert ps[..k + 1][..k] == ps[..k];
  }

  ghost predicate Ingested(ps: seq<GroupPartial>, groups: map<string, Group>) {
    && (forall g :: g in groups <==> g in LabelsOf(ps))
    && forall g, k :: g in groups ==> (k in groups[g].sources <==> k in SourcesOf(ps, g))
  }

  lemma IngestedStep(ps: seq<GroupPartial>, p: GroupPartial, groups: map<string, Group>, groups': map<string, Group>)
    requires Ingested(ps, groups)
    requires forall g :: g in groups' <==> g in groups || g == p.group
    requires forall g :: g in groups && g != p.group ==> groups'[g].sources == groups[g].sources
    requires forall k :: k in groups'[p.group].sources <==>
               k in p.sources || (p.group in groups && k in groups[p.group].sources)
    ensures Ingested(ps + [p], groups')
  {
    assert forall q :: q in ps + [p] <==> q in ps || q == p;
  }

  /**
   * `handle_group_partials`: refuses exactly the lists with a malformed partial; otherwise one
   * reply per group, whose every cell reduces exactly the states addressed to it.
   */
  method HandleGroupPartials(m: Machine, kind: Kind, columns: nat, reverse: bool, count: Option<nat>,
                             partials: seq<GroupPartial>)
    returns (r: Option<map<string, GroupReply>>)
    requires columns > 0
    ensures r.Some? <==> AllWellFormed(partials, columns)
    ensures r.Some? ==> r.value == Reply(m, kind, columns, reverse, count, partials)
  {
    hide Merged, AllEntries, Ingested, WellFormed;
    var groups: map<string, Group> := map[];
    assert partials[..0] == [];
    NothingIngested(m, kind, columns);
    for k := 0 to |partials|
      invariant AllWellFormed(partials[..k], columns)
      invariant Merged(m, kind, columns, AllEntries(partials[..k], columns), groups)
      invariant Ingested(partials[..k], groups)
    {
      var p := partials[k];
      if !WellFormed(p, columns) { return None; }
      ghost var before := groups;
      groups := IngestPartial(m, kind, columns, groups, p, AllEntries(partials[..k], columns));
      IngestedStep(partials[..k], p, before, groups);
      assert partials[..k] + [p] == partials[..k + 1];
      OneMore(partials, k, columns);
    }
    assert partials[..|partials|] == partials;
    r := Some(map g | g in groups ::
                GroupReply(CollectRows(reverse, count, GroupRows(m, kind, groups[g])), groups[g].sources));
    ReplyComplete(m, kind, columns, reverse, count, partials, groups);
  }

  lemma ReplyComplete(m: Machine, kind: Kind, columns: nat, reverse: bool, count: Option<nat>,
                      ps: seq<GroupPartial>, groups: map<string, Group>)
    requires columns > 0 && AllWellFormed(ps, columns)
    requires Merged(m, kind, columns, AllEntries(ps, columns), groups) && Ingested(ps, groups)
    ensures (map g | g in groups ::
               GroupReply(CollectRows(reverse, count, GroupRows(m, kind, groups[g])), groups[g].sources))
            == Reply(m, kind, columns, reverse, count, ps)
  {
    hide MergedGroup, GroupRows, CellRows, CollectRows, AllEntries, SourcesOf;
    forall g | g in groups
      ensures GroupRows(m, kind, groups[g]) == CellRows(m, kind, columns, AllEntries(ps, columns), g)
      ensures groups[g].sources == SourcesOf(ps, g)
    {
      GroupRowsAreCells(m, kind, columns, AllEntries(ps, columns), g, groups[g]);
    }
  }
}
