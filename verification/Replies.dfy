/** What one node replies to a grouped query, said of the series themselves. */
module Replies {
  import opened Values
  import opened Bags
  import opened Aggregators
  import opened Partials
  import opened GroupReduction
  import opened BucketMeaning
  import opened Timeline
  import opened AggregateIterator
  import opened Streams
  import opened Coordinator
  import opened Descending
  import opened Pipelines
  import opened ScatterGather
  import opened MixedVersions

  // -- COUNT and direction --------------------------------------------------------------------------

  /** `s` comes before `t` in the order of the reply. */
  predicate Before(reverse: bool, s: int, t: int) { if reverse then t < s else s < t }

  ghost predicate InReplyOrder(reverse: bool, rows: seq<Row>) {
    forall i, j :: 0 <= i < j < |rows| ==> Before(reverse, rows[i].ts, rows[j].ts)
  }

  /** A reply lists rows in its direction, at most COUNT of them, and leaves out only what comes behind. */
  lemma CollectedRows(reverse: bool, count: Option<nat>, rows: seq<Row>)
    requires Ascending(RowTs, rows)
    ensures var reply := CollectRows(reverse, count, rows);
            && InReplyOrder(reverse, reply)
            && (forall row :: row in reply ==> row in rows)
            && (count.Some? ==> |reply| <= count.value)
            && forall row :: row in rows && row !in reply ==>
                 count.Some? && |reply| == count.value
                 && forall i :: 0 <= i < |reply| ==> Before(reverse, reply[i].ts, row.ts)
  {
    hide InReplyOrder, Reverse;
    var ordered := if reverse then Reverse(rows) else rows;
    Turned(reverse, rows);
    Cut(reverse, if count.Some? && count.value <= |rows| then count.value else |rows|, ordered);
    assert ordered[..|ordered|] == ordered;
  }

  lemma Turned(reverse: bool, rows: seq<Row>)
    requires Ascending(RowTs, rows)
    ensures var ordered := if reverse then Reverse(rows) else rows;
            InReplyOrder(reverse, ordered) && |ordered| == |rows| && forall row :: row in ordered <==> row in rows
  {
    hide Reverse;
    if reverse {
      ReverseDescends(RowTs, rows);
      var down := Reverse(rows);
      forall i, j | 0 <= i < j < |down|
        ensures Before(true, down[i].ts, down[j].ts)
      {
        assert Negated(RowTs)(down[i]) < Negated(RowTs)(down[j]);
      }
      ReverseLength(rows);
    } else {
      forall i, j | 0 <= i < j < |rows|
        ensures Before(false, rows[i].ts, rows[j].ts)
      {
        assert RowTs(rows[i]) < RowTs(rows[j]);
      }
    }
  }

  lemma ReverseLength(rows: seq<Row>)
    ensures |Reverse(rows)| == |rows|
  {
  }

  lemma Cut(reverse: bool, n: nat, ordered: seq<Row>)
    requires InReplyOrder(reverse, ordered) && n <= |ordered|
    ensures InReplyOrder(reverse, ordered[..n])
    ensures forall row :: row in ordered[..n] ==> row in ordered
    ensures forall row :: row in ordered && row !in ordered[..n] ==>
              n < |ordered| && forall i :: 0 <= i < n ==> Before(reverse, ordered[..n][i].ts, row.ts)
  {
    hide Before;
    forall j | n <= j < |ordered|
      ensures forall i :: 0 <= i < n ==> Before(reverse, ordered[..n][i].ts, ordered[j].ts)
    {
    }
    assert ordered == ordered[..n] + ordered[n..];
  }

  // -- groups ------------------------------------------------------------------------------------------

  /** The group labels of the series. */
  ghost predicate HasMember(tag: string, all: seq<Source>) { exists i :: 0 <= i < |all| && all[i].tag == Some(tag) }

  ghost predicate IsMember(tag: string, key: string, all: seq<Source>) {
    exists i :: 0 <= i < |all| && all[i].tag == Some(tag) && all[i].key == key
  }

  lemma GroupsOf(m: Machine, q: Query, all: seq<Source>, tag: string)
    requires q.Valid() && AllValid(all)
    ensures tag in OneNodeReply(m, q, all) <==> HasMember(tag, all)
    ensures tag in OneNodeReply(m, q, all) ==>
              forall key :: key in OneNodeReply(m, q, all)[tag].sources <==> IsMember(tag, key, all)
  {
    hide SeriesRows, Source.Valid, CollectRows, GroupOnOneNode, Shaped;
    StreamsShape(m, q, all);
    var streams := StreamsOf(m, q, all);
    forall i | 0 <= i < |all|
      ensures streams[i].tag == all[i].tag && streams[i].key == all[i].key
    {
      assert StreamOf(m, q)(all[i]) == [streams[i]];
    }
    forall i | 0 <= i < |streams| ensures streams[i] in streams {}
    assert tag in TagsOf(streams) <==> HasMember(tag, all) by {
      if tag in TagsOf(streams) {
        var s :| s in streams && s.tag == Some(tag);
        var i :| 0 <= i < |streams| && streams[i] == s;
        assert all[i].tag == Some(tag);
      }
    }
    forall key
      ensures key in KeysOf(tag, streams) <==> IsMember(tag, key, all)
    {
      if key in KeysOf(tag, streams) {
        var s :| s in streams && s.tag == Some(tag) && s.key == key;
        var i :| 0 <= i < |streams| && streams[i] == s;
        assert all[i].tag == Some(tag) && all[i].key == key;
      }
    }
  }

  /** The values of column `c` that a group's members have at a timestamp, member by member. */
  ghost function MemberValues(m: Machine, q: Query, tag: string, c: nat, t: int, all: seq<Source>): seq<Value>
    requires q.Valid()
  {
    if all == [] then []
    else
      var s := all[|all| - 1];
      MemberValues(m, q, tag, c, t, all[..|all| - 1])
      + (if s.tag == Some(tag) then ColumnOf(c, With(RowTs, t, SeriesRows(m, q, s.samples, s.fill))) else [])
  }

  lemma {:induction false} ColumnOfConcat(c: nat, a: seq<Row>, b: seq<Row>)
    ensures ColumnOf(c, a + b) == ColumnOf(c, a) + ColumnOf(c, b)
  {
    if b == [] {
      assert a + b == a;
    } else {
      ColumnOfConcat(c, a, b[..|b| - 1]);
      assert (a + b)[..|a + b| - 1] == a + b[..|b| - 1];
    }
  }

  lemma {:induction false} MembersInOrder(m: Machine, q: Query, tag: string, c: nat, t: int, all: seq<Source>)
    requires q.Valid()
    ensures ColumnOf(c, RowsAt(tag, t, StreamsOf(m, q, all))) == MemberValues(m, q, tag, c, t, all)
  {
    hide SeriesRows, With, ColumnOf;
    if all == [] {
      NoColumn(c);
    } else {
      var n := |all| - 1;
      var front, last := StreamsOf(m, q, all[..n]), StreamOf(m, q)(all[n]);
      MembersInOrder(m, q, tag, c, t, all[..n]);
      RowsAtOfConcat(tag, t, front, last);
      assert last[..0] == [];
      var rows := Contributes(tag, t)(last[0]);
      assert RowsAt(tag, t, last) == [] + rows == rows;
      ColumnOfConcat(c, RowsAt(tag, t, front), rows);
      NoColumn(c);
    }
  }

  lemma NoColumn(c: nat)
    ensures ColumnOf(c, []) == []
  {
  }

  ghost predicate SomeRowAt(m: Machine, q: Query, tag: string, t: int, all: seq<Source>)
    requires q.Valid()
  {
    MemberValues(m, q, tag, 0, t, all) != []
  }

  /** A row of the reply: each column reduces what the members have at that timestamp. */
  ghost predicate IsGroupRow(m: Machine, q: Query, tag: string, all: seq<Source>, row: Row)
    requires q.Valid()
  {
    && SomeRowAt(m, q, tag, row.ts, all)
    && |row.values| == q.Columns()
    && forall c :: 0 <= c < q.Columns() ==>
         row.values[c] == GroupReport(m, q.reducer, row.ts, MemberValues(m, q, tag, c, row.ts, all))
  }

  /** Before COUNT and direction: one such row per timestamp at which a member has a row. */
  lemma GroupRows(m: Machine, q: Query, all: seq<Source>, tag: string)
    requires q.Valid() && q.reducer.Valid() && AllValid(all)
    ensures var rows := GroupOnOneNode(m, q, tag, StreamsOf(m, q, all));
            && Ascending(RowTs, rows)
            && (forall row :: row in rows ==> IsGroupRow(m, q, tag, all, row))
            && forall t :: SomeRowAt(m, q, tag, t, all) ==> exists row :: row in rows && row.ts == t
  {
    hide RowsAt, GroupOnOneNode, GroupReport, MemberValues, Source.Valid, Query.Columns, ReducedRow, Ascending, Shaped,
         StreamsOf;
    var streams := StreamsOf(m, q, all);
    var rows := GroupOnOneNode(m, q, tag, streams);
    StreamsShape(m, q, all);
    OneNodeShape(m, q, tag, streams);
    forall t
      ensures SomeRowAt(m, q, tag, t, all) <==> t in Times(RowTs, rows)
    {
      MembersInOrder(m, q, tag, 0, t, all);
    }
    forall row | row in rows
      ensures IsGroupRow(m, q, tag, all, row)
    {
      var i :| 0 <= i < |rows| && rows[i] == row;
      TimesIndex(RowTs, rows, i);
      assert Times(RowTs, rows)[i] in Times(RowTs, rows);
      RowValues(m, q, all, tag, row);
    }
    forall t | SomeRowAt(m, q, tag, t, all)
      ensures exists row :: row in rows && row.ts == t
    {
      var i :| 0 <= i < |Times(RowTs, rows)| && Times(RowTs, rows)[i] == t;
      TimesIndex(RowTs, rows, i);
      assert rows[i] in rows;
    }
  }

  lemma RowValues(m: Machine, q: Query, all: seq<Source>, tag: string, row: Row)
    requires q.Valid() && q.reducer.Valid()
    requires row == ReducedRow(m, q.reducer, q.Columns(), row.ts, RowsAt(tag, row.ts, StreamsOf(m, q, all)))
    ensures |row.values| == q.Columns()
    ensures forall c :: 0 <= c < q.Columns() ==>
              row.values[c] == GroupReport(m, q.reducer, row.ts, MemberValues(m, q, tag, c, row.ts, all))
  {
    hide RowsAt, GroupReport, MemberValues, Query.Columns, ReduceGroup, StreamsOf;
    forall c | 0 <= c < q.Columns()
      ensures row.values[c] == GroupReport(m, q.reducer, row.ts, MemberValues(m, q, tag, c, row.ts, all))
    {
      MembersInOrder(m, q, tag, c, row.ts, all);
      GroupMeaning(m, q.reducer, row.ts, MemberValues(m, q, tag, c, row.ts, all));
    }
  }

  /** The rows of one group's reply. */
  ghost predicate IsGroupReply(m: Machine, q: Query, tag: string, all: seq<Source>, rows: seq<Row>)
    requires q.Valid()
  {
    && InReplyOrder(q.reverse, rows)
    && (forall row :: row in rows ==> IsGroupRow(m, q, tag, all, row))
    && (q.count.Some? ==> |rows| <= q.count.value)
    && forall t :: SomeRowAt(m, q, tag, t, all) ==>
         || (exists row :: row in rows && row.ts == t)
         || (q.count.Some? && |rows| == q.count.value && forall i :: 0 <= i < |rows| ==> Before(q.reverse, rows[i].ts, t))
  }

  /**
   * One node's reply: a group per label that occurs, with the keys of its members; its rows in the
   * direction asked for, one per timestamp at which a member has one, each column reducing exactly
   * the members' values there, cut off behind COUNT rows and nowhere else.
   */
  lemma ReplyMeaning(m: Machine, q: Query, all: seq<Source>)
    requires q.Valid() && q.reducer.Valid() && AllValid(all)
    ensures forall tag :: tag in OneNodeReply(m, q, all) <==> HasMember(tag, all)
    ensures forall tag :: tag in OneNodeReply(m, q, all) ==>
              && (forall key :: key in OneNodeReply(m, q, all)[tag].sources <==> IsMember(tag, key, all))
              && IsGroupReply(m, q, tag, all, OneNodeReply(m, q, all)[tag].rows)
  {
    hide HasMember, IsMember, CollectRows, GroupOnOneNode, AllValid, StreamsOf, IsGroupRow, SomeRowAt, InReplyOrder,
         Before, Ascending;
    forall tag
      ensures tag in OneNodeReply(m, q, all) <==> HasMember(tag, all)
      ensures tag in OneNodeReply(m, q, all) ==>
                && (forall key :: key in OneNodeReply(m, q, all)[tag].sources <==> IsMember(tag, key, all))
                && IsGroupReply(m, q, tag, all, OneNodeReply(m, q, all)[tag].rows)
    {
      GroupsOf(m, q, all, tag);
      GroupRows(m, q, all, tag);
      CollectedRows(q.reverse, q.count, GroupOnOneNode(m, q, tag, StreamsOf(m, q, all)));
    }
  }

  // -- raw queries -------------------------------------------------------------------------------------

  /** Without AGGREGATION: the values of the members' own samples at a timestamp. */
  ghost function SampleValues(tag: string, t: int, all: seq<Source>): seq<Value> {
    if all == [] then []
    else
      var s := all[|all| - 1];
      SampleValues(tag, t, all[..|all| - 1]) + (if s.tag == Some(tag) then ValuesOf(With(TsOf, t, s.samples)) else [])
  }

  lemma {:induction false} SampleColumn(t: int, samples: seq<Sample>)
    ensures ColumnOf(0, With(RowTs, t, SampleRows(samples))) == ValuesOf(With(TsOf, t, samples))
  {
    hide ColumnOf, ValuesOf, With;
    if samples == [] {
      NoColumn(0);
      WithNone(RowTs, t, SampleRows([]));
      WithNone(TsOf, t, []);
      NoValues();
    } else {
      var s, rest := samples[0], samples[1..];
      var row, later := Row(s.ts, [s.value]), SampleRows(rest);
      SampleColumn(t, rest);
      assert SampleRows(samples) == [row] + later;
      assert ([row] + later)[1..] == later;
      ColumnOfConcat(0, [row], With(RowTs, t, later));
      OneColumn(row, s.value);
      WithFirst(RowTs, t, row, later);
      WithFirst(TsOf, t, s, rest);
      assert samples == [s] + rest;
      ValuesOfCons(s, With(TsOf, t, rest));
    }
  }

  lemma WithFirst<T>(key: T -> int, k: int, x: T, rest: seq<T>)
    ensures With(key, k, [x] + rest) == if key(x) == k then [x] + With(key, k, rest) else With(key, k, rest)
  {
    assert ([x] + rest)[1..] == rest;
  }

  lemma NoValues()
    ensures ValuesOf([]) == []
  {
  }

  lemma OneColumn(row: Row, v: Value)
    requires row.values == [v]
    ensures ColumnOf(0, [row]) == [v]
  {
    assert [row][..0] == [];
  }

  lemma {:induction false} ValuesOfCons(s: Sample, samples: seq<Sample>)
    ensures ValuesOf([s] + samples) == [s.value] + ValuesOf(samples)
  {
    var all := [s] + samples;
    if samples == [] {
      assert all == [s] && all[..0] == [];
    } else {
      ValuesOfCons(s, samples[..|samples| - 1]);
      assert all[..|all| - 1] == [s] + samples[..|samples| - 1];
    }
  }

  /** So a raw group reduces the samples themselves, and has a row exactly where a member has a sample. */
  lemma {:induction false} RawMembers(m: Machine, q: Query, tag: string, t: int, all: seq<Source>)
    requires q.Valid() && q.aggregation.None?
    ensures MemberValues(m, q, tag, 0, t, all) == SampleValues(tag, t, all)
    ensures SomeRowAt(m, q, tag, t, all)
            <==> exists i, j :: 0 <= i < |all| && all[i].tag == Some(tag)
                                && 0 <= j < |all[i].samples| && all[i].samples[j].ts == t
  {
    hide With, ColumnOf, ValuesOf, SampleRows;
    if all != [] {
      var n := |all| - 1;
      var s := all[n];
      RawMembers(m, q, tag, t, all[..n]);
      assert forall i :: 0 <= i < n ==> all[..n][i] == all[i];
      SampleColumn(t, s.samples);
      SomeSample(t, s.samples);
    }
  }

  lemma SomeSample(t: int, samples: seq<Sample>)
    ensures ValuesOf(With(TsOf, t, samples)) != [] <==> exists j :: 0 <= j < |samples| && samples[j].ts == t
  {
    WithNone(TsOf, t, samples);
  }

  /**
   * A raw query that pushes down: the one value of a row is the declarative reduction of what the
   * reducer accepts among the members' samples at that timestamp.
   */
  lemma RawReply(m: Machine, q: Query, all: seq<Source>, tag: string, row: Row)
    requires q.PushesDown() && q.aggregation.None? && AllValid(all)
    requires tag in OneNodeReply(m, q, all) && row in OneNodeReply(m, q, all)[tag].rows
    requires q.reducer.aggregation.Avg? ==> |all| <= U32_MAX
    ensures SampleValues(tag, row.ts, all) != []
    ensures row.values == [Reduce(m, q.Partial().kind, Accepted(q.Partial(), SampleValues(tag, row.ts, all)))]
  {
    hide GroupReport, OneNodeReply, MemberValues, SampleValues, AllValid, Accepted, Reduce, ReduceGroup;
    ReplyMeaning(m, q, all);
    RawMembers(m, q, tag, row.ts, all);
    var vs := SampleValues(tag, row.ts, all);
    GroupMeaning(m, q.reducer, row.ts, vs);
    FewValues(tag, row.ts, all);
    HandlerMeaning(m, q.reducer, row.ts, vs);
  }

  lemma {:induction false} FewValues(tag: string, t: int, all: seq<Source>)
    requires AllValid(all)
    ensures |SampleValues(tag, t, all)| <= |all|
  {
    hide With, ValuesOf;
    if all != [] {
      var s := all[|all| - 1];
      FewValues(tag, t, all[..|all| - 1]);
      AtMostOne(t, s.samples);
    }
  }

  lemma AtMostOne(t: int, samples: seq<Sample>)
    requires Ascending(TsOf, samples)
    ensures |ValuesOf(With(TsOf, t, samples))| <= 1
  {
    hide With;
    WithNone(TsOf, t, samples);
    if HasKey(TsOf, t, samples) {
      var j :| 0 <= j < |samples| && TsOf(samples[j]) == t;
      WithSingle(TsOf, samples, j);
      assert [samples[j]][..0] == [];
    }
  }
}
