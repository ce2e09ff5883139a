/**
 * Reducing a group backwards: a reverse query may sort the collected rows downward, stably, and
 * reduce that stream instead of merging upward and reversing the result.
 */
module Descending {
  import opened Values
  import opened Timeline
  import opened Streams
  import opened Coordinator

  function Down(row: Row): int { -row.ts }

  /** Behind everything at the same timestamp or later. */
  function Insert(row: Row, rows: seq<Row>): seq<Row> {
    if rows == [] || rows[|rows| - 1].ts >= row.ts then rows + [row]
    else Insert(row, rows[..|rows| - 1]) + [rows[|rows| - 1]]
  }

  /** `sort_by_key(Reverse(timestamp))`, a stable sort. */
  function SortDown(rows: seq<Row>): seq<Row> {
    if rows == [] then [] else Insert(rows[|rows| - 1], SortDown(rows[..|rows| - 1]))
  }

  lemma WithSnoc(t: int, rows: seq<Row>, row: Row)
    ensures With(RowTs, t, rows + [row]) == With(RowTs, t, rows) + (if row.ts == t then [row] else [])
  {
    hide With;
    WithOfConcat(RowTs, t, rows, [row]);
    if row.ts == t { WithAll(RowTs, t, [row]); } else { WithNone(RowTs, t, [row]); }
  }

  lemma {:induction false} InsertStable(t: int, row: Row, rows: seq<Row>)
    requires Sorted(Down, rows)
    ensures With(RowTs, t, Insert(row, rows)) == With(RowTs, t, rows + [row])
    ensures Sorted(Down, Insert(row, rows))
    ensures forall i :: 0 <= i < |Insert(row, rows)| ==> Insert(row, rows)[i] == row || Insert(row, rows)[i] in rows
  {
    hide With;
    var n := |rows| - 1;
    if rows == [] || rows[n].ts >= row.ts {
      AppendSorted(rows, row);
    } else {
      var front, last := rows[..n], rows[n];
      assert rows == front + [last];
      InsertStable(t, row, front);
      WithSnoc(t, Insert(row, front), last);
      WithSnoc(t, front, row);
      WithSnoc(t, front, last);
      WithSnoc(t, rows, row);
      InsertedBelow(front, last, row);
      AppendSorted(Insert(row, front), last);
    }
  }

  lemma AppendSorted(rows: seq<Row>, row: Row)
    requires Sorted(Down, rows) && forall i :: 0 <= i < |rows| ==> rows[i].ts >= row.ts || i < |rows| - 1
    ensures Sorted(Down, rows + [row])
  {
    var n := |rows| - 1;
    forall i | 0 <= i < |rows|
      ensures Down(rows[i]) <= Down(row)
    {
      if i < n { assert Down(rows[i]) <= Down(rows[n]); }
    }
  }

  lemma InsertedBelow(front: seq<Row>, last: Row, row: Row)
    requires Sorted(Down, front + [last]) && Sorted(Down, Insert(row, front)) && last.ts < row.ts
    requires forall i :: 0 <= i < |Insert(row, front)| ==> Insert(row, front)[i] == row || Insert(row, front)[i] in front
    ensures forall i :: 0 <= i < |Insert(row, front)| ==> Insert(row, front)[i].ts >= last.ts
  {
    hide Insert;
    var all := front + [last];
    forall i | 0 <= i < |Insert(row, front)|
      ensures Insert(row, front)[i].ts >= last.ts
    {
      var x := Insert(row, front)[i];
      if x in front {
        var j :| 0 <= j < |front| && front[j] == x;
        assert Down(all[j]) <= Down(all[|front|]);
      }
    }
  }

  /** The sort keeps every timestamp's rows, in their order. */
  lemma {:induction false} SortDownStable(t: int, rows: seq<Row>)
    ensures Sorted(Down, SortDown(rows))
    ensures With(RowTs, t, SortDown(rows)) == With(RowTs, t, rows)
  {
    hide With, Insert;
    if rows != [] {
      var n := |rows| - 1;
      SortDownStable(t, rows[..n]);
      InsertStable(t, rows[n], SortDown(rows[..n]));
      WithSnoc(t, SortDown(rows[..n]), rows[n]);
      WithSnoc(t, rows[..n], rows[n]);
      assert rows[..n] + [rows[n]] == rows;
    }
  }

  // -- grouping a downward stream -------------------------------------------------------------------

  function Negated<U>(key: U -> int): U -> int { (x: U) => -key(x) }

  /** Downward or upward, the stretches of equal timestamp are the same. */
  lemma {:induction false} RunsMirror(rows: seq<Row>)
    ensures |Runs(Down, rows)| == |Runs(RowTs, rows)|
    ensures forall i :: 0 <= i < |Runs(RowTs, rows)| ==>
              Runs(Down, rows)[i] == (-Runs(RowTs, rows)[i].0, Runs(RowTs, rows)[i].1)
  {
    hide RunLength, Runs;
    RunsStep(RowTs, rows);
    RunsStep(Down, rows);
    if rows != [] {
      var n := RunLength(RowTs, rows);
      forall i | 0 <= i < n ensures Down(rows[i]) == Down(rows[0]) { assert RowTs(rows[i]) == RowTs(rows[0]); }
      assert n < |rows| ==> RowTs(rows[n]) != RowTs(rows[0]);
      RunLengthIs(Down, rows, n);
      RunsMirror(rows[n..]);
    }
  }

  lemma {:induction false} WithMirror(t: int, rows: seq<Row>)
    ensures With(Down, -t, rows) == With(RowTs, t, rows)
  {
    if rows != [] { WithMirror(t, rows[1..]); }
  }

  lemma PerTimestampDown<U>(key: U -> int, f: (int, seq<Row>) -> U, rows: seq<Row>)
    requires Sorted(Down, rows) && forall t, group :: key(f(t, group)) == t
    ensures Ascending(Negated(key), PerTimestamp(f, rows))
    ensures forall i :: 0 <= i < |PerTimestamp(f, rows)| ==>
              var t := key(PerTimestamp(f, rows)[i]);
              With(RowTs, t, rows) != [] && PerTimestamp(f, rows)[i] == f(t, With(RowTs, t, rows))
    ensures forall t :: With(RowTs, t, rows) != [] ==> f(t, With(RowTs, t, rows)) in PerTimestamp(f, rows)
  {
    hide Runs, With;
    var runs, down, out := Runs(RowTs, rows), Runs(Down, rows), PerTimestamp(f, rows);
    RunsMirror(rows);
    RunsAscend(Down, rows);
    forall i, j | 0 <= i < j < |out|
      ensures Negated(key)(out[i]) < Negated(key)(out[j])
    {
      assert RunKey(down[i]) < RunKey(down[j]);
    }
    forall i | 0 <= i < |out|
      ensures var t := key(out[i]); With(RowTs, t, rows) != [] && out[i] == f(t, With(RowTs, t, rows))
    {
      RunIsGroup(Down, rows, i);
      WithMirror(runs[i].0, rows);
    }
    forall t | With(RowTs, t, rows) != []
      ensures f(t, With(RowTs, t, rows)) in out
    {
      WithMirror(t, rows);
      WithNone(Down, -t, rows);
      RunKeysOccur(Down, rows, -t);
      var i :| 0 <= i < |down| && RunKey(down[i]) == -t;
      RunIsGroup(Down, rows, i);
      assert out[i] == f(t, With(RowTs, t, rows));
    }
  }

  lemma ReverseDescends<U>(key: U -> int, xs: seq<U>)
    requires Ascending(key, xs)
    ensures Ascending(Negated(key), Reverse(xs)) && Within(Reverse(xs), xs) && Within(xs, Reverse(xs))
  {
    var r := Reverse(xs);
    forall i, j | 0 <= i < j < |r|
      ensures Negated(key)(r[i]) < Negated(key)(r[j])
    {
      assert key(xs[|xs| - 1 - j]) < key(xs[|xs| - 1 - i]);
    }
    forall i | 0 <= i < |xs|
      ensures xs[i] in r
    {
      assert r[|xs| - 1 - i] == xs[i];
    }
  }

  /** Grouping downward gives the reversal of grouping upward. */
  lemma GroupsReversed<U>(key: U -> int, f: (int, seq<Row>) -> U, up: seq<Row>, down: seq<Row>)
    requires Sorted(RowTs, up) && Sorted(Down, down) && forall t, group :: key(f(t, group)) == t
    requires forall t :: With(RowTs, t, down) == With(RowTs, t, up)
    ensures PerTimestamp(f, down) == Reverse(PerTimestamp(f, up))
  {
    hide With, PerTimestamp, Reverse, Sorted, Ascending, HasKey;
    var a, b := PerTimestamp(f, down), PerTimestamp(f, up);
    PerTimestampDown(key, f, down);
    PerTimestampGroups(key, f, up);
    ReverseDescends(key, b);
    forall i | 0 <= i < |a|
      ensures a[i] in Reverse(b)
    {
      var t := key(a[i]);
      WithNone(RowTs, t, up);
      Occurs(key, b, t);
      var j :| 0 <= j < |b| && key(b[j]) == t;
      assert b[j] in Reverse(b);
    }
    forall i | 0 <= i < |Reverse(b)|
      ensures Reverse(b)[i] in a
    {
      assert Reverse(b)[i] in b;
      var j :| 0 <= j < |b| && b[j] == Reverse(b)[i];
      var t := key(b[j]);
      HasItem(key, b, j);
      WithNone(RowTs, t, up);
    }
    AscendingUnique(Negated(key), a, Reverse(b));
  }

  lemma Occurs<U>(key: U -> int, xs: seq<U>, t: int)
    requires HasKey(key, t, xs)
    ensures exists j :: 0 <= j < |xs| && key(xs[j]) == t
  {
  }

  lemma HasItem<U>(key: U -> int, xs: seq<U>, j: nat)
    requires j < |xs|
    ensures HasKey(key, key(xs[j]), xs)
  {
  }
}
