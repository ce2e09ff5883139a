/** What a list of partial states stands for, up to the order of the values behind it. */
module Supply {
  import opened Values
  import opened Bags
  import opened Aggregators
  import opened Partials
  import opened GroupReduction
  import opened Streams

  function AcceptedOf(r: PartialReducer): Value -> seq<real> {
    (v: Value) => if Accepts(r, v) then [Number(v)] else []
  }

  lemma {:induction false} AcceptedGathered(r: PartialReducer, vs: seq<Value>)
    ensures Accepted(r, vs) == ConcatMap(AcceptedOf(r), vs)
  {
    hide Accepts;
    if vs != [] { AcceptedGathered(r, vs[..|vs| - 1]); }
  }

  lemma AcceptedPermutation(r: PartialReducer, us: seq<Value>, vs: seq<Value>)
    requires multiset(us) == multiset(vs)
    ensures multiset(Accepted(r, us)) == multiset(Accepted(r, vs))
  {
    hide Accepted, ConcatMap;
    AcceptedGathered(r, us);
    AcceptedGathered(r, vs);
    ConcatMapPermutation(AcceptedOf(r), us, vs);
  }

  function CellOf(c: nat): Row -> seq<Value> {
    (row: Row) => [if c < |row.values| then row.values[c] else NaN]
  }

  lemma {:induction false} ColumnGathered(c: nat, rows: seq<Row>)
    ensures ColumnOf(c, rows) == ConcatMap(CellOf(c), rows)
  {
    if rows != [] { ColumnGathered(c, rows[..|rows| - 1]); }
  }

  lemma ColumnPermutation(c: nat, xs: seq<Row>, ys: seq<Row>)
    requires multiset(xs) == multiset(ys)
    ensures multiset(ColumnOf(c, xs)) == multiset(ColumnOf(c, ys))
  {
    hide ColumnOf, ConcatMap;
    ColumnGathered(c, xs);
    ColumnGathered(c, ys);
    ConcatMapPermutation(CellOf(c), xs, ys);
  }

  lemma ColumnOfConcat(c: nat, xs: seq<Row>, ys: seq<Row>)
    ensures ColumnOf(c, xs + ys) == ColumnOf(c, xs) + ColumnOf(c, ys)
  {
    hide ColumnOf, ConcatMap;
    ColumnGathered(c, xs);
    ColumnGathered(c, ys);
    ColumnGathered(c, xs + ys);
    ConcatMapOfConcat(CellOf(c), xs, ys);
  }

  ghost predicate RepresentsEach(kind: Kind, t: int, states: seq<PartialState>, parts: seq<seq<real>>) {
    |parts| == |states| && forall i :: 0 <= i < |states| ==> Represents(kind, t, states[i], parts[i])
  }

  /** Together the states stand for the accepted ones of `vs`, in some order. */
  ghost predicate Supplies(r: PartialReducer, t: int, states: seq<PartialState>, vs: seq<Value>) {
    exists parts :: RepresentsEach(r.kind, t, states, parts)
                    && multiset(Flatten(parts)) == multiset(Accepted(r, vs))
  }

  lemma SuppliesNothing(r: PartialReducer, t: int)
    ensures Supplies(r, t, [], [])
  {
    assert RepresentsEach(r.kind, t, [], []);
    assert Flatten<real>([]) == Accepted(r, []);
  }

  lemma SuppliesOne(m: Machine, r: PartialReducer, t: int, vs: seq<Value>)
    ensures Supplies(r, t, [Accumulate(m, r, t, vs)], vs)
  {
    hide Represents, Accumulate, Accepted;
    AccumulateRepresents(m, r, t, vs);
    var parts := [Accepted(r, vs)];
    assert parts[..0] == [];
    assert Flatten(parts) == Flatten(parts[..0]) + Accepted(r, vs) == Accepted(r, vs);
    assert RepresentsEach(r.kind, t, [Accumulate(m, r, t, vs)], parts);
  }

  lemma {:induction false} FlattenOfConcat<T>(xs: seq<seq<T>>, ys: seq<seq<T>>)
    ensures Flatten(xs + ys) == Flatten(xs) + Flatten(ys)
  {
    if ys == [] {
      assert xs + ys == xs;
    } else {
      var n := |ys| - 1;
      FlattenOfConcat(xs, ys[..n]);
      assert (xs + ys)[..|xs| + n] == xs + ys[..n];
    }
  }

  lemma SuppliesBoth(r: PartialReducer, t: int, ss: seq<PartialState>, us: seq<Value>,
                     ss': seq<PartialState>, us': seq<Value>)
    requires Supplies(r, t, ss, us) && Supplies(r, t, ss', us')
    ensures Supplies(r, t, ss + ss', us + us')
  {
    hide Represents, Accepted, Flatten;
    var parts :| RepresentsEach(r.kind, t, ss, parts) && multiset(Flatten(parts)) == multiset(Accepted(r, us));
    var parts' :| RepresentsEach(r.kind, t, ss', parts') && multiset(Flatten(parts')) == multiset(Accepted(r, us'));
    FlattenOfConcat(parts, parts');
    AcceptedOfConcat(r, us, us');
    assert RepresentsEach(r.kind, t, ss + ss', parts + parts');
  }

  lemma SuppliesPermuted(r: PartialReducer, t: int, ss: seq<PartialState>, us: seq<Value>, vs: seq<Value>)
    requires Supplies(r, t, ss, us) && multiset(us) == multiset(vs)
    ensures Supplies(r, t, ss, vs)
  {
    hide RepresentsEach, Accepted;
    AcceptedPermutation(r, us, vs);
  }

  /** So finalizing them gives what one node computes from the values. */
  lemma SuppliedValue(m: Machine, config: AggregatorConfig, t: int, ss: seq<PartialState>, vs: seq<Value>)
    requires config.Valid() && ForConfig(config).Some? && OrderInsensitive(ForConfig(config).value.kind)
    requires Supplies(ForConfig(config).value, t, ss, vs)
    requires config.aggregation.Avg? ==> |vs| <= U32_MAX
    ensures var kind := ForConfig(config).value.kind;
            FinalizeState(m, kind, MergeAll(m, kind, ss)) == ReduceGroup(m, config, t, vs)
  {
    hide Represents, Accepted, Flatten, ForConfig, Reduce, FinalizeState, MergeAll, ReduceGroup;
    var r := ForConfig(config).value;
    var parts :| RepresentsEach(r.kind, t, ss, parts) && multiset(Flatten(parts)) == multiset(Accepted(r, vs));
    MergeAllRepresents(m, r.kind, t, ss, parts);
    FinalizeRepresents(m, r.kind, t, MergeAll(m, r.kind, ss), Flatten(parts));
    ReduceIgnoresOrder(m, r.kind, Flatten(parts), Accepted(r, vs));
    HandlerMeaning(m, config, t, vs);
  }
}
