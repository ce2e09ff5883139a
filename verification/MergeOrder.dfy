/**
 * The order in which shards answer. For every kind but first and last, what the merged states
 * finalize to is a function of the states as a bag, whatever a peer put in them.
 */
module MergeOrder {
  import opened Values
  import opened Bags
  import opened Moments
  import opened Kahan
  import opened Partials
  import opened Timeline
  import opened Coordinator

  // -- the parts of a state that merging adds up or compares ------------------------------

  function Low(s: PartialState): real { s.acc1 }

  function High(s: PartialState): real { s.acc2 }

  function Compensated(s: PartialState): real { s.acc1 + s.acc1c }

  function Weighted(s: PartialState): real { s.acc1 * s.count as real }

  function Energy(s: PartialState): real { s.acc2 + s.count as real * Square(s.acc1) }

  function Facet(f: PartialState -> real): PartialState -> seq<real> {
    (s: PartialState) => if s.count > 0 then [f(s)] else []
  }

  /** One part of every state that counts anything. */
  function Facets(f: PartialState -> real, states: seq<PartialState>): seq<real> {
    ConcatMap(Facet(f), states)
  }

  lemma FacetsStep(f: PartialState -> real, states: seq<PartialState>, s: PartialState)
    ensures Facets(f, states + [s]) == if s.count > 0 then Facets(f, states) + [f(s)] else Facets(f, states)
    ensures SumOf(Facets(f, states + [s])) == SumOf(Facets(f, states)) + (if s.count > 0 then f(s) else 0.0)
  {
    hide SumOf;
    assert (states + [s])[..|states|] == states;
    SumsOfConcat(Facets(f, states), if s.count > 0 then [f(s)] else []);
    SumsOfSmall(f(s));
  }

  lemma {:induction false} NoFacets(f: PartialState -> real, states: seq<PartialState>)
    ensures TotalCount(states) == 0 <==> Facets(f, states) == []
  {
    if states != [] { NoFacets(f, states[..|states| - 1]); }
  }

  /** What merging makes of a list of states. */
  ghost predicate Summarizes(kind: Kind, s: PartialState, states: seq<PartialState>) {
    && s.count == TotalCount(states)
    && (s.count > 0 ==>
          && (kind.Sum? || kind.SumIf? || kind.Avg? ==> Compensated(s) == SumOf(Facets(Compensated, states)))
          && (IsDispersion(kind) ==>
                MeanAndM2(s.acc1, s.acc2, s.count, SumOf(Facets(Weighted, states)), SumOf(Facets(Energy, states))))
          && (kind.Min? || kind.Max? || kind.Range? ==> Facets(Low, states) != [] && Facets(High, states) != [])
          && (kind.Min? || kind.Range? ==> s.acc1 == MinOf(Facets(Low, states)))
          && (kind.Max? ==> s.acc1 == MaxOf(Facets(Low, states)))
          && (kind.Range? ==> s.acc2 == MaxOf(Facets(High, states))))
  }

  lemma OwnMoments(s: PartialState)
    ensures MeanAndM2(s.acc1, s.acc2, s.count, Weighted(s), Energy(s))
  {
    hide Square, Steiner;
    CentreAlgebra(Energy(s), Weighted(s), s.count, s.acc1);
  }

  /** Both sides count something: the kinds that add up. */
  lemma AddingStep(m: Machine, kind: Kind, a: PartialState, states: seq<PartialState>, b: PartialState)
    requires Summarizes(kind, a, states) && a.count > 0 && b.count > 0
    requires !kind.Min? && !kind.Max? && !kind.Range?
    ensures Summarizes(kind, Merge(m, kind, a, b), states + [b])
  {
    hide Facets, SumOf, MinOf, MaxOf, MeanAndM2, ChanMean, ChanM2, KahanSum.Merge, Weighted, Energy;
    assert (states + [b])[..|states|] == states;
    if IsDispersion(kind) {
      FacetsStep(Weighted, states, b);
      FacetsStep(Energy, states, b);
      OwnMoments(b);
      ChanAlgebra(a.acc1, a.acc2, a.count, SumOf(Facets(Weighted, states)), SumOf(Facets(Energy, states)),
                  b.acc1, b.acc2, b.count, Weighted(b), Energy(b));
    } else {
      FacetsStep(Compensated, states, b);
    }
  }

  /** Both sides count something: the kinds that compare. */
  lemma ComparingStep(m: Machine, kind: Kind, a: PartialState, states: seq<PartialState>, b: PartialState)
    requires Summarizes(kind, a, states) && a.count > 0 && b.count > 0
    requires kind.Min? || kind.Max? || kind.Range?
    ensures Summarizes(kind, Merge(m, kind, a, b), states + [b])
  {
    hide Facets, SumOf, MinOf, MaxOf, MeanAndM2, ChanMean, ChanM2, KahanSum.Merge, Weighted, Energy;
    assert (states + [b])[..|states|] == states;
    FacetsStep(Low, states, b);
    FacetsStep(High, states, b);
    ExtremesOfConcat(Facets(Low, states), [Low(b)]);
    ExtremesOfConcat(Facets(High, states), [High(b)]);
    ExtremesOfOne(Low(b));
    ExtremesOfOne(High(b));
  }

  /** The new state counts nothing. */
  lemma EmptyStep(kind: Kind, a: PartialState, states: seq<PartialState>, b: PartialState)
    requires Summarizes(kind, a, states) && b.count == 0
    ensures Summarizes(kind, a, states + [b])
  {
    hide Facets, SumOf, MinOf, MaxOf, MeanAndM2;
    assert (states + [b])[..|states|] == states;
    FacetsStep(Compensated, states, b);
    FacetsStep(Weighted, states, b);
    FacetsStep(Energy, states, b);
    FacetsStep(Low, states, b);
    FacetsStep(High, states, b);
  }

  /** Nothing was counted before. */
  lemma FirstStep(kind: Kind, states: seq<PartialState>, b: PartialState)
    requires TotalCount(states) == 0 && b.count > 0
    ensures Summarizes(kind, b, states + [b])
  {
    hide Summarizes, Facets, Weighted, Energy;
    assert (states + [b])[..|states|] == states;
    FirstFacet(Compensated, states, b);
    FirstFacet(Weighted, states, b);
    FirstFacet(Energy, states, b);
    FirstFacet(Low, states, b);
    FirstFacet(High, states, b);
    AloneSummarizes(kind, b, states + [b]);
  }

  lemma FirstFacet(f: PartialState -> real, states: seq<PartialState>, b: PartialState)
    requires TotalCount(states) == 0 && b.count > 0
    ensures Facets(f, states + [b]) == [f(b)]
  {
    NoFacets(f, states);
    FacetsStep(f, states, b);
  }

  lemma SummarizesStep(m: Machine, kind: Kind, a: PartialState, states: seq<PartialState>, b: PartialState)
    requires Summarizes(kind, a, states)
    ensures Summarizes(kind, Merge(m, kind, a, b), states + [b])
  {
    if b.count == 0 {
      EmptyStep(kind, a, states, b);
    } else if a.count == 0 {
      FirstStep(kind, states, b);
    } else if kind.Min? || kind.Max? || kind.Range? {
      ComparingStep(m, kind, a, states, b);
    } else {
      AddingStep(m, kind, a, states, b);
    }
  }

  lemma ExtremesOfOne(x: real)
    ensures MinOf([x]) == MaxOf([x]) == x
  {
  }

  lemma AloneSummarizes(kind: Kind, b: PartialState, states: seq<PartialState>)
    requires b.count > 0 && b.count == TotalCount(states)
    requires Facets(Compensated, states) == [Compensated(b)]
    requires Facets(Weighted, states) == [Weighted(b)] && Facets(Energy, states) == [Energy(b)]
    requires Facets(Low, states) == [Low(b)] && Facets(High, states) == [High(b)]
    ensures Summarizes(kind, b, states)
  {
    hide Facets, SumOf, MinOf, MaxOf, MeanAndM2, Weighted, Energy;
    SumsOfSmall(Compensated(b));
    SumsOfSmall(Weighted(b));
    SumsOfSmall(Energy(b));
    ExtremesOfOne(Low(b));
    ExtremesOfOne(High(b));
    OwnMoments(b);
  }

  lemma {:induction false} MergeAllSummarizes(m: Machine, kind: Kind, states: seq<PartialState>)
    ensures Summarizes(kind, MergeAll(m, kind, states), states)
  {
    hide Summarizes, Merge;
    if states == [] {
      assert Summarizes(kind, EMPTY, []) by { NothingSummarizes(kind); }
    } else {
      var n := |states| - 1;
      MergeAllSummarizes(m, kind, states[..n]);
      SummarizesStep(m, kind, MergeAll(m, kind, states[..n]), states[..n], states[n]);
      assert states[..n] + [states[n]] == states;
    }
  }

  lemma NothingSummarizes(kind: Kind)
    ensures Summarizes(kind, EMPTY, [])
  {
  }

  // -- as a bag ----------------------------------------------------------------------------

  function Tally(s: PartialState): seq<()> { seq(s.count, i => ()) }

  lemma {:induction false} TotalIsTally(states: seq<PartialState>)
    ensures TotalCount(states) == |ConcatMap(Tally, states)|
  {
    if states != [] { TotalIsTally(states[..|states| - 1]); }
  }

  lemma TotalCountPermutation(ss: seq<PartialState>, ss': seq<PartialState>)
    requires multiset(ss) == multiset(ss')
    ensures TotalCount(ss) == TotalCount(ss')
  {
    hide TotalCount, ConcatMap, Tally;
    TotalIsTally(ss);
    TotalIsTally(ss');
    ConcatMapPermutation(Tally, ss, ss');
    SameMembers(ConcatMap(Tally, ss), ConcatMap(Tally, ss'));
  }

  lemma FacetsPermutation(f: PartialState -> real, ss: seq<PartialState>, ss': seq<PartialState>)
    requires multiset(ss) == multiset(ss')
    ensures SumOf(Facets(f, ss)) == SumOf(Facets(f, ss'))
    ensures Facets(f, ss) != [] ==>
              && Facets(f, ss') != []
              && MinOf(Facets(f, ss)) == MinOf(Facets(f, ss')) && MaxOf(Facets(f, ss)) == MaxOf(Facets(f, ss'))
  {
    hide ConcatMap, SumOf, MinOf, MaxOf, SumSq;
    ConcatMapPermutation(Facet(f), ss, ss');
    SumsOfPermutation(Facets(f, ss), Facets(f, ss'));
    if Facets(f, ss) != [] { ExtremesOfPermutation(Facets(f, ss), Facets(f, ss')); }
  }

  lemma MomentsDetermine(a: PartialState, b: PartialState, s: real, q: real)
    requires a.count == b.count > 0
    requires MeanAndM2(a.acc1, a.acc2, a.count, s, q) && MeanAndM2(b.acc1, b.acc2, b.count, s, q)
    ensures a.acc1 == b.acc1 && a.acc2 == b.acc2
  {
    hide Steiner;
    SameQuotient(a.acc1, b.acc1, a.count, s);
  }

  lemma SameQuotient(x: real, y: real, n: nat, s: real)
    requires n > 0 && x * n as real == s && y * n as real == s
    ensures x == y
  {
    assert x == x * n as real / n as real;
    assert y == y * n as real / n as real;
  }

  /** Any states, honest or not: their order changes nothing that is reported. */
  lemma MergeOrderIrrelevant(m: Machine, kind: Kind, ss: seq<PartialState>, ss': seq<PartialState>)
    requires OrderInsensitive(kind)
    requires multiset(ss) == multiset(ss')
    ensures FinalizeState(m, kind, MergeAll(m, kind, ss)) == FinalizeState(m, kind, MergeAll(m, kind, ss'))
  {
    hide MergeAll, Facets, SumOf, MinOf, MaxOf, MeanAndM2, TotalCount, Low, High, Weighted, Energy;
    var a, b := MergeAll(m, kind, ss), MergeAll(m, kind, ss');
    MergeAllSummarizes(m, kind, ss);
    MergeAllSummarizes(m, kind, ss');
    TotalCountPermutation(ss, ss');
    FacetsPermutation(Compensated, ss, ss');
    FacetsPermutation(Weighted, ss, ss');
    FacetsPermutation(Energy, ss, ss');
    FacetsPermutation(Low, ss, ss');
    FacetsPermutation(High, ss, ss');
    if IsDispersion(kind) && a.count > 0 {
      MomentsDetermine(a, b, SumOf(Facets(Weighted, ss)), SumOf(Facets(Energy, ss)));
    }
  }

  // -- the whole reply ------------------------------------------------------------------------

  function EntriesOf(columns: nat): GroupPartial -> seq<Entry> {
    (p: GroupPartial) => if columns > 0 && WellFormed(p, columns) then Entries(p, columns) else []
  }

  lemma {:induction false} AllEntriesGathered(ps: seq<GroupPartial>, columns: nat)
    requires columns > 0 && AllWellFormed(ps, columns)
    ensures AllEntries(ps, columns) == ConcatMap(EntriesOf(columns), ps)
  {
    hide WellFormed, Entries;
    if ps != [] { AllEntriesGathered(ps[..|ps| - 1], columns); }
  }

  function AddressedBy(group: string, t: int, c: nat): Entry -> seq<PartialState> {
    (e: Entry) => if e.group == group && e.ts == t && c < |e.row| then [e.row[c]] else []
  }

  lemma {:induction false} AddressedGathered(es: seq<Entry>, group: string, t: int, c: nat)
    ensures Addressed(es, group, t, c) == ConcatMap(AddressedBy(group, t, c), es)
  {
    if es != [] { AddressedGathered(es[..|es| - 1], group, t, c); }
  }

  lemma TimesWithin(es: seq<Entry>, es': seq<Entry>, group: string)
    requires forall e :: e in es ==> e in es'
    ensures Within(TimesOf(es, group), TimesOf(es', group))
  {
    hide TimesOf;
    var times := TimesOf(es, group);
    forall i | 0 <= i < |times|
      ensures times[i] in TimesOf(es', group)
    {
      assert times[i] in times;
      var j :| 0 <= j < |es| && es[j].group == group && es[j].ts == times[i];
      assert es[j] in es';
    }
  }

  lemma CellRowsPermutation(m: Machine, kind: Kind, columns: nat, es: seq<Entry>, es': seq<Entry>, group: string)
    requires OrderInsensitive(kind)
    requires multiset(es) == multiset(es')
    ensures CellRows(m, kind, columns, es, group) == CellRows(m, kind, columns, es', group)
  {
    hide TimesOf, Addressed, MergeAll, FinalizeState, ConcatMap;
    SameMembers(es, es');
    TimesWithin(es, es', group);
    TimesWithin(es', es, group);
    AscendingUnique(Identity, TimesOf(es, group), TimesOf(es', group));
    var times := TimesOf(es, group);
    forall i, c | 0 <= i < |times| && 0 <= c < columns
      ensures FinalizeState(m, kind, MergeAll(m, kind, Addressed(es, group, times[i], c)))
              == FinalizeState(m, kind, MergeAll(m, kind, Addressed(es', group, times[i], c)))
    {
      AddressedGathered(es, group, times[i], c);
      AddressedGathered(es', group, times[i], c);
      ConcatMapPermutation(AddressedBy(group, times[i], c), es, es');
      MergeOrderIrrelevant(m, kind, Addressed(es, group, times[i], c), Addressed(es', group, times[i], c));
    }
    forall i | 0 <= i < |times|
      ensures CellRow(m, kind, columns, es, group, times[i]) == CellRow(m, kind, columns, es', group, times[i])
    {
    }
  }

  /** The reply does not depend on the order in which the shards' partials arrive. */
  lemma ArrivalOrderIrrelevant(m: Machine, kind: Kind, columns: nat, reverse: bool, count: Option<nat>,
                               ps: seq<GroupPartial>, ps': seq<GroupPartial>)
    requires OrderInsensitive(kind) && columns > 0
    requires AllWellFormed(ps, columns) && AllWellFormed(ps', columns)
    requires multiset(ps) == multiset(ps')
    ensures Reply(m, kind, columns, reverse, count, ps) == Reply(m, kind, columns, reverse, count, ps')
  {
    hide CellRows, AllEntries, CollectRows, ConcatMap;
    SameMembers(ps, ps');
    AllEntriesGathered(ps, columns);
    AllEntriesGathered(ps', columns);
    ConcatMapPermutation(EntriesOf(columns), ps, ps');
    assert LabelsOf(ps) == LabelsOf(ps');
    forall group | group in LabelsOf(ps)
      ensures CellRows(m, kind, columns, AllEntries(ps, columns), group)
              == CellRows(m, kind, columns, AllEntries(ps', columns), group)
      ensures SourcesOf(ps, group) == SourcesOf(ps', group)
    {
      CellRowsPermutation(m, kind, columns, AllEntries(ps, columns), AllEntries(ps', columns), group);
    }
  }

  // -- no accepted value is lost ------------------------------------------------------------

  function EntryCount(es: seq<Entry>): nat {
    if es == [] then 0 else EntryCount(es[..|es| - 1]) + TotalCount(es[|es| - 1].row)
  }

  /** What the first `k` columns of one cell count after the merge. */
  function CellCount(m: Machine, kind: Kind, k: nat, es: seq<Entry>, cell: (string, int)): nat {
    if k == 0 then 0
    else CellCount(m, kind, k - 1, es, cell) + MergeAll(m, kind, Addressed(es, cell.0, cell.1, k - 1)).count
  }

  function CellsCount(m: Machine, kind: Kind, columns: nat, es: seq<Entry>, cells: seq<(string, int)>): nat {
    if cells == [] then 0
    else CellsCount(m, kind, columns, es, cells[..|cells| - 1])
         + CellCount(m, kind, columns, es, cells[|cells| - 1])
  }

  lemma ColumnCountStep(m: Machine, kind: Kind, c: nat, es: seq<Entry>, e: Entry, cell: (string, int))
    requires c < |e.row|
    ensures MergeAll(m, kind, Addressed(es + [e], cell.0, cell.1, c)).count
            == MergeAll(m, kind, Addressed(es, cell.0, cell.1, c)).count
               + (if cell == (e.group, e.ts) then e.row[c].count else 0)
  {
    hide MergeAll, Addressed, Merge;
    var states := Addressed(es, cell.0, cell.1, c);
    AddressedStep(es, e, cell.0, cell.1, c);
    assert states + [] == states;
    MergeAllStep(m, kind, states, e.row[c]);
  }

  lemma TotalCountStep(states: seq<PartialState>, k: nat)
    requires 0 < k <= |states|
    ensures TotalCount(states[..k]) == TotalCount(states[..k - 1]) + states[k - 1].count
  {
    assert states[..k][..k - 1] == states[..k - 1];
  }

  lemma {:induction false} CellCountStep(m: Machine, kind: Kind, k: nat, es: seq<Entry>, e: Entry, cell: (string, int))
    requires k <= |e.row|
    ensures CellCount(m, kind, k, es + [e], cell)
            == CellCount(m, kind, k, es, cell) + (if cell == (e.group, e.ts) then TotalCount(e.row[..k]) else 0)
  {
    hide MergeAll, Addressed, TotalCount;
    if k == 0 {
      assert TotalCount(e.row[..0]) == 0 by { TotalIsTally(e.row[..0]); }
    } else {
      CellCountStep(m, kind, k - 1, es, e, cell);
      ColumnCountStep(m, kind, k - 1, es, e, cell);
      TotalCountStep(e.row, k);
    }
  }

  lemma {:induction false} CellsCountStep(m: Machine, kind: Kind, columns: nat, es: seq<Entry>, e: Entry,
                                          cells: seq<(string, int)>)
    requires columns == |e.row|
    requires forall i, j :: 0 <= i < j < |cells| ==> cells[i] != cells[j]
    ensures CellsCount(m, kind, columns, es + [e], cells)
            == CellsCount(m, kind, columns, es, cells) + (if (e.group, e.ts) in cells then TotalCount(e.row) else 0)
  {
    hide CellCount, TotalCount;
    if cells != [] {
      var n := |cells| - 1;
      CellsCountStep(m, kind, columns, es, e, cells[..n]);
      CellCountStep(m, kind, columns, es, e, cells[n]);
      assert e.row[..columns] == e.row;
      assert cells == cells[..n] + [cells[n]];
    }
  }

  /** Over all cells together, the merge counts exactly what the shards counted. */
  lemma {:induction false} CountConserved(m: Machine, kind: Kind, columns: nat, es: seq<Entry>,
                                          cells: seq<(string, int)>)
    requires forall i, j :: 0 <= i < j < |cells| ==> cells[i] != cells[j]
    requires forall i :: 0 <= i < |es| ==> |es[i].row| == columns && (es[i].group, es[i].ts) in cells
    ensures CellsCount(m, kind, columns, es, cells) == EntryCount(es)
  {
    hide CellsCount, TotalCount;
    if es == [] {
      NoCellsCount(m, kind, columns, cells);
    } else {
      var n := |es| - 1;
      CountConserved(m, kind, columns, es[..n], cells);
      CellsCountStep(m, kind, columns, es[..n], es[n], cells);
      assert es[..n] + [es[n]] == es;
    }
  }

  lemma {:induction false} NoCellsCount(m: Machine, kind: Kind, columns: nat, cells: seq<(string, int)>)
    ensures CellsCount(m, kind, columns, [], cells) == 0
  {
    if cells != [] {
      NoCellsCount(m, kind, columns, cells[..|cells| - 1]);
      NoCellCount(m, kind, columns, cells[|cells| - 1]);
    }
  }

  lemma {:induction false} NoCellCount(m: Machine, kind: Kind, k: nat, cell: (string, int))
    ensures CellCount(m, kind, k, [], cell) == 0
  {
    if k > 0 { NoCellCount(m, kind, k - 1, cell); }
  }
}
