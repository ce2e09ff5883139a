/**
 * Repeated range options (`parse_range_options` in `src/commands/command_parser.rs`): strict
 * compatibility keeps an option's first occurrence, extended mode its last, and ALIGN, which
 * carries the AGGREGATION behind it, shares that option's slot.
 */
module RangeOptions {
  import opened Values

  datatype Token = Align | Aggregation | Count | FilterByValue | FilterByTs

  /** An option as parsed from the argument stream, operands read. */
  datatype RangeOption<V> =
    | AlignedAggregation(value: V)
    | BareAggregation(value: V)
    | CountOf(value: V)
    | ByValue(value: V)
    | ByTs(value: V)
    | Latest

  /** The slots of `RangeOptions` that can be given twice. */
  datatype Slot = AggregationSlot | CountSlot | ValueSlot | TsSlot

  predicate Fills<V>(o: RangeOption<V>, slot: Slot) {
    match slot
    case AggregationSlot => o.AlignedAggregation? || o.BareAggregation?
    case CountSlot => o.CountOf?
    case ValueSlot => o.ByValue?
    case TsSlot => o.ByTs?
  }

  /** `RepeatedOptions` */
  class RepeatedOptions {
    const strict: bool
    var seen: seq<Token>

    constructor (strict: bool)
      ensures this.strict == strict && seen == []
    {
      this.strict := strict;
      seen := [];
    }

    method Accept(token: Token) returns (store: bool)
      modifies this
      ensures store <==> token !in old(seen) || !strict
      ensures forall t :: t in seen <==> t in old(seen) || t == token
    {
      var first := token !in seen;
      if first { seen := seen + [token]; }
      store := first || !strict;
    }
  }

  /** The first of a list that fills a slot. */
  function FirstFor<V>(slot: Slot, os: seq<RangeOption<V>>): Option<V> {
    if os == [] then None
    else
      var earlier := FirstFor(slot, os[..|os| - 1]);
      var o := os[|os| - 1];
      if earlier.Some? then earlier else if Fills(o, slot) then Some(o.value) else None
  }

  /** The last of a list that fills a slot. */
  function LastFor<V>(slot: Slot, os: seq<RangeOption<V>>): Option<V> {
    if os == [] then None
    else
      var o := os[|os| - 1];
      if Fills(o, slot) then Some(o.value) else LastFor(slot, os[..|os| - 1])
  }

  /** Nothing in front of an option that is resolved first, nothing behind one that is resolved last. */
  lemma {:induction false} ResolvedMeaning<V>(slot: Slot, os: seq<RangeOption<V>>, i: nat)
    requires i < |os| && Fills(os[i], slot)
    ensures (forall j :: 0 <= j < i ==> !Fills(os[j], slot)) ==> FirstFor(slot, os) == Some(os[i].value)
    ensures (forall j :: i < j < |os| ==> !Fills(os[j], slot)) ==> LastFor(slot, os) == Some(os[i].value)
  {
    var n := |os| - 1;
    if i < n {
      ResolvedMeaning(slot, os[..n], i);
    } else {
      if forall j :: 0 <= j < i ==> !Fills(os[j], slot) { Unfilled(slot, os[..n]); }
    }
  }

  lemma {:induction false} Unfilled<V>(slot: Slot, os: seq<RangeOption<V>>)
    requires forall j :: 0 <= j < |os| ==> !Fills(os[j], slot)
    ensures FirstFor(slot, os).None? && LastFor(slot, os).None?
  {
    if os != [] { Unfilled(slot, os[..|os| - 1]); }
  }

  function Resolved<V>(strict: bool, slot: Slot, os: seq<RangeOption<V>>): Option<V> {
    if strict then FirstFor(slot, os) else LastFor(slot, os)
  }

  function TokenOf(slot: Slot): Token {
    match slot
    case AggregationSlot => Aggregation
    case CountSlot => Count
    case ValueSlot => FilterByValue
    case TsSlot => FilterByTs
  }

  datatype Options<V> = Options(aggregation: Option<V>, count: Option<V>, valueFilter: Option<V>,
                                tsFilter: Option<V>, latest: bool) {
    function At(slot: Slot): Option<V> {
      match slot
      case AggregationSlot => aggregation
      case CountSlot => count
      case ValueSlot => valueFilter
      case TsSlot => tsFilter
    }
  }

  lemma ResolvedStep<V>(strict: bool, slot: Slot, os: seq<RangeOption<V>>, o: RangeOption<V>)
    ensures Resolved(strict, slot, os + [o])
            == if Fills(o, slot) && (!strict || FirstFor(slot, os).None?) then Some(o.value) else Resolved(strict, slot, os)
    ensures FirstFor(slot, os + [o]).Some? <==> FirstFor(slot, os).Some? || Fills(o, slot)
  {
    assert (os + [o])[..|os|] == os;
  }

  /** The option loop. */
  method ParseRangeOptions<V>(strict: bool, os: seq<RangeOption<V>>) returns (options: Options<V>)
    ensures forall slot :: options.At(slot) == Resolved(strict, slot, os)
    ensures options.latest <==> exists i :: 0 <= i < |os| && os[i].Latest?
  {
    hide Resolved, FirstFor;
    var repeated := new RepeatedOptions(strict);
    options := Options(None, None, None, None, false);
    NothingResolved<V>(strict);
    assert os[..0] == [];
    for i := 0 to |os|
      invariant fresh(repeated) && repeated.strict == strict
      invariant forall slot :: options.At(slot) == Resolved(strict, slot, os[..i])
      invariant forall slot :: TokenOf(slot) in repeated.seen <==> FirstFor(slot, os[..i]).Some?
      invariant Align in repeated.seen ==> Aggregation in repeated.seen
      invariant options.latest <==> exists k :: 0 <= k < i && os[k].Latest?
    {
      var o := os[i];
      assert os[..i] + [o] == os[..i + 1];
      forall slot { ResolvedStep(strict, slot, os[..i], o); }
      match o
      case AlignedAggregation(value) =>
        var a := repeated.Accept(Align);
        var b := repeated.Accept(Aggregation);
        if a && b { options := options.(aggregation := Some(value)); }
      case BareAggregation(value) =>
        var a := repeated.Accept(Aggregation);
        if a { options := options.(aggregation := Some(value)); }
      case CountOf(value) =>
        var a := repeated.Accept(Count);
        if a { options := options.(count := Some(value)); }
      case ByValue(value) =>
        var a := repeated.Accept(FilterByValue);
        if a { options := options.(valueFilter := Some(value)); }
      case ByTs(value) =>
        var a := repeated.Accept(FilterByTs);
        if a { options := options.(tsFilter := Some(value)); }
      case Latest =>
        options := options.(latest := true);
    }
    assert os[..|os|] == os;
  }

  lemma NothingResolved<V>(strict: bool)
    ensures forall slot :: Resolved<V>(strict, slot, []).None? && FirstFor<V>(slot, []).None?
  {
  }
}
