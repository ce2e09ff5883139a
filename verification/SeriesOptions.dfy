/**
 * Series options (`src/commands/ts_create.rs`): the boundary walk, which steps from keyword to
 * keyword by a table of operand counts, and the option parser, whose arms each take their own
 * arguments from an iterator (`src/commands/command_parser.rs`).
 */
module SeriesOptions {
  import opened Values

  datatype Token =
    | ChunkSize | Encoding | Compressed | Uncompressed | DecimalDigits | SignificantDigits
    | DuplicatePolicy | OnDuplicate | Metric | Ignore | Retention | Labels | Timestamp
    | OtherToken | Invalid

  /**
   * How arguments are read: which keyword a string spells, and what an operand means, if anything.
   * IGNORE reads its two operands one by one before it looks at both. Everything below holds for
   * every choice of these functions.
   */
  datatype Reader<!V> = Reader(
    token: string -> Token,
    chunkSize: string -> Option<V>,
    encoding: string -> Option<V>,
    duplicatePolicy: string -> Option<V>,
    onDuplicate: string -> Option<V>,
    metric: string -> Option<V>,
    retention: string -> Option<V>,
    decimalDigits: string -> Option<V>,
    significantDigits: string -> Option<V>,
    ignoreTime: string -> Option<V>,
    ignoreValue: string -> Option<V>,
    ignore: (V, V) -> Option<V>,
    labels: seq<string> -> Option<V>)

  /** `series_option_operands` */
  function Operands(t: Token): nat {
    match t
    case ChunkSize | DecimalDigits | DuplicatePolicy | Encoding | Metric | OnDuplicate | Retention
       | SignificantDigits | Timestamp => 1
    case Ignore => 2
    case _ => 0
  }

  /** An option keyword and where it stands. */
  datatype Keyword = Keyword(at: nat, token: Token)

  // -- the walk --------------------------------------------------------------------------------

  /** `series_option_keywords`: operands are skipped, LABELS ends the list. */
  function Keywords<V>(r: Reader<V>, args: seq<string>, i: nat): seq<Keyword>
    decreases |args| - i
  {
    if i >= |args| then []
    else
      var t := r.token(args[i]);
      if t.Labels? then [Keyword(i, t)] else [Keyword(i, t)] + Keywords(r, args, i + 1 + Operands(t))
  }

  /** The walk as the closure steps through it. */
  method SeriesOptionKeywords<V>(r: Reader<V>, args: seq<string>, start: nat) returns (found: seq<Keyword>)
    ensures found == Keywords(r, args, start)
  {
    found := [];
    var index := start;
    while index < |args|
      invariant found + Keywords(r, args, index) == Keywords(r, args, start)
      decreases |args| - index
    {
      var t := r.token(args[index]);
      found := found + [Keyword(index, t)];
      index := if t.Labels? then |args| else index + 1 + Operands(t);
    }
  }

  /** The keywords in front of LABELS. */
  function BeforeLabels(kws: seq<Keyword>): (r: seq<Keyword>)
    ensures |r| <= |kws| && r == kws[..|r|]
    ensures forall i :: 0 <= i < |r| ==> !r[i].token.Labels?
    ensures |r| < |kws| ==> kws[|r|].token.Labels?
  {
    if kws == [] || kws[0].token.Labels? then [] else [kws[0]] + BeforeLabels(kws[1..])
  }

  /** Where LABELS stands, or the end of the list. */
  function LabelsAt<V>(r: Reader<V>, args: seq<string>, i: nat): nat {
    var kws := Keywords(r, args, i);
    var n := |BeforeLabels(kws)|;
    if n < |kws| then kws[n].at else |args|
  }

  lemma {:induction false} LabelsPosition<V>(r: Reader<V>, args: seq<string>, i: nat)
    requires i <= |args|
    ensures i <= LabelsAt(r, args, i) <= |args|
    ensures i < |args| && !r.token(args[i]).Labels? ==>
              && i < LabelsAt(r, args, i)
              && (i + 1 + Operands(r.token(args[i])) <= |args| ==>
                    LabelsAt(r, args, i) == LabelsAt(r, args, i + 1 + Operands(r.token(args[i]))))
              && (i + 1 + Operands(r.token(args[i])) > |args| ==> LabelsAt(r, args, i) == |args|)
    decreases |args| - i
  {
    if i < |args| && !r.token(args[i]).Labels? {
      var next := i + 1 + Operands(r.token(args[i]));
      var kws, rest := Keywords(r, args, i), Keywords(r, args, next);
      assert kws[1..] == rest;
      if next <= |args| { LabelsPosition(r, args, next); }
    }
  }

  /** Cutting the list at LABELS leaves the walk in front of it unchanged. */
  lemma {:induction false} WalkUpToLabels<V>(r: Reader<V>, args: seq<string>, i: nat, end: nat)
    requires i <= |args| && end == LabelsAt(r, args, i)
    ensures end <= |args|
    ensures Keywords(r, args[..end], i) == BeforeLabels(Keywords(r, args, i))
    decreases |args| - i
  {
    LabelsPosition(r, args, i);
    if i < |args| && !r.token(args[i]).Labels? {
      var t := r.token(args[i]);
      var next := i + 1 + Operands(t);
      assert args[..end][i] == args[i];
      var kws := Keywords(r, args, i);
      assert kws[1..] == Keywords(r, args, next);
      if next <= |args| {
        WalkUpToLabels(r, args, next, end);
      }
    }
  }

  // -- the parser ---------------------------------------------------------------------------------

  datatype EncodingChoice<V> = Configured | Bare(compressed: bool) | Named(value: V)

  datatype LabelChoice<V> = Unlabelled | Labelled(value: V)

  /** `TimeSeriesOptions`; `shared` holds the options RedisTimeSeries has too, by keyword. */
  datatype Options<V> = Options(
    shared: map<Token, V>,
    encoding: EncodingChoice<V>,
    rounding: Option<V>,
    labels: Option<LabelChoice<V>>)

  /** `first_occurrence_wins_operands` is some */
  predicate IsShared(t: Token) {
    t.Retention? || t.Encoding? || t.ChunkSize? || t.DuplicatePolicy? || t.OnDuplicate? || t.Ignore?
  }

  predicate IsBare(t: Token) { t.Compressed? || t.Uncompressed? }

  predicate IsRounding(t: Token) { t.DecimalDigits? || t.SignificantDigits? }

  /** The keywords the parser has an arm for. */
  predicate IsOption(t: Token) {
    match t
    case ChunkSize | Encoding | Compressed | Uncompressed | DecimalDigits | SignificantDigits
       | DuplicatePolicy | OnDuplicate | Metric | Ignore | Retention => true
    case Labels | Timestamp | OtherToken | Invalid => false
  }

  datatype State<V> = State(options: Options<V>, seen: seq<Token>, metricSet: bool)

  /** An operand, if it is there and means something. */
  function Operand<V>(args: seq<string>, at: nat, f: string -> Option<V>): Option<V> {
    if at < |args| then f(args[at]) else None
  }

  /** What the option at a keyword's place says. */
  function ReadAt<V>(r: Reader<V>, args: seq<string>, kw: Keyword): Option<V> {
    match kw.token
    case ChunkSize => Operand(args, kw.at + 1, r.chunkSize)
    case Encoding => Operand(args, kw.at + 1, r.encoding)
    case DuplicatePolicy => Operand(args, kw.at + 1, r.duplicatePolicy)
    case OnDuplicate => Operand(args, kw.at + 1, r.onDuplicate)
    case Metric => Operand(args, kw.at + 1, r.metric)
    case Retention => Operand(args, kw.at + 1, r.retention)
    case DecimalDigits => Operand(args, kw.at + 1, r.decimalDigits)
    case SignificantDigits => Operand(args, kw.at + 1, r.significantDigits)
    case Ignore =>
      var time, value := Operand(args, kw.at + 1, r.ignoreTime), Operand(args, kw.at + 2, r.ignoreValue);
      if time.Some? && value.Some? then r.ignore(time.value, value.value) else None
    case _ => None
  }

  /** One option stored; the caller has settled that it counts. */
  function Stored<V>(r: Reader<V>, args: seq<string>, s: State<V>, kw: Keyword): Option<State<V>> {
    var o, t := s.options, kw.token;
    var value := ReadAt(r, args, kw);
    if value.None? then None
    else if t.Encoding? then Some(State(Options(o.shared, Named(value.value), o.rounding, o.labels), s.seen, s.metricSet))
    else if IsShared(t) then
      Some(State(Options(o.shared[t := value.value], o.encoding, o.rounding, o.labels), s.seen, s.metricSet))
    else if t.Metric? then
      if s.metricSet then None
      else Some(State(Options(o.shared, o.encoding, o.rounding, Some(Labelled(value.value))), s.seen, true))
    else if t.DecimalDigits? || t.SignificantDigits? then
      if o.rounding.Some? then None
      else Some(State(Options(o.shared, o.encoding, Some(value.value), o.labels), s.seen, s.metricSet))
    else None
  }

  /** One turn of the parser's loop. */
  function Consume<V>(r: Reader<V>, invalid: set<Token>, args: seq<string>, s: State<V>, kw: Keyword): Option<State<V>> {
    var o, t := s.options, kw.token;
    if t in invalid then None
    else if IsShared(t) then
      if t in s.seen then Some(s) else Stored(r, args, State(o, s.seen + [t], s.metricSet), kw)
    else if IsBare(t) then
      if Encoding in s.seen || Compressed in s.seen then Some(s)
      else Some(State(Options(o.shared, Bare(t.Compressed?), o.rounding, o.labels), s.seen + [Compressed], s.metricSet))
    else Stored(r, args, s, kw)
  }

  function ConsumeAll<V>(r: Reader<V>, invalid: set<Token>, args: seq<string>, s: State<V>,
                         kws: seq<Keyword>): Option<State<V>>
    decreases |kws|
  {
    if kws == [] then Some(s)
    else
      var s' := Consume(r, invalid, args, s, kws[0]);
      if s'.None? then None else ConsumeAll(r, invalid, args, s'.value, kws[1..])
  }

  lemma KeywordsStep<V>(r: Reader<V>, args: seq<string>, i: nat)
    requires i < |args|
    ensures var t := r.token(args[i]);
            Keywords(r, args, i)
            == [Keyword(i, t)] + (if t.Labels? then [] else Keywords(r, args, i + 1 + Operands(t)))
  {
  }

  lemma ConsumeAllStep<V>(r: Reader<V>, invalid: set<Token>, args: seq<string>, s: State<V>, kw: Keyword, rest: seq<Keyword>)
    ensures var s' := Consume(r, invalid, args, s, kw);
            ConsumeAll(r, invalid, args, s, [kw] + rest)
            == if s'.None? then None else ConsumeAll(r, invalid, args, s'.value, rest)
  {
    hide Consume;
    assert ([kw] + rest)[1..] == rest;
  }

  lemma LabelsNotConsumed<V>(r: Reader<V>, invalid: set<Token>, args: seq<string>, s: State<V>, kw: Keyword)
    requires kw.token.Labels?
    ensures Consume(r, invalid, args, s, kw).None?
  {
  }

  // -- the arguments as the parser takes them -----------------------------------------------------

  /** `CommandArgIterator` */
  class ArgIterator {
    const args: seq<string>
    var at: nat

    constructor (args: seq<string>, at: nat)
      ensures this.args == args && this.at == at
    {
      this.args, this.at := args, at;
    }

    method Next() returns (arg: Option<string>)
      modifies this
      ensures arg == if old(at) < |args| then Some(args[old(at)]) else None
      ensures at == if old(at) < |args| then old(at) + 1 else old(at)
    {
      if at >= |args| { return None; }
      arg := Some(args[at]);
      at := at + 1;
    }

    /** Skip the operands of a repeat: `break` where the list ends. */
    method Skip(operands: nat)
      modifies this
      ensures old(at) <= |args| ==> at == if old(at) + operands <= |args| then old(at) + operands else |args|
    {
      for i := 0 to operands
        invariant at == old(at) + i && (i > 0 ==> at <= |args|)
      {
        var arg := Next();
        if arg.None? { break; }
      }
    }

    /** An arm that takes one argument and reads it with its own function. */
    method One<V>(f: string -> Option<V>) returns (value: Option<V>)
      modifies this
      ensures value == Operand(args, old(at), f)
      ensures value.Some? ==> at == old(at) + 1
    {
      var arg := Next();
      if arg.None? { return None; }
      value := f(arg.value);
    }

    /** `parse_ignore_options`: the first operand is read before the second is taken. */
    method IgnoreOperands<V>(r: Reader<V>) returns (value: Option<V>)
      modifies this
      ensures old(at) > 0 ==> value == ReadAt(r, args, Keyword(old(at) - 1, Ignore))
      ensures value.Some? ==> at == old(at) + 2
    {
      var first := Next();
      if first.None? { return None; }
      var time := r.ignoreTime(first.value);
      if time.None? { return None; }
      var second := Next();
      if second.None? { return None; }
      var diff := r.ignoreValue(second.value);
      if diff.None? { return None; }
      value := r.ignore(time.value, diff.value);
    }

    /** The arms of the parser's `match`: each takes what it takes. */
    method Take<V>(r: Reader<V>, t: Token) returns (value: Option<V>)
      requires at > 0
      modifies this
      ensures value == ReadAt(r, args, Keyword(old(at) - 1, t))
      ensures value.Some? ==> at == old(at) + Operands(t)
    {
      match t
      case ChunkSize => value := One(r.chunkSize);
      case Encoding => value := One(r.encoding);
      case DecimalDigits => value := One(r.decimalDigits);
      case DuplicatePolicy => value := One(r.duplicatePolicy);
      case OnDuplicate => value := One(r.onDuplicate);
      case Metric => value := One(r.metric);
      case Ignore => value := IgnoreOperands(r);
      case Retention => value := One(r.retention);
      case SignificantDigits => value := One(r.significantDigits);
      case _ => value := None;
    }
  }

  /** The walk is over as soon as it has left the list. */
  lemma KeywordsPastEnd<V>(r: Reader<V>, args: seq<string>, i: nat, j: nat)
    requires i == j || (i >= |args| && j >= |args|)
    ensures Keywords(r, args, i) == Keywords(r, args, j)
  {
  }

  /**
   * One turn of the parser's loop: the state it leaves, and where it leaves the iterator, which is
   * where the walk steps to, or both are past the end.
   */
  method Turn<V>(r: Reader<V>, invalid: set<Token>, it: ArgIterator, s: State<V>, t: Token)
    returns (next: Option<State<V>>)
    requires 0 < it.at <= |it.args|
    modifies it
    ensures next == Consume(r, invalid, it.args, s, Keyword(old(it.at) - 1, t))
    ensures next.Some? ==>
              && old(it.at) <= it.at <= |it.args|
              && (it.at == old(it.at) + Operands(t) || it.at == |it.args| < old(it.at) + Operands(t))
  {
    hide ReadAt;
    if t in invalid { return None; }
    var o, seen := s.options, s.seen;
    if IsShared(t) {
      if t in seen {
        it.Skip(Operands(t));
        return Some(s);
      }
      seen := seen + [t];
    }
    if IsBare(t) {
      if Encoding in seen || Compressed in seen { return Some(s); }
      seen := seen + [Compressed];
      return Some(State(Options(o.shared, Bare(t.Compressed?), o.rounding, o.labels), seen, s.metricSet));
    }
    if IsRounding(t) && o.rounding.Some? { return None; }
    if t.Metric? && s.metricSet { return None; }
    ghost var before := it.at;
    var value := it.Take(r, t);
    if value.None? { return None; }
    TakenIsOption(r, it.args, Keyword(before - 1, t));
    var options :=
      if t.Encoding? then Options(o.shared, Named(value.value), o.rounding, o.labels)
      else if t.Metric? then Options(o.shared, o.encoding, o.rounding, Some(Labelled(value.value)))
      else if IsRounding(t) then Options(o.shared, o.encoding, Some(value.value), o.labels)
      else Options(o.shared[t := value.value], o.encoding, o.rounding, o.labels);
    next := Some(State(options, seen, s.metricSet || t.Metric?));
    TakenInside(r, it.args, Keyword(before - 1, t));
  }

  lemma TakenIsOption<V>(r: Reader<V>, args: seq<string>, kw: Keyword)
    requires ReadAt(r, args, kw).Some?
    ensures IsShared(kw.token) || IsRounding(kw.token) || kw.token.Metric?
  {
  }

  /** What could be read was there. */
  lemma TakenInside<V>(r: Reader<V>, args: seq<string>, kw: Keyword)
    requires ReadAt(r, args, kw).Some?
    ensures kw.at + 1 + Operands(kw.token) <= |args|
  {
  }

  /** The parser's loop, over the arguments in front of LABELS. */
  method ParseOptions<V>(r: Reader<V>, base: State<V>, args: seq<string>, start: nat, invalid: set<Token>)
    returns (result: Option<State<V>>, ghost keywordsRead: seq<Keyword>)
    ensures result == ConsumeAll(r, invalid, args, base, Keywords(r, args, start))
    ensures result.Some? ==> keywordsRead == Keywords(r, args, start)
  {
    hide Consume, Keywords, ConsumeAll;
    var s := base;
    var it := new ArgIterator(args, start);
    keywordsRead := [];
    ghost var all := Keywords(r, args, start);
    while true
      invariant it.args == args
      invariant keywordsRead + Keywords(r, args, it.at) == all
      invariant ConsumeAll(r, invalid, args, s, Keywords(r, args, it.at)) == ConsumeAll(r, invalid, args, base, all)
      decreases |args| - it.at
    {
      var i := it.at;
      var arg := it.Next();
      if arg.None? { break; }
      var t := r.token(arg.value);
      ghost var kw := Keyword(i, t);
      ghost var rest := if t.Labels? then [] else Keywords(r, args, i + 1 + Operands(t));
      KeywordsStep(r, args, i);
      ConsumeAllStep(r, invalid, args, s, kw, rest);
      if t.Labels? { LabelsNotConsumed(r, invalid, args, s, kw); }
      keywordsRead := keywordsRead + [kw];
      var s' := Turn(r, invalid, it, s, t);
      if s'.None? { return None, keywordsRead; }
      s := s'.value;
      KeywordsPastEnd(r, args, it.at, i + 1 + Operands(t));
    }
    NoKeywords(r, args, it.at);
    result := Some(s);
  }

  lemma NoKeywords<V>(r: Reader<V>, args: seq<string>, i: nat)
    requires i >= |args|
    ensures Keywords(r, args, i) == []
    ensures forall invalid, s :: ConsumeAll(r, invalid, args, s, []) == Some(s)
  {
  }

  /** The arguments in front of LABELS. */
  function OptionArgs<V>(r: Reader<V>, args: seq<string>, start: nat): seq<string>
    requires start <= |args|
  {
    LabelsPosition(r, args, start);
    args[..LabelsAt(r, args, start)]
  }

  /** The arguments from LABELS on, if there are any. */
  function LabelSection<V>(r: Reader<V>, args: seq<string>, start: nat): Option<seq<string>>
    requires start <= |args|
  {
    LabelsPosition(r, args, start);
    var kws := Keywords(r, args, start);
    if |BeforeLabels(kws)| < |kws| then Some(args[LabelsAt(r, args, start)..]) else None
  }

  /** LABELS and its list, or an explicit empty list when nothing follows it. */
  function WithLabels<V>(r: Reader<V>, base: Options<V>, section: Option<seq<string>>): Option<Options<V>> {
    if section.None? then Some(base)
    else if |section.value| > 1 then
      var value := r.labels(section.value[1..]);
      if value.None? then None
      else Some(Options(base.shared, base.encoding, base.rounding, Some(Labelled(value.value))))
    else Some(Options(base.shared, base.encoding, base.rounding, Some(Unlabelled)))
  }

  // -- how repeats resolve ----------------------------------------------------------------------

  function First(kws: seq<Keyword>, t: Token): (r: Option<Keyword>)
    ensures r.Some? ==> r.value in kws && r.value.token == t
    ensures r.None? ==> forall i :: 0 <= i < |kws| ==> kws[i].token != t
  {
    if kws == [] then None else if kws[0].token == t then Some(kws[0]) else First(kws[1..], t)
  }

  function FirstBare(kws: seq<Keyword>): (r: Option<Keyword>)
    ensures r.Some? ==> r.value in kws && IsBare(r.value.token)
    ensures r.None? ==> forall i :: 0 <= i < |kws| ==> !IsBare(kws[i].token)
  {
    if kws == [] then None else if IsBare(kws[0].token) then Some(kws[0]) else FirstBare(kws[1..])
  }

  ghost predicate SameAt<V>(a: map<Token, V>, b: map<Token, V>, t: Token) {
    (t in a <==> t in b) && (t in a ==> a[t] == b[t])
  }

  /** What one successful turn does to a shared option. */
  lemma SharedStep<V>(r: Reader<V>, invalid: set<Token>, args: seq<string>, s: State<V>, kw: Keyword, t: Token)
    requires IsShared(t) && Consume(r, invalid, args, s, kw).Some?
    ensures var s' := Consume(r, invalid, args, s, kw).value;
            && (t in s'.seen <==> t in s.seen || kw.token == t)
            && (t in s.seen || kw.token != t ==> SameAt(s'.options.shared, s.options.shared, t))
            && (t !in s.seen && kw.token == t && !t.Encoding? ==>
                  && ReadAt(r, args, kw).Some?
                  && t in s'.options.shared && s'.options.shared[t] == ReadAt(r, args, kw).value)
  {
    hide ReadAt;
  }

  lemma {:induction false} SharedFirstWins<V>(r: Reader<V>, invalid: set<Token>, args: seq<string>, s: State<V>,
                                              kws: seq<Keyword>, t: Token)
    requires IsShared(t) && !t.Encoding? && ConsumeAll(r, invalid, args, s, kws).Some?
    ensures var after, first := ConsumeAll(r, invalid, args, s, kws).value.options.shared, First(kws, t);
            && (t in s.seen || first.None? ==> SameAt(after, s.options.shared, t))
            && (t !in s.seen && first.Some? ==>
                  && ReadAt(r, args, first.value).Some?
                  && t in after && after[t] == ReadAt(r, args, first.value).value)
    decreases |kws|
  {
    hide ReadAt, Consume;
    if kws != [] {
      var s' := Consume(r, invalid, args, s, kws[0]).value;
      SharedStep(r, invalid, args, s, kws[0], t);
      SharedFirstWins(r, invalid, args, s', kws[1..], t);
    }
  }

  /** What one successful turn does to the encoding. */
  lemma EncodingStep<V>(r: Reader<V>, invalid: set<Token>, args: seq<string>, s: State<V>, kw: Keyword)
    requires Consume(r, invalid, args, s, kw).Some?
    ensures var s' := Consume(r, invalid, args, s, kw).value;
            && (Encoding in s'.seen <==> Encoding in s.seen || kw.token.Encoding?)
            && (Encoding !in s.seen ==> (Compressed in s'.seen <==> Compressed in s.seen || IsBare(kw.token)))
            && (Encoding !in s.seen && kw.token.Encoding? ==> ReadAt(r, args, kw).Some?)
            && s'.options.encoding == (
                 if Encoding in s.seen then s.options.encoding
                 else if kw.token.Encoding? then Named(ReadAt(r, args, kw).value)
                 else if IsBare(kw.token) && Compressed !in s.seen then Bare(kw.token.Compressed?)
                 else s.options.encoding)
  {
    hide ReadAt;
  }

  /** An explicit ENCODING decides wherever it stands; bare keywords only without one, first first. */
  lemma {:induction false} ExplicitEncodingWins<V>(r: Reader<V>, invalid: set<Token>, args: seq<string>, s: State<V>,
                                                   kws: seq<Keyword>)
    requires ConsumeAll(r, invalid, args, s, kws).Some?
    ensures var after := ConsumeAll(r, invalid, args, s, kws).value.options.encoding;
            var named, bare := First(kws, Encoding), FirstBare(kws);
            if Encoding in s.seen then after == s.options.encoding
            else if named.Some? then ReadAt(r, args, named.value).Some? && after == Named(ReadAt(r, args, named.value).value)
            else if bare.Some? && Compressed !in s.seen then after == Bare(bare.value.token.Compressed?)
            else after == s.options.encoding
    decreases |kws|
  {
    hide ReadAt, Consume;
    if kws != [] {
      var s' := Consume(r, invalid, args, s, kws[0]).value;
      EncodingStep(r, invalid, args, s, kws[0]);
      ExplicitEncodingWins(r, invalid, args, s', kws[1..]);
    }
  }

  /** What one successful turn does to the labels and the rounding. */
  lemma ExtrasStep<V>(r: Reader<V>, invalid: set<Token>, args: seq<string>, s: State<V>, kw: Keyword)
    requires Consume(r, invalid, args, s, kw).Some?
    ensures var s' := Consume(r, invalid, args, s, kw).value;
            && s'.metricSet == (s.metricSet || kw.token.Metric?)
            && (kw.token.Metric? ==>
                  !s.metricSet && ReadAt(r, args, kw).Some?
                  && s'.options.labels == Some(Labelled(ReadAt(r, args, kw).value)))
            && (!kw.token.Metric? ==> s'.options.labels == s.options.labels)
            && (kw.token.DecimalDigits? || kw.token.SignificantDigits? ==>
                  s.options.rounding.None? && ReadAt(r, args, kw).Some? && s'.options.rounding == ReadAt(r, args, kw))
            && (!kw.token.DecimalDigits? && !kw.token.SignificantDigits? ==> s'.options.rounding == s.options.rounding)
  {
    hide ReadAt;
  }

  function FirstRounding(kws: seq<Keyword>): (r: Option<Keyword>)
    ensures r.Some? ==> r.value in kws && (r.value.token.DecimalDigits? || r.value.token.SignificantDigits?)
    ensures r.None? ==> forall i :: 0 <= i < |kws| ==> !kws[i].token.DecimalDigits? && !kws[i].token.SignificantDigits?
  {
    if kws == [] then None
    else if kws[0].token.DecimalDigits? || kws[0].token.SignificantDigits? then Some(kws[0])
    else FirstRounding(kws[1..])
  }

  /** METRIC names the labels unless LABELS did, and the one rounding keyword gives the rounding. */
  lemma {:induction false} ExtrasResolve<V>(r: Reader<V>, invalid: set<Token>, args: seq<string>, s: State<V>,
                                            kws: seq<Keyword>)
    requires ConsumeAll(r, invalid, args, s, kws).Some?
    ensures var o := ConsumeAll(r, invalid, args, s, kws).value.options;
            var metric, rounding := First(kws, Metric), FirstRounding(kws);
            && (metric.Some? ==>
                  !s.metricSet && ReadAt(r, args, metric.value).Some?
                  && o.labels == Some(Labelled(ReadAt(r, args, metric.value).value)))
            && (metric.None? ==> o.labels == s.options.labels)
            && (rounding.Some? ==>
                  s.options.rounding.None? && ReadAt(r, args, rounding.value).Some?
                  && o.rounding == ReadAt(r, args, rounding.value))
            && (rounding.None? ==> o.rounding == s.options.rounding)
    decreases |kws|
  {
    hide ReadAt, Consume;
    if kws != [] {
      var s' := Consume(r, invalid, args, s, kws[0]).value;
      ExtrasStep(r, invalid, args, s, kws[0]);
      ExtrasResolve(r, invalid, args, s', kws[1..]);
    }
  }

  /** Options hold what their keyword says, the shared ones what the first one says, or the base's value. */
  ghost predicate Resolves<V>(r: Reader<V>, base: Options<V>, args: seq<string>, kws: seq<Keyword>, o: Options<V>) {
    && (forall t :: t in {ChunkSize, DuplicatePolicy, OnDuplicate, Ignore, Retention} ==>
          if First(kws, t).None? then SameAt(o.shared, base.shared, t)
          else t in o.shared && ReadAt(r, args, First(kws, t).value) == Some(o.shared[t]))
    && (var named, bare := First(kws, Encoding), FirstBare(kws);
        if named.Some? then o.encoding.Named? && ReadAt(r, args, named.value) == Some(o.encoding.value)
        else if bare.Some? then o.encoding == Bare(bare.value.token.Compressed?)
        else o.encoding == base.encoding)
    && (var rounding := FirstRounding(kws);
        if rounding.Some? then o.rounding.Some? && ReadAt(r, args, rounding.value) == o.rounding
        else o.rounding == base.rounding)
  }

  lemma Resolution<V>(r: Reader<V>, invalid: set<Token>, args: seq<string>, s: State<V>, kws: seq<Keyword>, after: State<V>)
    requires s.seen == [] && ConsumeAll(r, invalid, args, s, kws) == Some(after)
    ensures Resolves(r, s.options, args, kws, after.options)
  {
    hide ReadAt, ConsumeAll;
    forall t | t in {ChunkSize, DuplicatePolicy, OnDuplicate, Ignore, Retention}
      ensures if First(kws, t).None? then SameAt(after.options.shared, s.options.shared, t)
              else t in after.options.shared && ReadAt(r, args, First(kws, t).value) == Some(after.options.shared[t])
    {
      SharedFirstWins(r, invalid, args, s, kws, t);
    }
    ExplicitEncodingWins(r, invalid, args, s, kws);
    ExtrasResolve(r, invalid, args, s, kws);
  }

  /** The walk ended at LABELS: what stands behind that keyword is the label list. */
  predicate EndsAtLabels(kws: seq<Keyword>) { kws != [] && kws[|kws| - 1].token.Labels? }

  lemma {:induction false} LabelsLast<V>(r: Reader<V>, args: seq<string>, i: nat)
    ensures var kws := Keywords(r, args, i);
            && (EndsAtLabels(kws) <==> |BeforeLabels(kws)| < |kws|)
            && (EndsAtLabels(kws) ==> |BeforeLabels(kws)| == |kws| - 1 && kws[|kws| - 1].at < |args|)
    decreases |args| - i
  {
    if i < |args| {
      var t := r.token(args[i]);
      if !t.Labels? {
        LabelsLast(r, args, i + 1 + Operands(t));
        assert Keywords(r, args, i)[1..] == Keywords(r, args, i + 1 + Operands(t));
      }
    }
  }

  /**
   * The labels: what stands behind LABELS, explicitly none when nothing does, and then METRIC is not
   * given too; otherwise what METRIC says, or the base's.
   */
  ghost predicate LabelsResolve<V>(r: Reader<V>, base: Options<V>, args: seq<string>, kws: seq<Keyword>, o: Options<V>)
    requires EndsAtLabels(kws) ==> kws[|kws| - 1].at < |args|
  {
    var metric := First(kws, Metric);
    if EndsAtLabels(kws) then
      var behind := args[kws[|kws| - 1].at + 1..];
      && metric.None? && o.labels.Some?
      && if behind == [] then o.labels.value.Unlabelled?
         else o.labels.value.Labelled? && r.labels(behind) == Some(o.labels.value.value)
    else if metric.Some? then
      o.labels.Some? && o.labels.value.Labelled? && ReadAt(r, args, metric.value) == Some(o.labels.value.value)
    else o.labels == base.labels
  }

  lemma {:induction false} FirstBeforeLabels(kws: seq<Keyword>, t: Token)
    requires EndsAtLabels(kws) ==> |BeforeLabels(kws)| == |kws| - 1
    requires !EndsAtLabels(kws) ==> BeforeLabels(kws) == kws
    requires !t.Labels?
    ensures First(BeforeLabels(kws), t) == First(kws, t)
  {
    if kws != [] && !kws[0].token.Labels? { FirstBeforeLabels(kws[1..], t); }
  }

  lemma LabelsResolution<V>(r: Reader<V>, invalid: set<Token>, base: Options<V>, args: seq<string>, start: nat,
                            after: State<V>)
    requires start <= |args|
    requires var section := LabelSection(r, args, start); var labels := WithLabels(r, base, section);
             && labels.Some?
             && ConsumeAll(r, invalid, OptionArgs(r, args, start), State(labels.value, [], section.Some?),
                           BeforeLabels(Keywords(r, args, start))) == Some(after)
    ensures var kws := Keywords(r, args, start);
            && (EndsAtLabels(kws) ==> kws[|kws| - 1].at < |args|)
            && LabelsResolve(r, base, args, kws, after.options)
  {
    hide Keywords, ConsumeAll, ReadAt;
    var section, kws := LabelSection(r, args, start), Keywords(r, args, start);
    var s := State(WithLabels(r, base, section).value, [], section.Some?);
    LabelsLast(r, args, start);
    LabelsPosition(r, args, start);
    FirstBeforeLabels(kws, Metric);
    ExtrasResolve(r, invalid, OptionArgs(r, args, start), s, BeforeLabels(kws));
    if EndsAtLabels(kws) {
      var at := kws[|kws| - 1].at;
      assert args[at..][1..] == args[at + 1..];
    } else {
      assert args[..|args|] == args;
    }
  }

  /**
   * `parse_series_options_onto`: the parser reads exactly the keywords the walk yields in front of
   * LABELS, and each option holds what its keyword says, or the base's value.
   */
  method ParseSeriesOptions<V>(r: Reader<V>, base: Options<V>, args: seq<string>, start: nat, invalid: set<Token>)
    returns (result: Option<Options<V>>, ghost keywordsRead: seq<Keyword>)
    requires start <= |args|
    ensures result.Some? ==> keywordsRead == BeforeLabels(Keywords(r, args, start))
    ensures var kws := Keywords(r, args, start);
            EndsAtLabels(kws) ==> kws[|kws| - 1].at < |args|
    ensures result.Some? ==> Resolves(r, base, OptionArgs(r, args, start), keywordsRead, result.value)
    ensures result.Some? ==> LabelsResolve(r, base, args, Keywords(r, args, start), result.value)
    ensures result.Some? <==> Acceptable(r, invalid, base, args, start)
    ensures var section, kws := LabelSection(r, args, start), BeforeLabels(Keywords(r, args, start));
            var labels := WithLabels(r, base, section);
            result == if labels.None? then None
                      else
                        var s := ConsumeAll(r, invalid, OptionArgs(r, args, start),
                                            State(labels.value, [], section.Some?), kws);
                        if s.None? then None else Some(s.value.options)
  {
    hide ConsumeAll, LabelsResolve, Acceptable;
    LabelsPosition(r, args, start);
    LabelsLast(r, args, start);
    var kws := SeriesOptionKeywords(r, args, start);
    var n := |BeforeLabels(kws)|;
    var end := if n < |kws| then kws[n].at else |args|;
    WalkUpToLabels(r, args, start, end);
    var section := if n < |kws| then Some(args[end..]) else None;
    var labels := WithLabels(r, base, section);
    AcceptableIff(r, invalid, base, args, start);
    if labels.None? { return None, []; }
    var s;
    s, keywordsRead := ParseOptions(r, State(labels.value, [], section.Some?), args[..end], start, invalid);
    result := if s.None? then None else Some(s.value.options);
    if s.Some? {
      Resolution(r, invalid, args[..end], State(labels.value, [], section.Some?), keywordsRead, s.value);
      LabelsResolution(r, invalid, base, args, start, s.value);
    }
  }

  // -- which lists are accepted ---------------------------------------------------------------------

  /** Whether a keyword's operands are looked at: a repeat of a shared option's are not. */
  predicate Counts<V>(s: State<V>, kws: seq<Keyword>, i: nat)
    requires i < |kws|
  {
    !IsBare(kws[i].token)
    && (IsShared(kws[i].token) ==>
          kws[i].token !in s.seen && forall j :: 0 <= j < i ==> kws[j].token != kws[i].token)
  }

  /** Keyword `i` is one the parser knows and allows, with operands it can read if they count. */
  predicate Fine<V>(r: Reader<V>, invalid: set<Token>, args: seq<string>, s: State<V>, kws: seq<Keyword>, i: nat)
    requires i < |kws|
  {
    var t := kws[i].token;
    && t !in invalid && IsOption(t)
    && (Counts(s, kws, i) ==> ReadAt(r, args, kws[i]).Some?)
    && (t.Metric? ==> !s.metricSet && forall j :: 0 <= j < i ==> !kws[j].token.Metric?)
    && (IsRounding(t) ==> s.options.rounding.None? && forall j :: 0 <= j < i ==> !IsRounding(kws[j].token))
  }

  /** A list is accepted exactly when every keyword in it is fine. */
  lemma {:induction false} AcceptedIff<V>(r: Reader<V>, invalid: set<Token>, args: seq<string>, s: State<V>,
                                          kws: seq<Keyword>)
    ensures ConsumeAll(r, invalid, args, s, kws).Some?
            <==> forall i :: 0 <= i < |kws| ==> Fine(r, invalid, args, s, kws, i)
    decreases |kws|
  {
    hide ReadAt, Consume, Fine;
    if kws != [] {
      FirstFine(r, invalid, args, s, kws);
      var s' := Consume(r, invalid, args, s, kws[0]);
      if s'.Some? {
        var rest := kws[1..];
        AcceptedIff(r, invalid, args, s'.value, rest);
        forall i | 0 < i < |kws|
          ensures Fine(r, invalid, args, s, kws, i) <==> Fine(r, invalid, args, s'.value, rest, i - 1)
        {
          LaterFine(r, invalid, args, s, kws, i);
        }
        if forall i :: 0 <= i < |rest| ==> Fine(r, invalid, args, s'.value, rest, i) {
          forall i | 0 <= i < |kws|
            ensures Fine(r, invalid, args, s, kws, i)
          {
            if i > 0 { assert Fine(r, invalid, args, s'.value, rest, i - 1); }
          }
        }
        if forall i :: 0 <= i < |kws| ==> Fine(r, invalid, args, s, kws, i) {
          forall i | 0 <= i < |rest|
            ensures Fine(r, invalid, args, s'.value, rest, i)
          {
            assert Fine(r, invalid, args, s, kws, i + 1);
          }
        }
      }
    }
  }

  /** The label list, if there is one, can be read, and every keyword in front of it is fine. */
  ghost predicate Acceptable<V>(r: Reader<V>, invalid: set<Token>, base: Options<V>, args: seq<string>, start: nat)
    requires start <= |args|
  {
    var all := Keywords(r, args, start);
    var kws := BeforeLabels(all);
    && (EndsAtLabels(all) && all[|all| - 1].at + 1 < |args| ==> r.labels(args[all[|all| - 1].at + 1..]).Some?)
    && forall i :: 0 <= i < |kws| ==>
         Fine(r, invalid, OptionArgs(r, args, start), State(base, [], EndsAtLabels(all)), kws, i)
  }

  lemma AcceptableIff<V>(r: Reader<V>, invalid: set<Token>, base: Options<V>, args: seq<string>, start: nat)
    requires start <= |args|
    ensures var section := LabelSection(r, args, start); var labels := WithLabels(r, base, section);
            Acceptable(r, invalid, base, args, start) <==>
              && labels.Some?
              && ConsumeAll(r, invalid, OptionArgs(r, args, start), State(labels.value, [], section.Some?),
                            BeforeLabels(Keywords(r, args, start))).Some?
  {
    hide Keywords, ConsumeAll, Fine;
    var section, all := LabelSection(r, args, start), Keywords(r, args, start);
    var labels, front := WithLabels(r, base, section), OptionArgs(r, args, start);
    LabelsLast(r, args, start);
    LabelsPosition(r, args, start);
    if EndsAtLabels(all) {
      var at := all[|all| - 1].at;
      assert args[at..][1..] == args[at + 1..];
    }
    if labels.Some? {
      var s := State(labels.value, [], section.Some?);
      AcceptedIff(r, invalid, front, s, BeforeLabels(all));
      forall i | 0 <= i < |BeforeLabels(all)|
        ensures Fine(r, invalid, front, s, BeforeLabels(all), i)
                <==> Fine(r, invalid, front, State(base, [], EndsAtLabels(all)), BeforeLabels(all), i)
      {
        FineWithout(r, invalid, front, s, State(base, [], EndsAtLabels(all)), BeforeLabels(all), i);
      }
    }
  }

  lemma FineWithout<V>(r: Reader<V>, invalid: set<Token>, args: seq<string>, s: State<V>, s': State<V>,
                       kws: seq<Keyword>, i: nat)
    requires i < |kws| && s.seen == s'.seen && s.metricSet == s'.metricSet && s.options.rounding == s'.options.rounding
    ensures Fine(r, invalid, args, s, kws, i) <==> Fine(r, invalid, args, s', kws, i)
  {
    hide ReadAt;
  }

  lemma FirstFine<V>(r: Reader<V>, invalid: set<Token>, args: seq<string>, s: State<V>, kws: seq<Keyword>)
    requires kws != []
    ensures Consume(r, invalid, args, s, kws[0]).Some? <==> Fine(r, invalid, args, s, kws, 0)
  {
    hide ReadAt;
  }

  lemma LaterFine<V>(r: Reader<V>, invalid: set<Token>, args: seq<string>, s: State<V>, kws: seq<Keyword>, i: nat)
    requires 0 < i < |kws| && Consume(r, invalid, args, s, kws[0]).Some?
    ensures Fine(r, invalid, args, s, kws, i)
            <==> Fine(r, invalid, args, Consume(r, invalid, args, s, kws[0]).value, kws[1..], i - 1)
  {
    hide ReadAt;
    var s' := Consume(r, invalid, args, s, kws[0]).value;
    var t := kws[i].token;
    if IsShared(t) { SharedStep(r, invalid, args, s, kws[0], t); }
    assert forall j :: 0 < j < |kws| ==> kws[1..][j - 1] == kws[j];
    assert s'.metricSet <==> s.metricSet || kws[0].token.Metric?;
    assert s'.options.rounding.None? <==> s.options.rounding.None? && !IsRounding(kws[0].token);
  }
}
