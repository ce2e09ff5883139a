/**
 * `TS.INCRBY` / `TS.DECRBY` (`src/commands/ts_incr_decr_by.rs`): the TIMESTAMP option is taken out
 * of the argument list, and put back in a fixed place for replicas.
 */
module IncrBy {
  import opened Values
  import opened SeriesOptions

  const FIRST_OPTION_INDEX: nat := 3

  datatype Outcome = NoTimestamp | Timestamped(ts: int) | MissingValue | InvalidTimestamp

  /** The first TIMESTAMP keyword of the option region, in front of LABELS. */
  function FindTimestamp<V>(r: Reader<V>, args: seq<string>, i: nat): Option<Keyword> {
    First(BeforeLabels(Keywords(r, args, i)), Timestamp)
  }

  lemma FindStep<V>(r: Reader<V>, args: seq<string>, i: nat)
    ensures i >= |args| ==> FindTimestamp(r, args, i).None?
    ensures i < |args| ==>
              var t := r.token(args[i]);
              FindTimestamp(r, args, i)
              == if t.Labels? then None
                 else if t.Timestamp? then Some(Keyword(i, t))
                 else FindTimestamp(r, args, i + 1 + Operands(t))
  {
    if i < |args| {
      KeywordsStep(r, args, i);
      var kws := Keywords(r, args, i);
      var t := r.token(args[i]);
      if !t.Labels? { assert kws[1..] == Keywords(r, args, i + 1 + Operands(t)); }
      var before := BeforeLabels(kws);
      if before != [] { assert before[1..] == BeforeLabels(kws[1..]); }
    }
  }

  function WithoutPair(args: seq<string>, p: nat): seq<string>
    requires p + 2 <= |args|
  {
    args[..p] + args[p + 2..]
  }

  /** What stripping leaves, and what it found. */
  function Strip<V>(r: Reader<V>, readTs: string -> Option<int>, args: seq<string>): (seq<string>, Outcome) {
    var found := FindTimestamp(r, args, FIRST_OPTION_INDEX);
    if found.None? then (args, NoTimestamp)
    else if found.value.at + 2 > |args| then (args, MissingValue)
    else
      var ts := readTs(args[found.value.at + 1]);
      (WithoutPair(args, found.value.at), if ts.Some? then Timestamped(ts.value) else InvalidTimestamp)
  }

  /** The argument vector, edited in place. */
  class Arguments {
    var args: seq<string>

    constructor (args: seq<string>)
      ensures this.args == args
    {
      this.args := args;
    }

    method Remove(i: nat) returns (removed: string)
      requires i < |args|
      modifies this
      ensures removed == old(args)[i] && args == old(args)[..i] + old(args)[i + 1..]
    {
      removed := args[i];
      args := args[..i] + args[i + 1..];
    }

    /** `handle_parse_timestamp` */
    method HandleParseTimestamp<V>(r: Reader<V>, readTs: string -> Option<int>) returns (outcome: Outcome)
      modifies this
      ensures (args, outcome) == Strip(r, readTs, old(args))
    {
      hide FindTimestamp;
      var index: nat := FIRST_OPTION_INDEX;
      var found := false;
      FindStep(r, args, index);
      while index < |args| && !found
        invariant args == old(args)
        invariant FindTimestamp(r, args, index) == FindTimestamp(r, args, FIRST_OPTION_INDEX)
        invariant found ==> index < |args| && FindTimestamp(r, args, index) == Some(Keyword(index, Timestamp))
        decreases !found, |args| - index
      {
        FindStep(r, args, index);
        var t := r.token(args[index]);
        if t.Labels? { return NoTimestamp; }
        if t.Timestamp? {
          found := true;
        } else {
          index := index + 1 + Operands(t);
        }
      }
      FindStep(r, args, index);
      if !found { return NoTimestamp; }
      if index + 1 >= |args| { return MissingValue; }
      var keyword := Remove(index);
      var text := Remove(index);
      assert args == WithoutPair(old(args), index);
      var ts := readTs(text);
      outcome := if ts.Some? then Timestamped(ts.value) else InvalidTimestamp;
    }
  }

  // -- what stripping does to the walk -------------------------------------------------------------

  /** The same keywords two places earlier. */
  function Earlier(kws: seq<Keyword>): seq<Keyword> {
    seq(|kws|, i requires 0 <= i < |kws| => Keyword(if kws[i].at < 2 then 0 else kws[i].at - 2, kws[i].token))
  }

  lemma {:induction false} KeywordsFrom<V>(r: Reader<V>, args: seq<string>, i: nat)
    ensures forall k :: 0 <= k < |Keywords(r, args, i)| ==> Keywords(r, args, i)[k].at >= i
    decreases |args| - i
  {
    if i < |args| {
      var t := r.token(args[i]);
      if !t.Labels? { KeywordsFrom(r, args, i + 1 + Operands(t)); }
    }
  }

  /** Behind the gap the walk goes on as before. */
  lemma {:induction false} WalkBehind<V>(r: Reader<V>, args: seq<string>, p: nat, i: nat)
    requires p + 2 <= |args| && p <= i
    ensures Keywords(r, WithoutPair(args, p), i) == Earlier(Keywords(r, args, i + 2))
    decreases |args| - i
  {
    var short := WithoutPair(args, p);
    if i < |short| {
      assert short[i] == args[i + 2];
      var t := r.token(short[i]);
      if !t.Labels? {
        var next := i + 1 + Operands(t);
        WalkBehind(r, args, p, next);
        var kws, rest := Keywords(r, args, i + 2), Keywords(r, args, next + 2);
        assert kws == [Keyword(i + 2, t)] + rest;
        assert Earlier(kws) == [Keyword(i, t)] + Earlier(rest);
      }
    }
  }

  /** Stripping the TIMESTAMP at `p` takes that keyword out of the walk and nothing else. */
  lemma {:induction false} StripLeavesWalk<V>(r: Reader<V>, args: seq<string>, i: nat, p: nat) returns (n: nat)
    requires FindTimestamp(r, args, i) == Some(Keyword(p, Timestamp)) && p + 2 <= |args|
    ensures i <= p
    ensures n < |Keywords(r, args, i)| && Keywords(r, args, i)[n] == Keyword(p, Timestamp)
    ensures Keywords(r, WithoutPair(args, p), i)
            == Keywords(r, args, i)[..n] + Earlier(Keywords(r, args, i)[n + 1..])
    decreases |args| - i
  {
    hide FindTimestamp, Keywords, Earlier, WithoutPair;
    FindStep(r, args, i);
    KeywordsStep(r, args, i);
    var t := r.token(args[i]);
    var kws := Keywords(r, args, i);
    if t.Timestamp? {
      n := 0;
      WalkBehind(r, args, p, p);
      assert kws[1..] == Keywords(r, args, p + 2);
      assert kws[..0] == [];
    } else {
      var next := i + 1 + Operands(t);
      var n' := StripLeavesWalk(r, args, next, p);
      n := n' + 1;
      ConsSplit(kws[0], Keywords(r, args, next), n');
      SameInFront(args, p, i);
      KeywordsStep(r, WithoutPair(args, p), i);
    }
  }

  lemma ConsSplit(k: Keyword, rest: seq<Keyword>, n: nat)
    requires n < |rest|
    ensures var kws := [k] + rest;
            kws[n + 1] == rest[n] && kws[..n + 1] == [k] + rest[..n] && kws[n + 2..] == rest[n + 1..]
  {
  }

  lemma SameInFront(args: seq<string>, p: nat, i: nat)
    requires i < p && p + 2 <= |args|
    ensures i < |WithoutPair(args, p)| && WithoutPair(args, p)[i] == args[i]
  {
  }

  // -- replication ------------------------------------------------------------------------------

  /** `replicate_and_notify`'s argument list, behind the command name. */
  function Replicated(command: string, stripped: seq<string>, timestampText: string): seq<string>
    requires |stripped| >= FIRST_OPTION_INDEX
  {
    [command, stripped[1], stripped[2], "TIMESTAMP", timestampText] + stripped[3..]
  }

  /**
   * A replica strips what the primary inserted: it recovers the timestamp the primary used, the
   * same key and delta, and the same options, a second TIMESTAMP the primary left in included.
   */
  lemma ReplicationRoundTrip<V>(r: Reader<V>, readTs: string -> Option<int>, show: int -> string, command: string,
                                args: seq<string>, ts: int)
    requires |args| >= FIRST_OPTION_INDEX && r.token("TIMESTAMP").Timestamp?
    requires readTs(show(ts)) == Some(ts)
    ensures |Strip(r, readTs, args).0| >= FIRST_OPTION_INDEX
    ensures var stripped := Strip(r, readTs, args).0;
            var (again, outcome) := Strip(r, readTs, Replicated(command, stripped, show(ts)));
            outcome == Timestamped(ts) && again == [command] + stripped[1..]
  {
    hide FindTimestamp;
    FoundBehindDelta(r, args);
    var stripped := Strip(r, readTs, args).0;
    var sent := Replicated(command, stripped, show(ts));
    FindStep(r, sent, FIRST_OPTION_INDEX);
    assert sent[3] == "TIMESTAMP" && sent[4] == show(ts);
    assert WithoutPair(sent, 3) == [command] + stripped[1..];
  }

  lemma FoundBehindDelta<V>(r: Reader<V>, args: seq<string>)
    ensures FindTimestamp(r, args, FIRST_OPTION_INDEX).Some? ==>
              FindTimestamp(r, args, FIRST_OPTION_INDEX).value.at >= FIRST_OPTION_INDEX
  {
    KeywordsFrom(r, args, FIRST_OPTION_INDEX);
  }
}
