/**
 * Runs of the commands that touch compaction rules: `TS.CREATERULE` and `TS.DELETERULE`
 * (`src/commands/ts_createrule.rs`, `src/commands/ts_deleterule.rs`), `TS.CREATE`, `DEL`, `RENAME`,
 * and the pruning a compaction pass does (`src/series/compaction.rs`).
 */
module RuleCommands {
  import opened Values
  import opened RuleGraph
  import opened RulePruning
  import opened RuleRename

  datatype Command =
    | CreatesRule(source: string, dest: string, bucketDuration: int)
    | DeletesRule(source: string, dest: string)
    | DeletesKey(key: string)
    | CreatesKey(key: string)
    | RenamesKey(from: string, to: string)
    | PrunesRules(key: string, visited: set<string>)

  /** Whether `TS.CREATERULE` goes through. */
  ghost predicate MayLink(ks: Keyspace, source: string, dest: string) {
    && source != dest && source in ks && dest in ks
    && LiveSource(ks, dest).None?
    && !Reaches(ks, dest, source)
  }

  predicate MayUnlink(ks: Keyspace, source: string, dest: string) {
    source != dest && source in ks && dest in ks && HasRule(ks[source].rules, dest)
  }

  ghost function After(ks: Keyspace, c: Command): Keyspace {
    match c
    case CreatesRule(source, dest, d) => if MayLink(ks, source, dest) then Linked(ks, source, dest, Rule(dest, d)) else ks
    case DeletesRule(source, dest) => if MayUnlink(ks, source, dest) then Unlinked(ks, source, dest) else ks
    case DeletesKey(key) => ks - {key}
    case CreatesKey(key) => if key in ks then ks else ks[key := Series([], None)]
    case RenamesKey(from, to) => if from in ks && from != to then Renamed(ks, from, to) else ks
    case PrunesRules(key, visited) => if key in ks then Pruned(ks, key, visited) else ks
  }

  ghost predicate Safe(ks: Keyspace, c: Command) {
    c.RenamesKey? && c.from in ks && c.from != c.to ==> SafeRename(ks, c.from, c.to)
  }

  /**
   * RENAME apart no command closes a cycle or doubles a rule, and only `TS.CREATERULE` brings a
   * rule to life, the one it names. A RENAME is sound exactly when it is safe.
   */
  lemma StepIsSound(ks: Keyspace, c: Command)
    requires Sound(ks)
    ensures Sound(After(ks, c)) <==> Safe(ks, c)
    ensures forall a, b :: Live(After(ks, c), a, b) && !Live(ks, a, b) ==>
              c.RenamesKey? || (c.CreatesRule? && a == c.source && b == c.dest)
  {
    hide Acyclic, NoDuplicates, Linked, Unlinked, Reaches, Live, Renamed, Pruned, SafeRename, LiveRules;
    match c
    case CreatesRule(source, dest, d) =>
      if MayLink(ks, source, dest) {
        LinkedEdges(ks, source, dest, Rule(dest, d));
        OneMoreAcyclic(ks, Linked(ks, source, dest, Rule(dest, d)), source, dest);
      }
    case DeletesRule(source, dest) =>
      if MayUnlink(ks, source, dest) {
        UnlinkedEdges(ks, source, dest);
        FewerAcyclic(ks, Unlinked(ks, source, dest));
      }
    case DeletesKey(key) =>
      DeletedEdges(ks, key);
      FewerAcyclic(ks, ks - {key});
    case CreatesKey(key) =>
      if key !in ks {
        CreatedEdges(ks, key);
        FewerAcyclic(ks, ks[key := Series([], None)]);
        NewSeriesDistinct();
      }
    case RenamesKey(from, to) =>
      if from in ks && from != to { RenameSoundIff(ks, from, to); }
    case PrunesRules(key, visited) =>
      if key in ks {
        PruningKeepsLive(ks, key, visited);
        forall a, b
          ensures Live(Pruned(ks, key, visited), a, b) <==> Live(ks, a, b)
        {
          LiveMeansRules(ks, a, b);
          LiveMeansRules(Pruned(ks, key, visited), a, b);
        }
      }
  }

  lemma NewSeriesDistinct()
    ensures NoDuplicates([])
  {
  }

  // -- what each command leaves of every rule and link ---------------------------------------------------

  lemma {:induction false} DurationsOfConcat(a: seq<Rule>, b: seq<Rule>, d: string)
    ensures DurationsFor(a + b, d) == DurationsFor(a, d) + DurationsFor(b, d)
  {
    if b == [] {
      assert a + b == a;
    } else {
      DurationsOfConcat(a, b[..|b| - 1], d);
      assert (a + b)[..|a + b| - 1] == a + b[..|b| - 1];
    }
  }

  lemma {:induction false} WithoutDurations(rules: seq<Rule>, dest: string, d: string)
    requires NoDuplicates(rules)
    ensures DurationsFor(Without(rules, dest), d) == if d == dest then [] else DurationsFor(rules, d)
  {
    hide DurationsFor, HasRule;
    if rules == [] {
      NoDurations(d);
    } else {
      var first, rest := rules[0], rules[1..];
      assert NoDuplicates(rest);
      WithoutDurations(rest, dest, d);
      DurationsOfConcat([first], rest, d);
      DurationsOfConcat([first], Without(rest, dest), d);
      DurationsOfOne(first, d);
      assert rules == [first] + rest;
      if first.dest == dest {
        FirstIsOnly(rules);
        DurationsExist(rest, dest);
      }
    }
  }

  lemma NoDurations(d: string)
    ensures DurationsFor([], d) == []
  {
  }

  /** `TS.CREATERULE` puts one rule, with its duration, in place of any stale one; nothing else changes. */
  lemma LinkedRules(ks: Keyspace, source: string, dest: string, d: int)
    requires source in ks && dest in ks && source != dest && NoDuplicates(ks[source].rules)
    ensures var ks' := Linked(ks, source, dest, Rule(dest, d));
            && ks'.Keys == ks.Keys
            && (forall a, b :: a in ks ==>
                  DurationsFor(ks'[a].rules, b) == if a == source && b == dest then [d] else DurationsFor(ks[a].rules, b))
            && forall a :: a in ks ==> ks'[a].src == if a == dest then Some(source) else ks[a].src
  {
    hide DurationsFor, Without;
    var kept := Without(ks[source].rules, dest);
    forall b
      ensures DurationsFor(kept + [Rule(dest, d)], b) == if b == dest then [d] else DurationsFor(ks[source].rules, b)
    {
      WithoutDurations(ks[source].rules, dest, b);
      DurationsOneMore(kept, Rule(dest, d), b);
    }
  }

  /** `TS.DELETERULE` takes that rule away, and the link if it names this source; nothing else changes. */
  lemma UnlinkedRules(ks: Keyspace, source: string, dest: string)
    requires source in ks && dest in ks && source != dest && NoDuplicates(ks[source].rules)
    ensures var ks' := Unlinked(ks, source, dest);
            && ks'.Keys == ks.Keys
            && (forall a, b :: a in ks ==>
                  DurationsFor(ks'[a].rules, b) == if a == source && b == dest then [] else DurationsFor(ks[a].rules, b))
            && forall a :: a in ks ==>
                 ks'[a].src == if a == dest && ks[a].src == Some(source) then None else ks[a].src
  {
    hide DurationsFor, Without;
    forall b { WithoutDurations(ks[source].rules, dest, b); }
  }

  /** The live rules of every pair after a command that is not RENAME. */
  lemma LiveRulesAfter(ks: Keyspace, c: Command, a: string, b: string)
    requires Sound(ks) && !c.RenamesKey?
    ensures LiveRules(After(ks, c), a, b) ==
            match c
            case CreatesRule(source, dest, d) =>
              if MayLink(ks, source, dest) && a == source && b == dest then [d] else LiveRules(ks, a, b)
            case DeletesRule(source, dest) =>
              if a == source && b == dest then (if MayUnlink(ks, source, dest) then [] else LiveRules(ks, a, b))
              else LiveRules(ks, a, b)
            case DeletesKey(key) => if a == key || b == key then [] else LiveRules(ks, a, b)
            case CreatesKey(_) => LiveRules(ks, a, b)
            case PrunesRules(_, _) => LiveRules(ks, a, b)
  {
    hide Acyclic, NoDuplicates, DurationsFor, Linked, Unlinked, Pruned, Reaches, HasRule;
    match c
    case CreatesRule(source, dest, d) =>
      if MayLink(ks, source, dest) {
        LinkedRules(ks, source, dest, d);
        LiveMeansRules(ks, a, dest);
      }
    case DeletesRule(source, dest) =>
      if MayUnlink(ks, source, dest) { UnlinkedRules(ks, source, dest); }
    case DeletesKey(key) =>
    case CreatesKey(key) => NoDurations(b);
    case PrunesRules(key, visited) =>
      if key in ks { PruningKeepsLive(ks, key, visited); }
  }

  ghost function Run(commands: seq<Command>): Keyspace {
    if commands == [] then map[] else After(Run(commands[..|commands| - 1]), commands[|commands| - 1])
  }

  ghost predicate SoundThroughout(commands: seq<Command>) {
    forall n :: 0 <= n <= |commands| ==> Sound(Run(commands[..n]))
  }

  ghost predicate SafeThroughout(commands: seq<Command>) {
    forall n :: 0 <= n < |commands| ==> Safe(Run(commands[..n]), commands[n])
  }

  /**
   * Over every run the live rules stay acyclic, no series has two rules for one destination, and
   * none has two live sources, exactly when each RENAME in it is safe where it happens.
   */
  lemma {:induction false} RunsAreSound(commands: seq<Command>)
    ensures SoundThroughout(commands) <==> SafeThroughout(commands)
    ensures (forall c :: c in commands ==> !c.RenamesKey?) ==> Sound(Run(commands))
    ensures forall a, b, d :: Live(Run(commands), a, d) && Live(Run(commands), b, d) ==> a == b
  {
    hide After, Sound, Safe, Run;
    if commands == [] {
      NothingLinked();
      assert commands[..0] == [];
    } else {
      var n := |commands| - 1;
      RunsAreSound(commands[..n]);
      RunsExtend(commands);
      if forall c :: c in commands ==> !c.RenamesKey? { QuietRun(commands); }
    }
  }

  /** One more command: sound and safe up to there, and the last step. */
  lemma RunsExtend(commands: seq<Command>)
    requires commands != []
    requires var front := commands[..|commands| - 1]; SoundThroughout(front) <==> SafeThroughout(front)
    ensures SoundThroughout(commands) <==> SafeThroughout(commands)
  {
    hide After, Sound, Safe, Run;
    var n := |commands| - 1;
    var front := commands[..n];
    assert forall i :: 0 <= i <= n ==> front[..i] == commands[..i];
    assert commands[..n + 1] == commands;
    if SoundThroughout(commands) {
      assert SoundThroughout(front);
      LastStep(commands);
      assert SafeThroughout(commands);
    }
    if SafeThroughout(commands) {
      assert SafeThroughout(front);
      assert Sound(Run(front[..n]));
      LastStep(commands);
    }
  }

  lemma LastStep(commands: seq<Command>)
    requires commands != [] && Sound(Run(commands[..|commands| - 1]))
    ensures Sound(Run(commands)) <==> Safe(Run(commands[..|commands| - 1]), commands[|commands| - 1])
  {
    hide After, Sound, Safe;
    StepIsSound(Run(commands[..|commands| - 1]), commands[|commands| - 1]);
  }

  lemma QuietRun(commands: seq<Command>)
    requires SoundThroughout(commands) <==> SafeThroughout(commands)
    requires forall c :: c in commands ==> !c.RenamesKey?
    ensures Sound(Run(commands))
  {
    hide After, Sound, Run;
    assert SafeThroughout(commands);
    assert commands[..|commands|] == commands;
  }

  lemma NothingLinked()
    ensures Sound(Run([]))
  {
  }

  /** `for rule in source.rules.iter_mut()` */
  method RedirectEach(rules: seq<Rule>, from: string, to: string) returns (r: seq<Rule>)
    ensures r == Redirect(rules, from, to)
  {
    r := rules;
    for i := 0 to |rules|
      invariant |r| == |rules|
      invariant forall j :: 0 <= j < i ==> r[j] == Redirect(rules, from, to)[j]
      invariant forall j :: i <= j < |rules| ==> r[j] == rules[j]
    {
      if r[i].dest == from { r := r[i := Rule(to, r[i].bucketDuration)]; }
    }
  }

  /** A series after the links of the given rules' destinations have been looked at. */
  ghost function Relinked(s: Series, k: string, from: string, to: string, rules: seq<Rule>): Series {
    if k != to && HasRule(rules, k) && s.src == Some(from) then Series(s.rules, Some(to)) else s
  }

  lemma NoRules()
    ensures forall k :: !HasRule([], k)
  {
  }

  /** `for rule in series.rules.iter()`: each destination that names the old key. */
  method RelinkEach(ks: Keyspace, from: string, to: string, rules: seq<Rule>) returns (r: Keyspace)
    ensures r == map k | k in ks :: Relinked(ks[k], k, from, to, rules)
  {
    hide HasRule;
    r := ks;
    NoRules();
    for i := 0 to |rules|
      invariant r.Keys == ks.Keys
      invariant forall k :: k in ks ==> r[k] == Relinked(ks[k], k, from, to, rules[..i])
    {
      var dest := rules[i].dest;
      forall k ensures HasRule(rules[..i + 1], k) <==> HasRule(rules[..i], k) || k == dest {
        HasRuleAppend(rules[..i], rules[i], k);
        assert rules[..i + 1] == rules[..i] + [rules[i]];
      }
      if dest != to && dest in r && r[dest].src == Some(from) {
        r := r[dest := Series(r[dest].rules, Some(to))];
      }
    }
    assert rules[..|rules|] == rules;
  }

  /** The keyspace once the series is under its new name and its source's rule names it. */
  function Moved(ks: Keyspace, from: string, to: string): Keyspace
    requires from in ks && from != to
  {
    var s := ks[from];
    var moved := (ks - {from})[to := s];
    if s.src.Some? && s.src.value != to && s.src.value in moved then
      moved[s.src.value := Series(Redirect(moved[s.src.value].rules, from, to), moved[s.src.value].src)]
    else moved
  }

  lemma RelinkedIsRenamed(ks: Keyspace, from: string, to: string)
    requires from in ks && from != to
    ensures var moved := Moved(ks, from, to);
            (map k | k in moved :: Relinked(moved[k], k, from, to, ks[from].rules)) == Renamed(ks, from, to)
  {
    hide HasRule, Redirect;
  }

  lemma HasRuleAppend(rules: seq<Rule>, rule: Rule, d: string)
    ensures HasRule(rules + [rule], d) <==> HasRule(rules, d) || d == rule.dest
  {
    var all := rules + [rule];
    if HasRule(rules, d) {
      var i :| 0 <= i < |rules| && rules[i].dest == d;
      assert all[i].dest == d;
    }
    assert all[|rules|].dest == rule.dest;
  }

  class RuleStore {
    var ks: Keyspace

    constructor ()
      ensures Valid() && ks == map[]
    {
      ks := map[];
    }

    ghost predicate Valid()
      reads this
    {
      Sound(ks)
    }

    /** `ts_createrule_cmd`: each refusal for its own reason, checked in this order. */
    method CreateRule(source: string, dest: string, bucketDuration: int) returns (r: Outcome)
      requires Valid()
      modifies this
      ensures Valid()
      ensures r.SameKey? <==> source == dest
      ensures r.MissingKey? <==> source != dest && (source !in old(ks) || dest !in old(ks))
      ensures r.HasSource? <==>
                source != dest && source in old(ks) && dest in old(ks) && exists s :: Live(old(ks), s, dest)
      ensures r.Circular? <==>
                && source != dest && source in old(ks) && dest in old(ks) && (forall s :: !Live(old(ks), s, dest))
                && Reaches(old(ks), dest, source)
      ensures !r.RuleNotFound?
      ensures r.Done? ==> OneMore(old(ks), ks, source, dest) && !Live(old(ks), source, dest)
      ensures ks == After(old(ks), CreatesRule(source, dest, bucketDuration))
    {
      hide Acyclic, Reaches, OneMore, Linked, NoDuplicates;
      if source == dest { return SameKey; }
      if source !in ks || dest !in ks { return MissingKey; }
      if LiveSource(ks, dest).Some? { return HasSource; }
      var rule := Rule(dest, bucketDuration);
      var ok := CheckNewRuleCircularDependency(ks, source, dest);
      if !ok { return Circular; }
      LinkedEdges(ks, source, dest, rule);
      OneMoreAcyclic(ks, Linked(ks, source, dest, rule), source, dest);
      ks := Linked(ks, source, dest, rule);
      r := Done;
    }

    /** `ts_deleterule_cmd` */
    method DeleteRule(source: string, dest: string) returns (r: Outcome)
      requires Valid()
      modifies this
      ensures Valid()
      ensures r.Done? <==>
                source != dest && source in old(ks) && dest in old(ks) && HasRule(old(ks)[source].rules, dest)
      ensures r.MissingKey? <==> source != dest && source !in old(ks)
      ensures r.RuleNotFound? <==> !r.Done? && !r.MissingKey?
      ensures r.Done? ==> forall a, b :: Live(ks, a, b) <==> Live(old(ks), a, b) && !(a == source && b == dest)
      ensures ks == After(old(ks), DeletesRule(source, dest))
    {
      hide Acyclic, NoDuplicates, Unlinked;
      if source == dest { return RuleNotFound; }
      if source !in ks { return MissingKey; }
      if dest !in ks { return RuleNotFound; }
      if !HasRule(ks[source].rules, dest) { return RuleNotFound; }
      UnlinkedEdges(ks, source, dest);
      FewerAcyclic(ks, Unlinked(ks, source, dest));
      ks := Unlinked(ks, source, dest);
      r := Done;
    }

    /** `DEL`: the key's rules and its link are gone, those that point at it stay. */
    method DeleteKey(key: string)
      requires Valid()
      modifies this
      ensures Valid() && ks == After(old(ks), DeletesKey(key))
      ensures forall a, b :: Live(ks, a, b) <==> Live(old(ks), a, b) && a != key && b != key
    {
      hide Acyclic, NoDuplicates;
      DeletedEdges(ks, key);
      FewerAcyclic(ks, ks - {key});
      ks := ks - {key};
    }

    /** `TS.CREATE` */
    method CreateKey(key: string) returns (created: bool)
      requires Valid()
      modifies this
      ensures Valid()
      ensures created <==> key !in old(ks)
      ensures ks == After(old(ks), CreatesKey(key))
      ensures forall a, b :: Live(ks, a, b) <==> Live(old(ks), a, b)
    {
      hide Acyclic;
      created := key !in ks;
      if created {
        CreatedEdges(ks, key);
        FewerAcyclic(ks, ks[key := Series([], None)]);
        ks := ks[key := Series([], None)];
      }
    }

    /** `relink_renamed_series`, for any keyspace: both loops look at the old name only. */
    method RenameKey(from: string, to: string)
      modifies this
      ensures ks == After(old(ks), RenamesKey(from, to))
      ensures old(Sound(ks)) ==> (Sound(ks) <==> Safe(old(ks), RenamesKey(from, to)))
    {
      hide Sound, Safe, HasRule, Redirect, Renamed, Relinked;
      if old(Sound(ks)) { StepIsSound(ks, RenamesKey(from, to)); }
      if from !in ks || from == to { return; }
      RelinkedIsRenamed(ks, from, to);
      var s := ks[from];
      ks := (ks - {from})[to := s];
      if s.src.Some? && s.src.value != to && s.src.value in ks {
        var source := ks[s.src.value];
        var rules := RedirectEach(source.rules, from, to);
        ks := ks[s.src.value := Series(rules, source.src)];
      }
      ks := RelinkEach(ks, from, to, s.rules);
    }

    /** `get_compaction_series` on the series a pass starts from: no live rule goes. */
    method Prune(key: string, visited: set<string>)
      requires Valid()
      modifies this
      ensures Valid() && ks == After(old(ks), PrunesRules(key, visited))
      ensures forall a, b :: LiveRules(ks, a, b) == LiveRules(old(ks), a, b)
    {
      hide Sound, LiveRules, Kept;
      if key !in ks { return; }
      PruningKeepsLive(ks, key, visited);
      var kept := PruneRules(ks, key, visited, ks[key].rules);
      ks := ks[key := Series(kept, ks[key].src)];
    }
  }

  // -- what a rename can do ---------------------------------------------------------------------------

  lemma NothingReached(ks: Keyspace, a: string, b: string)
    requires (forall x, y :: !Live(ks, x, y)) && a != b
    ensures !Reaches(ks, a, b)
  {
    forall p | IsPath(ks, p) && p[0] == a
      ensures p[|p| - 1] != b
    {
      PathStays(ks, {a}, p, |p| - 1);
    }
  }

  /** Two rules created the other way round and a key deleted twice leave both halves stale. */
  function Leftovers(d: int): seq<Command> {
    [CreatesKey("A"), CreatesKey("B"), CreatesRule("B", "A", d), DeletesKey("B"),
     CreatesKey("B"), CreatesRule("A", "B", d), DeletesKey("B")]
  }

  lemma RunSnoc(commands: seq<Command>, c: Command)
    ensures Run(commands + [c]) == After(Run(commands), c)
  {
    hide After;
    assert (commands + [c])[..|commands|] == commands;
  }

  /** A rule between two series with no live rule anywhere goes through. */
  lemma LinkedWhenQuiet(ks: Keyspace, source: string, dest: string, d: int)
    requires source != dest && source in ks && dest in ks && forall x, y :: !Live(ks, x, y)
    ensures After(ks, CreatesRule(source, dest, d)) == Linked(ks, source, dest, Rule(dest, d))
  {
    NothingReached(ks, dest, source);
    assert LiveSource(ks, dest).None?;
  }

  /** A series that appears, is linked from a second one, and loses it: the link stays. */
  lemma CreateLinkDelete(commands: seq<Command>, ks: Keyspace, a: string, d: int)
    requires Run(commands) == ks && a in ks && ks[a].rules == [] && "B" !in ks && a != "B"
    requires forall x, y :: !Live(ks, x, y)
    ensures Run(commands + [CreatesKey("B")] + [CreatesRule("B", a, d)] + [DeletesKey("B")])
            == ks[a := Series([], Some("B"))]
    ensures Run(commands + [CreatesKey("B")] + [CreatesRule(a, "B", d)] + [DeletesKey("B")])
            == ks[a := Series([Rule("B", d)], ks[a].src)]
  {
    hide Run, HasRule, Reaches;
    var c1 := commands + [CreatesKey("B")];
    RunSnoc(commands, CreatesKey("B"));
    var ks1 := ks["B" := Series([], None)];
    forall x, y ensures !Live(ks1, x, y) { CreatedEdges(ks, "B"); assert !Live(ks, x, y); }
    LinkedWhenQuiet(ks1, "B", a, d);
    RunSnoc(c1, CreatesRule("B", a, d));
    RunSnoc(c1 + [CreatesRule("B", a, d)], DeletesKey("B"));
    LinkedWhenQuiet(ks1, a, "B", d);
    RunSnoc(c1, CreatesRule(a, "B", d));
    RunSnoc(c1 + [CreatesRule(a, "B", d)], DeletesKey("B"));
    assert Without([], "B") + [Rule("B", d)] == [Rule("B", d)];
    assert Linked(ks1, "B", a, Rule(a, d)) - {"B"} == ks[a := Series([], Some("B"))];
    assert Linked(ks1, a, "B", Rule("B", d)) - {"B"} == ks[a := Series([Rule("B", d)], ks[a].src)];
  }

  lemma LeftoversRun(d: int)
    ensures Run(Leftovers(d)) == map["A" := Series([Rule("B", d)], Some("B"))]
  {
    hide Run, After;
    var c0 := [CreatesKey("A")];
    var ks0 := map["A" := Series([], None)];
    assert Run(c0) == ks0 by { FirstKey(); }
    CreateLinkDelete(c0, ks0, "A", d);
    var c1 := c0 + [CreatesKey("B")] + [CreatesRule("B", "A", d)] + [DeletesKey("B")];
    var ks1 := map["A" := Series([], Some("B"))];
    assert Run(c1) == ks1;
    CreateLinkDelete(c1, ks1, "A", d);
    assert Leftovers(d) == c1 + [CreatesKey("B")] + [CreatesRule("A", "B", d)] + [DeletesKey("B")];
  }

  lemma FirstKey()
    ensures Run([CreatesKey("A")]) == map["A" := Series([], None)]
  {
    RunSnoc([], CreatesKey("A"));
    assert [] + [CreatesKey("A")] == [CreatesKey("A")];
  }

  /** A run after which RENAME closes a cycle: the renamed series is then its own live source. */
  lemma RenameCanCloseCycle(d: int)
    ensures var ks := Run(Leftovers(d));
            && "A" in ks && Sound(ks) && !NoLeftovers(ks, "A", "B")
            && !Acyclic(Renamed(ks, "A", "B"))
  {
    hide Run, Acyclic;
    LeftoversRun(d);
    RunsAreSound(Leftovers(d));
    assert [Rule("B", d)][0].dest == "B";
    SelfLoop(Renamed(Run(Leftovers(d)), "A", "B"), "B");
  }

  lemma SelfLoop(ks: Keyspace, a: string)
    requires Live(ks, a, a)
    ensures !Acyclic(ks)
  {
    ReachesItself(ks, a);
  }

  /** Two rules of one source, both live. */
  function TwoRules(d1: int, d2: int): seq<Command> {
    [CreatesKey("A"), CreatesKey("Y"), CreatesRule("A", "Y", d1), CreatesKey("X"), CreatesRule("A", "X", d2)]
  }

  /** A rule to a series with no link and no rules goes through. */
  lemma LinkedWhenNew(ks: Keyspace, source: string, dest: string, d: int)
    requires source != dest && source in ks && dest in ks && ks[dest] == Series([], None)
    ensures After(ks, CreatesRule(source, dest, d)) == Linked(ks, source, dest, Rule(dest, d))
  {
    forall p | IsPath(ks, p) && p[0] == dest
      ensures p[|p| - 1] != source
    {
      PathStays(ks, {dest}, p, |p| - 1);
    }
    assert !Reaches(ks, dest, source);
  }

  lemma TwoRulesRun(d1: int, d2: int)
    ensures Run(TwoRules(d1, d2))
            == map["A" := Series([Rule("Y", d1), Rule("X", d2)], None),
                   "Y" := Series([], Some("A")), "X" := Series([], Some("A"))]
  {
    hide Run, After, HasRule;
    var c1 := [CreatesKey("A")];
    FirstKey();
    var c2 := c1 + [CreatesKey("Y")];
    RunSnoc(c1, CreatesKey("Y"));
    var c3 := c2 + [CreatesRule("A", "Y", d1)];
    RunSnoc(c2, CreatesRule("A", "Y", d1));
    var c4 := c3 + [CreatesKey("X")];
    RunSnoc(c3, CreatesKey("X"));
    RunSnoc(c4, CreatesRule("A", "X", d2));
    assert TwoRules(d1, d2) == c4 + [CreatesRule("A", "X", d2)];
    var ks2 := map["A" := Series([], None), "Y" := Series([], None)];
    assert Run(c2) == ks2 by { NewKey(map["A" := Series([], None)], "Y"); }
    LinkedWhenNew(ks2, "A", "Y", d1);
    assert Without([], "Y") + [Rule("Y", d1)] == [Rule("Y", d1)];
    var ks3 := map["A" := Series([Rule("Y", d1)], None), "Y" := Series([], Some("A"))];
    assert Run(c3) == ks3;
    var ks4 := ks3["X" := Series([], None)];
    NewKey(ks3, "X");
    LinkedWhenNew(ks4, "A", "X", d2);
    assert Without([Rule("Y", d1)], "X") + [Rule("X", d2)] == [Rule("Y", d1), Rule("X", d2)];
  }

  lemma NewKey(ks: Keyspace, key: string)
    requires key !in ks
    ensures After(ks, CreatesKey(key)) == ks[key := Series([], None)]
  {
  }

  lemma TwoRulesRenamed(ks: Keyspace, d1: int, d2: int)
    requires ks == map["A" := Series([Rule("Y", d1), Rule("X", d2)], None),
                       "Y" := Series([], Some("A")), "X" := Series([], Some("A"))]
    ensures Renamed(ks, "X", "Y")
            == map["A" := Series([Rule("Y", d1), Rule("Y", d2)], None), "Y" := Series([], Some("A"))]
  {
    hide HasRule;
    NoRules();
    assert Redirect([Rule("Y", d1), Rule("X", d2)], "X", "Y") == [Rule("Y", d1), Rule("Y", d2)];
  }

  /** A doubled rule, and what pruning makes of it. */
  lemma DoubledThenPruned(ks: Keyspace, d1: int, d2: int)
    requires ks == map["A" := Series([Rule("Y", d1), Rule("Y", d2)], None), "Y" := Series([], Some("A"))]
    ensures !Sound(ks) && LiveRules(ks, "A", "Y") == [d1, d2]
    ensures LiveRules(Pruned(ks, "A", {}), "A", "Y") == [d1]
  {
    hide DurationsFor, Kept, Acyclic;
    var rules := [Rule("Y", d1), Rule("Y", d2)];
    assert rules[0].dest == rules[1].dest && ks["A"].rules == rules;
    DurationsOfTwo(Rule("Y", d1), Rule("Y", d2), "Y");
    SecondDropped(ks, "A", rules);
    DurationsOfOne(Rule("Y", d1), "Y");
  }

  /**
   * A run without a stale half after which RENAME doubles a rule; the next compaction pass then
   * drops the rule that was renamed and keeps the other's.
   */
  lemma RenameCanDouble(d1: int, d2: int)
    ensures var ks := Run(TwoRules(d1, d2));
            && "X" in ks && Sound(ks) && LiveRules(ks, "A", "X") == [d2]
            && LiveRules(Renamed(ks, "X", "Y"), "A", "Y") == [d1, d2]
            && !Sound(Renamed(ks, "X", "Y"))
            && LiveRules(Pruned(Renamed(ks, "X", "Y"), "A", {}), "A", "Y") == [d1]
  {
    hide Run, Sound, DurationsFor, Renamed, Pruned;
    TwoRulesRun(d1, d2);
    RunsAreSound(TwoRules(d1, d2));
    TwoRulesRenamed(Run(TwoRules(d1, d2)), d1, d2);
    DoubledThenPruned(Renamed(Run(TwoRules(d1, d2)), "X", "Y"), d1, d2);
    DurationsOfTwo(Rule("Y", d1), Rule("X", d2), "X");
  }

  lemma DurationsOfOne(r: Rule, d: string)
    ensures DurationsFor([r], d) == if r.dest == d then [r.bucketDuration] else []
  {
    assert [r][..0] == [];
  }

  lemma DurationsOfTwo(r1: Rule, r2: Rule, d: string)
    ensures DurationsFor([r1, r2], d)
            == (if r1.dest == d then [r1.bucketDuration] else []) + (if r2.dest == d then [r2.bucketDuration] else [])
  {
    hide DurationsFor;
    DurationsOfOne(r1, d);
    DurationsOneMore([r1], r2, d);
    assert [r1] + [r2] == [r1, r2];
  }

  lemma SecondDropped(ks: Keyspace, key: string, rules: seq<Rule>)
    requires |rules| == 2 && rules[0].dest == rules[1].dest != key && LinksBack(ks, key, rules[0].dest)
    ensures Kept(ks, key, {}, rules, |rules|) == [rules[0]]
  {
    KeptOne(ks, key, {}, rules, 1);
    KeptOne(ks, key, {}, rules, 0);
  }
}
