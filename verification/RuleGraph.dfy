/**
 * Compaction rules between series (`src/commands/ts_createrule.rs`, `src/commands/ts_deleterule.rs`,
 * `src/series/compaction.rs`). A rule and its back-link live in different series, so deleting a
 * key leaves stale halves behind; only a rule whose destination links back is live.
 */
module RuleGraph {
  import opened Values

  /** What a rule computes plays no part in the graph. */
  datatype Rule = Rule(dest: string, bucketDuration: int)

  datatype Series = Series(rules: seq<Rule>, src: Option<string>)

  type Keyspace = map<string, Series>

  predicate HasRule(rules: seq<Rule>, dest: string) {
    exists i :: 0 <= i < |rules| && rules[i].dest == dest
  }

  /** `position(points_to(dest))` then `remove`; the list is unchanged when there is none. */
  function Without(rules: seq<Rule>, dest: string): (r: seq<Rule>) {
    if rules == [] then []
    else if rules[0].dest == dest then rules[1..]
    else [rules[0]] + Without(rules[1..], dest)
  }

  /** `source` holds a rule for `dest`, and `dest` names `source`. */
  ghost predicate Live(ks: Keyspace, source: string, dest: string) {
    source in ks && dest in ks && HasRule(ks[source].rules, dest) && ks[dest].src == Some(source)
  }

  // -- paths ------------------------------------------------------------------------------------

  ghost predicate IsPath(ks: Keyspace, p: seq<string>) {
    && p != []
    && forall i :: 0 < i < |p| ==> Live(ks, p[i - 1], p[i])
  }

  ghost predicate Reaches(ks: Keyspace, a: string, b: string) {
    exists p :: IsPath(ks, p) && p[0] == a && p[|p| - 1] == b
  }

  ghost predicate Acyclic(ks: Keyspace) {
    forall a, b :: Live(ks, a, b) ==> !Reaches(ks, b, a)
  }

  lemma ReachesItself(ks: Keyspace, a: string)
    ensures Reaches(ks, a, a)
  {
    assert IsPath(ks, [a]) && [a][0] == a && [a][|[a]| - 1] == a;
  }

  lemma ReachesStep(ks: Keyspace, a: string, b: string, c: string)
    requires Live(ks, a, b) && Reaches(ks, b, c)
    ensures Reaches(ks, a, c)
  {
    var p :| IsPath(ks, p) && p[0] == b && p[|p| - 1] == c;
    var q := [a] + p;
    forall i | 0 < i < |q|
      ensures Live(ks, q[i - 1], q[i])
    {
      if i > 1 { assert Live(ks, p[i - 2], p[i - 1]); }
    }
    assert IsPath(ks, q);
  }

  /** A set closed under live rules keeps every path that starts in it. */
  lemma {:induction false} PathStays(ks: Keyspace, seen: set<string>, p: seq<string>, n: nat)
    requires IsPath(ks, p) && p[0] in seen && n < |p|
    requires forall a, b :: a in seen && Live(ks, a, b) ==> b in seen
    ensures p[n] in seen
  {
    if n > 0 {
      PathStays(ks, seen, p, n - 1);
      assert Live(ks, p[n - 1], p[n]);
    }
  }

  // -- `dependency_reaches` -------------------------------------------------------------------------

  /** A rule of `from` that led to `current` is followed only if `current` links back. */
  predicate Admitted(ks: Keyspace, current: string, from: Option<string>) {
    current in ks && (from.Some? ==> ks[current].src == from)
  }

  /** The nodes finished since `before` miss the target, and all their live rules lead to seen nodes. */
  ghost predicate Finished(ks: Keyspace, target: string, before: set<string>, seen: set<string>) {
    forall a :: a in seen && a !in before ==> a != target && forall b :: Live(ks, a, b) ==> b in seen
  }

  lemma FinishedTogether(ks: Keyspace, target: string, a: set<string>, b: set<string>, c: set<string>)
    requires a <= b <= c && Finished(ks, target, a, b) && Finished(ks, target, b, c)
    ensures Finished(ks, target, a, c)
  {
  }

  /** Depth-first search through live rules, with the set of visited keys. */
  method DependencyReaches(ks: Keyspace, current: string, from: Option<string>, target: string, visited: set<string>)
    returns (found: bool, seen: set<string>)
    requires visited <= ks.Keys
    ensures visited <= seen <= ks.Keys
    ensures found ==> Admitted(ks, current, from) && Reaches(ks, current, target)
    ensures !found ==> Finished(ks, target, visited, seen) && (Admitted(ks, current, from) ==> current in seen)
    decreases ks.Keys - visited
  {
    seen := visited;
    if !Admitted(ks, current, from) { return false, seen; }
    if current == target {
      ReachesItself(ks, current);
      return true, seen;
    }
    if current in visited { return false, seen; }
    seen := visited + {current};
    var rules := ks[current].rules;
    ghost var before := visited + {current};
    var i := 0;
    while i < |rules|
      invariant 0 <= i <= |rules|
      invariant before <= seen <= ks.Keys
      invariant Finished(ks, target, before, seen)
      invariant forall j :: 0 <= j < i && Live(ks, current, rules[j].dest) ==> rules[j].dest in seen
    {
      var dest := rules[i].dest;
      ghost var earlier := seen;
      var reached: bool;
      reached, seen := DependencyReaches(ks, dest, Some(current), target, seen);
      if reached {
        assert Live(ks, current, dest);
        ReachesStep(ks, current, dest, target);
        return true, seen;
      }
      FinishedTogether(ks, target, before, earlier, seen);
      i := i + 1;
    }
    found := false;
  }

  /** Adding `source -> dest` closes a cycle exactly when `dest` already reaches `source`. */
  method CheckNewRuleCircularDependency(ks: Keyspace, source: string, dest: string) returns (ok: bool)
    requires dest in ks
    ensures ok <==> !Reaches(ks, dest, source)
  {
    var found, seen := DependencyReaches(ks, dest, None, source, {});
    ok := !found;
    if ok { Unreached(ks, dest, source, seen); }
  }

  lemma Unreached(ks: Keyspace, dest: string, source: string, seen: set<string>)
    requires Finished(ks, source, {}, seen) && dest in seen
    ensures !Reaches(ks, dest, source)
  {
    forall p | IsPath(ks, p) && p[0] == dest
      ensures p[|p| - 1] != source
    {
      PathStays(ks, seen, p, |p| - 1);
    }
  }

  // -- the graph under change ---------------------------------------------------------------------

  lemma {:induction false} ReachesOnward(ks: Keyspace, p: seq<string>, c: string)
    requires IsPath(ks, p) && Reaches(ks, p[|p| - 1], c)
    ensures Reaches(ks, p[0], c)
  {
    if |p| > 1 {
      var tail := p[1..];
      forall i | 0 < i < |tail|
        ensures Live(ks, tail[i - 1], tail[i])
      {
        assert Live(ks, p[i], p[i + 1]);
      }
      ReachesOnward(ks, tail, c);
      assert Live(ks, p[0], p[1]);
      ReachesStep(ks, p[0], p[1], c);
    }
  }

  lemma ReachesThrough(ks: Keyspace, a: string, b: string, c: string)
    requires Reaches(ks, a, b) && Reaches(ks, b, c)
    ensures Reaches(ks, a, c)
  {
    var p :| IsPath(ks, p) && p[0] == a && p[|p| - 1] == b;
    ReachesOnward(ks, p, c);
  }

  ghost predicate Fewer(ks: Keyspace, ks': Keyspace) {
    forall a, b :: Live(ks', a, b) ==> Live(ks, a, b)
  }

  lemma FewerAcyclic(ks: Keyspace, ks': Keyspace)
    requires Acyclic(ks) && Fewer(ks, ks')
    ensures Acyclic(ks')
  {
    forall a, b | Live(ks', a, b)
      ensures !Reaches(ks', b, a)
    {
      forall p | IsPath(ks', p) && p[0] == b
        ensures p[|p| - 1] != a
      {
        assert IsPath(ks, p);
        assert !Reaches(ks, b, a);
      }
    }
  }

  /** `ks'` has the live rules of `ks` and one more. */
  ghost predicate OneMore(ks: Keyspace, ks': Keyspace, source: string, dest: string) {
    forall a, b :: Live(ks', a, b) <==> Live(ks, a, b) || (a == source && b == dest)
  }

  /** A path of the larger graph is one of the smaller, or goes through the new rule. */
  lemma {:induction false} PathSplits(ks: Keyspace, ks': Keyspace, source: string, dest: string, p: seq<string>)
    requires OneMore(ks, ks', source, dest) && IsPath(ks', p)
    ensures var x, y := p[0], p[|p| - 1];
            Reaches(ks, x, y) || (Reaches(ks, x, source) && Reaches(ks, dest, y))
  {
    var x, y := p[0], p[|p| - 1];
    if |p| == 1 {
      ReachesItself(ks, x);
    } else {
      var tail := p[1..];
      forall i | 0 < i < |tail|
        ensures Live(ks', tail[i - 1], tail[i])
      {
        assert Live(ks', p[i], p[i + 1]);
      }
      PathSplits(ks, ks', source, dest, tail);
      assert Live(ks', x, p[1]);
      if Live(ks, x, p[1]) {
        if Reaches(ks, p[1], y) { ReachesStep(ks, x, p[1], y); } else { ReachesStep(ks, x, p[1], source); }
      } else {
        ReachesItself(ks, x);
      }
    }
  }

  lemma OneMoreAcyclic(ks: Keyspace, ks': Keyspace, source: string, dest: string)
    requires Acyclic(ks) && OneMore(ks, ks', source, dest) && !Reaches(ks, dest, source)
    ensures Acyclic(ks')
  {
    forall a, b | Live(ks', a, b)
      ensures !Reaches(ks', b, a)
    {
      forall p | IsPath(ks', p) && p[0] == b
        ensures p[|p| - 1] != a
      {
        PathSplits(ks, ks', source, dest, p);
        NoReturn(ks, source, dest, a, b);
      }
    }
  }

  lemma NoReturn(ks: Keyspace, source: string, dest: string, a: string, b: string)
    requires Acyclic(ks) && !Reaches(ks, dest, source)
    requires Live(ks, a, b) || (a == source && b == dest)
    ensures !Reaches(ks, b, a)
    ensures !(Reaches(ks, b, source) && Reaches(ks, dest, a))
  {
    if Live(ks, a, b) && Reaches(ks, b, source) && Reaches(ks, dest, a) {
      ReachesStep(ks, a, b, source);
      ReachesThrough(ks, dest, a, source);
    }
  }

  /** Deleting a key ends the rules it takes part in. */
  lemma DeletedEdges(ks: Keyspace, key: string)
    ensures forall a, b :: Live(ks - {key}, a, b) <==> Live(ks, a, b) && a != key && b != key
  {
  }

  // -- cycles through one key -----------------------------------------------------------------------

  lemma PathSlice(ks: Keyspace, p: seq<string>, i: nat, j: nat)
    requires IsPath(ks, p) && i < j <= |p|
    ensures IsPath(ks, p[i..j])
  {
    var q := p[i..j];
    forall k | 0 < k < |q|
      ensures Live(ks, q[k - 1], q[k])
    {
      assert Live(ks, p[i + k - 1], p[i + k]);
    }
  }

  lemma PathReaches(ks: Keyspace, p: seq<string>)
    requires IsPath(ks, p)
    ensures Reaches(ks, p[0], p[|p| - 1])
  {
  }

  /** A path that avoids a key is a path without that key. */
  lemma PathAvoids(ks: Keyspace, v: string, p: seq<string>)
    requires v !in p
    ensures IsPath(ks, p) <==> IsPath(ks - {v}, p)
  {
    DeletedEdges(ks, v);
  }

  /** What a cycle through `v` looks like: a way out, a way back in, and a path between them. */
  ghost predicate CycleThrough(ks: Keyspace, v: string) {
    Live(ks, v, v) || exists c, p :: Live(ks, v, c) && Live(ks, p, v) && Reaches(ks - {v}, c, p)
  }

  lemma CycleThroughCloses(ks: Keyspace, v: string)
    requires CycleThrough(ks, v)
    ensures !Acyclic(ks)
  {
    if Live(ks, v, v) {
      ReachesItself(ks, v);
    } else {
      var c, p :| Live(ks, v, c) && Live(ks, p, v) && Reaches(ks - {v}, c, p);
      var q :| IsPath(ks - {v}, q) && q[0] == c && q[|q| - 1] == p;
      DeletedEdges(ks, v);
      assert IsPath(ks, q);
      ReachesItself(ks, v);
      ReachesStep(ks, p, v, v);
      ReachesOnward(ks, q, v);
    }
  }

  /** From `v` back to `v`: somewhere on the way the first return is such a cycle. */
  lemma {:induction false} FirstReturn(ks: Keyspace, v: string, p: seq<string>, n: nat)
    requires IsPath(ks, p) && 1 < |p| && p[0] == v && p[|p| - 1] == v
    requires 0 < n < |p| && v !in p[1..n]
    ensures CycleThrough(ks, v)
    decreases |p| - n
  {
    if p[n] != v {
      assert p[1..n + 1] == p[1..n] + [p[n]];
      FirstReturn(ks, v, p, n + 1);
    } else if n == 1 {
      assert Live(ks, p[0], p[1]);
    } else {
      var q := p[1..n];
      PathSlice(ks, p, 1, n);
      PathAvoids(ks, v, q);
      PathReaches(ks - {v}, q);
      assert Live(ks, p[0], p[1]) && Live(ks, p[n - 1], p[n]);
    }
  }

  lemma JoinPaths(ks: Keyspace, p: seq<string>, q: seq<string>)
    requires IsPath(ks, p) && IsPath(ks, q) && Live(ks, p[|p| - 1], q[0])
    ensures IsPath(ks, p + q)
  {
    var r := p + q;
    forall k | 0 < k < |r|
      ensures Live(ks, r[k - 1], r[k])
    {
      if k < |p| {
        assert Live(ks, p[k - 1], p[k]);
      } else if k > |p| {
        assert Live(ks, q[k - |p| - 1], q[k - |p|]);
      }
    }
  }

  /** A graph that is acyclic without `v` is acyclic exactly when no cycle goes through `v`. */
  lemma AcyclicAround(ks: Keyspace, v: string)
    requires Acyclic(ks - {v})
    ensures Acyclic(ks) <==> !CycleThrough(ks, v)
  {
    hide Reaches, CycleThrough;
    if CycleThrough(ks, v) {
      CycleThroughCloses(ks, v);
    } else {
      forall a, b | Live(ks, a, b)
        ensures !Reaches(ks, b, a)
      {
        if Reaches(ks, b, a) { CycleGoesThrough(ks, v, a, b); }
      }
    }
  }

  lemma CycleGoesThrough(ks: Keyspace, v: string, a: string, b: string)
    requires Acyclic(ks - {v}) && Live(ks, a, b) && Reaches(ks, b, a)
    ensures CycleThrough(ks, v)
  {
    hide CycleThrough;
    var p :| IsPath(ks, p) && p[0] == b && p[|p| - 1] == a;
    if v in p {
      var i :| 0 <= i < |p| && p[i] == v;
      var r := p[i..] + p[..i + 1];
      PathSlice(ks, p, i, |p|);
      PathSlice(ks, p, 0, i + 1);
      assert p[i..|p|] == p[i..] && p[0..i + 1] == p[..i + 1];
      JoinPaths(ks, p[i..], p[..i + 1]);
      FirstReturn(ks, v, r, 1);
    } else {
      assert p[0] != v && p[|p| - 1] != v;
      DeletedEdges(ks, v);
      assert !Reaches(ks - {v}, b, a);
      PathAvoids(ks, v, p);
    }
  }

  // -- commands --------------------------------------------------------------------------------------

  datatype Outcome = Done | SameKey | MissingKey | HasSource | Circular | RuleNotFound

  /** `live_source_key` */
  function LiveSource(ks: Keyspace, dest: string): (r: Option<string>)
    requires dest in ks
    ensures r.Some? <==> exists s :: Live(ks, s, dest)
    ensures r.Some? ==> Live(ks, r.value, dest)
  {
    var src := ks[dest].src;
    if src.Some? && src.value in ks && HasRule(ks[src.value].rules, dest) then
      assert Live(ks, src.value, dest);
      src
    else None
  }

  function Linked(ks: Keyspace, source: string, dest: string, rule: Rule): Keyspace
    requires source in ks && dest in ks && source != dest
  {
    ks[source := Series(Without(ks[source].rules, dest) + [rule], ks[source].src)]
      [dest := Series(ks[dest].rules, Some(source))]
  }

  function Unlinked(ks: Keyspace, source: string, dest: string): Keyspace
    requires source in ks && dest in ks && source != dest
  {
    ks[source := Series(Without(ks[source].rules, dest), ks[source].src)]
      [dest := Series(ks[dest].rules, if ks[dest].src == Some(source) then None else ks[dest].src)]
  }

  ghost predicate NoDuplicates(rules: seq<Rule>) {
    forall i, j :: 0 <= i < j < |rules| ==> rules[i].dest != rules[j].dest
  }

  /** Removing a rule removes that rule and no other. */
  lemma {:induction false} WithoutRule(rules: seq<Rule>, dest: string)
    requires NoDuplicates(rules)
    ensures NoDuplicates(Without(rules, dest)) && !HasRule(Without(rules, dest), dest)
    ensures forall d :: d != dest ==> (HasRule(Without(rules, dest), d) <==> HasRule(rules, d))
  {
    if rules != [] {
      var tail := rules[1..];
      assert NoDuplicates(tail);
      WithoutRule(tail, dest);
      forall d
        ensures HasRule(rules, d) <==> rules[0].dest == d || HasRule(tail, d)
      {
        HasRuleSplit(rules, d);
      }
      var rest := Without(tail, dest);
      if rules[0].dest != dest {
        var kept := [rules[0]] + rest;
        forall d
          ensures HasRule(kept, d) <==> rules[0].dest == d || HasRule(rest, d)
        {
          HasRuleSplit(kept, d);
          assert kept[1..] == rest;
        }
        assert !HasRule(rest, rules[0].dest) by { FirstIsOnly(rules); }
        PrependDistinct(rules[0], rest);
      } else {
        FirstIsOnly(rules);
      }
    }
  }

  lemma HasRuleSplit(rules: seq<Rule>, d: string)
    requires rules != []
    ensures HasRule(rules, d) <==> rules[0].dest == d || HasRule(rules[1..], d)
  {
    if HasRule(rules, d) {
      var i :| 0 <= i < |rules| && rules[i].dest == d;
      if i > 0 { assert rules[1..][i - 1].dest == d; }
    }
    if HasRule(rules[1..], d) {
      var i :| 0 <= i < |rules[1..]| && rules[1..][i].dest == d;
      assert rules[i + 1].dest == d;
    }
  }

  lemma FirstIsOnly(rules: seq<Rule>)
    requires NoDuplicates(rules) && rules != []
    ensures !HasRule(rules[1..], rules[0].dest)
  {
  }

  lemma PrependDistinct(rule: Rule, rest: seq<Rule>)
    requires NoDuplicates(rest) && !HasRule(rest, rule.dest)
    ensures NoDuplicates([rule] + rest)
  {
  }

  lemma AppendDistinct(rules: seq<Rule>, rule: Rule)
    requires NoDuplicates(rules) && !HasRule(rules, rule.dest)
    ensures NoDuplicates(rules + [rule])
    ensures forall d :: HasRule(rules + [rule], d) <==> HasRule(rules, d) || d == rule.dest
  {
    var all := rules + [rule];
    forall d
      ensures HasRule(all, d) <==> HasRule(rules, d) || d == rule.dest
    {
      if HasRule(rules, d) {
        var i :| 0 <= i < |rules| && rules[i].dest == d;
        assert all[i].dest == d;
      }
      assert all[|rules|].dest == rule.dest;
    }
  }

  ghost predicate Sound(ks: Keyspace) {
    Acyclic(ks) && forall k :: k in ks ==> NoDuplicates(ks[k].rules)
  }

  /** Creating a rule makes exactly one rule live; stale halves stay stale. */
  lemma LinkedEdges(ks: Keyspace, source: string, dest: string, rule: Rule)
    requires source in ks && dest in ks && source != dest && rule.dest == dest
    requires forall k :: k in ks ==> NoDuplicates(ks[k].rules)
    requires LiveSource(ks, dest).None?
    ensures OneMore(ks, Linked(ks, source, dest, rule), source, dest)
    ensures forall k :: k in Linked(ks, source, dest, rule) ==> NoDuplicates(Linked(ks, source, dest, rule)[k].rules)
  {
    hide HasRule, Without, NoDuplicates;
    var rules := Without(ks[source].rules, dest);
    WithoutRule(ks[source].rules, dest);
    AppendDistinct(rules, rule);
    assert forall s :: !Live(ks, s, dest);
  }

  /** Deleting a rule ends exactly that rule. */
  lemma UnlinkedEdges(ks: Keyspace, source: string, dest: string)
    requires source in ks && dest in ks && source != dest
    requires forall k :: k in ks ==> NoDuplicates(ks[k].rules)
    ensures forall a, b :: Live(Unlinked(ks, source, dest), a, b) <==> Live(ks, a, b) && !(a == source && b == dest)
    ensures forall k :: k in Unlinked(ks, source, dest) ==> NoDuplicates(Unlinked(ks, source, dest)[k].rules)
  {
    hide HasRule, Without, NoDuplicates;
    WithoutRule(ks[source].rules, dest);
  }

  /** A new series has no rule and no link: what is left pointing at its name stays stale. */
  lemma CreatedEdges(ks: Keyspace, key: string)
    requires key !in ks
    ensures forall a, b :: Live(ks[key := Series([], None)], a, b) <==> Live(ks, a, b)
  {
  }
}
