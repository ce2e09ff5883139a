/**
 * What a compaction pass does to the rules of the series it starts from (`get_compaction_series` in
 * `src/series/compaction.rs`): rules without a destination are removed, and so is a second rule
 * for a destination that is already open.
 */
module RulePruning {
  import opened Values
  import opened RuleGraph
  import opened RuleRename

  predicate LinksBack(ks: Keyspace, key: string, dest: string) {
    dest in ks && ks[dest].src == Some(key)
  }

  /** A series the pass already holds is skipped, not dropped; otherwise the first live rule stays. */
  predicate Keeps(ks: Keyspace, key: string, visited: set<string>, rules: seq<Rule>, i: nat)
    requires i < |rules|
  {
    var dest := rules[i].dest;
    dest == key || dest in visited || (LinksBack(ks, key, dest) && forall j :: 0 <= j < i ==> rules[j].dest != dest)
  }

  /** The kept ones among the first `n` rules. */
  function Kept(ks: Keyspace, key: string, visited: set<string>, rules: seq<Rule>, n: nat): seq<Rule>
    requires n <= |rules|
  {
    if n == 0 then []
    else Kept(ks, key, visited, rules, n - 1) + (if Keeps(ks, key, visited, rules, n - 1) then [rules[n - 1]] else [])
  }

  /** The others, by position. */
  function Dropped(ks: Keyspace, key: string, visited: set<string>, rules: seq<Rule>, n: nat): (r: seq<nat>)
    requires n <= |rules|
    ensures forall k :: 0 <= k < |r| ==> r[k] < n
    ensures forall k :: 0 < k < |r| ==> r[k - 1] < r[k]
  {
    if n == 0 then []
    else Dropped(ks, key, visited, rules, n - 1) + (if Keeps(ks, key, visited, rules, n - 1) then [] else [n - 1])
  }

  function RemoveAt<T>(xs: seq<T>, i: nat): seq<T>
    requires i < |xs|
  {
    xs[..i] + xs[i + 1..]
  }

  /** `remove` at each index, the last one first. */
  function RemoveAll<T>(xs: seq<T>, indices: seq<nat>): seq<T>
    decreases |indices|
  {
    if indices == [] then xs
    else
      var n := |indices| - 1;
      RemoveAll(if indices[n] < |xs| then RemoveAt(xs, indices[n]) else xs, indices[..n])
  }

  lemma RemoveLast<T>(xs: seq<T>, indices: seq<nat>, i: nat)
    requires i < |xs|
    ensures RemoveAll(xs, indices + [i]) == RemoveAll(RemoveAt(xs, i), indices)
  {
    assert (indices + [i])[..|indices|] == indices;
  }

  lemma KeptOne(ks: Keyspace, key: string, visited: set<string>, rules: seq<Rule>, n: nat)
    requires n < |rules|
    ensures Keeps(ks, key, visited, rules, n) ==>
              && Kept(ks, key, visited, rules, n + 1) == Kept(ks, key, visited, rules, n) + [rules[n]]
              && Dropped(ks, key, visited, rules, n + 1) == Dropped(ks, key, visited, rules, n)
    ensures !Keeps(ks, key, visited, rules, n) ==>
              && Kept(ks, key, visited, rules, n + 1) == Kept(ks, key, visited, rules, n)
              && Dropped(ks, key, visited, rules, n + 1) == Dropped(ks, key, visited, rules, n) + [n]
  {
  }

  lemma NothingYet(ks: Keyspace, key: string, visited: set<string>, rules: seq<Rule>, rest: seq<Rule>)
    ensures Dropped(ks, key, visited, rules, 0) == [] && Kept(ks, key, visited, rules, 0) == []
    ensures RemoveAll(rules[..0] + rest, []) == rest
  {
  }

  /** Removing the dropped rules from the back leaves the kept ones, and what follows them alone. */
  lemma {:induction false} RemovedAreDropped(
    ks: Keyspace, key: string, visited: set<string>, rules: seq<Rule>, n: nat, rest: seq<Rule>)
    requires n <= |rules|
    ensures RemoveAll(rules[..n] + rest, Dropped(ks, key, visited, rules, n)) == Kept(ks, key, visited, rules, n) + rest
  {
    hide Keeps, Kept, Dropped, RemoveAll, RemoveAt;
    if n == 0 {
      NothingYet(ks, key, visited, rules, rest);
    } else {
      var rule := rules[n - 1];
      var front := Kept(ks, key, visited, rules, n - 1);
      KeptOne(ks, key, visited, rules, n - 1);
      if Keeps(ks, key, visited, rules, n - 1) {
        RemovedAreDropped(ks, key, visited, rules, n - 1, [rule] + rest);
        assert rules[..n] + rest == rules[..n - 1] + ([rule] + rest);
        assert front + ([rule] + rest) == front + [rule] + rest;
      } else {
        RemovedAreDropped(ks, key, visited, rules, n - 1, rest);
        RemoveLast(rules[..n] + rest, Dropped(ks, key, visited, rules, n - 1), n - 1);
        RemoveMiddle(rules, n - 1, rest);
      }
    }
  }

  lemma RemoveMiddle<T>(xs: seq<T>, n: nat, rest: seq<T>)
    requires n < |xs|
    ensures RemoveAt(xs[..n + 1] + rest, n) == xs[..n] + rest
  {
  }

  /** The destinations opened so far: those of the first live rules. */
  ghost predicate OpenedSoFar(
    ks: Keyspace, key: string, visited: set<string>, rules: seq<Rule>, i: nat, open: set<string>)
    requires i <= |rules|
  {
    forall d :: d in open <==> d != key && d !in visited && LinksBack(ks, key, d) && HasRule(rules[..i], d)
  }

  /** `for &index in stale.iter().rev()`: what is removed later lies before what was removed. */
  method RemoveFromBack<T>(xs: seq<T>, indices: seq<nat>) returns (r: seq<T>)
    requires forall k :: 0 <= k < |indices| ==> indices[k] < |xs|
    requires forall k :: 0 < k < |indices| ==> indices[k - 1] < indices[k]
    ensures r == RemoveAll(xs, indices)
  {
    r := xs;
    var m := |indices|;
    assert indices[..m] == indices;
    while m > 0
      invariant 0 <= m <= |indices|
      invariant m > 0 ==> indices[m - 1] < |r|
      invariant RemoveAll(r, indices[..m]) == RemoveAll(xs, indices)
    {
      m := m - 1;
      assert indices[..m + 1] == indices[..m] + [indices[m]];
      RemoveLast(r, indices[..m], indices[m]);
      r := r[..indices[m]] + r[indices[m] + 1..];
    }
  }

  /** `get_compaction_series`: collect the positions to drop, then remove them from the back. */
  method PruneRules(ks: Keyspace, key: string, visited: set<string>, rules: seq<Rule>) returns (kept: seq<Rule>)
    ensures kept == Kept(ks, key, visited, rules, |rules|)
  {
    hide Keeps, Kept, Dropped, RemoveAll, OpenedSoFar;
    var open: set<string> := {};
    var stale: seq<nat> := [];
    NothingYet(ks, key, visited, rules, []);
    NoneOpened(ks, key, visited, rules);
    for i := 0 to |rules|
      invariant OpenedSoFar(ks, key, visited, rules, i, open)
      invariant stale == Dropped(ks, key, visited, rules, i)
    {
      var dest := rules[i].dest;
      OpenedStep(ks, key, visited, rules, i, open);
      KeptOne(ks, key, visited, rules, i);
      if dest == key || dest in visited {
      } else if dest in open {
        assert open + {dest} == open;
        stale := stale + [i];
      } else if dest in ks && ks[dest].src == Some(key) {
        open := open + {dest};
      } else {
        stale := stale + [i];
      }
    }
    RemovedAreDropped(ks, key, visited, rules, |rules|, []);
    assert rules[..|rules|] + [] == rules;
    kept := RemoveFromBack(rules, stale);
  }

  lemma NoneOpened(ks: Keyspace, key: string, visited: set<string>, rules: seq<Rule>)
    ensures OpenedSoFar(ks, key, visited, rules, 0, {})
  {
  }

  lemma OpenedStep(ks: Keyspace, key: string, visited: set<string>, rules: seq<Rule>, i: nat, open: set<string>)
    requires i < |rules| && OpenedSoFar(ks, key, visited, rules, i, open)
    ensures var dest := rules[i].dest;
            && Keeps(ks, key, visited, rules, i)
               == (dest == key || dest in visited || (LinksBack(ks, key, dest) && dest !in open))
            && OpenedSoFar(ks, key, visited, rules, i + 1,
                           if dest != key && dest !in visited && LinksBack(ks, key, dest) then open + {dest} else open)
  {
    forall d
      ensures HasRule(rules[..i + 1], d) <==> HasRule(rules[..i], d) || rules[i].dest == d
    {
      if HasRule(rules[..i], d) {
        var j :| 0 <= j < i && rules[..i][j].dest == d;
        assert rules[..i + 1][j].dest == d;
      }
      if HasRule(rules[..i + 1], d) {
        var j :| 0 <= j < i + 1 && rules[..i + 1][j].dest == d;
        if j < i { assert rules[..i][j].dest == d; }
      }
      assert rules[..i + 1][i].dest == rules[i].dest;
    }
    assert (forall j :: 0 <= j < i ==> rules[j].dest != rules[i].dest) <==> !HasRule(rules[..i], rules[i].dest) by {
      assert forall j :: 0 <= j < i ==> rules[..i][j] == rules[j];
    }
  }

  // -- what pruning keeps ---------------------------------------------------------------------------

  function Pruned(ks: Keyspace, key: string, visited: set<string>): Keyspace
    requires key in ks
  {
    ks[key := Series(Kept(ks, key, visited, ks[key].rules, |ks[key].rules|), ks[key].src)]
  }

  lemma DurationsOneMore(rules: seq<Rule>, rule: Rule, dest: string)
    ensures DurationsFor(rules + [rule], dest)
            == DurationsFor(rules, dest) + (if rule.dest == dest then [rule.bucketDuration] else [])
  {
    assert (rules + [rule])[..|rules|] == rules;
  }

  /** The durations kept for a destination that links back: all of them, while no destination is doubled. */
  lemma {:induction false} KeptDurations(
    ks: Keyspace, key: string, visited: set<string>, rules: seq<Rule>, n: nat, dest: string)
    requires n <= |rules| && NoDuplicates(rules) && LinksBack(ks, key, dest)
    ensures DurationsFor(Kept(ks, key, visited, rules, n), dest) == DurationsFor(rules[..n], dest)
  {
    if n > 0 {
      KeptDurations(ks, key, visited, rules, n - 1, dest);
      KeptOne(ks, key, visited, rules, n - 1);
      var front := Kept(ks, key, visited, rules, n - 1);
      DurationsOneMore(front, rules[n - 1], dest);
      DurationsOneMore(rules[..n - 1], rules[n - 1], dest);
      assert rules[..n] == rules[..n - 1] + [rules[n - 1]];
    }
  }

  lemma {:induction false} KeptDistinct(ks: Keyspace, key: string, visited: set<string>, rules: seq<Rule>, n: nat)
    requires n <= |rules| && NoDuplicates(rules)
    ensures NoDuplicates(Kept(ks, key, visited, rules, n))
    ensures forall r :: r in Kept(ks, key, visited, rules, n) <==>
                        exists i :: 0 <= i < n && rules[i] == r && Keeps(ks, key, visited, rules, i)
  {
    hide Keeps;
    if n > 0 {
      KeptDistinct(ks, key, visited, rules, n - 1);
      var front := Kept(ks, key, visited, rules, n - 1);
      assert forall r :: r in front ==> r.dest != rules[n - 1].dest;
    }
  }

  /**
   * In a sound keyspace pruning removes no live rule: every pair keeps its rules, and what is left
   * for a series the pass does not hold is live.
   */
  lemma PruningKeepsLive(ks: Keyspace, key: string, visited: set<string>)
    requires Sound(ks) && key in ks
    ensures Sound(Pruned(ks, key, visited))
    ensures forall a, b :: LiveRules(Pruned(ks, key, visited), a, b) == LiveRules(ks, a, b)
    ensures forall r :: r in Pruned(ks, key, visited)[key].rules && r.dest != key && r.dest !in visited ==>
                        Live(ks, key, r.dest)
  {
    hide Acyclic, NoDuplicates, Kept, Keeps, DurationsFor;
    var ks' := Pruned(ks, key, visited);
    var rules := ks[key].rules;
    KeptDistinct(ks, key, visited, rules, |rules|);
    forall a, b
      ensures LiveRules(ks', a, b) == LiveRules(ks, a, b)
    {
      if LinksBack(ks, key, b) {
        KeptDurations(ks, key, visited, rules, |rules|, b);
        assert rules[..|rules|] == rules;
      }
    }
    forall a, b
      ensures Live(ks', a, b) ==> Live(ks, a, b)
    {
      LiveMeansRules(ks', a, b);
      LiveMeansRules(ks, a, b);
    }
    FewerAcyclic(ks, ks');
    forall r | r in ks'[key].rules && r.dest != key && r.dest !in visited
      ensures Live(ks, key, r.dest)
    {
      KeptIsLive(ks, key, visited, r);
    }
  }

  lemma KeptIsLive(ks: Keyspace, key: string, visited: set<string>, r: Rule)
    requires key in ks && NoDuplicates(ks[key].rules)
    requires r in Pruned(ks, key, visited)[key].rules && r.dest != key && r.dest !in visited
    ensures Live(ks, key, r.dest)
  {
    var rules := ks[key].rules;
    KeptDistinct(ks, key, visited, rules, |rules|);
    var i :| 0 <= i < |rules| && rules[i] == r && Keeps(ks, key, visited, rules, i);
    assert rules[i].dest == r.dest;
  }
}
