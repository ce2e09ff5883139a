/**
 * RENAME of a series (`relink_renamed_series` in `src/series/compaction.rs`): its source's rule and
 * its destinations' links follow the new name. What stale rules and links already say about that
 * name is not looked at.
 */
module RuleRename {
  import opened Values
  import opened RuleGraph

  function Redirect(rules: seq<Rule>, from: string, to: string): (r: seq<Rule>)
    ensures |r| == |rules|
  {
    seq(|rules|, i requires 0 <= i < |rules| =>
      if rules[i].dest == from then Rule(to, rules[i].bucketDuration) else rules[i])
  }

  /** `RENAME from to`, whatever `to` held before. */
  function Renamed(ks: Keyspace, from: string, to: string): Keyspace
    requires from in ks && from != to
  {
    var s := ks[from];
    map k | k in (ks.Keys - {from}) + {to} ::
      if k == to then s
      else
        var rules := if s.src == Some(k) then Redirect(ks[k].rules, from, to) else ks[k].rules;
        Series(rules, if HasRule(s.rules, k) && ks[k].src == Some(from) then Some(to) else ks[k].src)
  }

  lemma RedirectedRules(rules: seq<Rule>, from: string, to: string, d: string)
    requires from != to
    ensures d != from && d != to ==> (HasRule(Redirect(rules, from, to), d) <==> HasRule(rules, d))
    ensures HasRule(Redirect(rules, from, to), to) <==> HasRule(rules, from) || HasRule(rules, to)
  {
    var r := Redirect(rules, from, to);
    forall i | 0 <= i < |rules|
      ensures r[i].dest == if rules[i].dest == from then to else rules[i].dest
    {
    }
  }

  function NewName(k: string, from: string, to: string): string { if k == from then to else k }

  function OldName(k: string, from: string, to: string): string { if k == to then from else k }

  /** Which rules are live afterwards, pair by pair. */
  lemma RenamedLive(ks: Keyspace, from: string, to: string, a: string, b: string)
    requires from in ks && from != to && a != to && b != to
    ensures var s, ks' := ks[from], Renamed(ks, from, to);
            && (a != from && b != from ==> (Live(ks', a, b) <==> Live(ks, a, b)))
            && (a != from ==> (Live(ks', a, to) <==>
                  a in ks && s.src == Some(a) && (HasRule(ks[a].rules, from) || HasRule(ks[a].rules, to))))
            && (b != from ==> (Live(ks', to, b) <==>
                  b in ks && HasRule(s.rules, b) && (ks[b].src == Some(from) || ks[b].src == Some(to))))
            && (Live(ks', to, to) <==> HasRule(s.rules, to) && s.src == Some(to))
            && !Live(ks', from, b) && !Live(ks', a, from) && !Live(ks', from, to) && !Live(ks', to, from)
  {
    hide HasRule, Redirect;
    if a in ks { RedirectedRules(ks[a].rules, from, to, b); }
  }

  // -- which rules follow ------------------------------------------------------------------------

  /** The durations of the rules for one destination, in the order of the list. */
  function DurationsFor(rules: seq<Rule>, dest: string): seq<int> {
    if rules == [] then []
    else
      var r := rules[|rules| - 1];
      DurationsFor(rules[..|rules| - 1], dest) + (if r.dest == dest then [r.bucketDuration] else [])
  }

  /** The rules by which `source` feeds `dest`: none unless `dest` links back. */
  function LiveRules(ks: Keyspace, source: string, dest: string): seq<int> {
    if source in ks && dest in ks && ks[dest].src == Some(source) then DurationsFor(ks[source].rules, dest) else []
  }

  lemma {:induction false} DurationsExist(rules: seq<Rule>, dest: string)
    ensures DurationsFor(rules, dest) == [] <==> !HasRule(rules, dest)
  {
    if rules != [] {
      var n := |rules| - 1;
      DurationsExist(rules[..n], dest);
      if HasRule(rules[..n], dest) {
        var i :| 0 <= i < n && rules[..n][i].dest == dest;
        assert rules[i].dest == dest;
      }
      if HasRule(rules, dest) && rules[n].dest != dest {
        var i :| 0 <= i < |rules| && rules[i].dest == dest;
        assert rules[..n][i].dest == dest;
      }
    }
  }

  /** A live rule is a rule that feeds. */
  lemma LiveMeansRules(ks: Keyspace, source: string, dest: string)
    ensures Live(ks, source, dest) <==> LiveRules(ks, source, dest) != []
  {
    if source in ks { DurationsExist(ks[source].rules, dest); }
  }

  lemma {:induction false} RedirectedDurations(rules: seq<Rule>, from: string, to: string, d: string)
    requires from != to
    ensures d != from && d != to ==> DurationsFor(Redirect(rules, from, to), d) == DurationsFor(rules, d)
    ensures |DurationsFor(Redirect(rules, from, to), to)| == |DurationsFor(rules, from)| + |DurationsFor(rules, to)|
    ensures !HasRule(rules, to) ==> DurationsFor(Redirect(rules, from, to), to) == DurationsFor(rules, from)
  {
    if rules != [] {
      var n := |rules| - 1;
      var front := rules[..n];
      RedirectedDurations(front, from, to, d);
      assert Redirect(rules, from, to)[..n] == Redirect(front, from, to);
      if !HasRule(rules, to) { NoRuleInFront(rules, to); }
    }
  }

  lemma NoRuleInFront(rules: seq<Rule>, d: string)
    requires rules != [] && !HasRule(rules, d)
    ensures !HasRule(rules[..|rules| - 1], d) && rules[|rules| - 1].dest != d
  {
    var n := |rules| - 1;
    assert forall i :: 0 <= i < n ==> rules[..n][i] == rules[i];
  }

  ghost predicate PairFollows(ks: Keyspace, from: string, to: string, a: string, b: string)
    requires from in ks && from != to
  {
    LiveRules(Renamed(ks, from, to), NewName(a, from, to), NewName(b, from, to)) == LiveRules(ks, a, b)
  }

  /** Every live rule is there again under the new name, the same rules in the same order, and no other. */
  ghost predicate FollowsName(ks: Keyspace, from: string, to: string)
    requires from in ks && from != to
  {
    forall a, b :: a != to && b != to ==> PairFollows(ks, from, to, a, b)
  }

  /**
   * Nothing about the new name waits at the renamed series or at the partners it names: not a link
   * and a rule of its own, not a rule at its source, not a link at a destination.
   */
  ghost predicate NoLeftovers(ks: Keyspace, from: string, to: string)
    requires from in ks
  {
    var s := ks[from];
    && !(HasRule(s.rules, to) && s.src == Some(to))
    && (forall a :: a in ks && a != from && a != to && s.src == Some(a) ==> !HasRule(ks[a].rules, to))
    && forall b :: b in ks && b != from && b != to && HasRule(s.rules, b) ==> ks[b].src != Some(to)
  }

  /** The live rules after a rename, list by list. */
  lemma RenamedRules(ks: Keyspace, from: string, to: string, a: string, b: string)
    requires from in ks && from != to && a != to && b != to
    ensures var s, ks' := ks[from], Renamed(ks, from, to);
            && (a != from && b != from ==> LiveRules(ks', a, b) == LiveRules(ks, a, b))
            && (a != from ==>
                  LiveRules(ks', a, to) ==
                  (if a in ks && s.src == Some(a) then DurationsFor(Redirect(ks[a].rules, from, to), to) else []))
            && (b != from ==>
                  LiveRules(ks', to, b) ==
                  (if b in ks && (ks[b].src == Some(from) || ks[b].src == Some(to)) then DurationsFor(s.rules, b) else []))
            && LiveRules(ks', to, to) == if s.src == Some(to) then DurationsFor(s.rules, to) else []
  {
    hide HasRule, Redirect, DurationsFor;
    if a in ks { RedirectedDurations(ks[a].rules, from, to, b); }
    DurationsExist(ks[from].rules, b);
  }

  lemma NotItself(ks: Keyspace, a: string)
    requires Acyclic(ks)
    ensures !Live(ks, a, a)
  {
    ReachesItself(ks, a);
  }

  lemma PairFollowsIff(ks: Keyspace, from: string, to: string, a: string, b: string)
    requires Sound(ks) && from in ks && from != to && a != to && b != to
    ensures var s := ks[from];
            && (a != from && b != from ==> PairFollows(ks, from, to, a, b))
            && (a != from && b == from ==>
                  (PairFollows(ks, from, to, a, b) <==> (a in ks && s.src == Some(a) ==> !HasRule(ks[a].rules, to))))
            && (a == from && b != from ==>
                  (PairFollows(ks, from, to, a, b) <==> (b in ks && HasRule(s.rules, b) ==> ks[b].src != Some(to))))
            && (a == from && b == from ==>
                  (PairFollows(ks, from, to, a, b) <==> !(HasRule(s.rules, to) && s.src == Some(to))))
  {
    hide HasRule, Redirect, Renamed, Acyclic, NoDuplicates, DurationsFor;
    RenamedRules(ks, from, to, a, b);
    DurationsExist(ks[from].rules, b);
    DurationsExist(ks[from].rules, to);
    NotItself(ks, from);
    LiveMeansRules(ks, from, from);
    if a in ks {
      RedirectedDurations(ks[a].rules, from, to, b);
      DurationsExist(ks[a].rules, to);
    }
  }

  /**
   * RENAME carries the live rules over to the new name, each with its duration and none twice,
   * exactly when nothing about that name is left behind.
   */
  lemma RenameFollowsIff(ks: Keyspace, from: string, to: string)
    requires Sound(ks) && from in ks && from != to
    ensures FollowsName(ks, from, to) <==> NoLeftovers(ks, from, to)
  {
    hide HasRule, Renamed, PairFollows, Sound;
    forall a, b | a != to && b != to { PairFollowsIff(ks, from, to, a, b); }
    if FollowsName(ks, from, to) {
      assert PairFollows(ks, from, to, from, from);
      forall a | a in ks && a != from && a != to && ks[from].src == Some(a)
        ensures !HasRule(ks[a].rules, to)
      {
        assert PairFollows(ks, from, to, a, from);
      }
      forall b | b in ks && b != from && b != to && HasRule(ks[from].rules, b)
        ensures ks[b].src != Some(to)
      {
        assert PairFollows(ks, from, to, from, b);
      }
    }
  }

  // -- when a rename keeps the keyspace sound --------------------------------------------------------

  /** The series that will feed the renamed one: it links there, and its rule names either key. */
  predicate WillFeed(ks: Keyspace, from: string, to: string, p: string)
    requires from in ks
  {
    && p in ks && p != from && p != to && ks[from].src == Some(p)
    && (HasRule(ks[p].rules, from) || HasRule(ks[p].rules, to))
  }

  /** The series the renamed one will feed: it has a rule for them, and they name either key. */
  predicate WillBeFed(ks: Keyspace, from: string, to: string, c: string)
    requires from in ks
  {
    && c in ks && c != from && c != to && HasRule(ks[from].rules, c)
    && (ks[c].src == Some(from) || ks[c].src == Some(to))
  }

  /** A rule and a link of its own under the new name, or live rules from a coming partner to the other. */
  ghost predicate ClosesCycle(ks: Keyspace, from: string, to: string)
    requires from in ks
  {
    || (HasRule(ks[from].rules, to) && ks[from].src == Some(to))
    || exists c, p :: WillBeFed(ks, from, to, c) && WillFeed(ks, from, to, p) && Reaches(ks - {from, to}, c, p)
  }

  lemma SamePaths(ks: Keyspace, ks': Keyspace, a: string, b: string)
    requires forall x, y :: Live(ks, x, y) <==> Live(ks', x, y)
    ensures Reaches(ks, a, b) <==> Reaches(ks', a, b)
  {
    hide Live;
    forall p
      ensures IsPath(ks, p) <==> IsPath(ks', p)
    {
    }
  }

  /** Away from both names a rename changes nothing. */
  lemma RenamedElsewhere(ks: Keyspace, from: string, to: string)
    requires from in ks && from != to
    ensures forall a, b :: Live(Renamed(ks, from, to) - {to}, a, b) <==> Live(ks - {from, to}, a, b)
  {
    hide Renamed, HasRule;
    var ks' := Renamed(ks, from, to);
    DeletedEdges(ks', to);
    DeletedEdges(ks, from);
    DeletedEdges(ks - {from}, to);
    assert ks - {from} - {to} == ks - {from, to};
    hide Live;
    forall a, b
      ensures Live(ks' - {to}, a, b) <==> Live(ks - {from, to}, a, b)
    {
      if a != to && b != to { RenamedLive(ks, from, to, a, b); }
    }
  }

  lemma CyclesAgree(ks: Keyspace, from: string, to: string)
    requires from in ks && from != to
    ensures CycleThrough(Renamed(ks, from, to), to) <==> ClosesCycle(ks, from, to)
  {
    hide Renamed, HasRule, Reaches, Live;
    var ks' := Renamed(ks, from, to);
    RenamedElsewhere(ks, from, to);
    RenamedLive(ks, from, to, from, from);
    forall c | c != to
      ensures Live(ks', to, c) <==> WillBeFed(ks, from, to, c)
      ensures Live(ks', c, to) <==> WillFeed(ks, from, to, c)
    {
      RenamedLive(ks, from, to, c, c);
      RenamedLive(ks, from, to, from, from);
    }
    forall c, p
      ensures Reaches(ks' - {to}, c, p) <==> Reaches(ks - {from, to}, c, p)
    {
      SamePaths(ks' - {to}, ks - {from, to}, c, p);
    }
  }

  /** Exactly when RENAME closes a cycle. */
  lemma RenameAcyclicIff(ks: Keyspace, from: string, to: string)
    requires Acyclic(ks) && from in ks && from != to
    ensures Acyclic(Renamed(ks, from, to)) <==> !ClosesCycle(ks, from, to)
  {
    hide Renamed, HasRule, Reaches, Live, Acyclic, ClosesCycle, CycleThrough;
    var ks' := Renamed(ks, from, to);
    RenamedElsewhere(ks, from, to);
    DeletedEdges(ks, from);
    DeletedEdges(ks - {from}, to);
    assert ks - {from} - {to} == ks - {from, to};
    FewerAcyclic(ks, ks' - {to});
    AcyclicAround(ks', to);
    CyclesAgree(ks, from, to);
  }

  /** The renamed series' source holds a rule for it and one, live or not, for the new name. */
  ghost predicate DoublesRule(ks: Keyspace, from: string, to: string)
    requires from in ks
  {
    exists p :: p in ks && p != from && p != to && ks[from].src == Some(p)
                && HasRule(ks[p].rules, from) && HasRule(ks[p].rules, to)
  }

  lemma RedirectDistinctIff(rules: seq<Rule>, from: string, to: string)
    requires NoDuplicates(rules) && from != to
    ensures NoDuplicates(Redirect(rules, from, to)) <==> !(HasRule(rules, from) && HasRule(rules, to))
  {
    var r := Redirect(rules, from, to);
    if HasRule(rules, from) && HasRule(rules, to) {
      var i :| 0 <= i < |rules| && rules[i].dest == from;
      var j :| 0 <= j < |rules| && rules[j].dest == to;
      assert r[i].dest == r[j].dest;
    }
  }

  /** Exactly when RENAME leaves two rules for one destination. */
  lemma RenameDistinctIff(ks: Keyspace, from: string, to: string)
    requires from in ks && from != to && forall k :: k in ks ==> NoDuplicates(ks[k].rules)
    ensures var ks' := Renamed(ks, from, to);
            (forall k :: k in ks' ==> NoDuplicates(ks'[k].rules)) <==> !DoublesRule(ks, from, to)
  {
    hide NoDuplicates, HasRule, Redirect;
    var ks' := Renamed(ks, from, to);
    forall p | p in ks { RedirectDistinctIff(ks[p].rules, from, to); }
    if DoublesRule(ks, from, to) {
      var p :| p in ks && p != from && p != to && ks[from].src == Some(p)
               && HasRule(ks[p].rules, from) && HasRule(ks[p].rules, to);
      assert !NoDuplicates(ks'[p].rules);
    }
  }

  ghost predicate SafeRename(ks: Keyspace, from: string, to: string)
    requires from in ks
  {
    !ClosesCycle(ks, from, to) && !DoublesRule(ks, from, to)
  }

  /** RENAME keeps a keyspace sound exactly when it closes no cycle and doubles no rule. */
  lemma RenameSoundIff(ks: Keyspace, from: string, to: string)
    requires Sound(ks) && from in ks && from != to
    ensures Sound(Renamed(ks, from, to)) <==> SafeRename(ks, from, to)
  {
    hide Renamed, Acyclic, NoDuplicates, ClosesCycle, DoublesRule;
    RenameAcyclicIff(ks, from, to);
    RenameDistinctIff(ks, from, to);
  }

  /** Without leftovers a rename is safe: the live rules are then the old ones. */
  lemma NoLeftoversIsSafe(ks: Keyspace, from: string, to: string)
    requires Sound(ks) && from in ks && from != to && NoLeftovers(ks, from, to)
    ensures SafeRename(ks, from, to)
  {
    hide HasRule, Reaches, Acyclic;
    if ClosesCycle(ks, from, to) {
      var c, p :| WillBeFed(ks, from, to, c) && WillFeed(ks, from, to, p) && Reaches(ks - {from, to}, c, p);
      assert Live(ks, from, c) && Live(ks, p, from);
      DeletedEdges(ks, from);
      DeletedEdges(ks - {from}, to);
      assert ks - {from} - {to} == ks - {from, to};
      FewerReaches(ks, ks - {from, to}, c, p);
      assert false by { RoundTrip(ks, from, c, p); }
    }
  }

  lemma FewerReaches(ks: Keyspace, ks': Keyspace, a: string, b: string)
    requires Fewer(ks, ks') && Reaches(ks', a, b)
    ensures Reaches(ks, a, b)
  {
    var p :| IsPath(ks', p) && p[0] == a && p[|p| - 1] == b;
    assert IsPath(ks, p);
  }

  lemma RoundTrip(ks: Keyspace, v: string, c: string, p: string)
    requires Live(ks, v, c) && Live(ks, p, v) && Reaches(ks, c, p)
    ensures !Acyclic(ks)
  {
    ReachesItself(ks, v);
    ReachesStep(ks, p, v, v);
    ReachesThrough(ks, c, p, v);
  }
}
