/**
 * Time-ordered streams: grouping by key, k-way merging, and what a head or tail limit keeps.
 * Streams are generic in their items; `key` reads an item's timestamp (or its bucket).
 */
module Timeline {

  ghost predicate Sorted<T>(key: T -> int, xs: seq<T>) {
    forall i, j :: 0 <= i < j < |xs| ==> key(xs[i]) <= key(xs[j])
  }

  ghost predicate Ascending<T>(key: T -> int, xs: seq<T>) {
    forall i, j :: 0 <= i < j < |xs| ==> key(xs[i]) < key(xs[j])
  }

  /** The items with key `k`, in order. */
  function With<T>(key: T -> int, k: int, xs: seq<T>): seq<T> {
    if xs == [] then []
    else (if key(xs[0]) == k then [xs[0]] else []) + With(key, k, xs[1..])
  }

  ghost predicate HasKey<T>(key: T -> int, k: int, xs: seq<T>) {
    exists i :: 0 <= i < |xs| && key(xs[i]) == k
  }

  lemma {:induction false} WithOfConcat<T>(key: T -> int, k: int, xs: seq<T>, ys: seq<T>)
    ensures With(key, k, xs + ys) == With(key, k, xs) + With(key, k, ys)
  {
    hide With;
    if xs == [] {
      assert xs + ys == ys;
      WithNone(key, k, xs);
    } else {
      assert (xs + ys)[1..] == xs[1..] + ys;
      WithOfConcat(key, k, xs[1..], ys);
      WithHead(key, k, xs);
      WithHead(key, k, xs + ys);
    }
  }

  lemma {:induction false} WithAll<T>(key: T -> int, k: int, xs: seq<T>)
    requires forall i :: 0 <= i < |xs| ==> key(xs[i]) == k
    ensures With(key, k, xs) == xs
  {
    if xs != [] { WithAll(key, k, xs[1..]); }
  }

  lemma {:induction false} WithNone<T>(key: T -> int, k: int, xs: seq<T>)
    ensures With(key, k, xs) == [] <==> !HasKey(key, k, xs)
  {
    if xs != [] {
      WithNone(key, k, xs[1..]);
      if key(xs[0]) == k {
        assert HasKey(key, k, xs);
      } else if HasKey(key, k, xs) {
        var i :| 0 <= i < |xs| && key(xs[i]) == k;
        assert key(xs[1..][i - 1]) == k;
      }
    }
  }

  function Where<T>(keep: T -> bool, xs: seq<T>): seq<T> {
    if xs == [] then [] else (if keep(xs[0]) then [xs[0]] else []) + Where(keep, xs[1..])
  }

  lemma {:induction false} WhereMembers<T>(keep: T -> bool, xs: seq<T>)
    ensures forall x :: x in Where(keep, xs) ==> x in xs && keep(x)
    ensures forall x :: x in xs && keep(x) ==> x in Where(keep, xs)
  {
    if xs != [] { WhereMembers(keep, xs[1..]); }
  }

  lemma {:induction false} WhereAscends<T>(key: T -> int, keep: T -> bool, xs: seq<T>)
    requires Ascending(key, xs)
    ensures Ascending(key, Where(keep, xs))
  {
    if xs != [] {
      var tail := xs[1..];
      var rest := Where(keep, tail);
      WhereAscends(key, keep, tail);
      WhereMembers(keep, tail);
      forall i | 0 <= i < |rest|
        ensures key(xs[0]) < key(rest[i])
      {
        var x := rest[i];
        assert x in rest;
        assert x in tail;
      }
    }
  }

  // -- consecutive groups ---------------------------------------------------------------

  /** Length of the leading stretch of items that share the first item's key. */
  function RunLength<T>(key: T -> int, xs: seq<T>): (n: nat)
    requires xs != []
    ensures 1 <= n <= |xs|
    ensures forall i :: 0 <= i < n ==> key(xs[i]) == key(xs[0])
    ensures n < |xs| ==> key(xs[n]) != key(xs[0])
  {
    if |xs| == 1 || key(xs[1]) != key(xs[0]) then 1 else 1 + RunLength(key, xs[1..])
  }

  /** Split a stream into its maximal stretches of equal key. */
  function Runs<T>(key: T -> int, xs: seq<T>): seq<(int, seq<T>)> {
    if xs == [] then []
    else
      var n := RunLength(key, xs);
      [(key(xs[0]), xs[..n])] + Runs(key, xs[n..])
  }

  lemma RunsOfGroup<T>(key: T -> int, k: int, g: seq<T>, rest: seq<T>)
    requires g != [] && forall i :: 0 <= i < |g| ==> key(g[i]) == k
    requires rest == [] || key(rest[0]) != k
    ensures Runs(key, g + rest) == [(k, g)] + Runs(key, rest)
  {
    var xs := g + rest;
    var n := RunLength(key, xs);
    assert n < |xs| ==> key(xs[n]) != k;
    assert |g| < |xs| ==> key(xs[|g|]) != k;
    assert n == |g|;
    assert xs[..n] == g && xs[n..] == rest;
  }

  function RunKey<T>(run: (int, seq<T>)): int { run.0 }

  /** Peeling the first run off a sorted stream. */
  lemma FirstRun<T>(key: T -> int, xs: seq<T>, n: nat)
    requires Sorted(key, xs) && xs != []
    requires n == RunLength(key, xs)
    ensures Sorted(key, xs[n..])
    ensures forall i :: 0 <= i < |xs[n..]| ==> key(xs[0]) < key(xs[n..][i])
    ensures With(key, key(xs[0]), xs) == xs[..n]
    ensures forall k :: k != key(xs[0]) ==> With(key, k, xs) == With(key, k, xs[n..])
  {
    hide With, RunLength;
    var k0, head, tail := key(xs[0]), xs[..n], xs[n..];
    assert xs == head + tail;
    forall i | 0 <= i < |tail|
      ensures k0 < key(tail[i])
    {
      assert key(xs[0]) <= key(xs[n]);
      if i > 0 { assert key(xs[n]) <= key(xs[n + i]); }
    }
    WithOfConcat(key, k0, head, tail);
    WithAll(key, k0, head);
    WithNone(key, k0, tail);
    forall k | k != k0
      ensures With(key, k, xs) == With(key, k, tail)
    {
      WithOfConcat(key, k, head, tail);
      WithNone(key, k, head);
      assert [] + With(key, k, tail) == With(key, k, tail);
    }
  }

  /** On a sorted stream the run keys ascend, from the first item's key. */
  lemma {:induction false} RunsAscend<T>(key: T -> int, xs: seq<T>)
    requires Sorted(key, xs)
    ensures Ascending(RunKey, Runs(key, xs))
    ensures forall i :: 0 <= i < |Runs(key, xs)| ==> key(xs[0]) <= RunKey(Runs(key, xs)[i])
  {
    hide With, RunLength;
    if xs != [] {
      var n := RunLength(key, xs);
      FirstRun(key, xs, n);
      RunsAscend(key, xs[n..]);
      assert Runs(key, xs) == [(key(xs[0]), xs[..n])] + Runs(key, xs[n..]);
    }
  }

  /** Each run of a sorted stream is the whole group of its key. */
  lemma {:induction false} RunIsGroup<T>(key: T -> int, xs: seq<T>, i: nat)
    requires Sorted(key, xs)
    requires i < |Runs(key, xs)|
    ensures var (k, g) := Runs(key, xs)[i];
            g != [] && g == With(key, k, xs)
  {
    hide With, RunLength;
    var n := RunLength(key, xs);
    FirstRun(key, xs, n);
    if i > 0 {
      RunsAscend(key, xs);
      assert Runs(key, xs)[i] == Runs(key, xs[n..])[i - 1];
      assert RunKey(Runs(key, xs)[0]) < RunKey(Runs(key, xs)[i]);
      RunIsGroup(key, xs[n..], i - 1);
    }
  }

  lemma HasNoKey<T>(key: T -> int, k: int)
    ensures !HasKey(key, k, [])
  {
  }

  lemma HasOneKey<T>(key: T -> int, xs: seq<T>, k: int, only: int)
    requires xs != [] && forall i :: 0 <= i < |xs| ==> key(xs[i]) == only
    ensures HasKey(key, k, xs) <==> k == only
  {
    assert key(xs[0]) == only;
  }

  /** The run keys are exactly the keys that occur. */
  lemma {:induction false} RunKeysOccur<T>(key: T -> int, xs: seq<T>, k: int)
    requires Sorted(key, xs)
    ensures HasKey(RunKey, k, Runs(key, xs)) <==> HasKey(key, k, xs)
  {
    hide RunLength, With, HasKey;
    if xs == [] {
      HasNoKey(key, k);
      HasNoKey<(int, seq<T>)>(RunKey, k);
    } else {
      var n := RunLength(key, xs);
      FirstRun(key, xs, n);
      RunKeysOccur(key, xs[n..], k);
      assert xs == xs[..n] + xs[n..];
      var first := [(key(xs[0]), xs[..n])];
      HasKeyOfConcat(key, k, xs[..n], xs[n..]);
      HasKeyOfConcat(RunKey, k, first, Runs(key, xs[n..]));
      HasOneKey(key, xs[..n], k, key(xs[0]));
      HasOneKey(RunKey, first, k, key(xs[0]));
    }
  }

  lemma HasKeyOfConcat<T>(key: T -> int, k: int, xs: seq<T>, ys: seq<T>)
    ensures HasKey(key, k, xs + ys) <==> HasKey(key, k, xs) || HasKey(key, k, ys)
  {
    if HasKey(key, k, xs) {
      var i :| 0 <= i < |xs| && key(xs[i]) == k;
      assert key((xs + ys)[i]) == k;
    }
    if HasKey(key, k, ys) {
      var i :| 0 <= i < |ys| && key(ys[i]) == k;
      assert key((xs + ys)[|xs| + i]) == k;
    }
  }

  // -- k-way merge ---------------------------------------------------------------------

  function Total<T>(lists: seq<seq<T>>): nat {
    if lists == [] then 0 else Total(lists[..|lists| - 1]) + |lists[|lists| - 1]|
  }

  /** The source to take from next: least head, ties to the earlier source; -1 when drained. */
  function Next<T>(key: T -> int, lists: seq<seq<T>>): (i: int)
    ensures -1 <= i < |lists|
    ensures i == -1 ==> forall j :: 0 <= j < |lists| ==> lists[j] == []
    ensures i >= 0 ==>
              && lists[i] != []
              && forall j :: 0 <= j < |lists| && lists[j] != [] ==>
                   if j < i then key(lists[i][0]) < key(lists[j][0])
                   else key(lists[i][0]) <= key(lists[j][0])
  {
    if lists == [] then -1
    else
      var n := |lists| - 1;
      var i := Next(key, lists[..n]);
      assert i >= 0 ==> lists[..n][i] == lists[i];
      assert forall j :: 0 <= j < n ==> lists[..n][j] == lists[j];
      if lists[n] == [] then i
      else if i == -1 || key(lists[n][0]) < key(lists[i][0]) then n
      else i
  }

  lemma {:induction false} TotalWithoutHead<T>(lists: seq<seq<T>>, i: nat)
    requires i < |lists| && lists[i] != []
    ensures Total(lists[i := lists[i][1..]]) == Total(lists) - 1
  {
    var n := |lists| - 1;
    var popped := lists[i := lists[i][1..]];
    if i < n {
      TotalWithoutHead(lists[..n], i);
      assert popped[..n] == lists[..n][i := lists[i][1..]];
    } else {
      assert popped[..n] == lists[..n];
    }
  }

  /** `MultiSeriesSampleIter`/`MultiSeriesRowIter`: repeatedly emit the least pending item. */
  function KMerge<T>(key: T -> int, lists: seq<seq<T>>): seq<T>
    decreases Total(lists)
  {
    var i := Next(key, lists);
    if i == -1 then []
    else
      TotalWithoutHead(lists, i);
      [lists[i][0]] + KMerge(key, lists[i := lists[i][1..]])
  }

  /** The items with key `k` of every list, list after list. */
  function WithIn<T>(key: T -> int, k: int, lists: seq<seq<T>>): seq<T> {
    if lists == [] then []
    else WithIn(key, k, lists[..|lists| - 1]) + With(key, k, lists[|lists| - 1])
  }

  lemma {:induction false} WithInNone<T>(key: T -> int, k: int, lists: seq<seq<T>>)
    requires forall j :: 0 <= j < |lists| ==> With(key, k, lists[j]) == []
    ensures WithIn(key, k, lists) == []
  {
    if lists != [] { WithInNone(key, k, lists[..|lists| - 1]); }
  }

  lemma WithHead<T>(key: T -> int, k: int, xs: seq<T>)
    requires xs != []
    ensures With(key, k, xs) == (if key(xs[0]) == k then [xs[0]] else []) + With(key, k, xs[1..])
  {
  }

  lemma {:induction false} WithInPop<T>(key: T -> int, k: int, lists: seq<seq<T>>, i: nat)
    requires i < |lists| && lists[i] != []
    requires key(lists[i][0]) == k ==> forall j :: 0 <= j < i ==> With(key, k, lists[j]) == []
    ensures WithIn(key, k, lists)
            == (if key(lists[i][0]) == k then [lists[i][0]] else [])
               + WithIn(key, k, lists[i := lists[i][1..]])
  {
    hide With;
    var n := |lists| - 1;
    var popped := lists[i := lists[i][1..]];
    var h := if key(lists[i][0]) == k then [lists[i][0]] else [];
    if i < n {
      WithInPop(key, k, lists[..n], i);
      assert popped[..n] == lists[..n][i := lists[i][1..]];
      assert popped[n] == lists[n];
    } else {
      assert popped[..n] == lists[..n];
      WithHead(key, k, lists[n]);
      if key(lists[i][0]) == k { WithInNone(key, k, lists[..n]); }
    }
  }

  lemma SortedTail<T>(key: T -> int, lists: seq<seq<T>>, i: nat)
    requires i < |lists| && lists[i] != []
    requires forall j :: 0 <= j < |lists| ==> Sorted(key, lists[j])
    ensures var popped := lists[i := lists[i][1..]];
            forall j :: 0 <= j < |popped| ==> Sorted(key, popped[j])
  {
  }

  /** The merge is stable: at each key it yields the sources' items, source after source. */
  lemma {:induction false} KMergeStable<T>(key: T -> int, k: int, lists: seq<seq<T>>)
    requires forall j :: 0 <= j < |lists| ==> Sorted(key, lists[j])
    ensures With(key, k, KMerge(key, lists)) == WithIn(key, k, lists)
    decreases Total(lists)
  {
    var i := Next(key, lists);
    if i == -1 {
      WithInNone(key, k, lists);
    } else {
      var popped := lists[i := lists[i][1..]];
      TotalWithoutHead(lists, i);
      SortedTail(key, lists, i);
      KMergeStable(key, k, popped);
      forall j | 0 <= j < i && key(lists[i][0]) == k
        ensures With(key, k, lists[j]) == []
      {
        WithNone(key, k, lists[j]);
      }
      WithInPop(key, k, lists, i);
    }
  }

  lemma {:induction false} KMergeSorted<T>(key: T -> int, lists: seq<seq<T>>, low: int)
    requires forall j :: 0 <= j < |lists| ==> Sorted(key, lists[j])
    requires forall j :: 0 <= j < |lists| && lists[j] != [] ==> low <= key(lists[j][0])
    ensures Sorted(key, KMerge(key, lists))
    ensures forall p :: 0 <= p < |KMerge(key, lists)| ==> low <= key(KMerge(key, lists)[p])
    decreases Total(lists)
  {
    var i := Next(key, lists);
    if i != -1 {
      var popped := lists[i := lists[i][1..]];
      TotalWithoutHead(lists, i);
      SortedTail(key, lists, i);
      KMergeSorted(key, popped, key(lists[i][0]));
    }
  }

  // -- ascending streams are determined by their contents --------------------------------

  ghost predicate Within<T>(part: seq<T>, whole: seq<T>) {
    forall i :: 0 <= i < |part| ==> part[i] in whole
  }

  /** An item of a sub-stream sits no later in it than in the whole. */
  lemma {:induction false} PositionFromStart<T>(key: T -> int, part: seq<T>, whole: seq<T>, i: nat, p: nat)
    requires Ascending(key, part) && Ascending(key, whole) && Within(part, whole)
    requires i < |part| && p < |whole| && part[i] == whole[p]
    ensures i <= p
  {
    if i > 0 {
      assert part[i - 1] in whole;
      var q :| 0 <= q < |whole| && whole[q] == part[i - 1];
      PositionFromStart(key, part, whole, i - 1, q);
      assert key(part[i - 1]) < key(part[i]);
    }
  }

  /** The same, counted from the end. */
  lemma {:induction false} PositionFromEnd<T>(key: T -> int, part: seq<T>, whole: seq<T>, i: nat, p: nat)
    requires Ascending(key, part) && Ascending(key, whole) && Within(part, whole)
    requires i < |part| && p < |whole| && part[i] == whole[p]
    ensures |part| - i <= |whole| - p
    decreases |part| - i
  {
    if i + 1 < |part| {
      assert part[i + 1] in whole;
      var q :| 0 <= q < |whole| && whole[q] == part[i + 1];
      PositionFromEnd(key, part, whole, i + 1, q);
      assert key(part[i]) < key(part[i + 1]);
    }
  }

  lemma WithinIsShorter<T>(key: T -> int, part: seq<T>, whole: seq<T>)
    requires Ascending(key, part) && Ascending(key, whole) && Within(part, whole)
    ensures |part| <= |whole|
  {
    if part != [] {
      var i := |part| - 1;
      assert part[i] in whole;
      var p :| 0 <= p < |whole| && whole[p] == part[i];
      PositionFromStart(key, part, whole, i, p);
    }
  }

  lemma SameLengthWithin<T>(key: T -> int, part: seq<T>, whole: seq<T>)
    requires Ascending(key, part) && Ascending(key, whole) && Within(part, whole)
    requires |part| == |whole|
    ensures part == whole
  {
    forall i | 0 <= i < |part|
      ensures part[i] == whole[i]
    {
      assert part[i] in whole;
      var p :| 0 <= p < |whole| && whole[p] == part[i];
      PositionFromStart(key, part, whole, i, p);
      PositionFromEnd(key, part, whole, i, p);
    }
  }

  lemma AscendingUnique<T>(key: T -> int, xs: seq<T>, ys: seq<T>)
    requires Ascending(key, xs) && Ascending(key, ys)
    requires Within(xs, ys) && Within(ys, xs)
    ensures xs == ys
  {
    WithinIsShorter(key, xs, ys);
    WithinIsShorter(key, ys, xs);
    SameLengthWithin(key, xs, ys);
  }

  // -- COUNT push-down ------------------------------------------------------------------

  function Head<T>(n: nat, xs: seq<T>): seq<T> { if n <= |xs| then xs[..n] else xs }

  function Tail<T>(n: nat, xs: seq<T>): seq<T> { if n <= |xs| then xs[|xs| - n..] else xs }

  /** `SampleLimit`: a reverse query needs the last `n` of an ascending stream. */
  function Keep<T>(fromEnd: bool, n: nat, xs: seq<T>): seq<T> {
    if fromEnd then Tail(n, xs) else Head(n, xs)
  }

  /** What the limit keeps of the whole, it keeps of every part that has it. */
  lemma KeptByPart<T>(key: T -> int, fromEnd: bool, n: nat, part: seq<T>, whole: seq<T>, x: T)
    requires Ascending(key, part) && Ascending(key, whole) && Within(part, whole)
    requires x in Keep(fromEnd, n, whole) && x in part
    ensures x in Keep(fromEnd, n, part)
  {
    var kept := Keep(fromEnd, n, whole);
    var k :| 0 <= k < |kept| && kept[k] == x;
    var i :| 0 <= i < |part| && part[i] == x;
    if fromEnd {
      var p := |whole| - |kept| + k;
      assert whole[p] == x;
      PositionFromEnd(key, part, whole, i, p);
      assert n < |part| ==> Tail(n, part)[i - (|part| - n)] == x;
    } else {
      assert whole[k] == x;
      PositionFromStart(key, part, whole, i, k);
      assert n < |part| ==> Head(n, part)[i] == x;
    }
  }

  lemma KeepAscends<T>(key: T -> int, fromEnd: bool, n: nat, xs: seq<T>)
    requires Ascending(key, xs)
    ensures Ascending(key, Keep(fromEnd, n, xs)) && Within(Keep(fromEnd, n, xs), xs)
  {
  }

  /** A stream holding everything the limit keeps, and nothing else, is kept the same. */
  lemma KeepOfBetween<T>(key: T -> int, fromEnd: bool, n: nat, some: seq<T>, whole: seq<T>)
    requires Ascending(key, some) && Ascending(key, whole)
    requires Within(some, whole) && Within(Keep(fromEnd, n, whole), some)
    ensures Keep(fromEnd, n, some) == Keep(fromEnd, n, whole)
  {
    var kept, short := Keep(fromEnd, n, whole), Keep(fromEnd, n, some);
    KeepAscends(key, fromEnd, n, whole);
    KeepAscends(key, fromEnd, n, some);
    WithinIsShorter(key, some, whole);
    WithinIsShorter(key, kept, some);
    forall i | 0 <= i < |kept|
      ensures kept[i] in short
    {
      KeptByPart(key, fromEnd, n, some, whole, kept[i]);
    }
    // The same length, and one within the other.
    assert |short| == |kept|;
    SameLengthWithin(key, kept, short);
  }

  // -- timestamps of a stream ---------------------------------------------------------------

  function Identity(k: int): int { k }

  function Times<T>(key: T -> int, xs: seq<T>): (ts: seq<int>)
    ensures |ts| == |xs|
  {
    seq(|xs|, i requires 0 <= i < |xs| => key(xs[i]))
  }

  lemma TimesAscend<T>(key: T -> int, xs: seq<T>)
    requires Ascending(key, xs)
    ensures Ascending(Identity, Times(key, xs))
  {
    var ts := Times(key, xs);
    forall i, j | 0 <= i < j < |ts|
      ensures Identity(ts[i]) < Identity(ts[j])
    {
      assert key(xs[i]) < key(xs[j]);
    }
  }

  lemma TimesMembers<T>(key: T -> int, xs: seq<T>, k: int)
    ensures k in Times(key, xs) <==> HasKey(key, k, xs)
  {
    var ts := Times(key, xs);
    if k in ts {
      var i :| 0 <= i < |ts| && ts[i] == k;
      assert key(xs[i]) == k;
    }
    if HasKey(key, k, xs) {
      var i :| 0 <= i < |xs| && key(xs[i]) == k;
      assert ts[i] == k;
    }
  }

  lemma TimesOfKeep<T>(key: T -> int, fromEnd: bool, n: nat, xs: seq<T>)
    ensures Times(key, Keep(fromEnd, n, xs)) == Keep(fromEnd, n, Times(key, xs))
  {
  }

  /** An ascending stream has one item per key. */
  lemma {:induction false} WithSingle<T>(key: T -> int, xs: seq<T>, i: nat)
    requires Ascending(key, xs) && i < |xs|
    ensures With(key, key(xs[i]), xs) == [xs[i]]
  {
    hide With;
    var k := key(xs[i]);
    WithHead(key, k, xs);
    var tail := xs[1..];
    if i == 0 {
      WithNone(key, k, tail);
      assert forall j :: 0 <= j < |tail| ==> tail[j] == xs[j + 1];
    } else {
      forall a, b | 0 <= a < b < |tail|
        ensures key(tail[a]) < key(tail[b])
      {
        assert key(xs[a + 1]) < key(xs[b + 1]);
      }
      assert key(xs[0]) < key(xs[i]);
      WithSingle(key, tail, i - 1);
    }
  }
}
