/** The order in which an application's components are converged. */
module Topology {
  import opened StringOrder
  import opened Lists

  /** For every component, the components it is known to depend on. */
  type Graph = map<string, set<string>>

  ghost predicate Closed(g: Graph) {
    forall n :: n in g ==> g[n] <= g.Keys
  }

  /** A dependency chain: each component depends on the next. */
  ghost predicate Chain(g: Graph, c: seq<string>) {
    && c != []
    && (forall i :: 0 <= i < |c| ==> c[i] in g)
    && forall i :: 0 <= i < |c| - 1 ==> c[i + 1] in g[c[i]]
  }

  ghost predicate Cycle(g: Graph, c: seq<string>) {
    Chain(g, c) && |c| >= 2 && c[0] == c[|c| - 1]
  }

  ghost predicate HasCycle(g: Graph) {
    exists c :: Cycle(g, c)
  }

  ghost predicate ChainFrom(g: Graph, n: string, c: seq<string>) {
    Chain(g, c) && c[0] == n
  }

  /** `r` components are on the longest dependency chain that starts at `n`. */
  ghost predicate Longest(g: Graph, n: string, r: nat) {
    && (exists c :: ChainFrom(g, n, c) && |c| == r)
    && (forall c :: ChainFrom(g, n, c) ==> |c| <= r)
  }

  /** Components are taken by longest dependency chain, then by name. */
  ghost predicate Before(g: Graph, a: string, b: string) {
    exists x, y :: Longest(g, a, x) && Longest(g, b, y) && (x < y || (x == y && Less(a, b)))
  }

  ghost predicate Ordered(g: Graph, s: seq<string>) {
    Elements(s) == g.Keys && forall i, j :: 0 <= i < j < |s| ==> Before(g, s[i], s[j])
  }

  lemma ExtendChain(g: Graph, n: string, rest: seq<string>)
    requires Chain(g, rest) && n in g && rest[0] in g[n]
    ensures ChainFrom(g, n, [n] + rest)
  {
    var c := [n] + rest;
    forall i | 0 <= i < |c| - 1 ensures c[i + 1] in g[c[i]] {
      if i > 0 { assert rest[i - 1 + 1] in g[rest[i - 1]]; }
    }
  }

  lemma SubChain(g: Graph, c: seq<string>, i: nat, j: nat)
    requires Chain(g, c) && i < j <= |c|
    ensures Chain(g, c[i..j])
  {
    var d := c[i..j];
    forall k | 0 <= k < |d| - 1 ensures d[k + 1] in g[d[k]] {
      assert c[i + k + 1] in g[c[i + k]];
    }
  }

  // ---- the components removed in the first rounds ----

  ghost function Done(g: Graph, k: nat): set<string> {
    if k == 0 then {} else set n | n in g && g[n] <= Done(g, k - 1)
  }

  lemma {:induction false} DoneGrows(g: Graph, k: nat)
    ensures Done(g, k) <= Done(g, k + 1) <= g.Keys
  {
    if k > 0 { DoneGrows(g, k - 1); }
  }

  lemma {:induction false} DoneBounds(g: Graph, k: nat, c: seq<string>)
    requires Chain(g, c) && c[0] in Done(g, k)
    ensures |c| <= k
  {
    if |c| > 1 {
      assert c[0 + 1] in g[c[0]];
      SubChain(g, c, 1, |c|);
      assert c[1..|c|] == c[1..];
      DoneBounds(g, k - 1, c[1..]);
    }
  }

  lemma {:induction false} NotDoneChain(g: Graph, k: nat, n: string) returns (c: seq<string>)
    requires Closed(g) && n in g && n !in Done(g, k)
    ensures ChainFrom(g, n, c) && |c| == k + 1
  {
    if k == 0 {
      c := [n];
    } else {
      var d :| d in g[n] && d !in Done(g, k - 1);
      var rest := NotDoneChain(g, k - 1, d);
      ExtendChain(g, n, rest);
      c := [n] + rest;
    }
  }

  /** A component removed in round k + 1 has k + 1 components on its longest chain. */
  lemma RoundIsRank(g: Graph, k: nat, n: string)
    requires Closed(g) && n in Done(g, k + 1) && n !in Done(g, k)
    ensures Longest(g, n, k + 1)
  {
    var c := NotDoneChain(g, k, n);
    forall c | ChainFrom(g, n, c) ensures |c| <= k + 1 {
      DoneBounds(g, k + 1, c);
    }
  }

  /** Nothing on a cycle is ever removed. */
  lemma {:induction false} CycleNotDone(g: Graph, k: nat, c: seq<string>, i: nat)
    requires Cycle(g, c) && i < |c|
    ensures c[i] !in Done(g, k)
    decreases k
  {
    if k > 0 {
      var j := if i == |c| - 1 then 0 else i;
      assert c[j] == c[i] && c[j + 1] in g[c[j]];
      CycleNotDone(g, k - 1, c, j + 1);
    }
  }

  // ---- a set in which everything depends on something in it has a cycle ----

  lemma {:induction false} LongChain(g: Graph, stuck: set<string>, n: string, length: nat) returns (c: seq<string>)
    requires stuck <= g.Keys && n in stuck
    requires forall m :: m in stuck ==> g[m] * stuck != {}
    ensures ChainFrom(g, n, c) && |c| == length + 1 && forall i :: 0 <= i < |c| ==> c[i] in stuck
    decreases length
  {
    if length == 0 {
      c := [n];
    } else {
      var d :| d in g[n] * stuck;
      var rest := LongChain(g, stuck, d, length - 1);
      ExtendChain(g, n, rest);
      c := [n] + rest;
    }
  }

  /** More places than values: two places share a value. */
  lemma {:induction false} Pigeonhole(c: seq<string>, values: set<string>) returns (i: nat, j: nat)
    requires |c| > |values| && forall k :: 0 <= k < |c| ==> c[k] in values
    ensures i < j < |c| && c[i] == c[j]
    decreases |values|
  {
    var last := c[|c| - 1];
    if k :| 0 <= k < |c| - 1 && c[k] == last {
      i, j := k, |c| - 1;
    } else {
      i, j := Pigeonhole(c[..|c| - 1], values - {last});
    }
  }

  lemma StuckCycle(g: Graph, stuck: set<string>)
    requires stuck <= g.Keys && stuck != {}
    requires forall m :: m in stuck ==> g[m] * stuck != {}
    ensures HasCycle(g)
  {
    var n :| n in stuck;
    var c := LongChain(g, stuck, n, |stuck|);
    var i, j := Pigeonhole(c, stuck);
    SubChain(g, c, i, j + 1);
    assert Cycle(g, c[i..j + 1]);
  }

  // ---- the algorithm ----

  /** The dependencies of a component that name components. */
  function Known(n: string, names: seq<string>, dependencies: map<string, seq<string>>): set<string> {
    if n in dependencies then set d | d in dependencies[n] && d in names else {}
  }

  function KnownGraph(names: seq<string>, dependencies: map<string, seq<string>>): Graph {
    map n | n in names :: Known(n, names, dependencies)
  }

  function Unknown(names: seq<string>, dependencies: map<string, seq<string>>): set<(string, string)> {
    set n, d | n in names && n in dependencies && d in dependencies[n] && d !in names :: (n, d)
  }

  /** One component's dependencies, split into known ones and reports of unknown ones. */
  method SplitDependencies(name: string, names: seq<string>, dependencies: seq<string>)
    returns (known: set<string>, unknown: set<(string, string)>)
    ensures known == set d | d in dependencies && d in names
    ensures unknown == set d | d in dependencies && d !in names :: (name, d)
  {
    known, unknown := {}, {};
    for i := 0 to |dependencies|
      invariant known == set d | d in dependencies[..i] && d in names
      invariant unknown == set d | d in dependencies[..i] && d !in names :: (name, d)
    {
      assert dependencies[..i + 1] == dependencies[..i] + [dependencies[i]];
      if dependencies[i] !in names {
        unknown := unknown + {(name, dependencies[i])};
      } else {
        known := known + {dependencies[i]};
      }
    }
    assert dependencies[..|dependencies|] == dependencies;
  }

  method BuildGraph(names: seq<string>, dependencies: map<string, seq<string>>)
    returns (remaining: Graph, unknown: set<(string, string)>)
    ensures remaining == KnownGraph(names, dependencies)
    ensures unknown == Unknown(names, dependencies)
  {
    remaining, unknown := map[], {};
    for i := 0 to |names|
      invariant remaining == map n | n in names[..i] :: Known(n, names, dependencies)
      invariant unknown
             == set n, d | n in names[..i] && n in dependencies && d in dependencies[n] && d !in names :: (n, d)
    {
      assert names[..i + 1] == names[..i] + [names[i]];
      var listed := if names[i] in dependencies then dependencies[names[i]] else [];
      var known, reports := SplitDependencies(names[i], names, listed);
      assert known == Known(names[i], names, dependencies);
      remaining := remaining[names[i] := known];
      unknown := unknown + reports;
    }
    assert names[..|names|] == names;
  }

  /** What is left after `k` rounds. */
  ghost function Left(g: Graph, k: nat): Graph {
    Minus(g, Done(g, k))
  }

  /** The list so far: what the first `k` rounds removed, in order. */
  ghost predicate Rounds(g: Graph, k: nat, ordered: seq<string>, ranks: seq<nat>) {
    && |ranks| == |ordered|
    && Elements(ordered) == Done(g, k)
    && (forall i :: 0 <= i < |ordered| ==> Longest(g, ordered[i], ranks[i]) && ranks[i] <= k)
    && forall i, j :: 0 <= i < j < |ordered| ==>
         ranks[i] < ranks[j] || (ranks[i] == ranks[j] && Less(ordered[i], ordered[j]))
  }

  lemma NextRound(g: Graph, k: nat, ordered: seq<string>, ranks: seq<nat>, ready: seq<string>)
    requires Closed(g) && Rounds(g, k, ordered, ranks)
    requires Ascending(ready) && Elements(ready) == Done(g, k + 1) - Done(g, k)
    ensures Rounds(g, k + 1, ordered + ready, ranks + seq(|ready|, _ => k + 1))
  {
    DoneGrows(g, k);
    var all, more := ordered + ready, ranks + seq(|ready|, _ => k + 1);
    forall i | 0 <= i < |all| ensures Longest(g, all[i], more[i]) && more[i] <= k + 1 {
      if i >= |ordered| {
        assert all[i] in Elements(ready);
        RoundIsRank(g, k, all[i]);
      }
    }
    assert forall x :: x in all <==> x in ordered || x in ready;
    assert forall x :: x in all <==> x in Elements(ordered) || x in Elements(ready);
    assert Elements(all) == Done(g, k + 1);
  }

  /** The components not yet gone, waiting for what is not yet gone. */
  function Minus(g: Graph, gone: set<string>): Graph {
    map n | n in g.Keys - gone :: g[n] - gone
  }

  lemma MinusNone(g: Graph)
    ensures Minus(g, {}) == g
  {
    assert Minus(g, {}).Keys == g.Keys;
    assert forall n | n in g :: Minus(g, {})[n] == g[n];
  }

  lemma MinusMore(g: Graph, gone: set<string>, more: set<string>)
    ensures Minus(Minus(g, gone), more) == Minus(g, gone + more)
  {
    var a, b := Minus(Minus(g, gone), more), Minus(g, gone + more);
    assert a.Keys == b.Keys;
    forall n | n in a ensures a[n] == b[n] {}
  }

  /** Take the ready components out of the map and out of what the others wait for. */
  method RemoveReady(remaining: Graph, ready: seq<string>) returns (left: Graph)
    ensures left == Minus(remaining, Elements(ready))
  {
    left := remaining;
    MinusNone(remaining);
    ghost var gone: set<string> := {};
    for i := 0 to |ready|
      invariant gone == Elements(ready[..i])
      invariant left == Minus(remaining, gone)
    {
      ElementsStep(ready, i);
      MinusMore(remaining, gone, {ready[i]});
      gone := gone + {ready[i]};
      left := left - {ready[i]};
      left := map n | n in left :: left[n] - {ready[i]};
    }
    assert ready[..|ready|] == ready;
  }

  lemma LeftNext(g: Graph, k: nat, remaining: Graph, ready: seq<string>, left: Graph)
    requires remaining == Left(g, k) && ready != []
    requires Elements(ready) == Done(g, k + 1) - Done(g, k)
    requires left == Minus(remaining, Elements(ready))
    ensures left == Left(g, k + 1) && |left.Keys| < |remaining.Keys|
  {
    DoneGrows(g, k);
    MinusMore(g, Done(g, k), Elements(ready));
    assert Done(g, k) + Elements(ready) == Done(g, k + 1);
    assert ready[0] in Elements(ready);
    ProperSubset(left.Keys, remaining.Keys, ready[0]);
  }

  /** With a cycle the leftover components follow in order of name. */
  lemma StuckOrder(g: Graph, k: nat, ordered: seq<string>, ranks: seq<nat>, remaining: Graph, ready: seq<string>,
                   rest: seq<string>)
    requires Closed(g) && Rounds(g, k, ordered, ranks) && |remaining| > 0 && remaining == Left(g, k)
    requires ready == [] && Elements(ready) == Done(g, k + 1) - Done(g, k)
    requires Ascending(rest) && Elements(rest) == remaining.Keys
    ensures NoRepeat(ordered + rest) && Elements(ordered + rest) == g.Keys && HasCycle(g)
  {
    NoElements(ready);
    NothingReady(g, k, remaining);
    RoundsDistinct(g, k, ordered, ranks);
    DoneGrows(g, k);
    Append(ordered, rest);
  }

  /** A permutation of the components; `cyclic` exactly when there is a dependency cycle; and
      without one the order is by longest dependency chain, then name. */
  ghost predicate IsOrder(g: Graph, order: seq<string>, cyclic: bool) {
    && NoRepeat(order)
    && Elements(order) == g.Keys
    && (cyclic <==> HasCycle(g))
    && (!cyclic ==> Ordered(g, order))
  }

  ghost predicate Progress(g: Graph, k: nat, order: seq<string>, ranks: seq<nat>, remaining: Graph) {
    Closed(g) && Rounds(g, k, order, ranks) && remaining == Left(g, k)
  }

  method AppendCycle(ghost g: Graph, ghost k: nat, order: seq<string>, ghost ranks: seq<nat>, remaining: Graph,
                     ghost ready: seq<string>) returns (all: seq<string>)
    requires Progress(g, k, order, ranks, remaining) && |remaining| > 0
    requires ready == [] && Elements(ready) == Done(g, k + 1) - Done(g, k)
    ensures IsOrder(g, all, true)
  {
    var rest := Sorted(remaining.Keys);
    StuckOrder(g, k, order, ranks, remaining, ready, rest);
    all := order + rest;
  }

  /** Append the components that wait for nothing and stop waiting for them. */
  method TakeReady(ghost g: Graph, ghost k: nat, order: seq<string>, ghost ranks: seq<nat>, remaining: Graph,
                   ready: seq<string>) returns (more: seq<string>, ghost moreRanks: seq<nat>, left: Graph)
    requires Progress(g, k, order, ranks, remaining)
    requires ready != [] && Ascending(ready) && Elements(ready) == Done(g, k + 1) - Done(g, k)
    ensures Progress(g, k + 1, more, moreRanks, left)
    ensures |left.Keys| < |remaining.Keys|
  {
    left := RemoveReady(remaining, ready);
    NextRound(g, k, order, ranks, ready);
    LeftNext(g, k, remaining, ready, left);
    more, moreRanks := order + ready, ranks + seq(|ready|, _ => k + 1);
  }

  /** The loop of `topologicalOrder`. */
  method Layers(g: Graph) returns (order: seq<string>, cyclic: bool)
    requires Closed(g)
    ensures IsOrder(g, order, cyclic)
  {
    var remaining := g;
    order := [];
    ghost var k: nat, ranks: seq<nat> := 0, [];
    MinusNone(g);
    while |remaining| > 0
      invariant Progress(g, k, order, ranks, remaining)
      decreases |remaining.Keys|
    {
      var ready := Sorted(set n | n in remaining && remaining[n] == {});
      ReadyIsNextRound(g, k, remaining);
      if ready == [] {
        cyclic := true;
        order := AppendCycle(g, k, order, ranks, remaining, ready);
        return;
      }
      order, ranks, remaining := TakeReady(g, k, order, ranks, remaining, ready);
      k := k + 1;
    }
    cyclic := false;
    AllOrdered(g, k, order, ranks, remaining);
  }

  /** `topologicalOrder`, with the reports of unknown dependencies and of a cycle as results. */
  method TopologicalOrder(names: seq<string>, dependencies: map<string, seq<string>>)
    returns (order: seq<string>, unknown: set<(string, string)>, cyclic: bool)
    requires NoRepeat(names)
    ensures unknown == Unknown(names, dependencies)
    ensures IsOrder(KnownGraph(names, dependencies), order, cyclic)
  {
    var remaining;
    remaining, unknown := BuildGraph(names, dependencies);
    KnownClosed(names, dependencies);
    order, cyclic := Layers(remaining);
  }

  lemma KnownClosed(names: seq<string>, dependencies: map<string, seq<string>>)
    ensures Closed(KnownGraph(names, dependencies))
    ensures KnownGraph(names, dependencies).Keys == Elements(names)
  {}

  lemma AllOrdered(g: Graph, k: nat, order: seq<string>, ranks: seq<nat>, remaining: Graph)
    requires Closed(g) && Rounds(g, k, order, ranks) && |remaining| == 0 && remaining == Left(g, k)
    ensures IsOrder(g, order, false)
  {
    AllRemoved(g, k, remaining);
    RoundsOrdered(g, k, order, ranks);
    RoundsDistinct(g, k, order, ranks);
  }

  lemma ProperSubset(a: set<string>, b: set<string>, x: string)
    requires a <= b && x in b && x !in a
    ensures |a| < |b|
  {
    Cardinality(a, b - {x});
  }

  lemma {:induction false} Cardinality(a: set<string>, b: set<string>)
    requires a <= b
    ensures |a| <= |b|
  {
    if a != {} {
      var x :| x in a;
      Cardinality(a - {x}, b - {x});
    }
  }

  lemma ReadyIsNextRound(g: Graph, k: nat, remaining: Graph)
    requires remaining == Left(g, k)
    ensures (set n | n in remaining && remaining[n] == {}) == Done(g, k + 1) - Done(g, k)
  {
    DoneGrows(g, k);
    forall n | n in g ensures g[n] - Done(g, k) == {} <==> g[n] <= Done(g, k) {
      NoneLeft(g[n], Done(g, k));
    }
  }

  lemma NoneLeft(a: set<string>, b: set<string>)
    ensures a - b == {} <==> a <= b
  {
    if a - b == {} {
      forall x | x in a ensures x in b { assert x !in a - b; }
    }
  }

  lemma NothingReady(g: Graph, k: nat, remaining: Graph)
    requires Closed(g) && |remaining| > 0 && remaining == Left(g, k)
    requires Done(g, k + 1) - Done(g, k) == {}
    ensures HasCycle(g)
  {
    var stuck := g.Keys - Done(g, k);
    assert remaining.Keys == stuck;
    assert stuck != {};
    forall m | m in stuck ensures g[m] * stuck != {} {
      NoneLeft(g[m], Done(g, k));
      var d :| d in g[m] - Done(g, k);
      assert d in g[m] * stuck;
    }
    StuckCycle(g, stuck);
  }

  lemma AllRemoved(g: Graph, k: nat, remaining: Graph)
    requires |remaining| == 0 && remaining.Keys == g.Keys - Done(g, k)
    ensures !HasCycle(g) && Done(g, k) == g.Keys
  {
    assert remaining.Keys == {};
    DoneGrows(g, k);
    forall n | n in g.Keys ensures n in Done(g, k) {}
    if HasCycle(g) {
      var c :| Cycle(g, c);
      CycleNotDone(g, k, c, 0);
    }
  }

  lemma RoundsDistinct(g: Graph, k: nat, ordered: seq<string>, ranks: seq<nat>)
    requires Rounds(g, k, ordered, ranks)
    ensures NoRepeat(ordered)
  {
    forall i, j | 0 <= i < j < |ordered| && ordered[i] == ordered[j] ensures false {
      LessIrreflexive(ordered[i]);
      LongestUnique(g, ordered[i], ranks[i], ranks[j]);
    }
  }

  lemma RoundsOrdered(g: Graph, k: nat, ordered: seq<string>, ranks: seq<nat>)
    requires Rounds(g, k, ordered, ranks) && Done(g, k) == g.Keys
    ensures Ordered(g, ordered)
  {}

  lemma LongestUnique(g: Graph, n: string, x: nat, y: nat)
    requires Longest(g, n, x) && Longest(g, n, y)
    ensures x == y
  {}

  lemma Append(a: seq<string>, b: seq<string>)
    requires NoRepeat(a) && Ascending(b)
    requires Elements(a) !! Elements(b)
    ensures NoRepeat(a + b) && Elements(a + b) == Elements(a) + Elements(b)
  {
    var c := a + b;
    forall i, j | 0 <= i < j < |c| ensures c[i] != c[j] {
      if i >= |a| { LessIrreflexive(c[i]); }
      else if j >= |a| { assert c[i] in Elements(a) && c[j] in Elements(b); }
    }
    forall x ensures x in c <==> x in a || x in b {}
  }

  // ---- the order is determined by the graph ----

  lemma BeforeAsymmetric(g: Graph, a: string, b: string)
    requires Before(g, a, b)
    ensures !Before(g, b, a) && a != b
  {
    var x, y :| Longest(g, a, x) && Longest(g, b, y) && (x < y || (x == y && Less(a, b)));
    if !Less(b, a) || !Less(a, b) {
      LessIrreflexive(a);
    } else {
      LessTransitive(a, b, a);
      LessIrreflexive(a);
    }
    forall u, v | Longest(g, b, u) && Longest(g, a, v) ensures u == y && v == x {
      LongestUnique(g, a, x, v);
      LongestUnique(g, b, y, u);
    }
    if a == b { LongestUnique(g, a, x, y); }
  }

  /** Sequences of the same elements, each strictly before the later ones, are equal. */
  lemma {:induction false} OrderedUniqueFrom(g: Graph, a: seq<string>, b: seq<string>)
    requires Elements(a) == Elements(b)
    requires forall i, j :: 0 <= i < j < |a| ==> Before(g, a[i], a[j])
    requires forall i, j :: 0 <= i < j < |b| ==> Before(g, b[i], b[j])
    ensures a == b
    decreases |a|
  {
    if a == [] {
      NoElements(b);
    } else {
      assert a[0] in Elements(b) && b != [];
      assert b[0] in Elements(a);
      if a[0] != b[0] { BeforeAsymmetric(g, a[0], b[0]); }
      BeforeTail(g, a);
      BeforeTail(g, b);
      OrderedUniqueFrom(g, a[1..], b[1..]);
      assert a == [a[0]] + a[1..] && b == [b[0]] + b[1..];
    }
  }

  lemma NoElements(b: seq<string>)
    ensures b == [] <==> Elements(b) == {}
  {
    if b != [] { assert b[0] in Elements(b); }
  }

  lemma BeforeTail(g: Graph, a: seq<string>)
    requires a != [] && forall i, j :: 0 <= i < j < |a| ==> Before(g, a[i], a[j])
    ensures Elements(a[1..]) == Elements(a) - {a[0]}
  {
    forall x ensures x in Elements(a[1..]) <==> x in Elements(a) - {a[0]} {
      if x in a[1..] {
        var i :| 0 <= i < |a[1..]| && a[1..][i] == x;
        if a[i + 1] == a[0] { BeforeAsymmetric(g, a[0], a[i + 1]); }
      }
      if x in a && x != a[0] {
        var i :| 0 <= i < |a| && a[i] == x;
        assert a[1..][i - 1] == x;
      }
    }
  }

  /** The order depends on the graph only, not on the order in which the map lists it. */
  lemma OrderUnique(g: Graph, a: seq<string>, b: seq<string>)
    requires Ordered(g, a) && Ordered(g, b)
    ensures a == b
  {
    OrderedUniqueFrom(g, a, b);
  }

  /** In the order every component comes after all components it depends on. */
  lemma DependenciesFirst(g: Graph, order: seq<string>, i: nat, j: nat)
    requires Ordered(g, order) && !HasCycle(g) && i < |order| && j < |order|
    requires order[j] in g && order[i] in g && order[i] in g[order[j]]
    ensures i < j
  {
    NotBeforeDependency(g, order[j], order[i]);
    if i == j { assert Cycle(g, [order[j], order[j]]); }
  }

  lemma NotBeforeDependency(g: Graph, n: string, d: string)
    requires n in g && d in g && d in g[n]
    ensures !Before(g, n, d)
  {
    DependencyIsShorter(g, n, d);
  }

  /** A dependency's longest chain is shorter. */
  lemma DependencyIsShorter(g: Graph, n: string, d: string)
    requires n in g && d in g && d in g[n]
    ensures forall x, y :: Longest(g, n, x) && Longest(g, d, y) ==> y < x
  {
    forall x, y | Longest(g, n, x) && Longest(g, d, y) ensures y < x {
      var c :| ChainFrom(g, d, c) && |c| == y;
      ExtendChain(g, n, c);
    }
  }
}
