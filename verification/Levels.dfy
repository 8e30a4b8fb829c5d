/** `DependencyGraph.unknown`, `levels` and `ancestors`. */
module Levels {
  import opened Reachability
  import opened StepGraph
  import opened Cycles
  import opened CycleSearch
  import opened Ordering
  import opened OrderFacts

  // --- the longest chain of steps behind a step ----------------------------------------------------

  ghost predicate ChainFrom(a: Graph, p: seq<Id>, u: Id) {
    IsPath(a, p) && p[0] == u
  }

  /** Some chain of dependencies from `u` has `n` links, and none has more. */
  ghost predicate LongestChain(a: Graph, u: Id, n: nat) {
    && (exists p :: ChainFrom(a, p, u) && |p| == n + 1)
    && forall p :: ChainFrom(a, p, u) ==> |p| <= n + 1
  }

  lemma LongestChainUnique(a: Graph, u: Id, m: nat, n: nat)
    requires LongestChain(a, u, m) && LongestChain(a, u, n)
    ensures m == n
  {
    var p :| ChainFrom(a, p, u) && |p| == m + 1;
    var q :| ChainFrom(a, q, u) && |q| == n + 1;
  }

  lemma ChainTail(a: Graph, p: seq<Id>, u: Id)
    requires ChainFrom(a, p, u) && |p| > 1 && Proper(a)
    ensures Edge(a, u, p[1]) && ChainFrom(a, p[1..], p[1])
  {
    assert Edge(a, p[0], p[1]);
    var q := p[1..];
    forall i, j | 0 <= i && j == i + 1 < |q|
      ensures Edge(a, q[i], q[j])
    {
      assert q[i] == p[i + 1] && q[j] == p[j + 1];
    }
  }

  lemma ChainCons(a: Graph, u: Id, p: seq<Id>, v: Id)
    requires Edge(a, u, v) && ChainFrom(a, p, v)
    ensures ChainFrom(a, [u] + p, u)
  {
    var q := [u] + p;
    forall i, j | 0 <= i && j == i + 1 < |q|
      ensures Edge(a, q[i], q[j])
    {
      if i > 0 {
        assert q[i] == p[i - 1] && q[j] == p[j - 1];
      }
    }
  }

  /** A dependency's longest chain is shorter, and one of a step above level 0 is shorter by one link. */
  lemma LevelAbove(a: Graph, u: Id, n: nat)
    requires Proper(a) && LongestChain(a, u, n)
    ensures forall d, m: nat :: Edge(a, u, d) && LongestChain(a, d, m) ==> m < n
    ensures n > 0 ==> exists d :: Edge(a, u, d) && LongestChain(a, d, n - 1)
  {
    forall d, m: nat | Edge(a, u, d) && LongestChain(a, d, m)
      ensures m < n
    {
      var q :| ChainFrom(a, q, d) && |q| == m + 1;
      ChainCons(a, u, q, d);
    }
    if n > 0 {
      var p :| ChainFrom(a, p, u) && |p| == n + 1;
      ChainTail(a, p, u);
      forall q | ChainFrom(a, q, p[1])
        ensures |q| <= n
      {
        ChainCons(a, u, q, p[1]);
      }
      assert |p[1..]| == n;
      assert LongestChain(a, p[1], n - 1);
    }
  }

  function Highest(level: map<Id, nat>, edges: seq<Id>): (m: int)
    requires forall d :: d in edges ==> d in level
    ensures m >= -1 && (forall d :: d in edges ==> level[d] <= m)
    ensures if edges == [] then m == -1 else exists d :: d in edges && level[d] == m
  {
    if edges == [] then -1
    else
      var rest := Highest(level, edges[1..]);
      assert edges == [edges[0]] + edges[1..];
      var d := edges[0];
      assert d in edges;
      if level[d] > rest then level[d] else rest
  }

  lemma LevelFound(a: Graph, u: Id, edges: seq<Id>, level: map<Id, nat>)
    requires Proper(a) && u in a && Members(edges) == a[u]
    requires forall d :: d in edges ==> d in level && LongestChain(a, d, level[d])
    ensures LongestChain(a, u, 1 + Highest(level, edges))
  {
    var m := Highest(level, edges);
    if edges == [] {
      assert ChainFrom(a, [u], u);
    } else {
      var d :| d in edges && level[d] == m;
      var q :| ChainFrom(a, q, d) && |q| == m + 1;
      assert d in Members(edges);
      ChainCons(a, u, q, d);
      assert ChainFrom(a, [u] + q, u) && |[u] + q| == m + 2;
    }
    forall p | ChainFrom(a, p, u)
      ensures |p| <= m + 2
    {
      if |p| > 1 {
        ChainTail(a, p, u);
        assert p[1] in Members(edges);
        assert |p[1..]| <= level[p[1]] + 1;
      }
    }
  }

  // --- levels --------------------------------------------------------------------------------------

  /** The dependencies naming a step the plan does not contain, by the step that names them. */
  function Unknown(g: Steps): map<Id, set<Id>> {
    map u | u in g && !(g[u].dependsOn <= g.Keys) :: g[u].dependsOn - g.Keys
  }

  datatype Leveling = NotOrderable | Leveled(levels: seq<seq<Id>>)

  /** A partition of the steps, by key, into non-empty levels: a step's level is the length of its longest chain. */
  ghost predicate AreLevels(g: Steps, levels: seq<seq<Id>>) {
    && (forall n :: 0 <= n < |levels| ==> levels[n] != [] && Ascending(g, levels[n]))
    && (forall n, u :: 0 <= n < |levels| ==> (u in levels[n] <==> u in g && LongestChain(Waits(g), u, n)))
    && (forall u :: u in g ==> InSomeLevel(levels, u))
  }

  ghost predicate InSomeLevel(levels: seq<seq<Id>>, u: Id) {
    exists n :: 0 <= n < |levels| && u in levels[n]
  }

  ghost predicate Measured(g: Steps, t: seq<Id>, level: map<Id, nat>) {
    level.Keys == Members(t) && forall u :: u in level ==> LongestChain(Waits(g), u, level[u])
  }

  lemma MeasureStep(g: Steps, s: seq<Id>, u: Id, level: map<Id, nat>, edges: seq<Id>)
    requires Measured(g, s, level) && u in g && u !in s && Known(g, u) <= Members(s) && Members(edges) == Known(g, u)
    ensures forall d :: d in edges ==> d in level
    ensures Measured(g, s + [u], level[u := 1 + Highest(level, edges)])
  {
    hide LongestChain;
    assert forall d :: d in edges ==> d in Members(edges);
    WaitsProper(g);
    LevelFound(Waits(g), u, edges, level);
    assert Members(s + [u]) == Members(s) + {u};
  }

  lemma MeasureStarts(g: Steps, t: seq<Id>)
    ensures Measured(g, t[..0], map[])
  {
  }

  lemma NextReady(g: Steps, t: seq<Id>, k: nat)
    requires Topological(g, t) && k < |t|
    ensures t[k] in g && t[k] !in t[..k] && Known(g, t[k]) <= Members(t[..k])
    ensures t[..k + 1] == t[..k] + [t[k]]
  {
    TopologicalOnce(g, t, k);
  }

  lemma EdgesAre(g: Steps, u: Id)
    requires UniqueKeys(g) && u in g
    ensures Members(InKeyOrder(g, Known(g, u))) == Known(g, u)
  {
  }

  method MeasureLevels(g: Steps, ordered: seq<Id>) returns (level: map<Id, nat>)
    requires UniqueKeys(g) && Topological(g, ordered)
    ensures Measured(g, ordered, level)
  {
    hide *;
    level := map[];
    MeasureStarts(g, ordered);
    for k := 0 to |ordered|
      invariant Measured(g, ordered[..k], level)
    {
      var step := ordered[k];
      NextReady(g, ordered, k);
      KnownSubset(g, step);
      var edges := InKeyOrder(g, Known(g, step));
      EdgesAre(g, step);
      MeasureStep(g, ordered[..k], step, level, edges);
      level := level[step := 1 + Highest(level, edges)];
    }
    assert ordered[..|ordered|] == ordered;
  }

  lemma KnownSubset(g: Steps, u: Id)
    requires u in g
    ensures Known(g, u) <= g.Keys
  {
  }

  function AtLevel(g: Steps, level: map<Id, nat>, n: nat): (s: set<Id>)
    ensures s <= g.Keys
  {
    set u | u in level && u in g && level[u] == n
  }

  /** Level by level, each in key order. */
  function ByLevel(g: Steps, level: map<Id, nat>, count: nat): seq<seq<Id>>
    requires UniqueKeys(g)
  {
    seq(count, n requires 0 <= n < count => InKeyOrder(g, AtLevel(g, level, n)))
  }

  /** Every level below the highest has a step. */
  lemma {:induction false} LevelHasStep(g: Steps, level: map<Id, nat>, u: Id, n: nat) returns (v: Id)
    requires level.Keys == g.Keys && u in g && (forall x :: x in g ==> LongestChain(Waits(g), x, level[x]))
    requires n <= level[u]
    ensures v in g && level[v] == n
    decreases level[u]
  {
    if n == level[u] {
      v := u;
    } else {
      var a := Waits(g);
      WaitsProper(g);
      LevelAbove(a, u, level[u]);
      var d :| Edge(a, u, d) && LongestChain(a, d, level[u] - 1);
      LongestChainUnique(a, d, level[d], level[u] - 1);
      v := LevelHasStep(g, level, d, n);
    }
  }

  lemma ByLevelHolds(g: Steps, level: map<Id, nat>, count: nat, n: nat, u: Id)
    requires UniqueKeys(g) && n < count && level.Keys == g.Keys
    ensures Ascending(g, ByLevel(g, level, count)[n])
    ensures u in ByLevel(g, level, count)[n] <==> u in g && level[u] == n
  {
    hide Ascending;
    assert u in AtLevel(g, level, n) <==> u in g && level[u] == n;
  }

  lemma LevelsPartition(g: Steps, t: seq<Id>, level: map<Id, nat>)
    requires UniqueKeys(g) && Measured(g, t, level) && Members(t) == g.Keys
    requires forall d :: d in t ==> d in level
    ensures AreLevels(g, ByLevel(g, level, 1 + Highest(level, t)))
  {
    hide LongestChain, Ascending, ByLevel;
    var count := 1 + Highest(level, t);
    var levels := ByLevel(g, level, count);
    BelowCount(g, t, level);
    assert |levels| == count by { ByLevelCount(g, level, count); }
    forall n | 0 <= n < count
      ensures levels[n] != [] && Ascending(g, levels[n])
    {
      var top := TopStep(g, t, level);
      var v := LevelHasStep(g, level, top, n);
      ByLevelHolds(g, level, count, n, v);
    }
    forall n, u | 0 <= n < count
      ensures u in levels[n] <==> u in g && LongestChain(Waits(g), u, n)
    {
      ByLevelHolds(g, level, count, n, u);
      if u in g && LongestChain(Waits(g), u, n) {
        LongestChainUnique(Waits(g), u, n, level[u]);
      }
    }
    forall u | u in g
      ensures InSomeLevel(levels, u)
    {
      ByLevelHolds(g, level, count, level[u], u);
    }
  }

  lemma ByLevelCount(g: Steps, level: map<Id, nat>, count: nat)
    requires UniqueKeys(g)
    ensures |ByLevel(g, level, count)| == count
  {
  }

  lemma BelowCount(g: Steps, t: seq<Id>, level: map<Id, nat>)
    requires level.Keys == g.Keys == Members(t) && forall d :: d in t ==> d in level
    ensures forall u :: u in g ==> level[u] <= Highest(level, t)
  {
    assert forall u :: u in g ==> u in Members(t);
  }

  lemma TopStep(g: Steps, t: seq<Id>, level: map<Id, nat>) returns (u: Id)
    requires level.Keys == g.Keys == Members(t) && (forall d :: d in t ==> d in level) && Highest(level, t) >= 0
    ensures u in g && level[u] == Highest(level, t)
  {
    u :| u in t && level[u] == Highest(level, t);
    assert u in Members(t);
  }

  lemma CycleFound(g: Steps, cycles: seq<seq<Id>>)
    requires AreCycles(g, Waits(g), cycles)
    ensures cycles != [] <==> exists u, v :: u != v && Mutual(Waits(g), u, v)
  {
    var a := Waits(g);
    if cycles != [] {
      var c := cycles[0];
      assert IsGroup(g, a, c);
      var u, v := c[0], c[1];
      assert u in Members(c) && v in Members(c) && u != v;
      assert Mutual(a, u, v);
    }
  }

  /** The steps by level, each level in key order; refused for unknown dependencies or cycles. */
  method LevelsOf(g: Steps) returns (r: Leveling)
    requires UniqueKeys(g) && NoSelfDependency(g)
    ensures r.NotOrderable? <==>
            Unknown(g) != map[] || exists u, v :: u != v && Mutual(Waits(g), u, v)
    ensures r.Leveled? ==> AreLevels(g, r.levels)
  {
    hide Ascending, Topological, Greedy, IsGroup, AreLevels, AreCycles;
    var cycles := FindCycles(g);
    CycleFound(g, cycles);
    if Unknown(g) != map[] || cycles != [] {
      return NotOrderable;
    }
    var ordered := Order(g);
    CompleteWithoutCycles(g, ordered, cycles);
    OrderIsTopological(g, ordered);
    var level := MeasureLevels(g, ordered);
    LevelsPartition(g, ordered, level);
    r := Leveled(ByLevel(g, level, 1 + Highest(level, ordered)));
  }

  // --- ancestors -----------------------------------------------------------------------------------

  /** `seen` and `todo` hold only steps waited for, and everything waited for from what was seen. */
  ghost predicate Tracing(a: Graph, step: Id, seen: set<Id>, todo: seq<Id>) {
    && (forall v :: v in seen || v in todo ==> ReachesProperly(a, step, v))
    && (forall u, v {:trigger Edge(a, u, v)} :: (u == step || u in seen) && Edge(a, u, v) ==> v in seen || v in todo)
  }

  lemma TraceStarts(a: Graph, step: Id, edges: seq<Id>)
    requires Proper(a) && step in a && Members(edges) == a[step]
    ensures Tracing(a, step, {}, edges)
  {
    forall v | v in edges
      ensures ReachesProperly(a, step, v)
    {
      assert v in Members(edges) && Edge(a, step, v);
      ReachesSelf(a, v);
    }
    assert forall v :: v in edges <==> v in Members(edges);
  }

  lemma TraceOn(a: Graph, step: Id, seen: set<Id>, todo: seq<Id>, current: Id, edges: seq<Id>)
    requires Proper(a) && Tracing(a, step, seen, todo + [current]) && current in a && Members(edges) == a[current]
    ensures Tracing(a, step, seen + {current}, todo + edges)
    ensures current in seen ==> Tracing(a, step, seen, todo)
  {
    assert current in todo + [current];
    forall v | v in edges
      ensures ReachesProperly(a, step, v)
    {
      assert v in Members(edges);
      ReachesEdge(a, current, v);
      var w :| Edge(a, step, w) && Reaches(a, w, current);
      ReachesTransitive(a, w, current, v);
    }
    assert forall v :: v in edges <==> v in Members(edges);
    assert forall v :: v in todo + [current] <==> v in todo || v == current;
    assert forall v :: v in todo + edges <==> v in todo || v in edges;
  }

  lemma TraceEnds(a: Graph, step: Id, seen: set<Id>)
    requires Tracing(a, step, seen, [])
    ensures forall v :: v in seen <==> ReachesProperly(a, step, v)
  {
    assert Closed(a, seen);
    forall v | ReachesProperly(a, step, v)
      ensures v in seen
    {
      var w :| Edge(a, step, w) && Reaches(a, w, v);
      ClosedKeepsReachable(a, seen, w, v);
    }
  }

  lemma TracedKnown(a: Graph, step: Id, seen: set<Id>, todo: seq<Id>, v: Id)
    requires Proper(a) && Tracing(a, step, seen, todo) && v in todo
    ensures v in a
  {
    var w :| Edge(a, step, w) && Reaches(a, w, v);
    assert Closed(a, a.Keys);
    ClosedKeepsReachable(a, a.Keys, w, v);
  }

  lemma SeeOne(g: Steps, seen: set<Id>, v: Id)
    requires v in g && v !in seen
    ensures |g.Keys - (seen + {v})| < |g.Keys - seen|
  {
    assert g.Keys - (seen + {v}) == g.Keys - seen - {v};
  }

  /** Every step `step` waits for, directly or through others. */
  method Ancestors(g: Steps, step: Id) returns (seen: set<Id>)
    requires UniqueKeys(g) && step in g
    ensures forall v :: v in seen <==> ReachesProperly(Waits(g), step, v)
  {
    hide Ascending, Tracing, Waits, ReachesProperly;
    WaitsProper(g);
    ghost var a := Waits(g);
    seen := {};
    var todo := EdgesOf(g, a, step) by { AdjacentWaits(g); }
    TraceStarts(a, step, todo);
    while todo != []
      invariant Tracing(a, step, seen, todo)
      decreases |g.Keys - seen|, |todo|
    {
      var current, rest := todo[|todo| - 1], todo[..|todo| - 1];
      assert todo == rest + [current];
      TracedKnown(a, step, seen, todo, current);
      AdjacentWaits(g);
      var edges := EdgesOf(g, a, current);
      TraceOn(a, step, seen, rest, current, edges);
      todo := rest;
      if current !in seen {
        SeeOne(g, seen, current);
        seen := seen + {current};
        todo := rest + edges;
      }
    }
    TraceEnds(a, step, seen);
  }
}
