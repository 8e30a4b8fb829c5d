/** Graph queries over an architecture: what a node reaches, what depends on it, and what contains it. */
module Topology {
  import opened Options
  import opened Reachability
  import opened Ordered

  datatype Connection = Connection(id: Id, source: Id, target: Id, kind: Id)

  /** The nodes with their parents, the boundaries among them, and the connections. */
  datatype Architecture = Architecture(parents: map<Id, Option<Id>>, boundaries: set<Id>, connections: seq<Connection>)

  // --- what a node depends on ----------------------------------------------------------------------

  predicate OfKind(c: Connection, kinds: set<Id>) {
    kinds == {} || c.kind in kinds
  }

  function TargetsOf(a: Architecture, kinds: set<Id>, n: Id): set<Id> {
    set i | 0 <= i < |a.connections| && a.connections[i].source == n && OfKind(a.connections[i], kinds)
        && a.connections[i].target in a.parents
      :: a.connections[i].target
  }

  function SourcesOf(a: Architecture, kinds: set<Id>, n: Id): set<Id> {
    set i | 0 <= i < |a.connections| && a.connections[i].target == n && OfKind(a.connections[i], kinds)
        && a.connections[i].source in a.parents
      :: a.connections[i].source
  }

  /** Each node with the nodes it initiates connections to. */
  function Successors(a: Architecture, kinds: set<Id>): Graph {
    map n | n in a.parents :: TargetsOf(a, kinds, n)
  }

  /** Each node with the nodes that initiate connections to it. */
  function Predecessors(a: Architecture, kinds: set<Id>): Graph {
    map n | n in a.parents :: SourcesOf(a, kinds, n)
  }

  lemma Reversed(a: Architecture, kinds: set<Id>, u: Id, v: Id)
    ensures Edge(Successors(a, kinds), u, v) <==> Edge(Predecessors(a, kinds), v, u)
  {
    forall u, v
      ensures v in TargetsOf(a, kinds, u) && u in a.parents ==> u in SourcesOf(a, kinds, v)
      ensures u in SourcesOf(a, kinds, v) && v in a.parents ==> v in TargetsOf(a, kinds, u)
    {
    }
  }

  /** `u` initiates a connection to `v`, of a kind asked for, or of any kind when none is. */
  ghost predicate Initiates(a: Architecture, kinds: set<Id>, u: Id, v: Id) {
    && u in a.parents && v in a.parents
    && exists c :: c in a.connections && c.source == u && c.target == v && (kinds == {} || c.kind in kinds)
  }

  /** A chain of nodes, each initiating a connection to the next. */
  ghost predicate IsRoute(a: Architecture, kinds: set<Id>, p: seq<Id>, u: Id, v: Id) {
    && p != [] && p[0] == u && p[|p| - 1] == v && u in a.parents
    && forall i, j :: 0 <= i && j == i + 1 < |p| ==> Initiates(a, kinds, p[i], p[j])
  }

  ghost predicate DependsOn(a: Architecture, kinds: set<Id>, u: Id, v: Id) {
    exists p :: IsRoute(a, kinds, p, u, v)
  }

  lemma StepInitiates(a: Architecture, kinds: set<Id>, u: Id, v: Id)
    ensures Edge(Successors(a, kinds), u, v) <==> Initiates(a, kinds, u, v)
  {
    if Initiates(a, kinds, u, v) {
      var c :| c in a.connections && c.source == u && c.target == v && (kinds == {} || c.kind in kinds);
      var i :| 0 <= i < |a.connections| && a.connections[i] == c;
      assert a.connections[i].target in TargetsOf(a, kinds, u);
    }
  }

  lemma ReachesDepends(a: Architecture, kinds: set<Id>, u: Id, v: Id)
    ensures Reaches(Successors(a, kinds), u, v) <==> DependsOn(a, kinds, u, v)
  {
    hide Initiates, Successors;
    forall x, y
      ensures Edge(Successors(a, kinds), x, y) <==> Initiates(a, kinds, x, y)
    {
      StepInitiates(a, kinds, x, y);
    }
    assert Successors(a, kinds).Keys == a.parents.Keys by { SuccessorsKnown(a, kinds); }
    if p :| PathBetween(Successors(a, kinds), p, u, v) {
      assert IsRoute(a, kinds, p, u, v);
    }
    if p :| IsRoute(a, kinds, p, u, v) {
      assert PathBetween(Successors(a, kinds), p, u, v);
    }
  }

  lemma SuccessorsKnown(a: Architecture, kinds: set<Id>)
    ensures Successors(a, kinds).Keys == a.parents.Keys
  {
  }

  // --- the closure of a step -----------------------------------------------------------------------

  /** Everything seen is reached, and every edge out of what was followed leads to something seen. */
  ghost predicate Spreading(g: Graph, start: Id, seen: set<Id>, frontier: seq<Id>) {
    && start in seen
    && (forall v :: v in seen ==> v == start || Reaches(g, start, v))
    && (forall v :: v in frontier ==> v in seen)
    && (forall u, v {:trigger Edge(g, u, v)} :: u in seen && u !in frontier && Edge(g, u, v) ==> v in seen)
  }

  function EdgesFrom(g: Graph, u: Id): set<Id> {
    if u in g then g[u] else {}
  }

  lemma SpreadOn(g: Graph, start: Id, seen: set<Id>, rest: seq<Id>, u: Id)
    requires Spreading(g, start, seen, rest + [u]) && Proper(g)
    ensures Spreading(g, start, seen + EdgesFrom(g, u), rest + InOrder(EdgesFrom(g, u) - seen))
  {
    hide InOrder;
    var unseen := EdgesFrom(g, u) - seen;
    assert u in rest + [u];
    forall v | v in unseen
      ensures Reaches(g, start, v)
    {
      assert Edge(g, u, v);
      ReachesEdge(g, u, v);
      if u != start {
        ReachesTransitive(g, start, u, v);
      }
    }
    assert forall v :: v in rest + [u] <==> v in rest || v == u;
    assert forall v :: v in rest + InOrder(unseen) <==> v in rest || v in unseen;
  }

  lemma SpreadEnds(g: Graph, start: Id, seen: set<Id>, v: Id)
    requires Spreading(g, start, seen, [])
    ensures v in seen <==> v == start || Reaches(g, start, v)
  {
    if Reaches(g, start, v) {
      assert Closed(g, seen);
      ClosedKeepsReachable(g, seen, start, v);
    }
  }

  lemma FewerUnseen(g: Graph, seen: set<Id>, more: set<Id>)
    requires more <= g.Keys && more - seen != {}
    ensures |g.Keys - (seen + more)| < |g.Keys - seen|
  {
    var x := AnyOf(more - seen);
    SizeWithin(g.Keys - (seen + more), g.Keys - seen - {x});
  }

  lemma EdgesKnown(g: Graph, u: Id)
    requires Proper(g)
    ensures EdgesFrom(g, u) <= g.Keys
  {
    forall v | v in EdgesFrom(g, u)
      ensures v in g.Keys
    {
      assert Edge(g, u, v);
    }
    SubsetOf(EdgesFrom(g, u), g.Keys);
  }

  /** Everything reached from `start`, in id order; `start` itself left out, whether or not it is on a cycle. */
  method Closure(g: Graph, start: Id) returns (found: seq<Id>)
    requires Proper(g)
    ensures forall v :: v in found <==> v != start && v in g && Reaches(g, start, v)
    ensures forall i, j :: 0 <= i < j < |found| ==> found[i] < found[j]
  {
    hide Spreading, Reaches, InOrder, Proper;
    var seen, frontier := {start}, [start];
    SpreadStarts(g, start);
    while frontier != []
      invariant Spreading(g, start, seen, frontier)
      decreases |g.Keys - seen|, |frontier|
    {
      var u, rest := frontier[|frontier| - 1], frontier[..|frontier| - 1];
      assert frontier == rest + [u];
      SpreadOn(g, start, seen, rest, u);
      EdgesKnown(g, u);
      var unseen := EdgesFrom(g, u) - seen;
      if unseen != {} {
        FewerUnseen(g, seen, EdgesFrom(g, u));
      } else {
        NoneFresh(rest, seen, EdgesFrom(g, u));
      }
      seen, frontier := seen + EdgesFrom(g, u), rest + InOrder(unseen);
    }
    found := InOrder((seen - {start}) * g.Keys);
    forall v
      ensures v in found <==> v != start && v in g && Reaches(g, start, v)
    {
      SpreadEnds(g, start, seen, v);
    }
  }

  lemma SpreadStarts(g: Graph, start: Id)
    ensures Spreading(g, start, {start}, [start])
  {
  }

  lemma NoneFresh(rest: seq<Id>, seen: set<Id>, more: set<Id>)
    requires more - seen == {}
    ensures seen + more == seen && rest + InOrder(more - seen) == rest
  {
    assert forall v :: v in more ==> v in seen || v in more - seen;
  }

  lemma SuccessorsProper(a: Architecture, kinds: set<Id>)
    ensures Proper(Successors(a, kinds)) && Proper(Predecessors(a, kinds))
  {
  }

  /** A path one way is a path the other way, turned around. */
  lemma ReachesReversed(g: Graph, h: Graph, u: Id, v: Id)
    requires Reaches(g, u, v) && g.Keys == h.Keys && Proper(g)
    requires forall x, y :: Edge(g, x, y) ==> Edge(h, y, x)
    ensures Reaches(h, v, u)
  {
    var p :| PathBetween(g, p, u, v);
    var q := seq(|p|, i requires 0 <= i < |p| => p[|p| - 1 - i]);
    forall i, j | 0 <= i && j == i + 1 < |q|
      ensures Edge(h, q[i], q[j])
    {
      assert Edge(g, p[|p| - 1 - j], p[|p| - 1 - i]);
    }
    assert Closed(g, g.Keys);
    ClosedKeepsPath(g, g.Keys, p, |p| - 1);
    assert PathBetween(h, q, v, u);
  }

  /** What a node depends on is what it is a dependent of. */
  lemma DependenceIsConverse(a: Architecture, kinds: set<Id>, u: Id, v: Id)
    ensures Reaches(Successors(a, kinds), u, v) <==> Reaches(Predecessors(a, kinds), v, u)
  {
    hide Reaches;
    var g, h := Successors(a, kinds), Predecessors(a, kinds);
    SuccessorsProper(a, kinds);
    forall x, y
      ensures Edge(g, x, y) <==> Edge(h, y, x)
    {
      Reversed(a, kinds, x, y);
    }
    if Reaches(g, u, v) {
      ReachesReversed(g, h, u, v);
    }
    if Reaches(h, v, u) {
      ReachesReversed(h, g, v, u);
    }
  }

  /** Everything else the node depends on, directly or not. */
  method ReachableFrom(a: Architecture, kinds: set<Id>, n: Id) returns (found: seq<Id>)
    ensures forall v :: v in found <==> v != n && v in a.parents && Reaches(Successors(a, kinds), n, v)
    ensures forall v :: v in found <==> v != n && v in a.parents && DependsOn(a, kinds, n, v)
    ensures forall i, j :: 0 <= i < j < |found| ==> found[i] < found[j]
  {
    SuccessorsProper(a, kinds);
    found := Closure(Successors(a, kinds), n);
    forall v
      ensures Reaches(Successors(a, kinds), n, v) <==> DependsOn(a, kinds, n, v)
    {
      ReachesDepends(a, kinds, n, v);
    }
  }

  /** Everything else that depends on the node, directly or not. */
  method DependentsOf(a: Architecture, kinds: set<Id>, n: Id) returns (found: seq<Id>)
    ensures forall v :: v in found <==> v != n && v in a.parents && Reaches(Predecessors(a, kinds), n, v)
    ensures forall v :: v in found <==> v != n && v in a.parents && DependsOn(a, kinds, v, n)
    ensures forall i, j :: 0 <= i < j < |found| ==> found[i] < found[j]
  {
    SuccessorsProper(a, kinds);
    found := Closure(Predecessors(a, kinds), n);
    forall v
      ensures Reaches(Predecessors(a, kinds), n, v) <==> DependsOn(a, kinds, v, n)
    {
      DependenceIsConverse(a, kinds, v, n);
      ReachesDepends(a, kinds, v, n);
    }
  }

  // --- what contains a node ------------------------------------------------------------------------

  /** Each node with its parent, when the architecture holds it. */
  function Up(a: Architecture): Graph {
    map n | n in a.parents :: if a.parents[n].Some? && a.parents[n].value in a.parents then {a.parents[n].value} else {}
  }

  function ParentOf(a: Architecture, n: Id): Option<Id> {
    if n in a.parents && a.parents[n].Some? && a.parents[n].value in a.parents then a.parents[n] else None
  }

  lemma UpEdge(a: Architecture, u: Id, v: Id)
    ensures Edge(Up(a), u, v) <==> ParentOf(a, u) == Some(v)
    ensures Proper(Up(a)) && Up(a).Keys == a.parents.Keys
  {
  }

  /** Everything climbed to is a proper container, and each one's parent is climbed to or comes next. */
  ghost predicate Climbing(a: Architecture, n: Id, seen: set<Id>, next: Option<Id>) {
    && (forall v :: v in seen ==> ReachesProperly(Up(a), n, v))
    && (next.Some? ==> ReachesProperly(Up(a), n, next.value))
    && (forall u, v {:trigger Edge(Up(a), u, v)} :: (u == n || u in seen) && Edge(Up(a), u, v) ==>
        v in seen || next == Some(v))
  }

  lemma ClimbStarts(a: Architecture, n: Id)
    ensures Climbing(a, n, {}, ParentOf(a, n))
  {
    hide Up;
    forall v
      ensures Edge(Up(a), n, v) <==> ParentOf(a, n) == Some(v)
    {
      UpEdge(a, n, v);
    }
    if ParentOf(a, n).Some? {
      var p := ParentOf(a, n).value;
      UpEdge(a, n, p);
      ReachesSelf(Up(a), p);
    }
  }

  lemma ClimbOn(a: Architecture, n: Id, seen: set<Id>, c: Id)
    requires Climbing(a, n, seen, Some(c))
    ensures Climbing(a, n, seen + {c}, ParentOf(a, c))
  {
    hide Up, ParentOf;
    forall v
      ensures Edge(Up(a), c, v) <==> ParentOf(a, c) == Some(v)
    {
      UpEdge(a, c, v);
    }
    if ParentOf(a, c).Some? {
      var p := ParentOf(a, c).value;
      var w :| Edge(Up(a), n, w) && Reaches(Up(a), w, c);
      ReachesEdge(Up(a), c, p);
      ReachesTransitive(Up(a), w, c, p);
    }
  }

  /** Where the climb stops, it has been to every proper container. */
  lemma ClimbEnds(a: Architecture, n: Id, seen: set<Id>, next: Option<Id>)
    requires Climbing(a, n, seen, next) && (next.Some? ==> next.value in seen)
    ensures forall v :: v in seen <==> ReachesProperly(Up(a), n, v)
  {
    hide Up;
    assert Closed(Up(a), seen);
    forall v | ReachesProperly(Up(a), n, v)
      ensures v in seen
    {
      var w :| Edge(Up(a), n, w) && Reaches(Up(a), w, v);
      ClosedKeepsReachable(Up(a), seen, w, v);
    }
  }

  lemma ClimbKnown(a: Architecture, n: Id, seen: set<Id>, next: Option<Id>)
    requires Climbing(a, n, seen, next)
    ensures seen <= a.parents.Keys && (next.Some? ==> next.value in a.parents)
  {
    hide Up;
    UpEdge(a, n, n);
    forall v | ReachesProperly(Up(a), n, v)
      ensures v in a.parents.Keys
    {
      var w :| Edge(Up(a), n, w) && Reaches(Up(a), w, v);
      assert Closed(Up(a), a.parents.Keys);
      ClosedKeepsReachable(Up(a), a.parents.Keys, w, v);
    }
    SubsetOf(seen, a.parents.Keys);
  }

  lemma FewerAbove(known: set<Id>, seen: set<Id>, c: Id)
    requires c in known && c !in seen
    ensures |known - (seen + {c})| < |known - seen|
  {
    assert known - (seen + {c}) == known - seen - {c};
  }

  /** Whether following parents from the node leads back to it. */
  method InContainmentCycle(a: Architecture, n: Id) returns (found: bool)
    ensures found <==> OnCycle(Up(a), n)
  {
    hide Climbing, Up, ReachesProperly;
    var seen: set<Id>, current := {}, ParentOf(a, n);
    ClimbStarts(a, n);
    while current.Some? && current.value !in seen
      invariant Climbing(a, n, seen, current) && n !in seen
      decreases |a.parents.Keys - seen|
    {
      ClimbKnown(a, n, seen, current);
      if current.value == n {
        NextReached(a, n, seen, current);
        return true;
      }
      ClimbOn(a, n, seen, current.value);
      FewerAbove(a.parents.Keys, seen, current.value);
      seen := seen + {current.value};
      current := ParentOf(a, current.value);
    }
    ClimbEnds(a, n, seen, current);
    found := false;
  }

  lemma NextReached(a: Architecture, n: Id, seen: set<Id>, next: Option<Id>)
    requires Climbing(a, n, seen, next) && next.Some?
    ensures ReachesProperly(Up(a), n, next.value)
  {
  }

  function Inside(n: Id, found: seq<Id>, i: int): Id
    requires 0 <= i < |found|
  {
    if i == 0 then n else found[i - 1]
  }

  /** Each boundary with the next one out. */
  ghost predicate Chain(a: Architecture, n: Id, found: seq<Id>) {
    forall i :: 0 <= i < |found| ==> ParentOf(a, Inside(n, found, i)) == Some(found[i])
  }

  function LastOf(n: Id, found: seq<Id>): Id {
    if found == [] then n else found[|found| - 1]
  }

  ghost predicate Distinct(found: seq<Id>) {
    forall i, j :: 0 <= i < j < |found| ==> found[i] != found[j]
  }

  /** The containers found so far, and the next one. */
  ghost predicate Climbed(a: Architecture, n: Id, found: seq<Id>, next: Option<Id>) {
    Climbing(a, n, Members(found), next) && Chain(a, n, found) && Distinct(found)
        && next == ParentOf(a, LastOf(n, found))
  }

  lemma ClimbedNext(a: Architecture, n: Id, found: seq<Id>, c: Id)
    requires Climbed(a, n, found, Some(c)) && c !in found
    ensures Climbed(a, n, found + [c], ParentOf(a, c))
    ensures |a.parents.Keys - Members(found + [c])| < |a.parents.Keys - Members(found)|
  {
    hide Climbing, Up, ParentOf, Chain, Distinct;
    ClimbKnown(a, n, Members(found), Some(c));
    ClimbOn(a, n, Members(found), c);
    assert c !in Members(found);
    FewerAbove(a.parents.Keys, Members(found), c);
    assert Members(found + [c]) == Members(found) + {c};
    ChainMore(a, n, found, c);
  }

  lemma ChainMore(a: Architecture, n: Id, found: seq<Id>, c: Id)
    requires Chain(a, n, found) && Distinct(found) && c !in found && ParentOf(a, LastOf(n, found)) == Some(c)
    ensures Chain(a, n, found + [c]) && Distinct(found + [c]) && LastOf(n, found + [c]) == c
  {
    hide ParentOf;
    var more := found + [c];
    forall i | 0 <= i < |more|
      ensures ParentOf(a, Inside(n, more, i)) == Some(more[i])
    {
      if i < |found| {
        assert Inside(n, more, i) == Inside(n, found, i);
      }
    }
  }

  lemma ClimbedStarts(a: Architecture, n: Id)
    ensures Climbed(a, n, [], ParentOf(a, n))
  {
    hide Climbing, Up, ParentOf;
    ClimbStarts(a, n);
    assert Members([]) == {};
  }

  lemma ClimbedEnds(a: Architecture, n: Id, found: seq<Id>, next: Option<Id>)
    requires Climbed(a, n, found, next) && (next.Some? ==> next.value in found)
    ensures Chain(a, n, found) && Distinct(found)
    ensures forall v :: v in found <==> ReachesProperly(Up(a), n, v)
  {
    hide Climbing, Up, ParentOf;
    assert next.Some? ==> next.value in Members(found);
    ClimbEnds(a, n, Members(found), next);
    assert forall v :: v in found <==> v in Members(found);
  }

  /** The boundaries that contain a node, innermost first: every one, and each once. */
  method Ancestors(a: Architecture, n: Id) returns (found: seq<Id>)
    ensures Chain(a, n, found) && Distinct(found)
    ensures forall v :: v in found <==> ReachesProperly(Up(a), n, v)
  {
    hide Climbed, Chain, Distinct, ReachesProperly;
    found := [];
    var current := ParentOf(a, n);
    ClimbedStarts(a, n);
    while current.Some? && current.value !in found
      invariant Climbed(a, n, found, current)
      decreases |a.parents.Keys - Members(found)|
    {
      ClimbedNext(a, n, found, current.value);
      found := found + [current.value];
      current := ParentOf(a, current.value);
    }
    ClimbedEnds(a, n, found, current);
  }

  /** An architecture's rules on containment: parents are boundaries it holds, and none contains itself. */
  ghost predicate ValidContainment(a: Architecture) {
    forall n :: n in a.parents && a.parents[n].Some? ==>
      a.parents[n].value in a.parents && a.parents[n].value in a.boundaries && !OnCycle(Up(a), n)
  }

  /** The rule a node's parent breaks. */
  datatype Rule = DanglingReference | InvalidParent | ContainmentCycle

  datatype Problem = Problem(node: Id, rule: Rule)

  /**
   * The first rule broken by a node's parent, if any: it is not there, it is no boundary, or the node
   * contains itself.
   */
  ghost function BrokenRule(a: Architecture, n: Id): Option<Rule>
    requires n in a.parents
  {
    if a.parents[n].None? then None
    else if a.parents[n].value !in a.parents then Some(DanglingReference)
    else if a.parents[n].value !in a.boundaries then Some(InvalidParent)
    else if OnCycle(Up(a), n) then Some(ContainmentCycle)
    else None
  }

  ghost predicate Breaks(a: Architecture, p: Problem) {
    p.node in a.parents && BrokenRule(a, p.node) == Some(p.rule)
  }

  /** The problems of those nodes, each once, by node. */
  ghost predicate ProblemsAre(a: Architecture, done: set<Id>, problems: seq<Problem>) {
    && (forall p :: p in problems <==> p.node in done && Breaks(a, p))
    && forall i, j :: 0 <= i < j < |problems| ==> problems[i].node < problems[j].node
  }

  lemma ProblemsNext(a: Architecture, done: set<Id>, problems: seq<Problem>, n: Id)
    requires ProblemsAre(a, done, problems) && n in a.parents && forall x :: x in done ==> x < n
    ensures var rule := BrokenRule(a, n);
            ProblemsAre(a, done + {n}, if rule.Some? then problems + [Problem(n, rule.value)] else problems)
  {
    hide BrokenRule;
    assert forall i :: 0 <= i < |problems| ==> problems[i] in problems;
  }

  /** A chain of parents leads from the node back to itself. */
  ghost predicate ContainsItself(a: Architecture, n: Id) {
    exists p :: IsParentChain(a, p) && |p| >= 2 && p[0] == n && p[|p| - 1] == n
  }

  ghost predicate IsParentChain(a: Architecture, p: seq<Id>) {
    (forall i :: 0 <= i < |p| ==> p[i] in a.parents)
    && forall i, j :: 0 <= i && j == i + 1 < |p| ==> p[i] in a.parents && a.parents[p[i]] == Some(p[j])
  }

  lemma ContainsOnCycle(a: Architecture, n: Id)
    ensures OnCycle(Up(a), n) <==> ContainsItself(a, n)
  {
    var g := Up(a);
    if OnCycle(g, n) {
      var w :| Edge(g, n, w) && Reaches(g, w, n);
      var q :| PathBetween(g, q, w, n);
      var p := [n] + q;
      forall i, j | 0 <= i && j == i + 1 < |p|
        ensures Edge(g, p[i], p[j])
      {
        assert i > 0 ==> p[i] == q[i - 1] && p[j] == q[j - 1];
      }
      forall i | 0 <= i < |p|
        ensures p[i] in a.parents
      {
        assert i > 0 ==> Edge(g, p[i - 1], p[i]);
      }
      assert IsParentChain(a, p);
    }
    if p :| IsParentChain(a, p) && |p| >= 2 && p[0] == n && p[|p| - 1] == n {
      var q := p[1..];
      forall i, j | 0 <= i && j == i + 1 < |q|
        ensures Edge(g, q[i], q[j])
      {
        assert q[i] == p[i + 1] && q[j] == p[j + 1];
      }
      assert PathBetween(g, q, q[0], n);
      assert a.parents[p[0]] == Some(p[1]);
      assert Edge(g, n, q[0]);
    }
  }

  /**
   * A node is listed for a parent that is not there; for one that is there and no boundary; or, under a boundary, for
   * containing itself.
   */
  lemma ProblemsMean(a: Architecture, problems: seq<Problem>, n: Id)
    requires ProblemsAre(a, a.parents.Keys, problems)
    ensures var parent := if n in a.parents then a.parents[n] else None;
            var known := parent.Some? && parent.value in a.parents;
            var bounded := known && parent.value in a.boundaries;
            && (Problem(n, DanglingReference) in problems <==> parent.Some? && !known)
            && (Problem(n, InvalidParent) in problems <==> known && !bounded)
            && (Problem(n, ContainmentCycle) in problems <==> bounded && ContainsItself(a, n))
  {
    hide Up, OnCycle, ContainsItself;
    ContainsOnCycle(a, n);
  }

  /** Which nodes break a rule of containment, and which rule, by node; nothing exactly when all of them hold. */
  method ContainmentProblems(a: Architecture) returns (problems: seq<Problem>)
    ensures ProblemsAre(a, a.parents.Keys, problems)
    ensures problems == [] <==> ValidContainment(a)
  {
    hide Up, OnCycle, ValidContainment, InOrder, ProblemsAre;
    problems := [];
    ghost var nodes := a.parents.Keys;
    var order := InOrder(a.parents.Keys);
    Visited(nodes);
    NoProblems(a);
    for i := 0 to |order|
      invariant ProblemsAre(a, Members(order[..i]), problems)
    {
      Visit(nodes, i);
      var n := order[i];
      ProblemsNext(a, Members(order[..i]), problems, n);
      var cyclic := InContainmentCycle(a, n);
      if a.parents[n].Some? {
        if a.parents[n].value !in a.parents {
          problems := problems + [Problem(n, DanglingReference)];
        } else if a.parents[n].value !in a.boundaries {
          problems := problems + [Problem(n, InvalidParent)];
        } else if cyclic {
          problems := problems + [Problem(n, ContainmentCycle)];
        }
      }
    }
    NoneBroken(a, problems);
  }

  lemma NoProblems(a: Architecture)
    ensures ProblemsAre(a, {}, [])
  {
  }

  lemma BrokenListed(a: Architecture, problems: seq<Problem>, n: Id)
    requires ProblemsAre(a, a.parents.Keys, problems) && n in a.parents && BrokenRule(a, n).Some?
    ensures problems != []
  {
    hide BrokenRule;
    assert Breaks(a, Problem(n, BrokenRule(a, n).value));
  }

  lemma NoneBroken(a: Architecture, problems: seq<Problem>)
    requires ProblemsAre(a, a.parents.Keys, problems)
    ensures problems == [] <==> ValidContainment(a)
  {
    hide OnCycle, Up;
    if problems == [] {
      forall n | n in a.parents && a.parents[n].Some?
        ensures BrokenRule(a, n) == None
      {
        if BrokenRule(a, n).Some? {
          BrokenListed(a, problems, n);
        }
      }
    } else {
      assert problems[0] in problems && Breaks(a, problems[0]);
    }
  }

  /**
   * In a valid architecture the chain of containers is whole: it ends at one without a parent, and never at
   * the node.
   */
  lemma ContainersEnd(a: Architecture, n: Id, found: seq<Id>)
    requires ValidContainment(a) && n in a.parents && Chain(a, n, found) && Distinct(found)
    requires forall v :: v in found <==> ReachesProperly(Up(a), n, v)
    ensures n !in found && (forall b :: b in found ==> b in a.boundaries)
    ensures LastOf(n, found) in a.parents && a.parents[LastOf(n, found)].None?
  {
    hide Up;
    var last := LastOf(n, found);
    if found != [] {
      assert ParentOf(a, Inside(n, found, |found| - 1)) == Some(last);
    }
    forall b | b in found
      ensures b in a.boundaries
    {
      var i :| 0 <= i < |found| && found[i] == b;
      assert ParentOf(a, Inside(n, found, i)) == Some(b);
    }
    NotOwnContainer(a, n);
    if a.parents[last].Some? {
      var p := a.parents[last].value;
      UpEdge(a, last, p);
      NotOwnContainer(a, last);
      if found == [] {
        ParentFound(a, n, found, p);
        assert false;
      } else {
        LastIsOnCycle(a, n, found, p);
        assert false;
      }
    }
  }

  lemma ParentFound(a: Architecture, n: Id, found: seq<Id>, p: Id)
    requires ParentOf(a, n) == Some(p) && forall v :: v in found <==> ReachesProperly(Up(a), n, v)
    ensures p in found
  {
    hide Up;
    UpEdge(a, n, p);
    ReachesSelf(Up(a), p);
  }

  lemma NotOwnContainer(a: Architecture, n: Id)
    requires ValidContainment(a) && n in a.parents
    ensures !OnCycle(Up(a), n)
  {
    if a.parents[n].None? {
      assert forall v :: !Edge(Up(a), n, v);
    }
  }

  /** A parent above the last of all the containers is one of them, and so the last contains itself. */
  lemma LastIsOnCycle(a: Architecture, n: Id, found: seq<Id>, p: Id)
    requires Chain(a, n, found) && found != [] && ParentOf(a, found[|found| - 1]) == Some(p)
    requires forall v :: v in found <==> ReachesProperly(Up(a), n, v)
    ensures OnCycle(Up(a), found[|found| - 1])
  {
    hide Up;
    var z := |found| - 1;
    assert found[z] in found;
    UpEdge(a, found[z], p);
    ReachesEdge(Up(a), found[z], p);
    var w :| Edge(Up(a), n, w) && Reaches(Up(a), w, found[z]);
    ReachesTransitive(Up(a), w, found[z], p);
    assert p in found;
    var i :| 0 <= i < |found| && found[i] == p;
    ChainReaches(a, n, found, i, z);
  }

  lemma {:induction false} ChainReaches(a: Architecture, n: Id, found: seq<Id>, i: nat, j: nat)
    requires Chain(a, n, found) && i <= j < |found|
    ensures Reaches(Up(a), found[i], found[j])
    decreases j
  {
    hide Up;
    assert ParentOf(a, Inside(n, found, j)) == Some(found[j]);
    UpEdge(a, n, n);
    if i == j {
      ReachesSelf(Up(a), found[j]);
    } else {
      ChainReaches(a, n, found, i, j - 1);
      UpEdge(a, found[j - 1], found[j]);
      ReachesEdge(Up(a), found[j - 1], found[j]);
      ReachesTransitive(Up(a), found[i], found[j - 1], found[j]);
    }
  }
}
