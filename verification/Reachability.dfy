/** Directed graphs as adjacency maps, and what it means for one vertex to reach another. */
module Reachability {

  /** An element or step id. Only equality and the total order of ids are used. */
  type Id = int

  type Graph = map<Id, set<Id>>

  function Members(c: seq<Id>): set<Id> {
    set x | x in c
  }

  ghost predicate Edge(g: Graph, u: Id, v: Id) {
    u in g && v in g[u]
  }

  /** Every edge ends at a vertex of the graph. */
  ghost predicate Proper(g: Graph) {
    forall u, v :: Edge(g, u, v) ==> v in g
  }

  /** A non-empty walk along the edges, starting at a vertex of the graph. */
  ghost predicate IsPath(g: Graph, p: seq<Id>) {
    && |p| > 0 && p[0] in g
    && forall i, j :: 0 <= i && j == i + 1 < |p| ==> Edge(g, p[i], p[j])
  }

  ghost predicate PathBetween(g: Graph, p: seq<Id>, u: Id, v: Id) {
    IsPath(g, p) && p[0] == u && p[|p| - 1] == v
  }

  ghost predicate Reaches(g: Graph, u: Id, v: Id) {
    exists p :: PathBetween(g, p, u, v)
  }

  /** Reached by at least one edge. */
  ghost predicate ReachesProperly(g: Graph, u: Id, v: Id) {
    exists w :: Edge(g, u, w) && Reaches(g, w, v)
  }

  ghost predicate Mutual(g: Graph, u: Id, v: Id) {
    Reaches(g, u, v) && Reaches(g, v, u)
  }

  ghost predicate OnCycle(g: Graph, v: Id) {
    ReachesProperly(g, v, v)
  }

  ghost predicate Closed(g: Graph, c: set<Id>) {
    forall u, v {:trigger Edge(g, u, v)} :: u in c && Edge(g, u, v) ==> v in c
  }

  lemma ReachesSelf(g: Graph, v: Id)
    requires v in g
    ensures Reaches(g, v, v)
  {
    assert PathBetween(g, [v], v, v);
  }

  lemma ReachesEdge(g: Graph, u: Id, v: Id)
    requires Edge(g, u, v)
    ensures Reaches(g, u, v)
  {
    assert PathBetween(g, [u, v], u, v);
  }

  lemma ReachesTransitive(g: Graph, u: Id, v: Id, w: Id)
    requires Reaches(g, u, v) && Reaches(g, v, w)
    ensures Reaches(g, u, w)
  {
    var p :| PathBetween(g, p, u, v);
    var q :| PathBetween(g, q, v, w);
    var r := p + q[1..];
    forall i, j | 0 <= i && j == i + 1 < |r|
      ensures Edge(g, r[i], r[j])
    {
      if i < |p| - 1 {
        assert r[i] == p[i] && r[j] == p[j];
      } else {
        assert r[i] == q[i - (|p| - 1)] && r[j] == q[j - (|p| - 1)];
      }
    }
    assert PathBetween(g, r, u, w);
  }

  /** Nothing outside a closed set is reached from inside it. */
  lemma ClosedKeepsReachable(g: Graph, c: set<Id>, u: Id, v: Id)
    requires Closed(g, c) && u in c && Reaches(g, u, v)
    ensures v in c
  {
    var p :| PathBetween(g, p, u, v);
    ClosedKeepsPath(g, c, p, |p| - 1);
  }

  lemma ClosedKeepsPath(g: Graph, c: set<Id>, p: seq<Id>, n: nat)
    requires Closed(g, c) && IsPath(g, p) && p[0] in c && n < |p|
    ensures p[n] in c
  {
    if n > 0 {
      ClosedKeepsPath(g, c, p, n - 1);
      assert Edge(g, p[n - 1], p[n]);
    }
  }

  /** A path to another vertex has a first edge. */
  lemma FirstEdge(g: Graph, u: Id, v: Id)
    requires Reaches(g, u, v) && u != v && Proper(g)
    ensures ReachesProperly(g, u, v)
  {
    var p :| PathBetween(g, p, u, v);
    assert Edge(g, p[0], p[1]);
    var q := p[1..];
    forall i, j | 0 <= i && j == i + 1 < |q|
      ensures Edge(g, q[i], q[j])
    {
      assert q[i] == p[i + 1] && q[j] == p[j + 1];
    }
    assert PathBetween(g, q, p[1], v);
  }

  ghost predicate WaitsWithin(a: Graph, stuck: set<Id>, z: Id) {
    exists w :: w in stuck && Edge(a, z, w)
  }

  /** Where every vertex has an edge to another of the same set, following edges comes back to one already met. */
  lemma {:induction false} WaitingMeetsCycle(a: Graph, stuck: set<Id>, seen: set<Id>, x: Id) returns (v: Id)
    requires stuck <= a.Keys && forall z {:trigger WaitsWithin(a, stuck, z)} :: z in stuck ==> WaitsWithin(a, stuck, z)
    requires x in seen && seen <= stuck && forall y :: y in seen ==> Reaches(a, y, x)
    ensures Reaches(a, x, v) && OnCycle(a, v)
    decreases stuck - seen
  {
    assert WaitsWithin(a, stuck, x);
    var w :| w in stuck && Edge(a, x, w);
    ReachesEdge(a, x, w);
    if w in seen {
      v := x;
    } else {
      forall y | y in seen + {w}
        ensures Reaches(a, y, w)
      {
        if y in seen {
          ReachesTransitive(a, y, x, w);
        } else {
          ReachesSelf(a, w);
        }
      }
      v := WaitingMeetsCycle(a, stuck, seen + {w}, w);
      ReachesTransitive(a, x, w, v);
    }
  }

  lemma AnyOf<T>(s: set<T>) returns (x: T)
    requires s != {}
    ensures x in s
  {
    x :| x in s;
  }

  lemma KeyOf<K, V>(m: map<K, V>, v: V) returns (k: K)
    requires v in m.Values
    ensures k in m && m[k] == v
  {
    k :| k in m && m[k] == v;
  }

  lemma AnyIn<T>(s: seq<T>) returns (x: T)
    requires s != []
    ensures x in s
  {
    x := s[0];
  }

  lemma OutsiderOf<T>(s: set<T>, t: set<T>) returns (x: T)
    requires !(s <= t)
    ensures x in s && x !in t
  {
    x :| x in s && x !in t;
  }

  lemma SubsetOf(s: set<Id>, t: set<Id>)
    requires forall v :: v in s ==> v in t
    ensures s <= t
  {
    if !(s <= t) {
      var x := OutsiderOf(s, t);
      assert false;
    }
  }

  lemma {:induction false} SizeWithin(a: set<Id>, b: set<Id>)
    requires a <= b
    ensures |a| <= |b|
    decreases a
  {
    if a != {} {
      var x := AnyOf(a);
      SizeWithin(a - {x}, b - {x});
    }
  }
}
