/**
 * Why an iterative Tarjan search finds the strongly connected components of a graph: the invariant of
 * the search and one lemma per move of it. The loop itself is `DependencyGraph.Cycles`.
 */
module Components {
  import opened Reachability

  /**
   * Where a search stands: the numbers given to visited vertices, those still on the stack, those being
   * explored (`gray`), and the edges each visited vertex has still to explore.
   */
  datatype Search = Search(
    next: nat, index: map<Id, nat>, low: map<Id, nat>, onStack: set<Id>, gray: set<Id>, pending: map<Id, set<Id>>)

  ghost predicate Shape(a: Graph, s: Search) {
    && s.index.Keys <= a.Keys && s.low.Keys == s.index.Keys && s.pending.Keys == s.index.Keys
    && s.gray <= s.onStack <= s.index.Keys
    && (forall v :: v in s.index ==> s.index[v] < s.next)
    && (forall u, v {:trigger s.index[u], s.index[v]} ::
          u in s.index && v in s.index && s.index[u] == s.index[v] ==> u == v)
    && (forall v {:trigger s.pending[v]} :: v in s.index && v !in s.gray ==> s.pending[v] == {})
  }

  /** Explored edges lead to visited vertices, and those of a vertex off the stack never lead back to it. */
  ghost predicate Explored(a: Graph, s: Search)
    requires Shape(a, s)
  {
    && (forall v, x {:trigger Edge(a, v, x)} :: v in s.index && Edge(a, v, x) && x !in s.pending[v] ==> x in s.index)
    && (forall v, x {:trigger Edge(a, v, x)} :: v in s.index && v !in s.onStack && Edge(a, v, x) ==> x !in s.onStack)
  }

  /** A vertex reaches everything above it on the stack. */
  ghost predicate Spine(a: Graph, s: Search)
    requires Shape(a, s)
  {
    forall x, y {:trigger Reaches(a, x, y)} ::
      x in s.onStack && y in s.onStack && s.index[x] <= s.index[y] ==> Reaches(a, x, y)
  }

  ghost predicate AnchoredAt(a: Graph, s: Search, y: Id, w: Id)
    requires Shape(a, s) && y in s.onStack
  {
    w in s.gray && s.index[w] <= s.index[y] && Reaches(a, y, w)
  }

  ghost predicate HasAnchor(a: Graph, s: Search, y: Id)
    requires Shape(a, s) && y in s.onStack
  {
    exists w :: AnchoredAt(a, s, y, w)
  }

  /** Everything on the stack reaches a vertex being explored, at or below it. */
  ghost predicate Anchored(a: Graph, s: Search)
    requires Shape(a, s)
  {
    forall y {:trigger HasAnchor(a, s, y)} :: y in s.onStack ==> HasAnchor(a, s, y)
  }

  ghost predicate Witnesses(a: Graph, s: Search, u: Id, x: Id, n: nat)
    requires Shape(a, s)
  {
    x in s.onStack && s.index[x] == n && Reaches(a, u, x)
  }

  ghost predicate HasWitness(a: Graph, s: Search, w: Id)
    requires Shape(a, s) && w in s.gray
  {
    s.low[w] <= s.index[w] && exists x :: Witnesses(a, s, w, x, s.low[w])
  }

  /** The low number of a vertex being explored is the index of a stack vertex it reaches. */
  ghost predicate LowSound(a: Graph, s: Search)
    requires Shape(a, s)
  {
    forall w {:trigger HasWitness(a, s, w)} :: w in s.gray ==> HasWitness(a, s, w)
  }

  /** `w` is the last vertex being explored that is not above `y`. */
  ghost predicate Owner(a: Graph, s: Search, w: Id, y: Id)
    requires Shape(a, s)
  {
    && w in s.gray && y in s.onStack && s.index[w] <= s.index[y]
    && forall u {:trigger u in s.gray} :: u in s.gray && s.index[u] <= s.index[y] ==> s.index[u] <= s.index[w]
  }

  /**
   * That low number is at most the index of every stack vertex an explored edge from its part of the stack
   * leads to.
   */
  ghost predicate LowComplete(a: Graph, s: Search)
    requires Shape(a, s)
  {
    forall w, y, x {:trigger Owner(a, s, w, y), Edge(a, y, x)} ::
      Owner(a, s, w, y) && Edge(a, y, x) && x !in s.pending[y] && x in s.onStack
      ==> s.low[w] <= s.index[x]
  }

  ghost predicate Inv(a: Graph, s: Search) {
    && Shape(a, s) && Explored(a, s) && Spine(a, s) && Anchored(a, s) && LowSound(a, s) && LowComplete(a, s)
  }

  /** `v` is the vertex explored last. */
  ghost predicate IsTop(s: Search, v: Id)
    requires s.gray <= s.index.Keys
  {
    v in s.gray && forall u {:trigger u in s.gray} :: u in s.gray ==> s.index[u] <= s.index[v]
  }

  // --- a vertex is entered -------------------------------------------------------------------------

  ghost function Entered(a: Graph, s: Search, v: Id): Search
    requires v in a
  {
    Search(s.next + 1, s.index[v := s.next], s.low[v := s.next], s.onStack + {v}, s.gray + {v}, s.pending[v := a[v]])
  }

  /** Everything on the stack reaches the vertex explored last. */
  lemma StackReachesTop(a: Graph, s: Search, x: Id, top: Id)
    requires Shape(a, s) && Anchored(a, s) && Spine(a, s) && IsTop(s, top) && x in s.onStack
    ensures Reaches(a, x, top)
  {
    assert HasAnchor(a, s, x);
    var w :| AnchoredAt(a, s, x, w);
    ReachesTransitive(a, x, w, top);
  }

  /** The first vertex entered, or one an edge of the vertex explored last leads to. */
  ghost predicate MayEnter(a: Graph, s: Search, v: Id)
    requires Shape(a, s)
  {
    v in a && v !in s.index && (s.gray == {} || exists top :: IsTop(s, top) && Edge(a, top, v))
  }

  lemma StackReachesNext(a: Graph, s: Search, x: Id, v: Id)
    requires Shape(a, s) && Anchored(a, s) && Spine(a, s) && MayEnter(a, s, v) && x in s.onStack
    ensures Reaches(a, x, v)
  {
    assert HasAnchor(a, s, x);
    var top :| IsTop(s, top) && Edge(a, top, v);
    StackReachesTop(a, s, x, top);
    ReachesEdge(a, top, v);
    ReachesTransitive(a, x, top, v);
  }

  lemma EnterShape(a: Graph, s: Search, v: Id)
    requires Shape(a, s) && v in a && v !in s.index
    ensures Shape(a, Entered(a, s, v))
  {
  }

  lemma EnterSpine(a: Graph, s: Search, v: Id)
    requires Shape(a, s) && Anchored(a, s) && Spine(a, s) && MayEnter(a, s, v)
    requires Shape(a, Entered(a, s, v))
    ensures Spine(a, Entered(a, s, v))
  {
    var t := Entered(a, s, v);
    ReachesSelf(a, v);
    forall x, y {:trigger Reaches(a, x, y)} | x in t.onStack && y in t.onStack && t.index[x] <= t.index[y]
      ensures Reaches(a, x, y)
    {
      if y == v && x != v {
        StackReachesNext(a, s, x, v);
      }
    }
  }

  lemma EnterLow(a: Graph, s: Search, v: Id)
    requires Inv(a, s) && v in a && v !in s.index && Shape(a, Entered(a, s, v))
    ensures LowSound(a, Entered(a, s, v)) && LowComplete(a, Entered(a, s, v))
  {
    var t := Entered(a, s, v);
    ReachesSelf(a, v);
    forall w {:trigger HasWitness(a, t, w)} | w in t.gray
      ensures HasWitness(a, t, w)
    {
      if w == v {
        assert Witnesses(a, t, v, v, t.low[v]);
      } else {
        assert HasWitness(a, s, w);
        var x :| Witnesses(a, s, w, x, s.low[w]);
        assert Witnesses(a, t, w, x, t.low[w]);
      }
    }
    forall w, y, x {:trigger Owner(a, t, w, y), Edge(a, y, x)} | Owner(a, t, w, y) && Edge(a, y, x)
        && x !in t.pending[y] && x in t.onStack
      ensures t.low[w] <= t.index[x]
    {
      if y != v {
        assert Owner(a, s, w, y);
      }
    }
  }

  lemma Enter(a: Graph, s: Search, v: Id)
    requires Inv(a, s) && MayEnter(a, s, v)
    ensures Inv(a, Entered(a, s, v)) && IsTop(Entered(a, s, v), v)
  {
    var t := Entered(a, s, v);
    EnterShape(a, s, v);
    EnterSpine(a, s, v);
    EnterLow(a, s, v);
    ReachesSelf(a, v);
    forall y {:trigger HasAnchor(a, t, y)} | y in t.onStack
      ensures HasAnchor(a, t, y)
    {
      if y == v {
        assert AnchoredAt(a, t, v, v);
      } else {
        assert HasAnchor(a, s, y);
        var w :| AnchoredAt(a, s, y, w);
        assert AnchoredAt(a, t, y, w);
      }
    }
  }

  // --- edges are taken from an iterator ------------------------------------------------------------

  /** Edges may be dropped once they lead to visited vertices already accounted for in the low number. */
  lemma Advance(a: Graph, s: Search, v: Id, rest: set<Id>)
    requires Inv(a, s) && v in s.gray && rest <= s.pending[v]
    requires forall x :: x in s.pending[v] - rest ==> x in s.index && (x in s.onStack ==> s.low[v] <= s.index[x])
    ensures Inv(a, s.(pending := s.pending[v := rest]))
  {
    var t := s.(pending := s.pending[v := rest]);
    assert Shape(a, t);
    forall y {:trigger HasAnchor(a, t, y)} | y in t.onStack
      ensures HasAnchor(a, t, y)
    {
      assert HasAnchor(a, s, y);
      var w :| AnchoredAt(a, s, y, w);
      assert AnchoredAt(a, t, y, w);
    }
    forall w {:trigger HasWitness(a, t, w)} | w in t.gray
      ensures HasWitness(a, t, w)
    {
      assert HasWitness(a, s, w);
      var x :| Witnesses(a, s, w, x, s.low[w]);
      assert Witnesses(a, t, w, x, t.low[w]);
    }
    forall w, y, x {:trigger Owner(a, t, w, y), Edge(a, y, x)} | Owner(a, t, w, y) && Edge(a, y, x)
        && x !in t.pending[y] && x in t.onStack
      ensures t.low[w] <= t.index[x]
    {
      assert Owner(a, s, w, y);
      if y == v {
        assert w == v;
      }
    }
  }

  lemma LowAtMostIndex(a: Graph, s: Search, w: Id) returns (z: Id)
    requires Inv(a, s) && w in s.gray
    ensures s.low[w] <= s.index[w] && Witnesses(a, s, w, z, s.low[w])
  {
    assert HasWitness(a, s, w);
    z :| Witnesses(a, s, w, z, s.low[w]);
  }

  // --- a low number is lowered ---------------------------------------------------------------------

  ghost function Lowered(s: Search, v: Id, n: nat): Search
    requires v in s.low
  {
    s.(low := s.low[v := if n < s.low[v] then n else s.low[v]])
  }

  lemma Lower(a: Graph, s: Search, v: Id, z: Id, n: nat)
    requires Inv(a, s) && v in s.gray && Witnesses(a, s, v, z, n)
    ensures Inv(a, Lowered(s, v, n))
  {
    var t := Lowered(s, v, n);
    assert Shape(a, t);
    forall y {:trigger HasAnchor(a, t, y)} | y in t.onStack
      ensures HasAnchor(a, t, y)
    {
      assert HasAnchor(a, s, y);
      var w :| AnchoredAt(a, s, y, w);
      assert AnchoredAt(a, t, y, w);
    }
    forall w {:trigger HasWitness(a, t, w)} | w in t.gray
      ensures HasWitness(a, t, w)
    {
      assert HasWitness(a, s, w);
      var x :| Witnesses(a, s, w, x, s.low[w]);
      assert Witnesses(a, t, w, if t.low[w] == s.low[w] then x else z, t.low[w]);
    }
    forall w, y, x {:trigger Owner(a, t, w, y), Edge(a, y, x)} | Owner(a, t, w, y) && Edge(a, y, x)
        && x !in t.pending[y] && x in t.onStack
      ensures t.low[w] <= t.index[x]
    {
      assert Owner(a, s, w, y);
    }
  }

  // --- the last explored vertex is left ------------------------------------------------------------

  ghost predicate Exhausted(a: Graph, s: Search, v: Id) {
    Inv(a, s) && IsTop(s, v) && s.pending[v] == {}
  }

  /** It stays on the stack: its low number is an earlier vertex's, which its parent has taken over. */
  lemma Retreat(a: Graph, s: Search, v: Id, parent: Id)
    requires Exhausted(a, s, v) && s.low[v] < s.index[v]
    requires IsTop(s.(gray := s.gray - {v}), parent) && s.low[parent] <= s.low[v]
    ensures Inv(a, s.(gray := s.gray - {v}))
  {
    var t := s.(gray := s.gray - {v});
    var m := LeftHasAnchor(a, s, v);
    assert Shape(a, t);
    forall y {:trigger HasAnchor(a, t, y)} | y in t.onStack
      ensures HasAnchor(a, t, y)
    {
      assert HasAnchor(a, s, y);
      var w :| AnchoredAt(a, s, y, w);
      if w == v {
        ReachesTransitive(a, y, v, m);
        assert AnchoredAt(a, t, y, m);
      } else {
        assert AnchoredAt(a, t, y, w);
      }
    }
    forall w {:trigger HasWitness(a, t, w)} | w in t.gray
      ensures HasWitness(a, t, w)
    {
      assert HasWitness(a, s, w);
      var x :| Witnesses(a, s, w, x, s.low[w]);
      assert Witnesses(a, t, w, x, t.low[w]);
    }
    forall w, y, x {:trigger Owner(a, t, w, y), Edge(a, y, x)} | Owner(a, t, w, y) && Edge(a, y, x)
        && x !in t.pending[y] && x in t.onStack
      ensures t.low[w] <= t.index[x]
    {
      if s.index[v] <= s.index[y] {
        assert Owner(a, s, v, y);
        assert w == parent;
      } else {
        assert Owner(a, s, w, y);
      }
    }
  }

  /** A vertex whose low number is not its own reaches an earlier vertex being explored. */
  lemma LeftHasAnchor(a: Graph, s: Search, v: Id) returns (m: Id)
    requires Inv(a, s) && v in s.gray && s.low[v] < s.index[v]
    ensures m in s.gray - {v} && s.index[m] < s.index[v] && Reaches(a, v, m)
  {
    assert HasWitness(a, s, v);
    var z :| Witnesses(a, s, v, z, s.low[v]);
    assert HasAnchor(a, s, z);
    m :| AnchoredAt(a, s, z, m);
    ReachesTransitive(a, v, z, m);
  }

  /** Maximal and strongly connected. */
  ghost predicate IsComponent(a: Graph, c: set<Id>) {
    forall u, v {:trigger Mutual(a, u, v)} :: u in c ==> (v in c <==> Mutual(a, u, v))
  }

  /** The stack from `v` up. */
  ghost function Segment(s: Search, v: Id): set<Id>
    requires s.onStack <= s.index.Keys && v in s.index
  {
    set y | y in s.onStack && s.index[v] <= s.index[y]
  }

  /** With nothing left to explore and a low number of its own, no edge leads from the top of the stack to its rest. */
  lemma SegmentClosed(a: Graph, s: Search, v: Id)
    requires Exhausted(a, s, v) && s.low[v] == s.index[v]
    ensures Closed(a, (s.index.Keys - s.onStack) + Segment(s, v))
    ensures Closed(a, s.index.Keys - s.onStack)
  {
    var c := Segment(s, v);
    forall y, x | y in (s.index.Keys - s.onStack) + c && Edge(a, y, x)
      ensures x in (s.index.Keys - s.onStack) + c
    {
      if y in c {
        assert y in s.gray ==> y == v;
        assert Owner(a, s, v, y);
      }
    }
  }

  lemma SegmentIsComponent(a: Graph, s: Search, v: Id)
    requires Exhausted(a, s, v) && s.low[v] == s.index[v]
    ensures IsComponent(a, Segment(s, v))
  {
    var c := Segment(s, v);
    var done := s.index.Keys - s.onStack;
    SegmentClosed(a, s, v);
    forall x, y {:trigger Mutual(a, x, y)} | x in c
      ensures y in c <==> Mutual(a, x, y)
    {
      if y in c {
        StackReachesTop(a, s, x, v);
        StackReachesTop(a, s, y, v);
        ReachesTransitive(a, x, v, y);
        ReachesTransitive(a, y, v, x);
      } else if Mutual(a, x, y) {
        ClosedKeepsReachable(a, done + c, x, y);
        ClosedKeepsReachable(a, done, y, x);
        assert false;
      }
    }
  }

  ghost function Retired(s: Search, v: Id): Search
    requires s.onStack <= s.index.Keys && v in s.index
  {
    s.(onStack := s.onStack - Segment(s, v), gray := s.gray - {v})
  }

  /** The stack from `v` up is taken off. */
  lemma Retire(a: Graph, s: Search, v: Id)
    requires Exhausted(a, s, v) && s.low[v] == s.index[v]
    ensures Inv(a, Retired(s, v))
  {
    var t := Retired(s, v);
    SegmentClosed(a, s, v);
    assert forall w :: w in t.gray ==> s.index[w] < s.index[v];
    assert Shape(a, t);
    forall u, x {:trigger Edge(a, u, x)} | u in t.index && u !in t.onStack && Edge(a, u, x)
      ensures x !in t.onStack
    {
      assert u in (s.index.Keys - s.onStack) + Segment(s, v);
    }
    forall y {:trigger HasAnchor(a, t, y)} | y in t.onStack
      ensures HasAnchor(a, t, y)
    {
      assert HasAnchor(a, s, y);
      var w :| AnchoredAt(a, s, y, w);
      assert AnchoredAt(a, t, y, w);
    }
    forall w {:trigger HasWitness(a, t, w)} | w in t.gray
      ensures HasWitness(a, t, w)
    {
      assert HasWitness(a, s, w);
      var x :| Witnesses(a, s, w, x, s.low[w]);
      assert Witnesses(a, t, w, x, t.low[w]);
    }
    forall w, y, x {:trigger Owner(a, t, w, y), Edge(a, y, x)} | Owner(a, t, w, y) && Edge(a, y, x)
        && x !in t.pending[y] && x in t.onStack
      ensures t.low[w] <= t.index[x]
    {
      assert y !in Segment(s, v);
      forall u | u in s.gray && s.index[u] <= s.index[y]
        ensures s.index[u] <= s.index[w]
      {
        assert u in t.gray;
      }
      assert Owner(a, s, w, y);
    }
  }
}
