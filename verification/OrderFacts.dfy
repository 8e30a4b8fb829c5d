/** What the order of a plan's steps means: least among its peers, and short exactly of what a cycle blocks. */
module OrderFacts {
  import opened Reachability
  import opened StepGraph
  import opened Cycles
  import opened Ordering

  // --- the least topological order -----------------------------------------------------------------

  lemma {:induction false} CommonPrefix(g: Steps, s: seq<Id>, t: seq<Id>, n: nat)
    requires UniqueKeys(g) && Greedy(g, s) && Topological(g, t)
    requires n <= |s| && n <= |t|
    ensures s[..n] == t[..n] || KeysBefore(g, s, t)
  {
    if n > 0 {
      CommonPrefix(g, s, t, n - 1);
      if s[..n - 1] == t[..n - 1] && s[n - 1] != t[n - 1] {
        assert t[n - 1] in Available(g, Members(t[..n - 1]));
        assert s[n - 1] in Available(g, Members(s[..n - 1]));
        assert KeysBefore(g, s, t);
      } else if s[..n - 1] == t[..n - 1] {
        assert s[..n] == s[..n - 1] + [s[n - 1]] && t[..n] == t[..n - 1] + [t[n - 1]];
      }
    }
  }

  /** Every other topological order of the same steps comes later, comparing keys from the first step on. */
  lemma OrderIsLeast(g: Steps, s: seq<Id>, t: seq<Id>)
    requires UniqueKeys(g) && IsOrder(g, s) && Topological(g, t) && Members(t) == Members(s)
    ensures s == t || KeysBefore(g, s, t)
  {
    SameLength(g, s, t);
    CommonPrefix(g, s, t, |s|);
    assert s[..|s|] == s && t[..|t|] == t;
  }

  lemma SameLength(g: Steps, s: seq<Id>, t: seq<Id>)
    requires Topological(g, s) && Topological(g, t) && Members(s) == Members(t)
    ensures |s| == |t|
  {
    Count(g, s, |s|);
    Count(g, t, |t|);
    assert s[..|s|] == s && t[..|t|] == t;
  }

  lemma {:induction false} Count(g: Steps, s: seq<Id>, n: nat)
    requires Topological(g, s) && n <= |s|
    ensures |Members(s[..n])| == n
  {
    if n > 0 {
      Count(g, s, n - 1);
      TopologicalOnce(g, s, n - 1);
      assert Members(s[..n]) == Members(s[..n - 1]) + {s[n - 1]};
    }
  }

  /** Nothing is left to choose: the steps determine their order. */
  lemma OrderDetermined(g: Steps, s: seq<Id>, t: seq<Id>)
    requires UniqueKeys(g) && IsOrder(g, s) && IsOrder(g, t)
    ensures s == t
  {
    ListedSubset(g, s, t, |s|);
    ListedSubset(g, t, s, |t|);
    assert s[..|s|] == s && t[..|t|] == t;
    OrderIsLeast(g, s, t);
    OrderIsLeast(g, t, s);
  }

  /** Whatever one order lists, every other one does. */
  lemma {:induction false} ListedSubset(g: Steps, s: seq<Id>, t: seq<Id>, n: nat)
    requires Topological(g, s) && IsOrder(g, t) && n <= |s|
    ensures Members(s[..n]) <= Members(t)
  {
    if n > 0 {
      ListedSubset(g, s, t, n - 1);
      assert s[n - 1] in Available(g, Members(s[..n - 1]));
      assert s[n - 1] !in Available(g, Members(t));
      assert Members(s[..n]) == Members(s[..n - 1]) + {s[n - 1]};
    }
  }

  // --- what a cycle blocks -------------------------------------------------------------------------

  /** The step is in a cycle of known dependencies, or waits for one. */
  ghost predicate Blocked(g: Steps, u: Id) {
    exists v :: Reaches(Waits(g), u, v) && OnCycle(Waits(g), v)
  }

  lemma {:induction false} ListedNotOnCycle(g: Steps, t: seq<Id>, v: Id)
    requires Topological(g, t) && v in t
    ensures !OnCycle(Waits(g), v)
  {
    var k :| 0 <= k < |t| && t[k] == v;
    var a := Waits(g);
    PrefixTopological(g, t, k);
    TopologicalOnce(g, t, k);
    if OnCycle(a, v) {
      var w :| Edge(a, v, w) && Reaches(a, w, v);
      assert w in Members(t[..k]);
      TopologicalClosed(g, t[..k], w);
      ClosedKeepsReachable(a, Members(t[..k]), w, v);
      assert false;
    }
  }

  lemma PrefixTopological(g: Steps, t: seq<Id>, k: nat)
    requires Topological(g, t) && k <= |t|
    ensures Topological(g, t[..k])
  {
    forall i | 0 <= i < k
      ensures t[..k][i] in Available(g, Members(t[..k][..i]))
    {
      assert t[..k][..i] == t[..i];
    }
  }

  lemma UnlistedWaits(g: Steps, t: seq<Id>, z: Id)
    requires IsOrder(g, t) && z in g.Keys - Members(t)
    ensures WaitsWithin(Waits(g), g.Keys - Members(t), z)
  {
    assert z !in Available(g, Members(t));
    var w := OutsiderOf(Known(g, z), Members(t));
    assert Edge(Waits(g), z, w);
  }

  /** The order leaves out exactly the steps that are in a cycle or wait for one. */
  lemma LeftOutExactly(g: Steps, t: seq<Id>, u: Id)
    requires IsOrder(g, t) && u in g
    ensures u !in t <==> Blocked(g, u)
  {
    var a, stuck := Waits(g), g.Keys - Members(t);
    if u !in t {
      forall z {:trigger WaitsWithin(a, stuck, z)} | z in stuck
        ensures WaitsWithin(a, stuck, z)
      {
        UnlistedWaits(g, t, z);
      }
      ReachesSelf(a, u);
      var v := WaitingMeetsCycle(a, stuck, {u}, u);
    } else if Blocked(g, u) {
      var v :| Reaches(a, u, v) && OnCycle(a, v);
      TopologicalClosed(g, t, u);
      ClosedKeepsReachable(a, Members(t), u, v);
      ListedNotOnCycle(g, t, v);
      assert false;
    }
  }

  /** With no step waiting for itself, the order is complete exactly when no group of steps is reported. */
  lemma CompleteWithoutCycles(g: Steps, t: seq<Id>, cycles: seq<seq<Id>>)
    requires UniqueKeys(g) && NoSelfDependency(g) && IsOrder(g, t) && AreCycles(g, Waits(g), cycles)
    ensures cycles == [] <==> Members(t) == g.Keys
  {
    var a := Waits(g);
    if cycles == [] {
      forall u | u in g
        ensures u in Members(t)
      {
        LeftOutExactly(g, t, u);
        if Blocked(g, u) {
          var v :| Reaches(a, u, v) && OnCycle(a, v);
          var w :| Edge(a, v, w) && Reaches(a, w, v);
          ReachesEdge(a, v, w);
          assert Mutual(a, v, w);
          assert false;
        }
      }
      SubsetOf(g.Keys, Members(t));
      ListedKnown(g, t);
    } else {
      var c := cycles[0];
      assert IsGroup(g, a, c);
      var u, v := c[0], c[1];
      assert u in Members(c) && v in Members(c) && u != v;
      assert Mutual(a, u, v);
      FirstEdge(a, u, v);
      var w :| Edge(a, u, w) && Reaches(a, w, v);
      ReachesTransitive(a, w, v, u);
      ReachesSelf(a, u);
      LeftOutExactly(g, t, u);
    }
  }

  lemma ListedKnown(g: Steps, t: seq<Id>)
    requires Topological(g, t)
    ensures Members(t) <= g.Keys
  {
    forall u | u in Members(t)
      ensures u in g
    {
      var k :| 0 <= k < |t| && t[k] == u;
    }
  }
}
