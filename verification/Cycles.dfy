/** The groups of steps that wait for each other, as the plan's findings report them. */
module Cycles {
  import opened Reachability
  import opened StepGraph
  import opened Components

  /** Two or more steps in key order, each waiting for every other one and for no step outside in return. */
  ghost predicate IsGroup(g: Steps, a: Graph, c: seq<Id>) {
    Ascending(g, c) && |c| >= 2 && IsComponent(a, Members(c))
  }

  ghost predicate AllGroups(g: Steps, a: Graph, groups: seq<seq<Id>>) {
    forall k :: 0 <= k < |groups| ==> IsGroup(g, a, groups[k])
  }

  ghost predicate HasGroup(groups: seq<seq<Id>>, u: Id) {
    exists k :: 0 <= k < |groups| && u in groups[k]
  }

  function FirstKey(g: Steps, c: seq<Id>): int {
    if c != [] && c[0] in g then g[c[0]].key else 0
  }

  ghost predicate FirstKeysAscend(g: Steps, groups: seq<seq<Id>>) {
    forall i, j :: 0 <= i < j < |groups| ==> FirstKey(g, groups[i]) < FirstKey(g, groups[j])
  }

  /** Every group there is, once, ordered by its first key. */
  ghost predicate AreCycles(g: Steps, a: Graph, groups: seq<seq<Id>>) {
    && AllGroups(g, a, groups)
    && (forall u, v {:trigger Mutual(a, u, v)} :: u != v && Mutual(a, u, v) ==> HasGroup(groups, u))
    && FirstKeysAscend(g, groups)
  }

  // --- the groups found so far ---------------------------------------------------------------------

  ghost predicate Disjoint(groups: seq<seq<Id>>) {
    forall i, j, x {:trigger x in groups[i], x in groups[j]} :: 0 <= i < j < |groups| && x in groups[i] ==>
        x !in groups[j]
  }

  /** The groups of the vertices already assigned to a component. */
  ghost predicate Found(g: Steps, a: Graph, done: set<Id>, groups: seq<seq<Id>>) {
    && AllGroups(g, a, groups)
    && (forall k, x :: 0 <= k < |groups| && x in groups[k] ==> x in done)
    && (forall u, v {:trigger Mutual(a, u, v)} :: u in done && u != v && Mutual(a, u, v) ==> HasGroup(groups, u))
    && Disjoint(groups)
  }

  function WithGroup(g: Steps, groups: seq<seq<Id>>, c: set<Id>): seq<seq<Id>>
    requires UniqueKeys(g) && c <= g.Keys
  {
    if |c| > 1 then groups + [InKeyOrder(g, c)] else groups
  }

  lemma FindGroup(g: Steps, a: Graph, done: set<Id>, groups: seq<seq<Id>>, c: set<Id>)
    requires UniqueKeys(g) && c <= g.Keys && Found(g, a, done, groups)
    requires IsComponent(a, c) && c != {} && c !! done
    ensures Found(g, a, done + c, WithGroup(g, groups, c))
  {
    if |c| > 1 {
      FindPair(g, a, done, groups, c);
    } else {
      forall u, v {:trigger Mutual(a, u, v)} | u in c && u != v && Mutual(a, u, v)
        ensures false
      {
        SubsetSize({u, v}, c);
      }
    }
  }

  lemma FindPair(g: Steps, a: Graph, done: set<Id>, groups: seq<seq<Id>>, c: set<Id>)
    requires UniqueKeys(g) && c <= g.Keys && Found(g, a, done, groups)
    requires IsComponent(a, c) && |c| > 1 && c !! done
    ensures Found(g, a, done + c, groups + [InKeyOrder(g, c)])
  {
    hide IsComponent, Ascending;
    var r := InKeyOrder(g, c);
    var after := groups + [r];
    assert Members(r) == c;
    assert IsGroup(g, a, r);
    assert after[|groups|] == r;
    forall u, v {:trigger Mutual(a, u, v)} | u in done + c && u != v && Mutual(a, u, v)
      ensures HasGroup(after, u)
    {
      if u in done {
        assert HasGroup(groups, u);
        var k :| 0 <= k < |groups| && u in groups[k];
        assert u in after[k];
      } else {
        assert u in after[|groups|];
      }
    }
  }

  lemma SubsetSize(a: set<Id>, b: set<Id>)
    requires a <= b
    ensures |a| <= |b|
  {
    assert b == a + (b - a);
  }

  // --- the groups in order -------------------------------------------------------------------------

  function Firsts(groups: seq<seq<Id>>): set<Id>
    requires forall k :: 0 <= k < |groups| ==> groups[k] != []
  {
    set k | 0 <= k < |groups| :: groups[k][0]
  }

  function StartingWith(groups: seq<seq<Id>>, x: Id): (k: nat)
    requires forall k :: 0 <= k < |groups| ==> groups[k] != []
    requires x in Firsts(groups)
    ensures k < |groups| && groups[k][0] == x
  {
    if groups[0][0] == x then 0
    else
      assert forall k :: 0 < k < |groups| ==> groups[1..][k - 1] == groups[k];
      StartingWith(groups[1..], x) + 1
  }

  predicate CanSort(g: Steps, groups: seq<seq<Id>>) {
    forall k :: 0 <= k < |groups| ==> groups[k] != [] && groups[k][0] in g
  }

  /** The groups by the key of their first step; no two groups share a step, so there are no ties. */
  function SortGroups(g: Steps, groups: seq<seq<Id>>): (r: seq<seq<Id>>)
    requires UniqueKeys(g) && CanSort(g, groups)
  {
    var firsts := InKeyOrder(g, Firsts(groups));
    seq(|firsts|, i requires 0 <= i < |firsts| => assert firsts[i] in firsts; groups[StartingWith(groups, firsts[i])])
  }

  /** Sorting loses no group. */
  lemma PlaceOf(g: Steps, a: Graph, groups: seq<seq<Id>>, k: nat) returns (i: nat)
    requires UniqueKeys(g) && AllGroups(g, a, groups) && Disjoint(groups) && k < |groups|
    ensures i < |SortGroups(g, groups)| && SortGroups(g, groups)[i] == groups[k]
  {
    var firsts := InKeyOrder(g, Firsts(groups));
    var x := groups[k][0];
    assert x in firsts;
    i :| 0 <= i < |firsts| && firsts[i] == x;
    var j := StartingWith(groups, x);
    assert x in groups[j] && x in groups[k];
  }

  lemma SortedAscends(g: Steps, a: Graph, groups: seq<seq<Id>>)
    requires UniqueKeys(g) && AllGroups(g, a, groups)
    ensures AllGroups(g, a, SortGroups(g, groups)) && FirstKeysAscend(g, SortGroups(g, groups))
  {
    var r := SortGroups(g, groups);
    var firsts := InKeyOrder(g, Firsts(groups));
    forall i | 0 <= i < |r|
      ensures IsGroup(g, a, r[i]) && FirstKey(g, r[i]) == g[firsts[i]].key
    {
      var x := firsts[i];
      assert x in firsts;
      var j := StartingWith(groups, x);
      assert r[i] == groups[j];
      assert IsGroup(g, a, groups[j]);
    }
  }

  lemma SortedAreCycles(g: Steps, a: Graph, groups: seq<seq<Id>>)
    requires UniqueKeys(g) && a.Keys == g.Keys && Found(g, a, g.Keys, groups)
    ensures CanSort(g, groups) && AreCycles(g, a, SortGroups(g, groups))
  {
    var r := SortGroups(g, groups);
    SortedAscends(g, a, groups);
    forall u, v | u != v && Mutual(a, u, v)
      ensures HasGroup(r, u)
    {
      var p :| PathBetween(a, p, u, v);
      assert HasGroup(groups, u);
      var k :| 0 <= k < |groups| && u in groups[k];
      var i := PlaceOf(g, a, groups, k);
      assert u in r[i];
    }
  }

  // --- nothing else is reported --------------------------------------------------------------------

  ghost predicate Lists(groups: seq<seq<Id>>, c: seq<Id>) {
    exists k :: 0 <= k < |groups| && groups[k] == c
  }

  lemma SameGroup(g: Steps, a: Graph, x: seq<seq<Id>>, y: seq<seq<Id>>, i: nat)
    requires UniqueKeys(g) && AreCycles(g, a, x) && AreCycles(g, a, y) && i < |x|
    ensures Lists(y, x[i])
  {
    var c := x[i];
    assert IsGroup(g, a, c);
    var u, v := c[0], c[1];
    assert u in Members(c) && v in Members(c) && u != v;
    assert Mutual(a, u, v);
    assert HasGroup(y, u);
    var k :| 0 <= k < |y| && u in y[k];
    var d := y[k];
    assert IsGroup(g, a, d);
    forall w
      ensures w in c <==> w in d
    {
      assert w in Members(c) <==> Mutual(a, u, w);
      assert w in Members(d) <==> Mutual(a, u, w);
    }
    AscendingUnique(g, c, d);
  }

  /** Ascending lists of the same groups agree as far as both go. */
  lemma {:induction false} SamePrefix(g: Steps, x: seq<seq<Id>>, y: seq<seq<Id>>, n: nat)
    requires FirstKeysAscend(g, x) && FirstKeysAscend(g, y) && n <= |x| && n <= |y|
    requires forall i :: 0 <= i < |x| ==> Lists(y, x[i])
    requires forall i :: 0 <= i < |y| ==> Lists(x, y[i])
    ensures forall i :: 0 <= i < n ==> x[i] == y[i]
  {
    hide FirstKey;
    if n > 0 {
      var m := n - 1;
      SamePrefix(g, x, y, m);
      assert Lists(y, x[m]) && Lists(x, y[m]);
      var k :| 0 <= k < |y| && y[k] == x[m];
      var j :| 0 <= j < |x| && x[j] == y[m];
    }
  }

  /** The steps determine the groups reported: what `AreCycles` says leaves no choice. */
  lemma CyclesDetermined(g: Steps, a: Graph, x: seq<seq<Id>>, y: seq<seq<Id>>)
    requires UniqueKeys(g) && AreCycles(g, a, x) && AreCycles(g, a, y)
    ensures x == y
  {
    forall i | 0 <= i < |x|
      ensures Lists(y, x[i])
    {
      SameGroup(g, a, x, y, i);
    }
    forall i | 0 <= i < |y|
      ensures Lists(x, y[i])
    {
      SameGroup(g, a, y, x, i);
    }
    var n := if |x| < |y| then |x| else |y|;
    SamePrefix(g, x, y, n);
    assert |x| < |y| ==> Lists(x, y[n]);
    assert |y| < |x| ==> Lists(y, x[n]);
  }
}
