/** `DependencyGraph.order`, `levels`, `ancestors` and `unknown`. */
module Ordering {
  import opened Reachability
  import opened StepGraph

  // --- topological order ---------------------------------------------------------------------------

  /** The steps not listed yet whose known dependencies all are. */
  function Available(g: Steps, done: set<Id>): set<Id> {
    set i | i in g && i !in done && Known(g, i) <= done
  }

  /** Each step once, after everything it waits for. */
  ghost predicate Topological(g: Steps, t: seq<Id>) {
    forall k :: 0 <= k < |t| ==> t[k] in Available(g, Members(t[..k]))
  }

  /** Of the steps that could come next, always the one with the least key. */
  ghost predicate Greedy(g: Steps, t: seq<Id>) {
    && Topological(g, t)
    && forall k, x :: 0 <= k < |t| && x in Available(g, Members(t[..k])) ==> t[k] in g && g[t[k]].key <= g[x].key
  }

  ghost predicate IsOrder(g: Steps, t: seq<Id>) {
    Greedy(g, t) && Available(g, Members(t)) == {}
  }

  ghost predicate KeysBefore(g: Steps, s: seq<Id>, t: seq<Id>) {
    exists k :: 0 <= k < |s| && k < |t| && s[..k] == t[..k] && s[k] in g && t[k] in g && g[s[k]].key < g[t[k]].key
  }

  lemma ListedOnce(g: Steps, items: seq<Id>, n: nat)
    requires Ascending(g, items) && n < |items|
    ensures items[n] !in items[..n] && items[n] in g
  {
  }

  /** What one pass over the waiting steps has done by the time it has seen `seen`. */
  ghost predicate Releasing(g: Steps, done: set<Id>, current: Id, seen: seq<Id>, waiting: map<Id, set<Id>>,
      ready: seq<Id>, before: seq<Id>) {
    && waiting.Keys == g.Keys
    && (forall i :: i in g ==> waiting[i] == if i in seen then Known(g, i) - (done + {current}) else Known(g, i) - done)
    && (forall i :: i in ready <==>
        (i in before || (i in seen && i in g && current in Known(g, i) && Known(g, i) <= done + {current})))
  }

  lemma ReleaseStep(g: Steps, done: set<Id>, current: Id, seen: seq<Id>, waiting: map<Id, set<Id>>, ready: seq<Id>,
      before: seq<Id>, i: Id)
    requires Releasing(g, done, current, seen, waiting, ready, before) && current !in done && i in g && i !in seen
    ensures var left := waiting[i] - {current};
            Releasing(g, done, current, seen + [i], waiting[i := left],
              if current in waiting[i] && left == {} then ready + [i] else ready, before)
  {
    assert forall x :: x in seen + [i] <==> x in seen || x == i;
    assert Known(g, i) - (done + {current}) == waiting[i] - {current};
    assert waiting[i] - {current} == {} <==> Known(g, i) <= done + {current};
  }

  /** The pass over the waiting steps after `current` is listed: it is no longer waited for. */
  method Release(g: Steps, waiting: map<Id, set<Id>>, ready: seq<Id>, current: Id, ghost done: set<Id>)
    returns (waiting': map<Id, set<Id>>, ready': seq<Id>)
    requires UniqueKeys(g) && current !in done
    requires Releasing(g, done, current, [], waiting, ready, ready)
    ensures Releasing(g, done, current, InKeyOrder(g, g.Keys), waiting', ready', ready)
  {
    hide Ascending, Releasing;
    var items := InKeyOrder(g, g.Keys);
    waiting', ready' := waiting, ready;
    assert items[..0] == [];
    for n := 0 to |items|
      invariant Releasing(g, done, current, items[..n], waiting', ready', ready)
    {
      var i := items[n];
      ListedOnce(g, items, n);
      ReleaseStep(g, done, current, items[..n], waiting', ready', ready, i);
      assert items[..n + 1] == items[..n] + [i];
      assert waiting'.Keys == g.Keys by { ReleasingKeys(g, done, current, items[..n], waiting', ready', ready); }
      if current in waiting'[i] {
        waiting' := waiting'[i := waiting'[i] - {current}];
        if waiting'[i] == {} {
          ready' := ready' + [i];
        }
      } else {
        assert waiting'[i] - {current} == waiting'[i];
        assert waiting' == waiting'[i := waiting'[i]];
      }
    }
    assert items[..|items|] == items;
  }

  lemma ReleasingKeys(g: Steps, done: set<Id>, current: Id, seen: seq<Id>, waiting: map<Id, set<Id>>, ready: seq<Id>,
      before: seq<Id>)
    requires Releasing(g, done, current, seen, waiting, ready, before)
    ensures waiting.Keys == g.Keys
  {
  }

  // --- what a listing in order is ------------------------------------------------------------------

  /** What a listed step waits for is listed before it. */
  lemma {:induction false} TopologicalClosed(g: Steps, t: seq<Id>, x: Id)
    requires Topological(g, t) && x in t
    ensures x in g && Known(g, x) <= Members(t) && Closed(Waits(g), Members(t))
  {
    forall u, v | u in Members(t) && Edge(Waits(g), u, v)
      ensures v in Members(t)
    {
      var k :| 0 <= k < |t| && t[k] == u;
      assert v in Members(t[..k]);
    }
    var k :| 0 <= k < |t| && t[k] == x;
    assert Members(t[..k]) <= Members(t);
  }

  lemma TopologicalOnce(g: Steps, t: seq<Id>, k: nat)
    requires Topological(g, t) && k < |t|
    ensures t[k] !in t[..k]
  {
    assert t[k] in Members(t[..k]) <==> t[k] in t[..k];
  }

  lemma ListNext(g: Steps, t: seq<Id>, x: Id)
    requires Greedy(g, t) && x in Available(g, Members(t))
    requires forall y :: y in Available(g, Members(t)) ==> g[x].key <= g[y].key
    ensures Greedy(g, t + [x])
  {
    var after := t + [x];
    assert after[..|t|] == t;
    forall k | 0 <= k < |t|
      ensures after[..k] == t[..k]
    {
    }
  }

  /** What is released is exactly what may now come next. */
  lemma ReleasedIsAvailable(g: Steps, t: seq<Id>, current: Id, rest: seq<Id>, waiting: map<Id, set<Id>>, ready: seq<Id>)
    requires UniqueKeys(g) && Topological(g, t) && current in Available(g, Members(t))
    requires forall i :: i in rest <==> i != current && i in Available(g, Members(t))
    requires Releasing(g, Members(t), current, InKeyOrder(g, g.Keys), waiting, ready, rest)
    ensures waiting.Keys == g.Keys && forall i :: i in g ==> waiting[i] == Known(g, i) - Members(t + [current])
    ensures Members(ready) == Available(g, Members(t + [current]))
  {
    hide Ascending, Topological;
    var done := Members(t);
    assert Members(t + [current]) == done + {current};
    forall i
      ensures i in ready <==> i in Available(g, done + {current})
    {
      if i in g && i in done {
        TopologicalClosed(g, t, i);
      }
    }
  }

  /** The collections of the loop: what each step still waits for, and what may come next, by key. */
  ghost predicate Ordered(g: Steps, t: seq<Id>, waiting: map<Id, set<Id>>, ready: seq<Id>) {
    && waiting.Keys == g.Keys && (forall i :: i in g ==> waiting[i] == Known(g, i) - Members(t))
    && Greedy(g, t) && Ascending(g, ready) && Members(ready) == Available(g, Members(t))
  }

  lemma OrderIsTopological(g: Steps, t: seq<Id>)
    requires IsOrder(g, t)
    ensures Topological(g, t)
  {
  }

  lemma OrderStarts(g: Steps, waiting: map<Id, set<Id>>, ready: seq<Id>)
    requires UniqueKeys(g) && waiting == (map i | i in g :: Known(g, i)) && Ascending(g, ready)
    requires Members(ready) == set i | i in waiting && waiting[i] == {}
    ensures Ordered(g, [], waiting, ready)
  {
    assert Members([]) == {};
  }

  lemma OrderPicks(g: Steps, t: seq<Id>, waiting: map<Id, set<Id>>, ready: seq<Id>)
    requires UniqueKeys(g) && Ordered(g, t, waiting, ready) && ready != []
    ensures Topological(g, t) && ready[0] in Available(g, Members(t)) && Greedy(g, t + [ready[0]])
    ensures ready[0] !in Members(t) && ready[0] in g
    ensures forall i :: i in ready[1..] <==> i != ready[0] && i in Available(g, Members(t))
    ensures Releasing(g, Members(t), ready[0], [], waiting, ready[1..], ready[1..])
  {
    hide Topological;
    FirstIsLeast(g, ready);
    ListNext(g, t, ready[0]);
  }

  lemma OrderMoves(g: Steps, t: seq<Id>, current: Id, rest: seq<Id>, waiting: map<Id, set<Id>>, released: seq<Id>,
      ready: seq<Id>)
    requires UniqueKeys(g) && Topological(g, t) && current in Available(g, Members(t)) && Greedy(g, t + [current])
    requires forall i :: i in rest <==> i != current && i in Available(g, Members(t))
    requires Releasing(g, Members(t), current, InKeyOrder(g, g.Keys), waiting, released, rest)
    requires Ascending(g, ready) && Members(ready) == Members(released)
    ensures Ordered(g, t + [current], waiting, ready)
  {
    hide Ascending, Greedy, Topological, Releasing;
    ReleasedIsAvailable(g, t, current, rest, waiting, released);
  }

  lemma OneLess(g: Steps, t: seq<Id>, x: Id)
    requires x in g && x !in Members(t)
    ensures |g.Keys - Members(t + [x])| < |g.Keys - Members(t)|
  {
    assert g.Keys - Members(t + [x]) == g.Keys - Members(t) - {x};
  }

  method SortByKey(g: Steps, ids: seq<Id>) returns (sorted: seq<Id>)
    requires UniqueKeys(g) && Members(ids) <= g.Keys
    ensures Ascending(g, sorted) && Members(sorted) == Members(ids)
  {
    sorted := InKeyOrder(g, Members(ids));
  }

  /** A topological order, ties broken by step key; steps that are in a cycle, or wait for one, are left out. */
  method Order(g: Steps) returns (ordered: seq<Id>)
    requires UniqueKeys(g)
    ensures IsOrder(g, ordered)
  {
    hide Ascending, Greedy, Topological, Available, Releasing, Ordered;
    var waiting := map i | i in g :: Known(g, i);
    var ready := InKeyOrder(g, set i | i in waiting && waiting[i] == {});
    ordered := [];
    OrderStarts(g, waiting, ready);
    while ready != []
      invariant Ordered(g, ordered, waiting, ready)
      decreases |g.Keys - Members(ordered)|
    {
      var current, rest := ready[0], ready[1..];
      OrderPicks(g, ordered, waiting, ready);
      var released;
      waiting, released := Release(g, waiting, rest, current, Members(ordered));
      ReleasedIsAvailable(g, ordered, current, rest, waiting, released);
      AvailableKnown(g, Members(ordered + [current]));
      ready := SortByKey(g, released);
      OrderMoves(g, ordered, current, rest, waiting, released, ready);
      OneLess(g, ordered, current);
      ordered := ordered + [current];
    }
    OrderEnds(g, ordered, waiting);
  }

  lemma AvailableKnown(g: Steps, done: set<Id>)
    ensures Available(g, done) <= g.Keys
  {
  }

  lemma OrderEnds(g: Steps, t: seq<Id>, waiting: map<Id, set<Id>>)
    requires Ordered(g, t, waiting, [])
    ensures IsOrder(g, t)
  {
    assert Members([]) == {};
  }

  lemma FirstIsLeast(g: Steps, ready: seq<Id>)
    requires Ascending(g, ready) && ready != []
    ensures ready[0] in Members(ready) && ready[0] in g
    ensures forall y :: y in ready ==> y in g && g[ready[0]].key <= g[y].key
    ensures forall y :: y in ready[1..] <==> y in ready && y != ready[0]
  {
    assert ready == [ready[0]] + ready[1..];
  }
}
