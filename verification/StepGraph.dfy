/** The dependency graph of a plan's steps: the steps by id, each with its key and the ids it waits for. */
module StepGraph {
  import opened Reachability

  datatype Step = Step(key: int, dependsOn: set<Id>)

  type Steps = map<Id, Step>

  /** Step keys are unique in a plan, and they name the step: ties are broken by them. */
  ghost predicate UniqueKeys(g: Steps) {
    forall u, v :: u in g && v in g && g[u].key == g[v].key ==> u == v
  }

  /** A step waiting for itself is refused when the step is made. */
  ghost predicate NoSelfDependency(g: Steps) {
    forall u :: u in g ==> u !in g[u].dependsOn
  }

  /** The known steps `u` waits for. */
  function Known(g: Steps, u: Id): set<Id>
    requires u in g
  {
    g[u].dependsOn * g.Keys
  }

  /** The known dependencies of every step: the graph everything below is about. */
  function Waits(g: Steps): Graph {
    map u | u in g :: Known(g, u)
  }

  lemma WaitsProper(g: Steps)
    ensures Proper(Waits(g)) && Waits(g).Keys == g.Keys
  {
  }

  ghost predicate Ascending(g: Steps, s: seq<Id>) {
    && (forall i :: 0 <= i < |s| ==> s[i] in g)
    && forall i, j :: 0 <= i < j < |s| ==> g[s[i]].key < g[s[j]].key
  }

  lemma LeastExists(g: Steps, s: set<Id>)
    requires s <= g.Keys && s != {}
    ensures exists m :: m in s && forall x :: x in s ==> g[m].key <= g[x].key
  {
    var x := AnyOf(s);
    if s != {x} {
      LeastExists(g, s - {x});
      var m :| m in s - {x} && forall y :: y in s - {x} ==> g[m].key <= g[y].key;
      var n := if g[m].key <= g[x].key then m else x;
      assert forall y :: y in s ==> y == x || y in s - {x};
      assert n in s && forall y :: y in s ==> g[n].key <= g[y].key;
    } else {
      assert forall y :: y in s ==> g[x].key <= g[y].key;
    }
  }

  function Least(g: Steps, s: set<Id>): (m: Id)
    requires UniqueKeys(g) && s <= g.Keys && s != {}
    ensures m in s && forall x :: x in s ==> g[m].key <= g[x].key
  {
    LeastExists(g, s);
    var m :| m in s && forall x :: x in s ==> g[m].key <= g[x].key;
    m
  }

  lemma PrependLeast(g: Steps, s: set<Id>, m: Id, rest: seq<Id>)
    requires UniqueKeys(g) && s <= g.Keys && m in s && Ascending(g, rest)
    requires forall x :: x in s ==> g[m].key <= g[x].key
    requires forall x :: x in rest <==> x in s - {m}
    ensures Ascending(g, [m] + rest)
    ensures forall x :: x in [m] + rest <==> x in s
  {
    var r := [m] + rest;
    forall j | 0 < j < |r|
      ensures g[m].key < g[r[j]].key
    {
      assert r[j] == rest[j - 1] && rest[j - 1] in rest;
    }
  }

  /** The steps of `s` in key order. */
  function InKeyOrder(g: Steps, s: set<Id>): (r: seq<Id>)
    requires UniqueKeys(g) && s <= g.Keys
    ensures Ascending(g, r) && |r| == |s|
    ensures forall x :: x in r <==> x in s
  {
    if s == {} then []
    else
      var m := Least(g, s);
      var rest := InKeyOrder(g, s - {m});
      PrependLeast(g, s, m, rest);
      [m] + rest
  }

  /** There is one way to list steps in key order. */
  lemma {:induction false} AscendingUnique(g: Steps, a: seq<Id>, b: seq<Id>)
    requires UniqueKeys(g) && Ascending(g, a) && Ascending(g, b)
    requires forall x :: x in a <==> x in b
    ensures a == b
  {
    if a == [] {
      if b != [] {
        var x := AnyIn(b);
        assert false;
      }
    } else {
      var z := AnyIn(a);
      var x, y := a[0], b[0];
      assert x in a && y in b;
      assert a[0] == b[0];
      assert a == [a[0]] + a[1..] && b == [b[0]] + b[1..];
      forall x
        ensures x in a[1..] <==> x in b[1..]
      {
        if x in a[1..] {
          assert x in a && x != a[0];
        }
        if x in b[1..] {
          assert x in b && x != b[0];
        }
      }
      AscendingUnique(g, a[1..], b[1..]);
    }
  }
}
