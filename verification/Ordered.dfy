/** Ids taken in order, one after another. */
module Ordered {
  import opened Reachability
  import opened StepGraph

  /** The ids in order. */
  function InOrder(ids: set<Id>): (r: seq<Id>)
    ensures forall i :: i in r <==> i in ids
    ensures forall i, j :: 0 <= i < j < |r| ==> r[i] < r[j]
  {
    var g := map i | i in ids :: Step(i, {});
    InKeyOrder(g, ids)
  }

  /** The least id, as a heap gives it first. */
  function Lowest(ids: set<Id>): (m: Id)
    requires ids != {}
    ensures m in ids && forall x :: x in ids ==> m <= x
  {
    var g := map i | i in ids :: Step(i, {});
    Least(g, ids)
  }

  /** One more of the ids visited in order. */
  lemma Visit(ids: set<Id>, i: nat)
    requires i < |InOrder(ids)|
    ensures InOrder(ids)[i] in ids
    ensures Members(InOrder(ids)[..i + 1]) == Members(InOrder(ids)[..i]) + {InOrder(ids)[i]}
    ensures forall p :: p in Members(InOrder(ids)[..i]) ==> p < InOrder(ids)[i]
  {
    hide InOrder;
    var r := InOrder(ids);
    assert r[i] in r;
    TakeOne(r, i);
    forall p | p in Members(r[..i])
      ensures p < r[i]
    {
      var j :| 0 <= j < i && r[j] == p;
    }
  }

  lemma TakeOne(r: seq<Id>, i: nat)
    requires i < |r|
    ensures Members(r[..i + 1]) == Members(r[..i]) + {r[i]}
  {
    assert r[..i + 1] == r[..i] + [r[i]];
  }

  lemma Visited(ids: set<Id>)
    ensures Members(InOrder(ids)[..0]) == {} && Members(InOrder(ids)[..|InOrder(ids)|]) == ids
  {
    var r := InOrder(ids);
    assert r[..|r|] == r;
  }
}
