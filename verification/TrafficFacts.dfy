/** What propagated demand means: flow paths, what is left undefined, and what an incomplete demand still says. */
module TrafficFacts {
  import opened Reachability
  import opened Traffic
  import opened Propagation

  // --- one result, whichever node is taken first ---------------------------------------------------

  lemma Earlier(t: Setting, r: Spread, k: nat, i: int)
    requires Propagated(t, r) && k < |r.order| && 0 <= i < |t.flows| && t.flows[i].downstream == r.order[k]
    ensures exists j :: 0 <= j < k && r.order[j] == t.flows[i].upstream
    ensures t.flows[i].upstream in r.base && r.order[k] in r.base
  {
    hide Delivered, SendsFrom, Reported;
    assert t.flows[i].upstream in r.order[..k];
    assert r.order[k] in r.order;
  }

  lemma {:induction false} SameBase(t: Setting, a: Spread, b: Spread, k: nat)
    requires Propagated(t, a) && Propagated(t, b) && k < |a.order|
    ensures a.order[k] in a.base && a.order[k] in b.base && a.base[a.order[k]] == b.base[a.order[k]]
    ensures SameArrivals(t, a.carried, b.carried, a.order[k])
    decreases k
  {
    hide Delivers, Amount, BaseOf, Reported, Mixed;
    var v := a.order[k];
    assert v in a.order;
    forall i | 0 <= i < |t.flows| && t.flows[i].downstream == v
      ensures t.flows[i].upstream in a.base && t.flows[i].upstream in b.base
      ensures SentFrom(a, t.flows[i].upstream) == SentFrom(b, t.flows[i].upstream)
    {
      Earlier(t, a, k, i);
      var j :| 0 <= j < k && a.order[j] == t.flows[i].upstream;
      SameBase(t, a, b, j);
    }
    assert Fed(t, b, v);
    IntoSame(t, a.carried, b.carried, v, |t.flows|);
    MixedSame(t, a.carried, b.carried, v);
  }

  lemma {:induction false} SameMarks(t: Setting, a: Spread, b: Spread, k: nat)
    requires Propagated(t, a) && Propagated(t, b) && k < |a.order|
    ensures a.order[k] in a.incomplete <==> a.order[k] in b.incomplete
    decreases k
  {
    hide Delivers, Amount, BaseOf, Mixed, Delivered, SendsFrom;
    var v := a.order[k];
    assert v in a.order;
    SameBase(t, a, b, k);
    MixedSame(t, a.carried, b.carried, v);
    forall i | 0 <= i < |t.flows| && t.flows[i].downstream == v
      ensures Spoils(t, a, i) <==> Spoils(t, b, i)
    {
      Earlier(t, a, k, i);
      var j :| 0 <= j < k && a.order[j] == t.flows[i].upstream;
      SameBase(t, a, b, j);
      SameMarks(t, a, b, j);
    }
    assert Spoiled(t, a, v) <==> Spoiled(t, b, v);
  }

  lemma BaseIncluded(t: Setting, a: Spread, b: Spread)
    requires Propagated(t, a) && Propagated(t, b)
    ensures a.base.Keys <= b.base.Keys
  {
    hide Delivered, SendsFrom, Reported, Topological, Fed;
    forall v | v in a.base
      ensures v in b.base
    {
      assert v in a.order;
      var k :| 0 <= k < |a.order| && a.order[k] == v;
      SameBase(t, a, b, k);
    }
    SubsetOf(a.base.Keys, b.base.Keys);
  }

  /** Whichever ready node is taken first, the demands and what is incomplete come out the same. */
  lemma Determined(t: Setting, a: Spread, b: Spread)
    requires Propagated(t, a) && Propagated(t, b)
    ensures a.base == b.base && a.carried == b.carried && a.incomplete == b.incomplete
  {
    hide Topological, Fed, Amount, Delivers, SendsFrom, Mixed, Spoiled;
    BaseIncluded(t, a, b);
    BaseIncluded(t, b, a);
    forall v | v in a.base
      ensures a.base[v] == b.base[v] && (v in a.incomplete <==> v in b.incomplete)
    {
      assert v in a.order;
      var k :| 0 <= k < |a.order| && a.order[k] == v;
      SameBase(t, a, b, k);
      SameMarks(t, a, b, k);
    }
    assert a.base == b.base;
    assert forall u :: SentFrom(a, u) == SentFrom(b, u);
    assert forall i :: i in a.carried <==> i in b.carried;
    assert forall i :: i in a.carried ==> 0 <= i < |t.flows| && a.carried[i] == b.carried[i];
    assert a.carried == b.carried;
    forall v | v in t.nodes
      ensures v in a.incomplete <==> v in b.incomplete
    {
      if v !in a.base {
        assert v in a.incomplete && v in b.incomplete;
      }
    }
    SubsetOf(a.incomplete, b.incomplete);
    SubsetOf(b.incomplete, a.incomplete);
  }

  // --- cycles of traffic ---------------------------------------------------------------------------

  function SendersTo(t: Setting, v: Id): set<Id> {
    set i | 0 <= i < |t.flows| && t.flows[i].downstream == v :: t.flows[i].upstream
  }

  /** Each node with the nodes that send to it. */
  function Senders(t: Setting): Graph {
    map v | v in t.nodes :: SendersTo(t, v)
  }

  lemma SenderFlow(t: Setting, v: Id, u: Id) returns (i: int)
    requires Edge(Senders(t), v, u)
    ensures 0 <= i < |t.flows| && t.flows[i].downstream == v && t.flows[i].upstream == u
  {
    i :| 0 <= i < |t.flows| && t.flows[i].downstream == v && t.flows[i].upstream == u;
  }

  lemma SenderEdge(t: Setting, i: int)
    requires Joined(t) && 0 <= i < |t.flows|
    ensures Edge(Senders(t), t.flows[i].downstream, t.flows[i].upstream)
  {
  }

  lemma PrefixClosed(t: Setting, r: Spread, k: nat)
    requires Propagated(t, r) && k <= |r.order|
    ensures Closed(Senders(t), Members(r.order[..k]))
  {
    hide Delivered, SendsFrom, Reported, Senders;
    forall v, u | v in Members(r.order[..k]) && Edge(Senders(t), v, u)
      ensures u in Members(r.order[..k])
    {
      var i := SenderFlow(t, v, u);
      var j :| 0 <= j < k && r.order[j] == v;
      Earlier(t, r, j, i);
    }
  }

  lemma DefinedNotOnCycle(t: Setting, r: Spread, k: nat)
    requires Propagated(t, r) && k < |r.order|
    ensures !OnCycle(Senders(t), r.order[k])
  {
    hide Delivered, SendsFrom, Reported, Senders;
    var a, v := Senders(t), r.order[k];
    assert v !in Members(r.order[..k]);
    if OnCycle(a, v) {
      var w :| Edge(a, v, w) && Reaches(a, w, v);
      var i := SenderFlow(t, v, w);
      Earlier(t, r, k, i);
      PrefixClosed(t, r, k);
      assert w in Members(r.order[..k]);
      ClosedKeepsReachable(a, Members(r.order[..k]), w, v);
      assert false;
    }
  }

  ghost predicate AfterCycle(t: Setting, v: Id) {
    exists w :: Reaches(Senders(t), v, w) && OnCycle(Senders(t), w)
  }

  lemma UndefinedFed(t: Setting, r: Spread, z: Id)
    requires Propagated(t, r) && z in t.nodes - r.base.Keys
    ensures WaitsWithin(Senders(t), t.nodes - r.base.Keys, z)
  {
    hide Delivered, SendsFrom, Reported, Senders, Topological;
    assert !Fed(t, r, z);
    var i :| 0 <= i < |t.flows| && t.flows[i].downstream == z && t.flows[i].upstream !in r.base;
    SenderEdge(t, i);
  }

  /** The nodes without a defined demand are exactly those on a cycle of traffic or after one. */
  lemma UndefinedExactly(t: Setting, r: Spread, v: Id)
    requires Propagated(t, r) && v in t.nodes
    ensures v !in r.base <==> AfterCycle(t, v)
    ensures v !in r.base ==> v in r.incomplete && forall i :: !Arrives(t, r.carried, i, v)
  {
    hide Senders, SendsFrom, Topological, Fed;
    var a, stuck := Senders(t), t.nodes - r.base.Keys;
    assert a.Keys == t.nodes by { SendersKeys(t); }
    if v !in r.base {
      forall z {:trigger WaitsWithin(a, stuck, z)} | z in stuck
        ensures WaitsWithin(a, stuck, z)
      {
        UndefinedFed(t, r, z);
      }
      ReachesSelf(a, v);
      var w := WaitingMeetsCycle(a, stuck, {v}, v);
    } else {
      forall w | Reaches(a, v, w)
        ensures !OnCycle(a, w)
      {
        PrefixClosed(t, r, |r.order|);
        assert r.order[..|r.order|] == r.order;
        assert v in Members(r.order);
        ClosedKeepsReachable(a, Members(r.order), v, w);
        var k :| 0 <= k < |r.order| && r.order[k] == w;
        DefinedNotOnCycle(t, r, k);
      }
    }
  }

  lemma SendersKeys(t: Setting)
    ensures Senders(t).Keys == t.nodes
  {
  }

  // --- what makes a demand incomplete --------------------------------------------------------------

  /** Work arrives here in different units, or over a flow that delivers nothing known. */
  ghost predicate Origin(t: Setting, r: Spread, u: Id) {
    Mixed(t, r.carried, u)
    || exists i :: 0 <= i < |t.flows| && t.flows[i].downstream == u && !Delivers(t, SentFrom(r, t.flows[i].upstream), i)
  }

  lemma CompleteFromComplete(t: Setting, r: Spread, v: Id, i: int)
    requires Propagated(t, r) && v in r.base && v !in r.incomplete
    requires 0 <= i < |t.flows| && t.flows[i].downstream == v
    ensures t.flows[i].upstream in r.base && t.flows[i].upstream !in r.incomplete
    ensures Delivers(t, r.base[t.flows[i].upstream], i) && i in r.carried
    ensures r.carried[i] == Amount(t, r.base[t.flows[i].upstream], i)
  {
    hide Topological, SendsFrom, Mixed, Delivers, Amount;
    assert Fed(t, r, v);
    assert !Spoiled(t, r, v);
    assert !Spoils(t, r, i);
  }

  lemma CompleteClosed(t: Setting, r: Spread)
    requires Propagated(t, r)
    ensures Closed(Senders(t), r.base.Keys - r.incomplete)
  {
    hide Propagated, Senders, Delivers, Amount;
    forall v, u | v in r.base.Keys - r.incomplete && Edge(Senders(t), v, u)
      ensures u in r.base.Keys - r.incomplete
    {
      var i := SenderFlow(t, v, u);
      CompleteFromComplete(t, r, v, i);
    }
  }

  lemma {:induction false} OriginBehind(t: Setting, r: Spread, k: nat) returns (u: Id)
    requires Propagated(t, r) && k < |r.order| && r.order[k] in r.incomplete
    ensures Reaches(Senders(t), r.order[k], u) && Origin(t, r, u)
    decreases k
  {
    hide Topological, SendsFrom, Mixed, Delivers, Delivered, Senders;
    var v := r.order[k];
    assert v in r.order;
    SendersKeys(t);
    if Origin(t, r, v) {
      ReachesSelf(Senders(t), v);
      u := v;
    } else {
      assert Spoiled(t, r, v);
      var i :| 0 <= i < |t.flows| && t.flows[i].downstream == v && Spoils(t, r, i);
      Earlier(t, r, k, i);
      var j :| 0 <= j < k && r.order[j] == t.flows[i].upstream;
      u := OriginBehind(t, r, j);
      SenderEdge(t, i);
      ReachesEdge(Senders(t), v, r.order[j]);
      ReachesTransitive(Senders(t), v, r.order[j], u);
    }
  }

  /** A node with a defined demand is incomplete exactly when such an arrival is at it or somewhere before it. */
  lemma IncompleteExactly(t: Setting, r: Spread, v: Id)
    requires Propagated(t, r) && v in r.base
    ensures v in r.incomplete <==> exists u :: Reaches(Senders(t), v, u) && Origin(t, r, u)
  {
    hide Topological, SendsFrom, Mixed, Delivers, Delivered, Senders;
    if v in r.incomplete {
      assert v in r.order;
      var k :| 0 <= k < |r.order| && r.order[k] == v;
      var u := OriginBehind(t, r, k);
    } else {
      CompleteClosed(t, r);
      forall u | Reaches(Senders(t), v, u)
        ensures !Origin(t, r, u)
      {
        ClosedKeepsReachable(Senders(t), r.base.Keys - r.incomplete, v, u);
        forall i | 0 <= i < |t.flows| && t.flows[i].downstream == u
          ensures Delivers(t, SentFrom(r, t.flows[i].upstream), i)
        {
          CompleteFromComplete(t, r, u, i);
        }
      }
    }
  }
}
