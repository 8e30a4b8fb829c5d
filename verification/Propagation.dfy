/** `propagate`: nodes taken when every flow into them was followed, and what is left on or after a cycle. */
module Propagation {
  import opened Options
  import opened Reachability
  import opened Ordered
  import opened Traffic

  // --- what a propagation ends with ----------------------------------------------------------------

  /**
   * `order` lists the nodes that have a defined demand, `base` what each sends on from, `carried` what each
   * flow delivers, `incomplete` the nodes whose demand is not fully known.
   */
  datatype Spread = Spread(order: seq<Id>, base: map<Id, Option<real>>, carried: Demand, incomplete: set<Id>)

  function SentFrom(r: Spread, u: Id): Option<real> {
    if u in r.base then r.base[u] else None
  }

  /** The flow leaves its downstream incomplete. */
  ghost predicate Spoils(t: Setting, r: Spread, i: int)
    requires 0 <= i < |t.flows|
  {
    !Delivers(t, SentFrom(r, t.flows[i].upstream), i) || t.flows[i].upstream in r.incomplete
  }

  ghost predicate Spoiled(t: Setting, r: Spread, v: Id) {
    exists i :: 0 <= i < |t.flows| && t.flows[i].downstream == v && Spoils(t, r, i)
  }

  ghost predicate Fed(t: Setting, r: Spread, v: Id) {
    forall i :: 0 <= i < |t.flows| && t.flows[i].downstream == v ==> t.flows[i].upstream in r.base
  }

  ghost predicate Defined(t: Setting, r: Spread) {
    && Topological(t, r.order) && (forall u :: u in r.order <==> u in r.base)
    && r.base.Keys <= t.nodes && forall v :: v in t.nodes ==> (v in r.base <==> Fed(t, r, v))
  }

  ghost predicate Delivered(t: Setting, r: Spread) {
    && (forall i :: i in r.carried <==>
          0 <= i < |t.flows| && t.flows[i].downstream in r.base && Delivers(t, SentFrom(r, t.flows[i].upstream), i))
    && (forall i :: i in r.carried && 0 <= i < |t.flows| ==>
          r.carried[i] == Amount(t, SentFrom(r, t.flows[i].upstream), i))
  }

  ghost predicate SendsFrom(t: Setting, r: Spread) {
    forall u :: u in r.base ==> r.base[u] == BaseOf(t, u, Work(t, r.carried, u), Mixed(t, r.carried, u))
  }

  ghost predicate Reported(t: Setting, r: Spread) {
    && r.incomplete <= t.nodes
    && forall v :: v in t.nodes ==> (v in r.incomplete <==> v !in r.base || Mixed(t, r.carried, v) || Spoiled(t, r, v))
  }

  /** The equations a propagation solves. Nothing in them says in which order the nodes were taken. */
  ghost predicate Propagated(t: Setting, r: Spread) {
    Joined(t) && Defined(t, r) && Delivered(t, r) && SendsFrom(t, r) && Reported(t, r)
  }

  // --- the start -----------------------------------------------------------------------------------

  function Below(n: nat): (r: set<int>)
    ensures forall i :: i in r <==> 0 <= i < n
  {
    if n == 0 then {} else Below(n - 1) + {n - 1}
  }

  function AllFlows(t: Setting): set<int> {
    Below(|t.flows|)
  }

  function Started(t: Setting, indegree: map<Id, int>): State {
    State([], map[], AllFlows(t), map v | v in t.nodes :: 0.0, map[], {}, indegree,
          set v | v in t.nodes && v in indegree && indegree[v] == 0)
  }

  method CountFlows(t: Setting) returns (indegree: map<Id, int>)
    requires Joined(t)
    ensures indegree.Keys == t.nodes
    ensures forall v :: v in t.nodes ==> indegree[v] == Waiting(t, AllFlows(t), v, |t.flows|)
  {
    indegree := map v | v in t.nodes :: 0;
    for i := 0 to |t.flows|
      invariant indegree.Keys == t.nodes
      invariant forall v :: v in t.nodes ==> indegree[v] == Waiting(t, AllFlows(t), v, i)
    {
      assert i in AllFlows(t);
      var d := t.flows[i].downstream;
      indegree := indegree[d := indegree[d] + 1];
    }
  }

  lemma {:induction false} NothingArrives(t: Setting, v: Id, n: int)
    requires 0 <= n <= |t.flows|
    ensures Into(t, map[], v, n) == 0.0
    decreases n
  {
    if n > 0 {
      NothingArrives(t, v, n - 1);
    }
  }

  lemma StartKeeps(t: Setting, indegree: map<Id, int>)
    requires Joined(t) && indegree.Keys == t.nodes
    requires forall v :: v in t.nodes ==> indegree[v] == Waiting(t, AllFlows(t), v, |t.flows|)
    ensures Under(t, Started(t, indegree), {})
  {
    hide Waiting, Into, Delivers;
    forall v | v in t.nodes
      ensures Work(t, map[], v) == 0.0
    {
      NothingArrives(t, v, |t.flows|);
    }
    assert Marked(t, Started(t, indegree));
  }

  // --- one flow ------------------------------------------------------------------------------------

  /** One flow followed: nothing is carried when the upstream's work or the factor is not known, or too large. */
  method Follow(t: Setting, ghost s: State, i: int, node: Id, base: Option<real>,
                work: map<Id, real>, carried: Demand, incomplete: set<Id>, indegree: map<Id, int>, ready: set<Id>)
    returns (work': map<Id, real>, carried': Demand, incomplete': set<Id>, indegree': map<Id, int>, ready': set<Id>)
    requires 0 <= i < |t.flows| && t.flows[i].upstream == node && BaseAt(s, node) == base
    requires t.flows[i].downstream in s.work && t.flows[i].downstream in s.indegree
    requires Keeps(s, work, carried, incomplete, indegree, ready)
    ensures Keeps(Sent(t, s, i), work', carried', incomplete', indegree', ready')
  {
    work', carried', incomplete', indegree', ready' := work, carried, incomplete, indegree, ready;
    var d := t.flows[i].downstream;
    if base.None? {
      incomplete' := incomplete' + {d};
    } else {
      var factor := Multiplier(t.flows[i].connection, t.read);
      if factor.None? {
        incomplete' := incomplete' + {d};
      } else {
        var amount := base.value * factor.value;
        assert amount == Amount(t, base, i);
        if !Holds(amount) {
          incomplete' := incomplete' + {d};
        } else {
          carried' := carried'[i := amount];
          work' := work'[d := work'[d] + amount];
        }
      }
      if node in incomplete {
        incomplete' := incomplete' + {d};
      }
    }
    indegree' := indegree'[d := indegree'[d] - 1];
    if indegree'[d] == 0 {
      ready' := ready' + {d};
    }
  }

  /** The variables of the loop are those of the state. */
  ghost predicate Keeps(s: State, work: map<Id, real>, carried: Demand, incomplete: set<Id>,
                        indegree: map<Id, int>, ready: set<Id>) {
    s.work == work && s.carried == carried && s.incomplete == incomplete && s.indegree == indegree && s.ready == ready
  }

  // --- one node ------------------------------------------------------------------------------------

  lemma NextFlow(t: Setting, s: State, out: seq<int>, j: nat)
    requires j < |out| && Under(t, s, Members(out[j..]))
    requires forall a, b :: 0 <= a < b < |out| ==> out[a] < out[b]
    ensures out[j] in Members(out[j..]) && 0 <= out[j] < |t.flows|
    ensures t.flows[out[j]].downstream in s.work && t.flows[out[j]].downstream in s.indegree
    ensures Under(t, Sent(t, s, out[j]), Members(out[j + 1..]))
  {
    hide Under, Sent;
    var i, tail := out[j], out[j + 1..];
    assert out[j..] == [i] + tail;
    assert i in out[j..];
    forall k | 0 <= k < |tail|
      ensures tail[k] != i
    {
      assert tail[k] == out[j + 1 + k];
    }
    assert Members(tail) == Members(out[j..]) - {i};
    SentFlow(t, s, Members(out[j..]), i);
    SendKeeps(t, s, Members(out[j..]), i);
  }

  method Process(t: Setting, node: Id, ghost s: State, work: map<Id, real>, carried: Demand, incomplete: set<Id>,
                 indegree: map<Id, int>, ready: set<Id>)
    returns (work': map<Id, real>, carried': Demand, incomplete': set<Id>, indegree': map<Id, int>, ready': set<Id>,
             ghost s': State)
    requires Under(t, s, {}) && node in ready && Keeps(s, work, carried, incomplete, indegree, ready)
    ensures Under(t, s', {}) && Keeps(s', work', carried', incomplete', indegree', ready')
    ensures s'.base.Keys == s.base.Keys + {node} && node !in s.base && node in t.nodes
  {
    hide Under, Sent, Delivers, Amount, Waiting, Into, Mixed, BaseOf, Unmodeled, After, Outgoing, Members;
    PoppedFlows(t, s, node) by { UnderIs(t, s); }
    work', carried', indegree', ready' := work, carried, indegree, ready - {node};
    var mixed := Mixed(t, carried, node);
    incomplete' := if mixed then incomplete + {node} else incomplete;
    var base := BaseOf(t, node, work[node], mixed);
    s' := Popped(t, s, node);
    PopKeeps(t, s, node);
    var out := Outgoing(t, node, |t.flows|);
    assert out[0..] == out;
    for j := 0 to |out|
      invariant Under(t, s', Members(out[j..])) && Keeps(s', work', carried', incomplete', indegree', ready')
      invariant s'.base == s.base[node := base]
    {
      NextFlow(t, s', out, j);
      work', carried', incomplete', indegree', ready' :=
        Follow(t, s', out[j], node, base, work', carried', incomplete', indegree', ready');
      s' := After(t, s', out[j]);
    }
    assert Members(out[|out|..]) == {} by { NoMembers(out[|out|..]); }
  }

  lemma NoMembers(s: seq<Id>)
    requires s == []
    ensures Members(s) == {}
  {
  }

  lemma UnderIs(t: Setting, s: State)
    requires Under(t, s, {})
    ensures Joined(t)
  {
  }

  ghost function After(t: Setting, s: State, i: int): (e: State)
    requires 0 <= i < |t.flows| && t.flows[i].downstream in s.work && t.flows[i].downstream in s.indegree
    ensures e == Sent(t, s, i) && e.base == s.base
  {
    Sent(t, s, i)
  }

  // --- every node ----------------------------------------------------------------------------------

  /** The demand of nodes on or after a cycle is dropped, and they are incomplete. */
  function Ended(t: Setting, s: State): Spread {
    Spread(s.order, s.base,
           map i | i in s.carried && 0 <= i < |t.flows| && t.flows[i].downstream in s.base :: s.carried[i],
           s.incomplete + (t.nodes - s.base.Keys))
  }

  lemma NoneLeft(t: Setting, s: State, v: Id)
    requires Under(t, s, {}) && s.ready == {} && v in t.nodes
    ensures v in s.base <==> s.indegree[v] <= 0
    ensures v in s.base <==> forall i :: 0 <= i < |t.flows| && t.flows[i].downstream == v ==>
            t.flows[i].upstream in s.base
  {
    hide Carries, Summed, Marked, Listed, Waiting;
    NoneWaiting(t, s.pending, v, |t.flows|);
    assert v !in s.ready;
    if v in s.base {
      assert Settles(t, s, v);
    }
  }

  lemma EndedSame(t: Setting, s: State, v: Id)
    requires v in s.base
    ensures Work(t, Ended(t, s).carried, v) == Work(t, s.carried, v)
    ensures Mixed(t, Ended(t, s).carried, v) == Mixed(t, s.carried, v)
  {
    var carried := Ended(t, s).carried;
    assert SameArrivals(t, carried, s.carried, v);
    IntoSame(t, carried, s.carried, v, |t.flows|);
    MixedSame(t, carried, s.carried, v);
  }

  lemma EndedDefined(t: Setting, s: State)
    requires Under(t, s, {}) && s.ready == {}
    ensures Defined(t, Ended(t, s)) && SendsFrom(t, Ended(t, s))
  {
    hide Carries, Summed, Marked, Waiting, Counted, Readied, Work, Mixed, BaseOf;
    var r := Ended(t, s);
    forall v | v in t.nodes
      ensures v in r.base <==> Fed(t, r, v)
    {
      NoneLeft(t, s, v);
    }
    forall u | u in r.base
      ensures r.base[u] == BaseOf(t, u, Work(t, r.carried, u), Mixed(t, r.carried, u))
    {
      assert Settles(t, s, u);
      EndedSame(t, s, u);
    }
  }

  lemma EndedDelivered(t: Setting, s: State)
    requires Under(t, s, {}) && s.ready == {}
    ensures Delivered(t, Ended(t, s))
  {
    hide Summed, Marked, Waiting, Counted, Readied, Amount, Based, Listed;
    var r := Ended(t, s);
    assert forall u :: SentFrom(r, u) == BaseAt(s, u);
    assert forall i :: 0 <= i < |t.flows| && t.flows[i].upstream in s.base ==> i !in s.pending;
  }

  lemma EndedReported(t: Setting, s: State)
    requires Under(t, s, {}) && s.ready == {}
    ensures Reported(t, Ended(t, s))
  {
    hide Summed, Carries, Waiting, Counted, Readied, Amount, Based, Listed, Delivers, Mixed;
    var r := Ended(t, s);
    assert forall u :: SentFrom(r, u) == BaseAt(s, u);
    forall v | v in t.nodes
      ensures v in r.incomplete <==> v !in r.base || Mixed(t, r.carried, v) || Spoiled(t, r, v)
    {
      if v in s.base {
        NoneLeft(t, s, v);
        EndedSame(t, s, v);
        assert forall i :: 0 <= i < |t.flows| && t.flows[i].downstream == v ==>
                 i !in s.pending && t.flows[i].upstream in s.base && (Taints(t, s, i) <==> Spoils(t, r, i));
        assert Tainted(t, s, v) <==> Spoiled(t, r, v);
      }
    }
  }

  lemma EndHolds(t: Setting, s: State)
    requires Under(t, s, {}) && s.ready == {}
    ensures Propagated(t, Ended(t, s))
  {
    hide Defined, Delivered, SendsFrom, Reported, Pending, Counted, Carries, Summed, Based, Marked, Readied, Listed,
      Ended;
    EndedDefined(t, s);
    EndedDelivered(t, s);
    EndedReported(t, s);
  }

  lemma FewerLeft(nodes: set<Id>, done: set<Id>, v: Id)
    requires v in nodes && v !in done
    ensures |nodes - (done + {v})| < |nodes - done|
  {
    assert nodes - (done + {v}) == nodes - done - {v};
  }

  function Cyclic(indegree: map<Id, int>): set<Id> {
    set v | v in indegree && indegree[v] > 0
  }

  function Kept(t: Setting, carried: Demand, cyclic: set<Id>): Demand {
    map i | i in carried && 0 <= i < |t.flows| && t.flows[i].downstream !in cyclic :: carried[i]
  }

  /** The nodes whose flows in were not all followed are those without a defined demand. */
  lemma Leftover(t: Setting, s: State)
    requires Under(t, s, {}) && s.ready == {}
    ensures Ended(t, s).incomplete == s.incomplete + Cyclic(s.indegree)
    ensures Ended(t, s).carried == Kept(t, s.carried, Cyclic(s.indegree))
  {
    hide Carries, Summed, Marked, Listed, Waiting;
    forall v | v in t.nodes
      ensures v in s.base <==> s.indegree[v] <= 0
    {
      NoneLeft(t, s, v);
    }
    assert Cyclic(s.indegree) == t.nodes - s.base.Keys;
  }

  /** Nodes processed, the least ready one first, until none is ready. */
  method Drain(t: Setting, ghost s: State, work: map<Id, real>, carried: Demand, incomplete: set<Id>,
               indegree: map<Id, int>, ready: set<Id>)
    returns (carried': Demand, incomplete': set<Id>, indegree': map<Id, int>, ghost s': State)
    requires Under(t, s, {}) && Keeps(s, work, carried, incomplete, indegree, ready)
    ensures Under(t, s', {}) && s'.ready == {}
    ensures carried' == s'.carried && incomplete' == s'.incomplete && indegree' == s'.indegree
  {
    hide Under, Waiting, Into;
    s' := s;
    var work', ready' := work, ready;
    carried', incomplete', indegree' := carried, incomplete, indegree;
    while ready' != {}
      invariant Under(t, s', {}) && Keeps(s', work', carried', incomplete', indegree', ready')
      decreases |t.nodes - s'.base.Keys|
    {
      var node := Lowest(ready');
      ghost var done := s'.base.Keys;
      work', carried', incomplete', indegree', ready', s' :=
        Process(t, node, s', work', carried', incomplete', indegree', ready');
      FewerLeft(t.nodes, done, node);
    }
  }

  /** The demands and the incomplete nodes solve the equations, for some order and some bases. */
  ghost predicate IsPropagation(t: Setting, carried: Demand, incomplete: set<Id>) {
    exists r :: Propagated(t, r) && r.carried == carried && r.incomplete == incomplete
  }

  method SpreadDemand(t: Setting) returns (carried: Demand, incomplete: set<Id>)
    requires Joined(t)
    ensures IsPropagation(t, carried, incomplete)
  {
    hide Under, Propagated, Waiting, Into, Cyclic, Kept, Ended;
    var indegree := CountFlows(t);
    ghost var s := Started(t, indegree);
    StartKeeps(t, indegree);
    var work := map v | v in t.nodes :: 0.0;
    carried, incomplete := map[], {};
    var ready := set v | v in t.nodes && indegree[v] == 0;
    carried, incomplete, indegree, s := Drain(t, s, work, carried, incomplete, indegree, ready);
    EndHolds(t, s);
    Leftover(t, s);
    ghost var r := Ended(t, s);
    carried, incomplete := Kept(t, carried, Cyclic(indegree)), incomplete + Cyclic(indegree);
    assert Propagated(t, r) && r.carried == carried && r.incomplete == incomplete;
  }

  // --- entries -------------------------------------------------------------------------------------

  datatype Outcome =
    | UnknownEntry
    | NoEntry
    | Carried(carried: Demand, own: set<Id>, incomplete: set<Id>)

  function SettingOf(nodes: set<Id>, connections: seq<Connection>, entries: set<Id>, total: real,
      read: Option<real>): Setting {
    Setting(nodes, FlowsOf(connections), entries, total, read)
  }

  /** The demand of every flow, the entries with the workload's own demand, and the incomplete nodes. */
  method Propagate(nodes: set<Id>, clients: set<Id>, connections: seq<Connection>, requested: Option<set<Id>>,
                   total: real, read: Option<real>) returns (o: Outcome)
    requires clients <= nodes
    requires forall c :: c in connections ==> c.source in nodes && c.target in nodes
    ensures var entries := if requested.Some? then requested.value else clients;
            if !(entries <= nodes) then o.UnknownEntry?
            else if entries == {} then o.NoEntry?
            else o.Carried? && o.own == entries - clients
                 && IsPropagation(SettingOf(nodes, connections, entries, total, read), o.carried, o.incomplete)
  {
    hide IsPropagation;
    var entries := if requested.Some? then requested.value else clients;
    if !(entries <= nodes) {
      return UnknownEntry;
    }
    if entries == {} {
      return NoEntry;
    }
    var flows := Flows(connections);
    FlowsJoined(nodes, connections);
    var carried, incomplete := SpreadDemand(Setting(nodes, flows, entries, total, read));
    o := Carried(carried, entries - clients, incomplete);
  }

  lemma {:induction false} FlowsJoined(nodes: set<Id>, connections: seq<Connection>)
    requires forall c :: c in connections ==> c.source in nodes && c.target in nodes
    ensures forall f :: f in FlowsOf(connections) ==> f.upstream in nodes && f.downstream in nodes
    ensures forall i :: 0 <= i < |FlowsOf(connections)| ==> FlowsOf(connections)[i] in FlowsOf(connections)
    decreases |connections|
  {
    if connections != [] {
      var last := connections[|connections| - 1];
      assert last in connections;
      FlowsJoined(nodes, connections[..|connections| - 1]);
    }
  }
}
