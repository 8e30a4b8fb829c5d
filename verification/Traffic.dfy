/** Demand propagation: how the workload's demand reaches each node over the connections that carry it. */
module Traffic {
  import opened Options
  import opened Reachability

  // --- connections and what they carry -------------------------------------------------------------

  datatype Kind = Request | DataAccess | Publish | Consume | Replication | Dependency

  datatype Access = Read | Write | Undivided

  /** A connection with the traffic it declares: its share of the source's work, calls made per unit of work,
      the part a cache answers, and which side of the read/write mix it carries. */
  datatype Connection = Connection(id: Id, kind: Kind, source: Id, target: Id,
    ratio: Option<real>, calls: Option<real>, hit: Option<real>, access: Access)

  datatype Flow = Flow(connection: Connection, upstream: Id, downstream: Id)

  /** A unit of work: what the rate of a demand counts. */
  datatype WorkUnit = Requests | Operations | Events

  function UnitOf(kind: Kind): WorkUnit {
    match kind
    case Request => Requests
    case DataAccess => Operations
    case _ => Events
  }

  predicate Forward(kind: Kind) {
    kind.Request? || kind.DataAccess? || kind.Publish?
  }

  /** The flow of one connection, in the direction demand travels, if it carries workload demand. */
  function FlowOf(c: Connection): (r: seq<Flow>)
  {
    if Forward(c.kind) then [Flow(c, c.source, c.target)]
    else if c.kind.Consume? then [Flow(c, c.target, c.source)]
    else []
  }

  function FlowsOf(connections: seq<Connection>): seq<Flow> {
    if connections == [] then [] else FlowsOf(connections[..|connections| - 1]) + FlowOf(connections[|connections| - 1])
  }

  method Flows(connections: seq<Connection>) returns (found: seq<Flow>)
    ensures found == FlowsOf(connections)
  {
    found := [];
    for i := 0 to |connections|
      invariant found == FlowsOf(connections[..i])
    {
      var c := connections[i];
      assert connections[..i + 1][..i] == connections[..i];
      if Forward(c.kind) {
        found := found + [Flow(c, c.source, c.target)];
      } else if c.kind.Consume? {
        found := found + [Flow(c, c.target, c.source)];
      }
    }
    assert connections[..|connections|] == connections;
  }

  // --- the factor a connection applies -------------------------------------------------------------

  function Or(x: Option<real>, other: real): real {
    if x.Some? then x.value else other
  }

  function ShareOf(access: Access, read: real): real {
    match access
    case Read => read
    case Write => 1.0 - read
    case Undivided => 1.0
  }

  /** Neither the share nor the calls declared, or one side of an unknown mix: the factor is not known. */
  predicate Unspecified(c: Connection, read: Option<real>) {
    (c.ratio.None? && c.calls.None?) || (!c.access.Undivided? && read.None?)
  }

  function Factor(c: Connection, read: Option<real>): Option<real> {
    if Unspecified(c, read) then None
    else Some(Or(c.ratio, 1.0) * Or(c.calls, 1.0) * (1.0 - Or(c.hit, 0.0)) * ShareOf(c.access, Or(read, 0.0)))
  }

  method Multiplier(c: Connection, read: Option<real>) returns (r: Option<real>)
    ensures r == Factor(c, read)
  {
    if c.ratio.None? && c.calls.None? {
      return None;
    }
    var factor := 1.0;
    if c.ratio.Some? {
      factor := factor * c.ratio.value;
    }
    assert factor == Or(c.ratio, 1.0);
    if c.calls.Some? {
      factor := factor * c.calls.value;
    }
    assert factor == Or(c.ratio, 1.0) * Or(c.calls, 1.0);
    if c.hit.Some? {
      factor := factor * (1.0 - c.hit.value);
    }
    assert factor == Or(c.ratio, 1.0) * Or(c.calls, 1.0) * (1.0 - Or(c.hit, 0.0));
    if !c.access.Undivided? {
      if read.None? {
        return None;
      }
      var share := if c.access.Read? then read.value else 1.0 - read.value;
      assert share == ShareOf(c.access, Or(read, 0.0));
      factor := factor * share;
    }
    assert Factor(c, read).value == factor;
    r := Some(factor);
  }

  predicate IsShare(x: real) {
    0.0 <= x <= 1.0
  }

  /** The ranges the properties of a connection are held to. */
  predicate Declared(c: Connection) {
    (c.ratio.Some? ==> IsShare(c.ratio.value)) && (c.calls.Some? ==> 0.0 <= c.calls.value <= 1000.0)
    && (c.hit.Some? ==> IsShare(c.hit.value))
  }

  lemma FactorNonNegative(c: Connection, read: Option<real>)
    requires Declared(c) && (read.Some? ==> IsShare(read.value)) && Factor(c, read).Some?
    ensures Factor(c, read).value >= 0.0
  {
    var a, b := Or(c.ratio, 1.0), Or(c.calls, 1.0);
    NonNegativeProduct(a, b);
    NonNegativeProduct(a * b, 1.0 - Or(c.hit, 0.0));
    NonNegativeProduct(a * b * (1.0 - Or(c.hit, 0.0)), ShareOf(c.access, Or(read, 0.0)));
  }

  lemma NonNegativeProduct(x: real, y: real)
    requires x >= 0.0 && y >= 0.0
    ensures x * y >= 0.0
  {
  }

  /** A demand below 10^15 per second after rounding to nine decimal places: beyond, it is not stated. */
  predicate Holds(amount: real) {
    amount < 1000000000000000.0 - 0.0000000005
  }

  // --- what is propagated --------------------------------------------------------------------------

  /** The nodes, the flows between them, and the workload arriving at its entries. */
  datatype Setting = Setting(nodes: set<Id>, flows: seq<Flow>, entries: set<Id>, total: real, read: Option<real>)

  ghost predicate Joined(t: Setting) {
    && t.entries <= t.nodes
    && forall i :: 0 <= i < |t.flows| ==> t.flows[i].upstream in t.nodes && t.flows[i].downstream in t.nodes
  }

  predicate Receives(t: Setting, v: Id) {
    exists i :: 0 <= i < |t.flows| && t.flows[i].downstream == v
  }

  predicate Sends(t: Setting, v: Id) {
    exists i :: 0 <= i < |t.flows| && t.flows[i].upstream == v
  }

  /** It sends traffic without receiving any, and is no entry: what it sends is not known. */
  predicate Unmodeled(t: Setting, v: Id) {
    v !in t.entries && !Receives(t, v) && Sends(t, v)
  }

  /** Demand by flow: the amount each one delivers. */
  type Demand = map<int, real>

  predicate Arrives(t: Setting, carried: Demand, i: int, v: Id) {
    i in carried && 0 <= i < |t.flows| && t.flows[i].downstream == v
  }

  /** Work arriving in different units is not one quantity. */
  predicate Mixed(t: Setting, carried: Demand, v: Id) {
    exists i, j :: i in carried && j in carried && Arrives(t, carried, i, v) && Arrives(t, carried, j, v)
      && UnitOf(t.flows[i].connection.kind) != UnitOf(t.flows[j].connection.kind)
  }

  /** The work arriving at `v` over the first `n` flows. */
  function Into(t: Setting, carried: Demand, v: Id, n: int): real
    requires 0 <= n <= |t.flows|
    decreases n
  {
    if n == 0 then 0.0
    else Into(t, carried, v, n - 1) + if Arrives(t, carried, n - 1, v) then carried[n - 1] else 0.0
  }

  function Work(t: Setting, carried: Demand, v: Id): real {
    Into(t, carried, v, |t.flows|)
  }

  /** What a node sends on from, for its work; unknown for a source outside the workload and for mixed units. */
  function BaseOf(t: Setting, v: Id, work: real, mixed: bool): Option<real> {
    if mixed || Unmodeled(t, v) then None
    else if v in t.entries then Some(t.total + work)
    else Some(work)
  }

  function FactorAt(t: Setting, i: int): Option<real>
    requires 0 <= i < |t.flows|
  {
    Factor(t.flows[i].connection, t.read)
  }

  predicate Delivers(t: Setting, base: Option<real>, i: int)
    requires 0 <= i < |t.flows|
  {
    base.Some? && FactorAt(t, i).Some? && Holds(Amount(t, base, i))
  }

  function Amount(t: Setting, base: Option<real>, i: int): real
    requires 0 <= i < |t.flows|
  {
    if base.Some? && FactorAt(t, i).Some? then base.value * FactorAt(t, i).value else 0.0
  }

  lemma {:induction false} IntoAdded(t: Setting, carried: Demand, v: Id, n: int, i: int, x: real)
    requires 0 <= n <= |t.flows| && i !in carried && 0 <= i < |t.flows|
    ensures Into(t, carried[i := x], v, n) ==
            Into(t, carried, v, n) + if i < n && t.flows[i].downstream == v then x else 0.0
    decreases n
  {
    if n > 0 {
      IntoAdded(t, carried, v, n - 1, i, x);
    }
  }

  ghost predicate SameArrivals(t: Setting, carried: Demand, other: Demand, v: Id) {
    forall i :: Arrives(t, carried, i, v) || Arrives(t, other, i, v) ==>
        i in carried && i in other && carried[i] == other[i]
  }

  lemma {:induction false} IntoSame(t: Setting, carried: Demand, other: Demand, v: Id, n: int)
    requires 0 <= n <= |t.flows|
    requires SameArrivals(t, carried, other, v)
    ensures Into(t, carried, v, n) == Into(t, other, v, n)
    decreases n
  {
    if n > 0 {
      IntoSame(t, carried, other, v, n - 1);
    }
  }

  lemma MixedSame(t: Setting, carried: Demand, other: Demand, v: Id)
    requires SameArrivals(t, carried, other, v)
    ensures Mixed(t, carried, v) == Mixed(t, other, v)
  {
  }

  // --- a propagation under way ---------------------------------------------------------------------

  /**
   * `order` lists the nodes processed, `base` what each sends on from, and `pending` holds the flows not
   * followed yet; the rest is what the propagation keeps.
   */
  datatype State = State(
    order: seq<Id>, base: map<Id, Option<real>>, pending: set<int>,
    work: map<Id, real>, carried: Demand, incomplete: set<Id>, indegree: map<Id, int>, ready: set<Id>)

  /** How many of the first `n` flows lead to `v` and are pending. */
  function Waiting(t: Setting, pending: set<int>, v: Id, n: int): (c: int)
    requires 0 <= n <= |t.flows|
    ensures c >= 0
    decreases n
  {
    if n == 0 then 0
    else Waiting(t, pending, v, n - 1) + if n - 1 in pending && t.flows[n - 1].downstream == v then 1 else 0
  }

  lemma {:induction false} WaitingDropped(t: Setting, pending: set<int>, v: Id, n: int, i: int)
    requires 0 <= n <= |t.flows| && i in pending && 0 <= i < |t.flows|
    ensures Waiting(t, pending - {i}, v, n) ==
            Waiting(t, pending, v, n) - if i < n && t.flows[i].downstream == v then 1 else 0
    decreases n
  {
    if n > 0 {
      WaitingDropped(t, pending, v, n - 1, i);
    }
  }

  lemma {:induction false} NoneWaiting(t: Setting, pending: set<int>, v: Id, n: int)
    requires 0 <= n <= |t.flows|
    ensures Waiting(t, pending, v, n) == 0 <==> forall i :: 0 <= i < n && i in pending ==> t.flows[i].downstream != v
    decreases n
  {
    if n > 0 {
      NoneWaiting(t, pending, v, n - 1);
    }
  }

  function BaseAt(s: State, u: Id): Option<real> {
    if u in s.base then s.base[u] else None
  }

  predicate Followed(t: Setting, s: State, i: int) {
    0 <= i < |t.flows| && i !in s.pending
  }

  /** The flow leaves its downstream incomplete: it delivers nothing known, or its upstream is incomplete. */
  predicate Taints(t: Setting, s: State, i: int)
    requires 0 <= i < |t.flows|
  {
    !Delivers(t, BaseAt(s, t.flows[i].upstream), i) || t.flows[i].upstream in s.incomplete
  }

  /** The pending flows are those of nodes not processed, and `rest` of the node being processed. */
  ghost predicate Pending(t: Setting, s: State, rest: set<int>) {
    && (forall i :: i in s.pending <==> 0 <= i < |t.flows| && (t.flows[i].upstream !in s.base || i in rest))
    && (forall i :: i in rest ==> 0 <= i < |t.flows| && t.flows[i].upstream in s.base)
  }

  ghost predicate Counted(t: Setting, s: State) {
    s.indegree.Keys == t.nodes && forall v :: v in t.nodes ==> s.indegree[v] == Waiting(t, s.pending, v, |t.flows|)
  }

  ghost predicate Carries(t: Setting, s: State) {
    && (forall i :: i in s.carried <==> Followed(t, s, i) && Delivers(t, BaseAt(s, t.flows[i].upstream), i))
    && (forall i :: i in s.carried && 0 <= i < |t.flows| && Delivers(t, BaseAt(s, t.flows[i].upstream), i) ==>
          s.carried[i] == Amount(t, BaseAt(s, t.flows[i].upstream), i))
  }

  ghost predicate Summed(t: Setting, s: State) {
    s.work.Keys == t.nodes && forall v :: v in t.nodes ==> s.work[v] == Work(t, s.carried, v)
  }

  ghost predicate Settles(t: Setting, s: State, u: Id)
    requires u in s.base
  {
    && s.base[u] == BaseOf(t, u, Work(t, s.carried, u), Mixed(t, s.carried, u))
    && forall i :: i in s.pending && 0 <= i < |t.flows| ==> t.flows[i].downstream != u
  }

  ghost predicate Based(t: Setting, s: State) {
    s.base.Keys <= t.nodes && forall u :: u in s.base ==> Settles(t, s, u)
  }

  ghost predicate Tainted(t: Setting, s: State, v: Id) {
    exists i :: Followed(t, s, i) && t.flows[i].downstream == v && Taints(t, s, i)
  }

  ghost predicate Marked(t: Setting, s: State) {
    && s.incomplete <= t.nodes
    && forall v :: v in t.nodes ==> (v in s.incomplete <==> (v in s.base && Mixed(t, s.carried, v)) || Tainted(t, s, v))
  }

  ghost predicate Readied(t: Setting, s: State) {
    forall v :: v in s.ready <==> v in t.nodes && v !in s.base && Waiting(t, s.pending, v, |t.flows|) == 0
  }

  /** Every node was processed once, after all the nodes that send to it. */
  ghost predicate Topological(t: Setting, order: seq<Id>) {
    && (forall j, k :: 0 <= j < k < |order| ==> order[j] != order[k])
    && (forall k, i :: 0 <= k < |order| && 0 <= i < |t.flows| && t.flows[i].downstream == order[k] ==>
          t.flows[i].upstream in order[..k])
  }

  ghost predicate Listed(t: Setting, s: State) {
    Topological(t, s.order) && forall u :: u in s.order <==> u in s.base
  }

  ghost predicate Under(t: Setting, s: State, rest: set<int>) {
    && Joined(t) && Pending(t, s, rest) && Counted(t, s) && Carries(t, s) && Summed(t, s)
    && Based(t, s) && Marked(t, s) && Readied(t, s) && Listed(t, s)
  }

  // --- processing a node ---------------------------------------------------------------------------

  /** The flows that leave `u`, among the first `n`. */
  function Outgoing(t: Setting, u: Id, n: int): (r: seq<int>)
    requires 0 <= n <= |t.flows|
    ensures forall i :: i in r <==> 0 <= i < n && t.flows[i].upstream == u
    ensures forall j :: 0 <= j < |r| ==> r[j] < n
    ensures forall j, k :: 0 <= j < k < |r| ==> r[j] < r[k]
    decreases n
  {
    if n == 0 then []
    else
      var r := Outgoing(t, u, n - 1);
      if t.flows[n - 1].upstream == u then r + [n - 1] else r
  }

  /** `u` processed, before any of its flows is followed. */
  function Popped(t: Setting, s: State, u: Id): State
    requires u in s.work
  {
    var mixed := Mixed(t, s.carried, u);
    s.(order := s.order + [u], base := s.base[u := BaseOf(t, u, s.work[u], mixed)],
       incomplete := if mixed then s.incomplete + {u} else s.incomplete, ready := s.ready - {u})
  }

  lemma PoppedFlows(t: Setting, s: State, u: Id)
    requires Under(t, s, {}) && u in s.ready
    ensures forall i :: Followed(t, s, i) ==> t.flows[i].upstream in s.base && t.flows[i].upstream != u
    ensures forall i :: i in s.pending && 0 <= i < |t.flows| ==> t.flows[i].downstream != u
    ensures u in t.nodes && u !in s.base && u in s.work
  {
    hide Carries, Counted, Work, Based, Marked, Listed;
    NoneWaiting(t, s.pending, u, |t.flows|);
  }

  lemma PoppedBased(t: Setting, s: State, u: Id)
    requires Under(t, s, {}) && u in s.ready
    ensures Based(t, Popped(t, s, u))
  {
    hide Carries, Counted, Marked, Listed, Readied, Pending, Work, BaseOf, Mixed;
    PoppedFlows(t, s, u);
    var e := Popped(t, s, u);
    forall x | x in e.base
      ensures Settles(t, e, x)
    {
      if x != u {
        assert Settles(t, s, x);
      }
    }
  }

  lemma PoppedMarked(t: Setting, s: State, u: Id)
    requires Under(t, s, {}) && u in s.ready
    ensures Marked(t, Popped(t, s, u)) && Carries(t, Popped(t, s, u))
  {
    hide Counted, Listed, Readied, Summed, Based, BaseOf, Mixed, Delivers;
    PoppedFlows(t, s, u);
    var e := Popped(t, s, u);
    assert forall i :: Followed(t, s, i) ==> Followed(t, e, i) && (Taints(t, e, i) <==> Taints(t, s, i));
    forall v | v in t.nodes
      ensures v in e.incomplete <==> (v in e.base && Mixed(t, e.carried, v)) || Tainted(t, e, v)
    {
      assert Tainted(t, e, v) <==> Tainted(t, s, v);
    }
  }

  lemma PoppedListed(t: Setting, s: State, u: Id)
    requires Under(t, s, {}) && u in s.ready
    ensures Listed(t, Popped(t, s, u))
  {
    hide Counted, Marked, Summed, Based, Carries, Readied, BaseOf, Mixed;
    PoppedFlows(t, s, u);
    var e := Popped(t, s, u);
    forall k, i | 0 <= k < |e.order| && 0 <= i < |t.flows| && t.flows[i].downstream == e.order[k]
      ensures t.flows[i].upstream in e.order[..k]
    {
      assert e.order[..k] == s.order[..k];
      if k == |s.order| {
        assert s.order[..k] == s.order;
        assert Followed(t, s, i);
      } else {
        assert e.order[k] == s.order[k];
      }
    }
  }

  lemma PopKeeps(t: Setting, s: State, u: Id)
    requires Under(t, s, {}) && u in s.ready
    ensures Under(t, Popped(t, s, u), Members(Outgoing(t, u, |t.flows|)))
  {
    hide Carries, Based, Marked, Listed, Waiting, BaseOf, Mixed;
    PoppedBased(t, s, u);
    PoppedMarked(t, s, u);
    PoppedListed(t, s, u);
  }

  // --- following a flow ----------------------------------------------------------------------------

  /** The flow followed: what it carries counted, its downstream marked, and ready when it was the last. */
  function Sent(t: Setting, s: State, i: int): State
    requires 0 <= i < |t.flows| && t.flows[i].downstream in s.work && t.flows[i].downstream in s.indegree
  {
    var d, base, left := t.flows[i].downstream, BaseAt(s, t.flows[i].upstream), s.indegree[t.flows[i].downstream] - 1;
    var amount := if Delivers(t, base, i) then Amount(t, base, i) else 0.0;
    s.(pending := s.pending - {i},
       carried := if Delivers(t, base, i) then s.carried[i := amount] else s.carried,
       work := s.work[d := s.work[d] + amount],
       incomplete := if Taints(t, s, i) then s.incomplete + {d} else s.incomplete,
       indegree := s.indegree[d := left],
       ready := if left == 0 then s.ready + {d} else s.ready)
  }

  lemma SentFlow(t: Setting, s: State, rest: set<int>, i: int)
    requires Under(t, s, rest) && i in rest
    ensures 0 <= i < |t.flows| && i in s.pending && i !in s.carried
    ensures t.flows[i].upstream in t.nodes && t.flows[i].downstream in t.nodes && t.flows[i].downstream !in s.base
    ensures t.flows[i].downstream in s.work && t.flows[i].downstream in s.indegree
  {
    hide Marked, Readied, Listed, Waiting, Work, BaseOf, Mixed;
    forall u | u in s.base
      ensures t.flows[i].downstream != u
    {
      assert Settles(t, s, u);
    }
  }

  lemma SentCounted(t: Setting, s: State, rest: set<int>, i: int)
    requires Under(t, s, rest) && i in rest && 0 <= i < |t.flows|
    requires t.flows[i].downstream in s.work && t.flows[i].downstream in s.indegree
    ensures Counted(t, Sent(t, s, i)) && Readied(t, Sent(t, s, i))
  {
    hide Carries, Summed, Based, Marked, Listed, Taints, Delivers, Waiting;
    SentFlow(t, s, rest, i);
    forall v | v in t.nodes
      ensures Waiting(t, s.pending - {i}, v, |t.flows|) ==
              Waiting(t, s.pending, v, |t.flows|) - if t.flows[i].downstream == v then 1 else 0
    {
      WaitingDropped(t, s.pending, v, |t.flows|, i);
    }
  }

  lemma SentCarries(t: Setting, s: State, rest: set<int>, i: int)
    requires Under(t, s, rest) && i in rest && 0 <= i < |t.flows|
    requires t.flows[i].downstream in s.work && t.flows[i].downstream in s.indegree
    ensures Carries(t, Sent(t, s, i))
  {
    hide Counted, Summed, Based, Marked, Listed, Readied, Taints, Delivers;
    SentFlow(t, s, rest, i);
  }

  lemma SentSummed(t: Setting, s: State, rest: set<int>, i: int)
    requires Under(t, s, rest) && i in rest && 0 <= i < |t.flows|
    requires t.flows[i].downstream in s.work && t.flows[i].downstream in s.indegree
    ensures Summed(t, Sent(t, s, i))
  {
    hide Counted, Carries, Based, Marked, Listed, Readied, Taints, Delivers, Amount, Into;
    SentFlow(t, s, rest, i);
    var e := Sent(t, s, i);
    var base := BaseAt(s, t.flows[i].upstream);
    forall v | v in t.nodes
      ensures e.work[v] == Work(t, e.carried, v)
    {
      if Delivers(t, base, i) {
        var amount := Amount(t, base, i);
        assert e.carried == s.carried[i := amount];
        IntoAdded(t, s.carried, v, |t.flows|, i, amount);
      } else {
        assert e.carried == s.carried;
      }
    }
  }

  lemma SentArrivals(t: Setting, s: State, rest: set<int>, i: int, u: Id)
    requires Under(t, s, rest) && i in rest && 0 <= i < |t.flows|
    requires t.flows[i].downstream in s.work && t.flows[i].downstream in s.indegree
    requires u in s.base
    ensures Work(t, Sent(t, s, i).carried, u) == Work(t, s.carried, u)
    ensures Mixed(t, Sent(t, s, i).carried, u) == Mixed(t, s.carried, u)
  {
    hide Counted, Carries, Summed, Based, Marked, Listed, Readied, Taints, Delivers, Into, Mixed;
    SentFlow(t, s, rest, i);
    var carried := Sent(t, s, i).carried;
    assert SameArrivals(t, carried, s.carried, u);
    IntoSame(t, carried, s.carried, u, |t.flows|);
    MixedSame(t, carried, s.carried, u);
  }

  lemma SentBased(t: Setting, s: State, rest: set<int>, i: int)
    requires Under(t, s, rest) && i in rest && 0 <= i < |t.flows|
    requires t.flows[i].downstream in s.work && t.flows[i].downstream in s.indegree
    ensures Based(t, Sent(t, s, i))
  {
    hide Counted, Carries, Summed, Marked, Listed, Readied, Taints, Delivers, Work, Mixed, Pending;
    var e := Sent(t, s, i);
    forall u | u in e.base
      ensures Settles(t, e, u)
    {
      assert Settles(t, s, u);
      SentArrivals(t, s, rest, i, u);
    }
  }

  lemma SentTaints(t: Setting, s: State, rest: set<int>, i: int, v: Id)
    requires Under(t, s, rest) && i in rest && 0 <= i < |t.flows| && v in t.nodes
    requires t.flows[i].downstream in s.work && t.flows[i].downstream in s.indegree
    ensures Tainted(t, Sent(t, s, i), v) <==> Tainted(t, s, v) || (t.flows[i].downstream == v && Taints(t, s, i))
  {
    hide Counted, Carries, Summed, Marked, Listed, Readied, Delivers, Work, Mixed, Based;
    SentFlow(t, s, rest, i);
    var e := Sent(t, s, i);
    assert forall j :: 0 <= j < |t.flows| && t.flows[j].upstream in s.base ==> (Taints(t, e, j) <==> Taints(t, s, j));
    assert forall j :: Followed(t, e, j) <==> Followed(t, s, j) || j == i;
    assert t.flows[i].upstream in s.base ==> (Taints(t, e, i) <==> Taints(t, s, i));
    if Taints(t, s, i) && t.flows[i].downstream == v {
      assert Followed(t, e, i);
    }
  }

  lemma SentMarked(t: Setting, s: State, rest: set<int>, i: int)
    requires Under(t, s, rest) && i in rest && 0 <= i < |t.flows|
    requires t.flows[i].downstream in s.work && t.flows[i].downstream in s.indegree
    ensures Marked(t, Sent(t, s, i))
  {
    hide Counted, Carries, Summed, Listed, Readied, Taints, Tainted, Delivers, Mixed, Based, Pending;
    SentFlow(t, s, rest, i);
    var e := Sent(t, s, i);
    forall v | v in t.nodes
      ensures v in e.incomplete <==> (v in e.base && Mixed(t, e.carried, v)) || Tainted(t, e, v)
    {
      SentTaints(t, s, rest, i, v);
      if v in s.base {
        SentArrivals(t, s, rest, i, v);
      }
    }
  }

  lemma SendKeeps(t: Setting, s: State, rest: set<int>, i: int)
    requires Under(t, s, rest) && i in rest && 0 <= i < |t.flows|
    requires t.flows[i].downstream in s.work && t.flows[i].downstream in s.indegree
    ensures Under(t, Sent(t, s, i), rest - {i})
  {
    hide Counted, Carries, Summed, Readied, Taints, Tainted, Delivers, Mixed, Based, Marked;
    SentCounted(t, s, rest, i);
    SentCarries(t, s, rest, i);
    SentSummed(t, s, rest, i);
    SentBased(t, s, rest, i);
    SentMarked(t, s, rest, i);
    SentFlow(t, s, rest, i);
  }
}
