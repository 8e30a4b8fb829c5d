/** What the flows, the factors and the units of a propagation are, from the connections themselves. */
module TrafficMeanings {
  import opened Options
  import opened Reachability
  import opened Traffic
  import opened Propagation
  import opened TrafficFacts

  // --- flows ---------------------------------------------------------------------------------------

  /** Demand travels with a request, a data access or a publication, and against a consumption. */
  ghost predicate Travels(c: Connection, u: Id, v: Id) {
    || ((c.kind.Request? || c.kind.DataAccess? || c.kind.Publish?) && u == c.source && v == c.target)
    || (c.kind.Consume? && u == c.target && v == c.source)
  }

  lemma {:induction false} FlowsTravel(connections: seq<Connection>, f: Flow)
    ensures f in FlowsOf(connections) <==>
            f.connection in connections && Travels(f.connection, f.upstream, f.downstream)
    decreases |connections|
  {
    if connections != [] {
      var front, last := connections[..|connections| - 1], connections[|connections| - 1];
      FlowsTravel(front, f);
      assert connections == front + [last];
    }
  }

  /** A setting has a flow exactly for every listed connection that carries demand, in the direction demand travels. */
  lemma FlowsExactly(nodes: set<Id>, connections: seq<Connection>, entries: set<Id>, total: real, read: Option<real>,
      c: Connection, u: Id, v: Id)
    ensures Flow(c, u, v) in SettingOf(nodes, connections, entries, total, read).flows <==>
            c in connections && Travels(c, u, v)
  {
    FlowsTravel(connections, Flow(c, u, v));
  }

  /** And each only once. */
  lemma {:induction false} FlowsOnce(connections: seq<Connection>)
    requires forall i, j :: 0 <= i < j < |connections| ==> connections[i] != connections[j]
    ensures forall i, j :: 0 <= i < j < |FlowsOf(connections)| ==> FlowsOf(connections)[i] != FlowsOf(connections)[j]
    decreases |connections|
  {
    if connections != [] {
      var front, last := connections[..|connections| - 1], connections[|connections| - 1];
      FlowsOnce(front);
      forall i | 0 <= i < |FlowsOf(front)|
        ensures FlowsOf(front)[i].connection != last
      {
        FlowsTravel(front, FlowsOf(front)[i]);
      }
    }
  }

  // --- factors -------------------------------------------------------------------------------------

  /** The factor is unknown exactly when neither share nor calls are declared, or one side of an unknown mix is. */
  lemma FactorKnown(c: Connection, read: Option<real>)
    ensures Factor(c, read).None? <==>
            (c.ratio.None? && c.calls.None?) || ((c.access.Read? || c.access.Write?) && read.None?)
  {
  }

  /** A connection with a share of one and nothing else passes on all of its source's work. */
  lemma PassesAllOn(c: Connection, read: Option<real>)
    requires c.ratio == Some(1.0) && c.calls.None? && c.hit.None? && c.access.Undivided?
    ensures Factor(c, read) == Some(1.0)
  {
  }

  function Product(a: real, b: real, h: real, s: real): real {
    a * b * h * s
  }

  lemma FactorIsProduct(c: Connection, read: Option<real>)
    ensures Factor(c, read).None? <==> Unspecified(c, read)
    ensures Factor(c, read).Some? ==>
              Factor(c, read).value ==
              Product(Or(c.ratio, 1.0), Or(c.calls, 1.0), 1.0 - Or(c.hit, 0.0), ShareOf(c.access, Or(read, 0.0)))
  {
  }

  lemma Pull(a: real, b: real, h: real, s: real)
    ensures Product(a, b, h, s) == a * Product(1.0, b, h, s)
    ensures Product(a, b, h, s) == b * Product(a, 1.0, h, s)
    ensures Product(a, b, h, s) == h * Product(a, b, 1.0, s)
  {
    var x, y := a * b, h * s;
    assert a * b * h * s == x * y;
    assert Product(1.0, b, h, s) == b * y && a * (b * y) == x * y;
    assert Product(a, 1.0, h, s) == a * y && b * (a * y) == x * y;
    assert Product(a, b, 1.0, s) == x * s && h * (x * s) == x * y;
  }

  /** A share scales the factor, and is one when only the calls are declared. */
  lemma ShareScales(c: Connection, read: Option<real>, x: real)
    requires Factor(c, read).Some? && c.calls.Some?
    ensures Factor(c.(ratio := Some(x)), read) == Some(x * Factor(c.(ratio := None), read).value)
  {
    hide Product, Factor;
    FactorIsProduct(c, read);
    FactorIsProduct(c.(ratio := Some(x)), read);
    FactorIsProduct(c.(ratio := None), read);
    Pull(x, Or(c.calls, 1.0), 1.0 - Or(c.hit, 0.0), ShareOf(c.access, Or(read, 0.0)));
    assert Factor(c.(ratio := Some(x)), read).value == x * Factor(c.(ratio := None), read).value;
  }

  /** So do the calls, and are one when only the share is declared. */
  lemma CallsScale(c: Connection, read: Option<real>, x: real)
    requires Factor(c, read).Some? && c.ratio.Some?
    ensures Factor(c.(calls := Some(x)), read) == Some(x * Factor(c.(calls := None), read).value)
  {
    hide Product, Factor;
    FactorIsProduct(c, read);
    FactorIsProduct(c.(calls := Some(x)), read);
    FactorIsProduct(c.(calls := None), read);
    Pull(Or(c.ratio, 1.0), x, 1.0 - Or(c.hit, 0.0), ShareOf(c.access, Or(read, 0.0)));
    assert Factor(c.(calls := Some(x)), read).value == x * Factor(c.(calls := None), read).value;
  }

  /** A cache takes away the part it answers, all of it at a hit ratio of one, and nothing when none is declared. */
  lemma CacheTakesAway(c: Connection, read: Option<real>, x: real)
    requires Factor(c, read).Some?
    ensures Factor(c.(hit := Some(x)), read) == Some((1.0 - x) * Factor(c.(hit := None), read).value)
    ensures x == 1.0 ==> Factor(c.(hit := Some(x)), read) == Some(0.0)
    ensures x == 0.0 ==> Factor(c.(hit := Some(x)), read) == Factor(c.(hit := None), read)
  {
    hide Product, Factor;
    FactorIsProduct(c, read);
    FactorIsProduct(c.(hit := Some(x)), read);
    FactorIsProduct(c.(hit := None), read);
    Pull(Or(c.ratio, 1.0), Or(c.calls, 1.0), 1.0 - x, ShareOf(c.access, Or(read, 0.0)));
    assert 1.0 - Or(c.(hit := None).hit, 0.0) == 1.0;
    assert Factor(c.(hit := Some(x)), read).value == (1.0 - x) * Factor(c.(hit := None), read).value;
    assert x == 1.0 ==> (1.0 - x) * Factor(c.(hit := None), read).value == 0.0;
  }

  /**
   * A connection that carries reads and its twin that carries writes add up to the one that carries both; with nothing
   * but reads the twin of writes carries nothing.
   */
  lemma ReadsAndWrites(c: Connection, read: real)
    requires c.ratio.Some? || c.calls.Some?
    ensures var r, w := Factor(c.(access := Read), Some(read)), Factor(c.(access := Write), Some(read));
            var both := Factor(c.(access := Undivided), Some(read));
            && r.Some? && w.Some? && both.Some?
            && r.value == both.value * read && r.value + w.value == both.value
            && (read == 1.0 ==> w.value == 0.0) && (read == 0.0 ==> r.value == 0.0)
  {
    var x := Or(c.ratio, 1.0) * Or(c.calls, 1.0) * (1.0 - Or(c.hit, 0.0));
    assert x * read + x * (1.0 - read) == x * 1.0;
  }

  // --- what a flow delivers ------------------------------------------------------------------------

  /** The two count different units: requests, operations, or events. */
  predicate CountApart(a: Kind, b: Kind) {
    a.Request? != b.Request? || a.DataAccess? != b.DataAccess?
  }

  /** Work in different units arrives at the node. */
  ghost predicate ArrivesApart(t: Setting, r: Spread, u: Id) {
    exists i, j :: ArriveAt(t, r, u, i, j) && CountApart(t.flows[i].connection.kind, t.flows[j].connection.kind)
  }

  ghost predicate ArriveAt(t: Setting, r: Spread, u: Id, i: int, j: int) {
    && i in r.carried && j in r.carried && 0 <= i < |t.flows| && 0 <= j < |t.flows|
    && t.flows[i].downstream == u && t.flows[j].downstream == u
  }

  /** The node sends work that the workload does not describe. */
  ghost predicate SendsOfItsOwn(t: Setting, u: Id) {
    u !in t.entries && forall i :: 0 <= i < |t.flows| ==> t.flows[i].downstream != u
  }

  /** What enters at the node and what arrives there. */
  function Through(t: Setting, r: Spread, u: Id): real {
    (if u in t.entries then t.total else 0.0) + Work(t, r.carried, u)
  }

  lemma MixedApart(t: Setting, r: Spread, u: Id)
    ensures Mixed(t, r.carried, u) <==> ArrivesApart(t, r, u)
  {
    assert forall a, b :: UnitOf(a) != UnitOf(b) <==> CountApart(a, b);
    if i, j :| ArriveAt(t, r, u, i, j) && CountApart(t.flows[i].connection.kind, t.flows[j].connection.kind) {
      assert Arrives(t, r.carried, i, u) && Arrives(t, r.carried, j, u);
    }
    if Mixed(t, r.carried, u) {
      var i, j :| i in r.carried && j in r.carried && Arrives(t, r.carried, i, u) && Arrives(t, r.carried, j, u)
        && UnitOf(t.flows[i].connection.kind) != UnitOf(t.flows[j].connection.kind);
      assert ArriveAt(t, r, u, i, j);
    }
  }

  /** What a node that some flow leaves sends on from: what goes through it, unless that is not known. */
  lemma BaseIs(t: Setting, r: Spread, u: Id)
    requires Propagated(t, r) && u in r.base && Sends(t, u)
    ensures r.base[u].None? <==> SendsOfItsOwn(t, u) || ArrivesApart(t, r, u)
    ensures r.base[u].Some? ==> r.base[u].value == Through(t, r, u)
  {
    hide Topological, Reported, Work, ArrivesApart, Mixed, Delivered, Defined, Joined;
    MixedApart(t, r, u);
    assert Receives(t, u) <==> !(forall j :: 0 <= j < |t.flows| ==> t.flows[j].downstream != u);
  }

  /**
   * A flow into a node with a defined demand delivers nothing exactly when its factor is unknown, its upstream sends
   * of its own or gets work in different units, or the amount reaches the bound; otherwise it delivers what goes
   * through its upstream times its factor.
   */
  lemma DeliversExactly(t: Setting, r: Spread, i: int)
    requires Propagated(t, r) && 0 <= i < |t.flows| && t.flows[i].downstream in r.base
    ensures var u, factor := t.flows[i].upstream, Factor(t.flows[i].connection, t.read);
            && (i !in r.carried <==>
                  factor.None? || SendsOfItsOwn(t, u) || ArrivesApart(t, r, u)
                  || Through(t, r, u) * factor.value >= 1000000000000000.0 - 0.0000000005)
            && (i in r.carried ==> factor.Some? && r.carried[i] == Through(t, r, u) * factor.value)
  {
    hide Topological, Reported, Work, Factor, ArrivesApart, SendsOfItsOwn, SendsFrom, Through;
    var u := t.flows[i].upstream;
    assert Fed(t, r, t.flows[i].downstream);
    assert Sends(t, u);
    BaseIs(t, r, u);
    assert i in r.carried <==> Delivers(t, r.base[u], i);
  }

  /**
   * A node's demand is incomplete exactly when it is on or after a cycle, or at it or at some node before it work in
   * different units arrives or a flow in delivers nothing.
   */
  lemma IncompleteMeans(t: Setting, r: Spread, v: Id)
    requires Propagated(t, r) && v in t.nodes
    ensures v in r.incomplete <==>
            AfterCycle(t, v)
            || exists u :: Reaches(Senders(t), v, u) && (ArrivesApart(t, r, u) || DeliversNothing(t, r, u))
  {
    hide Propagated, AfterCycle, Senders, Mixed, ArrivesApart, DeliversNothing, Reaches;
    UndefinedExactly(t, r, v);
    if v in r.base {
      IncompleteExactly(t, r, v);
      forall u | Reaches(Senders(t), v, u)
        ensures Origin(t, r, u) <==> ArrivesApart(t, r, u) || DeliversNothing(t, r, u)
      {
        MixedApart(t, r, u);
        DefinedBefore(t, r, v, u);
        NothingDelivered(t, r, u);
      }
    }
  }

  ghost predicate DeliversNothing(t: Setting, r: Spread, u: Id) {
    exists i :: 0 <= i < |t.flows| && t.flows[i].downstream == u && i !in r.carried
  }

  lemma DefinedBefore(t: Setting, r: Spread, v: Id, u: Id)
    requires Propagated(t, r) && v in r.base && Reaches(Senders(t), v, u)
    ensures u in r.base
  {
    hide Senders, Reaches;
    PrefixClosed(t, r, |r.order|);
    assert r.order[..|r.order|] == r.order;
    assert v in Members(r.order);
    ClosedKeepsReachable(Senders(t), Members(r.order), v, u);
  }

  lemma NothingDelivered(t: Setting, r: Spread, u: Id)
    requires Propagated(t, r) && u in r.base
    ensures DeliversNothing(t, r, u) <==>
            exists i :: 0 <= i < |t.flows| && t.flows[i].downstream == u
              && !Delivers(t, SentFrom(r, t.flows[i].upstream), i)
  {
    hide Delivers, Topological, SendsFrom, Reported;
  }

  // --- an example ----------------------------------------------------------------------------------

  /** A client 1 that publishes to a broker 2, from which 3 consumes. */
  function Publishes(): Connection {
    Connection(4, Publish, 1, 2, Some(1.0), None, None, Undivided)
  }

  function Consumes(): Connection {
    Connection(5, Consume, 3, 2, Some(1.0), None, None, Undivided)
  }

  function ThroughBroker(): Setting {
    SettingOf({1, 2, 3}, [Publishes(), Consumes()], {1}, 100.0, None)
  }

  function BrokerSetting(): Setting {
    Setting({1, 2, 3}, [Flow(Publishes(), 1, 2), Flow(Consumes(), 2, 3)], {1}, 100.0, None)
  }

  lemma BrokerFlows()
    ensures ThroughBroker() == BrokerSetting()
  {
    var a, b := Publishes(), Consumes();
    assert [a, b][..1] == [a] && [a][..0] == [];
    assert FlowsOf([]) == [];
    assert FlowsOf([a]) == [Flow(a, 1, 2)];
  }

  lemma NothingInto(t: Setting, r: Spread, v: Id)
    requires Propagated(t, r) && v in t.entries && forall i :: 0 <= i < |t.flows| ==> t.flows[i].downstream != v
    ensures v in r.base && v !in r.incomplete && r.base[v] == Some(t.total)
  {
    hide Topological, Delivered;
    assert Fed(t, r, v) && !Spoiled(t, r, v) && !Mixed(t, r.carried, v);
    OneArrives(t, r.carried, v, |t.flows|, |t.flows|);
  }

  /** Of one flow into the node, everything that arrives. */
  lemma {:induction false} OneArrives(t: Setting, carried: Demand, v: Id, i: int, n: int)
    requires 0 <= i <= |t.flows| && 0 <= n <= |t.flows| && (i < |t.flows| ==> Arrives(t, carried, i, v))
    requires forall j :: 0 <= j < |t.flows| && j != i ==> t.flows[j].downstream != v
    ensures Into(t, carried, v, n) == if i < n then carried[i] else 0.0
    decreases n
  {
    if n > 0 {
      OneArrives(t, carried, v, i, n - 1);
    }
  }

  /** A node with one flow in, from a complete node and with a factor of one, passes on what it gets. */
  lemma PassedOn(t: Setting, r: Spread, i: int, v: Id, x: real)
    requires Propagated(t, r) && 0 <= i < |t.flows| && t.flows[i].downstream == v && v !in t.entries
    requires forall j :: 0 <= j < |t.flows| && j != i ==> t.flows[j].downstream != v
    requires FactorAt(t, i) == Some(1.0) && Holds(x)
    requires var u := t.flows[i].upstream; u in r.base && u !in r.incomplete && r.base[u] == Some(x)
    ensures v in r.base && v !in r.incomplete && Work(t, r.carried, v) == x && r.base[v] == Some(x)
  {
    hide Topological, Factor;
    assert Fed(t, r, v);
    assert Amount(t, r.base[t.flows[i].upstream], i) == x;
    assert i in r.carried && r.carried[i] == x;
    OneArrives(t, r.carried, v, i, |t.flows|);
    assert !Spoiled(t, r, v) && !Mixed(t, r.carried, v);
  }

  /** The consumer gets all of the client's demand. */
  lemma ConsumerIsReached(r: Spread)
    requires Propagated(ThroughBroker(), r)
    ensures 2 !in r.incomplete && Work(ThroughBroker(), r.carried, 2) == 100.0
    ensures 3 !in r.incomplete && Work(ThroughBroker(), r.carried, 3) == 100.0
  {
    hide Propagated, ThroughBroker;
    var t := BrokerSetting();
    BrokerFlows();
    NothingInto(t, r, 1);
    PassesAllOn(Publishes(), None);
    PassesAllOn(Consumes(), None);
    PassedOn(t, r, 0, 2, 100.0);
    PassedOn(t, r, 1, 3, 100.0);
  }
}
