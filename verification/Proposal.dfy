/** The proposed architecture: the candidates of a run under a reviewer's decisions, and what became of each. */
module Proposal {
  import opened Options
  import opened Reachability
  import opened Discovery
  import opened Ordered

  /** What a reviewer decided about a candidate, and what they stated that the source does not. */
  datatype Decision =
    | Accepted(nodeKind: Option<Id>, component: Option<Id>, connectionKind: Option<Id>)
    | Declined

  /** The catalog's components, what the architecture's own checks accept, and what a source type can declare. */
  datatype Rules = Rules(catalog: set<Id>, technology: Technology -> bool, node: Node -> bool,
      declarable: (Source, Id) -> bool)

  datatype Status = Included | NeedsReview | Excluded

  predicate IsDeclined(decisions: map<Id, Decision>, subject: Id) {
    subject in decisions && decisions[subject].Declined?
  }

  predicate IsAccepted(decisions: map<Id, Decision>, subject: Id) {
    subject in decisions && decisions[subject].Accepted?
  }

  // --- nodes ---------------------------------------------------------------------------------------

  function KindOf(decisions: map<Id, Decision>, e: Entity): Option<Id> {
    if e.kind.Some? then e.kind
    else if IsAccepted(decisions, e.key) then decisions[e.key].nodeKind
    else None
  }

  /** A reviewer's choice, when the catalog has it, else the confident mapping. */
  function ComponentOf(rules: Rules, decisions: map<Id, Decision>, e: Entity): Option<Id> {
    if IsAccepted(decisions, e.key) && decisions[e.key].component.Some? then
      (if decisions[e.key].component.value in rules.catalog then decisions[e.key].component else None)
    else e.mapped
  }

  /** The stated technology; a version the architecture cannot hold is left out. */
  function TechnologyOf(rules: Rules, e: Entity): Option<Technology> {
    if e.technology.None? then None
    else if rules.technology(Technology(e.technology.value, e.version)) then
        Some(Technology(e.technology.value, e.version))
    else if rules.technology(Technology(e.technology.value, None)) then Some(Technology(e.technology.value, None))
    else None
  }

  /** The usable values by property; the last one given. */
  function ConfigurationOf(mappings: seq<PropertyMapping>): (m: map<Id, int>)
  {
    if mappings == [] then map[]
    else
      var last := mappings[|mappings| - 1];
      var m := ConfigurationOf(mappings[..|mappings| - 1]);
      if last.valid && last.value.Some? then m[last.property := last.value.value] else m
  }

  function NodeOf(rules: Rules, decisions: map<Id, Decision>, e: Entity, kind: Id): Node {
    Node(e.key, kind, TechnologyOf(rules, e), ComponentOf(rules, decisions, e), ConfigurationOf(e.configuration),
        {}, map[], Some(e.place))
  }

  predicate Becomes(rules: Rules, decisions: map<Id, Decision>, e: Entity) {
    && e.role.Component? && !IsDeclined(decisions, e.key) && KindOf(decisions, e).Some?
    && rules.node(NodeOf(rules, decisions, e, KindOf(decisions, e).value))
  }

  /** It waits for a reviewer to state its kind. */
  predicate Waits(decisions: map<Id, Decision>, e: Entity) {
    e.role.Component? && !IsDeclined(decisions, e.key) && KindOf(decisions, e).None?
  }

  /** The entities that wait for a reviewer. */
  function Pending(decisions: map<Id, Decision>, entities: map<Id, Entity>): set<Id> {
    set k | k in entities && Waits(decisions, entities[k])
  }

  // --- connections ---------------------------------------------------------------------------------

  /** Where a reference leads: a routing entity is followed to the workload it selects. */
  function Reached(entities: map<Id, Entity>, routes: map<Id, Id>, target: Id): Id {
    if target in entities && entities[target].role.Routing? && target in routes then routes[target] else target
  }

  function ConnectionKindOf(decisions: map<Id, Decision>, r: Relationship): Option<Id> {
    if r.kind.Some? then r.kind
    else if IsAccepted(decisions, r.id) then decisions[r.id].connectionKind
    else None
  }

  datatype Signature = Signature(source: Id, target: Id, kind: Id)

  /** What connections are made from: the candidates, the decisions, the nodes proposed and the services' routes. */
  datatype Wiring = Wiring(entities: map<Id, Entity>, decisions: map<Id, Decision>, nodes: map<Id, Node>,
      routes: map<Id, Id>)

  /** Everything a connection needs is known: both nodes, and its kind. */
  predicate Eligible(w: Wiring, r: Relationship) {
    && r.source in w.entities && !(w.entities[r.source].role.Routing? && r.selector)
    && r.target.Some? && !IsDeclined(w.decisions, r.id)
    && Reached(w.entities, w.routes, r.target.value) in w.entities
    && w.entities[Reached(w.entities, w.routes, r.target.value)].role.Component?
    && r.source in w.nodes && Reached(w.entities, w.routes, r.target.value) in w.nodes
    && ConnectionKindOf(w.decisions, r).Some?
  }

  /** A node proposed, or one that a reviewer may still state. */
  predicate Possible(w: Wiring, k: Id) {
    k in w.nodes || k in Pending(w.decisions, w.entities)
  }

  /** It joins components that are proposed or wait for a reviewer, and waits for one of them or for its own kind. */
  predicate Awaits(w: Wiring, r: Relationship) {
    && r.source in w.entities && !(w.entities[r.source].role.Routing? && r.selector)
    && r.target.Some? && !IsDeclined(w.decisions, r.id)
    && var target := Reached(w.entities, w.routes, r.target.value);
       && target in w.entities && w.entities[target].role.Component?
       && Possible(w, r.source) && Possible(w, target)
       && (r.source !in w.nodes || target !in w.nodes || ConnectionKindOf(w.decisions, r).None?)
  }

  function SignatureOf(w: Wiring, r: Relationship): Signature
    requires Eligible(w, r)
  {
    Signature(r.source, Reached(w.entities, w.routes, r.target.value), ConnectionKindOf(w.decisions, r).value)
  }

  function ConnectionOf(w: Wiring, r: Relationship): Connection
    requires Eligible(w, r)
  {
    Connection(r.id, r.source, Reached(w.entities, w.routes, r.target.value), ConnectionKindOf(w.decisions, r).value)
  }

  /** The `i`-th relationship proposes a connection with that signature. */
  predicate Signs(w: Wiring, rs: seq<Relationship>, i: int, g: Signature) {
    0 <= i < |rs| && Eligible(w, rs[i]) && SignatureOf(w, rs[i]) == g
  }

  /** The `j`-th relationship gives a connection: everything is known, and none before it proposes the same. */
  ghost predicate Proposes(w: Wiring, rs: seq<Relationship>, j: int) {
    0 <= j < |rs| && Eligible(w, rs[j]) && forall i :: 0 <= i < j ==> !Signs(w, rs, i, SignatureOf(w, rs[j]))
  }

  /** A reference routed back to its own workload. */
  predicate ToItself(w: Wiring, r: Relationship) {
    r.target.Some? && Reached(w.entities, w.routes, r.target.value) == r.source
  }

  // --- the builder ---------------------------------------------------------------------------------

  /** The `j`-th relationship gives a connection of a node with itself. */
  ghost predicate SelfProposed(w: Wiring, rs: seq<Relationship>, j: int) {
    Proposes(w, rs, j) && ToItself(w, rs[j])
  }

  ghost predicate LeadKnown(entities: map<Id, Entity>, routes: map<Id, Id>) {
    forall s :: s in routes ==> routes[s] in entities
  }

  datatype Step = Out(status: Status) | In(connection: Connection) | Refused

  class Builder {
    const rules: Rules
    const decisions: map<Id, Decision>
    const entities: map<Id, Entity>
    var nodeStatus: map<Id, Status>
    var connectionStatus: map<Id, Status>
    var nodes: map<Id, Node>
    var pending: set<Id>

    constructor (rules: Rules, decisions: map<Id, Decision>, entities: map<Id, Entity>)
      ensures this.rules == rules && this.decisions == decisions && this.entities == entities
      ensures nodeStatus == map[] && connectionStatus == map[] && nodes == map[] && pending == {}
    {
      this.rules, this.decisions, this.entities := rules, decisions, entities;
      nodeStatus, connectionStatus, nodes, pending := map[], map[], map[], {};
    }

    method Configuration(e: Entity) returns (values: map<Id, int>)
      ensures values == ConfigurationOf(e.configuration)
    {
      values := map[];
      for i := 0 to |e.configuration|
        invariant values == ConfigurationOf(e.configuration[..i])
      {
        var m := e.configuration[i];
        assert e.configuration[..i + 1][..i] == e.configuration[..i];
        if m.valid && m.value.Some? {
          values := values[m.property := m.value.value];
        }
      }
      assert e.configuration[..|e.configuration|] == e.configuration;
    }

    method AddNode(e: Entity)
      modifies this
      ensures connectionStatus == old(connectionStatus)
      ensures nodes == if Becomes(rules, decisions, e)
                       then old(nodes)[e.key := NodeOf(rules, decisions, e, KindOf(decisions, e).value)] else old(nodes)
      ensures pending == if Waits(decisions, e) then old(pending) + {e.key} else old(pending)
      ensures nodeStatus == old(nodeStatus)[e.key :=
                if Becomes(rules, decisions, e) then Included else if Waits(decisions, e) then NeedsReview
                    else Excluded]
    {
      if !e.role.Component? || IsDeclined(decisions, e.key) {
        nodeStatus := nodeStatus[e.key := Excluded];
        return;
      }
      var kind := KindOf(decisions, e);
      if kind.None? {
        nodeStatus := nodeStatus[e.key := NeedsReview];
        pending := pending + {e.key};
        return;
      }
      var values := Configuration(e);
      var node := Node(e.key, kind.value, TechnologyOf(rules, e), ComponentOf(rules, decisions, e), values,
          {}, map[], Some(e.place));
      if !rules.node(node) {
        nodeStatus := nodeStatus[e.key := Excluded];
        return;
      }
      nodes := nodes[e.key := node];
      nodeStatus := nodeStatus[e.key := Included];
    }

    /** One relationship: the connection it proposes, or why it stays out; a self connection is refused. */
    method AddConnection(r: Relationship, w: Wiring, seen: set<Signature>) returns (step: Step, seen': set<Signature>)
      requires Joins(entities, r) && LeadKnown(entities, w.routes)
      requires w == Wiring(entities, decisions, nodes, w.routes) && pending == Pending(decisions, entities)
      modifies this`connectionStatus
      ensures step.Out? <==>
              !(Eligible(w, r) && SignatureOf(w, r) !in seen)
      ensures step.Refused? ==> ToItself(w, r)
      ensures step.In? ==> !ToItself(w, r) && step.connection == ConnectionOf(w, r)
      ensures seen' == if Eligible(w, r)
                       then seen + {SignatureOf(w, r)} else seen
      ensures step.Refused? || connectionStatus
              == old(connectionStatus)[r.id := if step.In? then Included else step.status]
      ensures step.Out? ==> step.status == if Awaits(w, r) then NeedsReview else Excluded
    {
      seen' := seen;
      step := Out(Excluded);
      if (entities[r.source].role.Routing? && r.selector) || r.target.None? || IsDeclined(decisions, r.id) {
        connectionStatus := connectionStatus[r.id := Excluded];
        return;
      }
      var target := Reached(entities, w.routes, r.target.value);
      if !entities[target].role.Component? {
        connectionStatus := connectionStatus[r.id := Excluded];
        return;
      }
      if r.source !in nodes || target !in nodes {
        var waiting := (r.source in nodes || r.source in pending) && (target in nodes || target in pending);
        step := Out(if waiting then NeedsReview else Excluded);
        connectionStatus := connectionStatus[r.id := step.status];
        return;
      }
      var kind := ConnectionKindOf(decisions, r);
      if kind.None? {
        step := Out(NeedsReview);
        connectionStatus := connectionStatus[r.id := NeedsReview];
        return;
      }
      var signature := Signature(r.source, target, kind.value);
      if signature in seen {
        connectionStatus := connectionStatus[r.id := Excluded];
        return;
      }
      seen' := seen + {signature};
      if target == r.source {
        step := Refused;
        return;
      }
      step := In(Connection(r.id, r.source, target, kind.value));
      connectionStatus := connectionStatus[r.id := Included];
    }
  }

  // --- the whole proposal --------------------------------------------------------------------------

  /**
   * The proposal fails on a connection of a node with itself, or gives its elements and what became of each
   * candidate.
   */
  datatype Outcome =
    | SelfConnection
    | Proposed(nodes: map<Id, Node>, connections: map<Id, Connection>, nodeStatus: map<Id, Status>,
        connectionStatus: map<Id, Status>)

  ghost predicate NodesAre(rules: Rules, decisions: map<Id, Decision>, entities: map<Id, Entity>, done: set<Id>,
                           nodes: map<Id, Node>, nodeStatus: map<Id, Status>) {
    && done <= entities.Keys && nodeStatus.Keys == done
    && (forall k :: k in done ==> (nodeStatus[k] == Included <==> k in nodes))
    && (forall k :: k in done ==> (nodeStatus[k] == NeedsReview <==> Waits(decisions, entities[k])))
    && (forall k :: k in nodes <==> k in done && Becomes(rules, decisions, entities[k]))
    && (forall k :: k in nodes ==>
          KindOf(decisions, entities[k]).Some?
              && nodes[k] == NodeOf(rules, decisions, entities[k], KindOf(decisions, entities[k]).value))
  }

  ghost predicate ProposedBy(w: Wiring, rs: seq<Relationship>, n: int, id: Id) {
    exists j :: 0 <= j < n && j < |rs| && rs[j].id == id && Proposes(w, rs, j)
  }

  /** The connections of the first `n` relationships. */
  ghost predicate ConnectionsAre(w: Wiring, rs: seq<Relationship>, n: int, connections: map<Id, Connection>) {
    && (forall id :: id in connections <==> ProposedBy(w, rs, n, id))
    && (forall j :: 0 <= j < n && j < |rs| && Proposes(w, rs, j) ==>
          rs[j].id in connections && connections[rs[j].id] == ConnectionOf(w, rs[j]) && !ToItself(w, rs[j]))
  }

  /** What became of the first `n` relationships. */
  ghost predicate StatusesAre(w: Wiring, rs: seq<Relationship>, n: int, connections: map<Id, Connection>,
      status: map<Id, Status>) {
    && (forall j :: 0 <= j < n && j < |rs| ==> rs[j].id in status)
    && (forall id :: id in status ==> (status[id] == Included <==> id in connections))
    && (forall j :: 0 <= j < n && j < |rs| && rs[j].id in status ==>
        (status[rs[j].id] == NeedsReview <==> Awaits(w, rs[j])))
  }

  ghost predicate Seen(w: Wiring, rs: seq<Relationship>, n: int, seen: set<Signature>) {
    && (forall i, g :: 0 <= i < n && Signs(w, rs, i, g) ==> g in seen)
    && (forall g :: g in seen ==> exists i :: 0 <= i < n && Signs(w, rs, i, g))
  }

  function WiringOf(run: Run, decisions: map<Id, Decision>, nodes: map<Id, Node>): Wiring {
    Wiring(run.entities, decisions, nodes, Routes(ById(run.relationships), run.entities))
  }

  /** What a proposal says, relationships taken by id. */
  ghost predicate IsProposal(rules: Rules, decisions: map<Id, Decision>, run: Run, o: Outcome) {
    var rs := ById(run.relationships);
    && o.Proposed?
    && NodesAre(rules, decisions, run.entities, run.entities.Keys, o.nodes, o.nodeStatus)
    && ConnectionsAre(WiringOf(run, decisions, o.nodes), rs, |rs|, o.connections)
    && StatusesAre(WiringOf(run, decisions, o.nodes), rs, |rs|, o.connections, o.connectionStatus)
  }

  lemma NodesNext(rules: Rules, decisions: map<Id, Decision>, entities: map<Id, Entity>, done: set<Id>,
                  nodes: map<Id, Node>, nodeStatus: map<Id, Status>, k: Id)
    requires NodesAre(rules, decisions, entities, done, nodes, nodeStatus) && k in entities && k !in done
    requires entities[k].key == k
    ensures var e := entities[k];
            NodesAre(rules, decisions, entities, done + {k},
                     if Becomes(rules, decisions, e) then
                         nodes[k := NodeOf(rules, decisions, e, KindOf(decisions, e).value)] else nodes,
                     nodeStatus[k := if Becomes(rules, decisions, e) then Included
                                     else if Waits(decisions, e) then NeedsReview else Excluded])
  {
    hide NodeOf;
  }

  lemma ProposesUnseen(w: Wiring, rs: seq<Relationship>, n: nat, seen: set<Signature>)
    requires n < |rs| && Seen(w, rs, n, seen)
    ensures Proposes(w, rs, n) <==> Eligible(w, rs[n]) && SignatureOf(w, rs[n]) !in seen
  {
    hide Eligible, SignatureOf;
  }

  lemma SeenNext(w: Wiring, rs: seq<Relationship>, n: nat, seen: set<Signature>)
    requires n < |rs| && Seen(w, rs, n, seen)
    ensures Seen(w, rs, n + 1, if Eligible(w, rs[n]) then seen + {SignatureOf(w, rs[n])} else seen)
  {
    hide Eligible, SignatureOf;
    var after := if Eligible(w, rs[n]) then seen + {SignatureOf(w, rs[n])} else seen;
    forall g | g in after
      ensures exists i :: 0 <= i < n + 1 && Signs(w, rs, i, g)
    {
      if g !in seen {
        assert Signs(w, rs, n, g);
      }
    }
  }

  function After(w: Wiring, rs: seq<Relationship>, n: nat, connections: map<Id, Connection>, step: Step): map<Id,
      Connection>
  {
    if step.In? then connections[step.connection.id := step.connection] else connections
  }

  lemma ConnectionsNext(w: Wiring, rs: seq<Relationship>, n: nat, connections: map<Id, Connection>, step: Step)
    requires n < |rs| && Identified(rs) && ConnectionsAre(w, rs, n, connections)
    requires Proposes(w, rs, n) ==> !ToItself(w, rs[n]) && step == In(ConnectionOf(w, rs[n]))
    requires !Proposes(w, rs, n) ==> step.Out?
    ensures ConnectionsAre(w, rs, n + 1, After(w, rs, n, connections, step))
  {
    hide Proposes, ToItself;
    ProposesEligible(w, rs);
    var after := After(w, rs, n, connections, step);
    forall id
      ensures id in after <==> ProposedBy(w, rs, n + 1, id)
    {
      ProposedNext(w, rs, n, id);
    }
    forall j | 0 <= j < n && Proposes(w, rs, j)
      ensures rs[j].id in after && after[rs[j].id] == ConnectionOf(w, rs[j])
    {
      assert rs[j].id != rs[n].id;
    }
  }

  lemma ProposesEligible(w: Wiring, rs: seq<Relationship>)
    ensures forall n :: Proposes(w, rs, n) ==> 0 <= n < |rs| && Eligible(w, rs[n])
  {
  }

  lemma ProposedNext(w: Wiring, rs: seq<Relationship>, n: nat, id: Id)
    requires n < |rs|
    ensures ProposedBy(w, rs, n + 1, id) <==> ProposedBy(w, rs, n, id) || (rs[n].id == id && Proposes(w, rs, n))
  {
    hide Proposes;
  }

  lemma StatusNext(w: Wiring, rs: seq<Relationship>, n: nat, connections: map<Id, Connection>, status: map<Id,
      Status>, step: Step)
    requires n < |rs| && StatusesAre(w, rs, n, connections, status) && !step.Refused?
    requires rs[n].id !in connections && Identified(rs)
    requires step.In? ==> step.connection.id == rs[n].id && Eligible(w, rs[n])
    requires step.Out? ==> step.status == if Awaits(w, rs[n]) then NeedsReview else Excluded
    ensures StatusesAre(w, rs, n + 1, After(w, rs, n, connections, step),
            status[rs[n].id := if step.In? then Included else step.status])
  {
    hide Awaits;
    EligibleAwaitsNothing(w, rs[n]);
    assert forall j :: 0 <= j < n ==> rs[j].id != rs[n].id;
  }

  lemma EligibleAwaitsNothing(w: Wiring, r: Relationship)
    ensures !(Eligible(w, r) && Awaits(w, r))
  {
  }

  lemma NotYet(w: Wiring, rs: seq<Relationship>, n: nat, connections: map<Id, Connection>)
    requires n < |rs| && Identified(rs) && ConnectionsAre(w, rs, n, connections)
    ensures rs[n].id !in connections
  {
    hide Proposes;
  }

  lemma ByIdIdentified(run: Run)
    requires ValidRun(run)
    ensures Identified(ById(run.relationships))
    ensures forall r :: r in ById(run.relationships) ==> Joins(run.entities, r)
    ensures LeadKnown(run.entities, Routes(ById(run.relationships), run.entities))
  {
    hide Routes;
    ByIdAscending(run.relationships);
    var routes := Routes(ById(run.relationships), run.entities);
    forall s | s in routes
      ensures routes[s] in run.entities
    {
      var r :| r in ById(run.relationships) && Selects(run.entities, r) && r.source == s && r.target == Some(routes[s]);
      assert Joins(run.entities, r);
    }
  }

  lemma NoNodes(rules: Rules, decisions: map<Id, Decision>, entities: map<Id, Entity>)
    ensures NodesAre(rules, decisions, entities, {}, map[], map[])
  {
  }

  lemma NoConnections(w: Wiring, rs: seq<Relationship>)
    ensures ConnectionsAre(w, rs, 0, map[]) && StatusesAre(w, rs, 0, map[], map[]) && Seen(w, rs, 0, {})
  {
  }

  method AddNodes(b: Builder)
    requires forall k :: k in b.entities ==> b.entities[k].key == k
    requires b.nodes == map[] && b.nodeStatus == map[] && b.connectionStatus == map[]
    requires b.pending == {}
    modifies b
    ensures NodesAre(b.rules, b.decisions, b.entities, b.entities.Keys, b.nodes, b.nodeStatus)
    ensures b.connectionStatus == map[] && b.pending == Pending(b.decisions, b.entities)
  {
    hide NodesAre, Becomes, NodeOf, Waits, KindOf, PendingAmong;
    NothingPending(b.decisions, b.entities);
    ghost var ids := b.entities.Keys;
    var order := InOrder(b.entities.Keys);
    NoNodes(b.rules, b.decisions, b.entities);
    Visited(ids);
    for i := 0 to |order|
      invariant NodesAre(b.rules, b.decisions, b.entities, Members(order[..i]), b.nodes, b.nodeStatus)
      invariant b.connectionStatus == map[]
      invariant PendingAmong(b.decisions, b.entities, Members(order[..i]), b.pending)
    {
      Visit(ids, i);
      NodesNext(b.rules, b.decisions, b.entities, Members(order[..i]), b.nodes, b.nodeStatus, order[i]);
      PendingNext(b.decisions, b.entities, Members(order[..i]), b.pending, order[i]);
      b.AddNode(b.entities[order[i]]);
    }
    AllPending(b.decisions, b.entities, b.pending);
  }

  ghost predicate PendingAmong(decisions: map<Id, Decision>, entities: map<Id, Entity>, done: set<Id>,
      pending: set<Id>) {
    forall k :: k in pending <==> k in done && k in entities && Waits(decisions, entities[k])
  }

  lemma PendingNext(decisions: map<Id, Decision>, entities: map<Id, Entity>, done: set<Id>, pending: set<Id>, k: Id)
    requires PendingAmong(decisions, entities, done, pending) && k in entities
    ensures PendingAmong(decisions, entities, done + {k}, if Waits(decisions, entities[k]) then pending + {k}
            else pending)
  {
    hide Waits;
  }

  lemma NothingPending(decisions: map<Id, Decision>, entities: map<Id, Entity>)
    ensures PendingAmong(decisions, entities, {}, {})
  {
  }

  lemma AllPending(decisions: map<Id, Decision>, entities: map<Id, Entity>, pending: set<Id>)
    requires PendingAmong(decisions, entities, entities.Keys, pending)
    ensures pending == Pending(decisions, entities)
  {
    hide Waits;
    SubsetOf(pending, Pending(decisions, entities));
    SubsetOf(Pending(decisions, entities), pending);
  }

  /** The relationships' connections, unless one would join a node with itself. */
  method AddConnections(b: Builder, w: Wiring, rs: seq<Relationship>)
    returns (connections: map<Id, Connection>, refused: bool)
    requires Identified(rs) && (forall r :: r in rs ==> Joins(b.entities, r)) && LeadKnown(b.entities, w.routes)
    requires w == Wiring(b.entities, b.decisions, b.nodes, w.routes) && b.connectionStatus == map[]
    requires b.pending == Pending(b.decisions, b.entities)
    modifies b`connectionStatus
    ensures refused <==> exists j :: SelfProposed(w, rs, j)
    ensures !refused ==>
            ConnectionsAre(w, rs, |rs|, connections) && StatusesAre(w, rs, |rs|, connections, b.connectionStatus)
  {
    hide ConnectionsAre, StatusesAre, Seen, Proposes, SignatureOf, Eligible, ToItself, LeadKnown, Awaits, Pending;
    connections, refused := map[], false;
    var seen := {};
    NoConnections(w, rs);
    for n := 0 to |rs|
      invariant ConnectionsAre(w, rs, n, connections) && StatusesAre(w, rs, n, connections, b.connectionStatus)
      invariant Seen(w, rs, n, seen)
    {
      assert rs[n] in rs;
      ProposesUnseen(w, rs, n, seen);
      NotYet(w, rs, n, connections);
      SeenNext(w, rs, n, seen);
      ghost var status := b.connectionStatus;
      var step;
      step, seen := b.AddConnection(rs[n], w, seen);
      if step.Refused? {
        assert SelfProposed(w, rs, n);
        refused := true;
        return;
      }
      ConnectionsNext(w, rs, n, connections, step);
      StatusNext(w, rs, n, connections, status, step);
      connections := After(w, rs, n, connections, step);
    }
    NoneToItself(w, rs, connections);
  }

  lemma NoneToItself(w: Wiring, rs: seq<Relationship>, connections: map<Id, Connection>)
    requires ConnectionsAre(w, rs, |rs|, connections)
    ensures forall j :: !SelfProposed(w, rs, j)
  {
  }

  /** With these nodes, it fails exactly when some relationship would join a node with itself. */
  ghost predicate Decided(run: Run, decisions: map<Id, Decision>, nodes: map<Id, Node>, o: Outcome) {
    && (o.SelfConnection? <==> exists j :: SelfProposed(WiringOf(run, decisions, nodes), ById(run.relationships), j))
    && (o.Proposed? ==> o.nodes == nodes)
  }

  /** Every entity by key, then every relationship by id. */
  method Propose(rules: Rules, decisions: map<Id, Decision>, run: Run) returns (o: Outcome)
    requires ValidRun(run)
    ensures exists nodes, status ::
            NodesAre(rules, decisions, run.entities, run.entities.Keys, nodes, status)
            && Decided(run, decisions, nodes, o)
    ensures o.Proposed? ==> IsProposal(rules, decisions, run, o)
  {
    hide NodesAre, ConnectionsAre, StatusesAre, SelfProposed, ById, Routes, Joins, Identified, LeadKnown;
    var b := new Builder(rules, decisions, run.entities);
    AddNodes(b);
    ghost var nodes := b.nodes;
    ByIdIdentified(run);
    var rs := ById(run.relationships);
    var w := Wiring(run.entities, decisions, b.nodes, Routes(rs, run.entities));
    assert w == WiringOf(run, decisions, nodes);
    var connections, refused := AddConnections(b, w, rs);
    assert refused <==> exists j :: SelfProposed(WiringOf(run, decisions, nodes), ById(run.relationships), j);
    o := if refused then SelfConnection else Proposed(b.nodes, connections, b.nodeStatus, b.connectionStatus);
    assert Decided(run, decisions, b.nodes, o);
  }
}
