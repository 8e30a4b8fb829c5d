/** The differences between a baseline and a run, from their matching. */
module Comparison {
  import opened Options
  import opened Reachability
  import opened Ordered
  import opened Discovery
  import Proposal
  import NodeMatching
  import ConnectionMatching

  type Rules = Proposal.Rules
  type NodeMatch = NodeMatching.NodeMatch
  type ConnectionMatch = ConnectionMatching.ConnectionMatch

  datatype Field =
    | KindField | ComponentField | TechnologyField | Property(name: Id) | UnknownField | ExtraField(path: Id)

  /** What is reported: removals, additions, values that differ, and what could not be decided. */
  datatype Difference =
    | NodeRemoved(id: Id) | NodeAdded(id: Id) | NodeUnclear(baseline: Option<Id>, key: Option<Id>)
    | Unreadable(id: Id, property: Id) | Incomparable(id: Id) | FieldDiffers(id: Id, field: Field)
    | ConnectionRemoved(id: Id) | ConnectionAdded(pair: Pair, references: set<Id>)
        | ConnectionUnclear(connection: Option<Id>, pair: Pair)
    | KindDiffers(id: Id)

  // --- what the source declares of a node ----------------------------------------------------------

  /** The mapping of each property: the last one given, usable or not. */
  function Stated(mappings: seq<PropertyMapping>): map<Id, PropertyMapping> {
    if mappings == [] then map[]
    else
      var last := mappings[|mappings| - 1];
      Stated(mappings[..|mappings| - 1])[last.property := last]
  }

  /** The value of one property once what the source can and does state is applied. */
  function DeclaredAt(rules: Rules, node: Node, e: Entity, name: Id): Option<int> {
    var held := if name in node.configuration then Some(node.configuration[name]) else None;
    var stated := Stated(e.configuration);
    if !rules.declarable(e.source, name) then held
    else if name !in stated then None
    else if !stated[name].valid || stated[name].value.None? then held
    else stated[name].value
  }

  predicate IsUnreadable(rules: Rules, node: Node, e: Entity, name: Id) {
    var stated := Stated(e.configuration);
    rules.declarable(e.source, name) && name in stated && (!stated[name].valid || stated[name].value.None?)
  }

  function Names(node: Node, e: Entity): set<Id> {
    node.configuration.Keys + Stated(e.configuration).Keys
  }

  ghost predicate DeclaredSoFar(rules: Rules, node: Node, e: Entity, done: set<Id>, values: map<Id, int>,
      unreadable: set<Id>) {
    && (forall name :: name in done ==>
          (name in values <==> DeclaredAt(rules, node, e, name).Some?)
          && (name in values && DeclaredAt(rules, node, e, name).Some? ==>
              values[name] == DeclaredAt(rules, node, e, name).value))
    && (forall name :: name !in done ==>
          (name in values <==> name in node.configuration)
          && (name in values && name in node.configuration ==> values[name] == node.configuration[name]))
    && (forall name :: name in unreadable <==> name in done && IsUnreadable(rules, node, e, name))
  }

  /** One property compared: left as held, dropped, or set to what is declared. */
  method DeclareOne(rules: Rules, node: Node, e: Entity, stated: map<Id, PropertyMapping>, name: Id,
                    values: map<Id, int>, unreadable: set<Id>, ghost done: set<Id>)
    returns (values': map<Id, int>, unreadable': set<Id>)
    requires DeclaredSoFar(rules, node, e, done, values, unreadable) && name !in done
    requires stated == Stated(e.configuration)
    ensures DeclaredSoFar(rules, node, e, done + {name}, values', unreadable')
  {
    hide Stated;
    values', unreadable' := values, unreadable;
    if rules.declarable(e.source, name) {
      if name !in stated {
        values' := map x | x in values && x != name :: values[x];
      } else if !stated[name].valid || stated[name].value.None? {
        unreadable' := unreadable + {name};
      } else {
        values' := values[name := stated[name].value.value];
      }
    }
  }

  /** The node's configuration once everything the source can and does state is applied. */
  function DeclaredConfiguration(rules: Rules, node: Node, e: Entity): map<Id, int> {
    map name | name in Names(node, e) && DeclaredAt(rules, node, e, name).Some? ::
        DeclaredAt(rules, node, e, name).value
  }

  function UnreadableOf(rules: Rules, node: Node, e: Entity): set<Id> {
    set name | name in Names(node, e) && IsUnreadable(rules, node, e, name)
  }

  lemma AllDeclared(rules: Rules, node: Node, e: Entity, values: map<Id, int>, unreadable: set<Id>)
    requires DeclaredSoFar(rules, node, e, Names(node, e), values, unreadable)
    ensures values == DeclaredConfiguration(rules, node, e) && unreadable == UnreadableOf(rules, node, e)
  {
    hide DeclaredAt, Stated, IsUnreadable;
    assert forall name :: name in values <==> name in DeclaredConfiguration(rules, node, e);
    assert forall name :: name in unreadable <==> name in UnreadableOf(rules, node, e);
    SubsetOf(unreadable, UnreadableOf(rules, node, e));
    SubsetOf(UnreadableOf(rules, node, e), unreadable);
  }

  method DeclaredValues(rules: Rules, node: Node, e: Entity) returns (values: map<Id, int>, unreadable: set<Id>)
    ensures values == DeclaredConfiguration(rules, node, e) && unreadable == UnreadableOf(rules, node, e)
  {
    hide *;
    values, unreadable := node.configuration, {};
    var stated := Stated(e.configuration);
    ghost var names := Names(node, e);
    var order := InOrder(Names(node, e));
    Visited(names);
    NothingDeclared(rules, node, e);
    for i := 0 to |order|
      invariant DeclaredSoFar(rules, node, e, Members(order[..i]), values, unreadable)
    {
      Visit(names, i);
      values, unreadable := DeclareOne(rules, node, e, stated, order[i], values, unreadable, Members(order[..i]));
    }
    AllDeclared(rules, node, e, values, unreadable);
  }

  lemma NothingDeclared(rules: Rules, node: Node, e: Entity)
    ensures DeclaredSoFar(rules, node, e, {}, node.configuration, {})
  {
  }

  /** Only what the source states: an unstated version is unknown, not removed. */
  function DeclaredTechnology(rules: Rules, node: Node, e: Entity): Option<Technology> {
    if e.technology.None? then node.technology
    else
      var version := if e.version.Some? then e.version else if node.technology.Some? then node.technology.value.version
          else None;
      if rules.technology(Technology(e.technology.value, version)) then Some(Technology(e.technology.value, version))
      else node.technology
  }

  /**
   * The baseline node holding what the source declares: values alone, its unknown and unrecognised settings
   * dropped.
   */
  function Declared(rules: Rules, node: Node, e: Entity): Node {
    node.(kind := if e.kind.Some? then e.kind.value else node.kind,
          component := if e.mapped.Some? then e.mapped else node.component,
          technology := DeclaredTechnology(rules, node, e),
          configuration := DeclaredConfiguration(rules, node, e), unknown := {}, extra := map[])
  }

  function FieldsDiffering(a: Node, b: Node): set<Field> {
    (if a.kind != b.kind then {KindField} else {})
    + (if a.component != b.component then {ComponentField} else {})
    + (if a.technology != b.technology then {TechnologyField} else {})
    + (set p | p in a.configuration.Keys + b.configuration.Keys
         && !(p in a.configuration && p in b.configuration && a.configuration[p] == b.configuration[p]) :: Property(p))
    + (if a.unknown != b.unknown then {UnknownField} else {})
    + (set p | p in a.extra.Keys + b.extra.Keys
         && !(p in a.extra && p in b.extra && a.extra[p] == b.extra[p]) :: ExtraField(p))
  }

  /** The differences of a node from the entity it matched. */
  function NodeDifferences(rules: Rules, node: Node, e: Entity): set<Difference> {
    var declared := Declared(rules, node, e);
    if !rules.node(declared) then {Incomparable(node.id)}
    else
      (set p | p in UnreadableOf(rules, node, e) :: Unreadable(node.id, p))
      + (set f | f in FieldsDiffering(node, declared) :: FieldDiffers(node.id, f))
  }

  method CompareNode(rules: Rules, node: Node, e: Entity) returns (found: set<Difference>)
    ensures found == NodeDifferences(rules, node, e)
  {
    hide DeclaredConfiguration, UnreadableOf, FieldsDiffering;
    var values, unreadable := DeclaredValues(rules, node, e);
    var declared := node.(kind := if e.kind.Some? then e.kind.value else node.kind,
                          component := if e.mapped.Some? then e.mapped else node.component,
                          technology := DeclaredTechnology(rules, node, e),
                          configuration := values, unknown := {}, extra := map[]);
    if !rules.node(declared) {
      return {Incomparable(node.id)};
    }
    found := set p | p in unreadable :: Unreadable(node.id, p);
    found := found + set f | f in FieldsDiffering(node, declared) :: FieldDiffers(node.id, f);
  }

  /**
   * Whatever the source can express, a matched node that can be compared is reported for its unknown properties
   * exactly when it has any, and for an unrecognised setting exactly when it has it.
   */
  lemma DroppedExactly(rules: Rules, node: Node, e: Entity, path: Id)
    ensures FieldDiffers(node.id, UnknownField) in NodeDifferences(rules, node, e) <==>
            node.unknown != {} && rules.node(Declared(rules, node, e))
    ensures FieldDiffers(node.id, ExtraField(path)) in NodeDifferences(rules, node, e) <==>
            path in node.extra && rules.node(Declared(rules, node, e))
  {
    hide DeclaredConfiguration, DeclaredTechnology, UnreadableOf;
    var declared := Declared(rules, node, e);
    assert declared.unknown == {} && declared.extra == map[];
    assert UnknownField in FieldsDiffering(node, declared) <==> node.unknown != {};
    assert ExtraField(path) in FieldsDiffering(node, declared) <==> path in node.extra;
  }

  // --- every match ---------------------------------------------------------------------------------

  /** A node match compared: the values of a matched pair, or that one side is missing or undecided. */
  function OfNodeMatch(rules: Rules, nodes: map<Id, Node>, entities: map<Id, Entity>, m: NodeMatch): set<Difference> {
    var node := m.baseline.Some? && m.baseline.value in nodes;
    var entity := m.key.Some? && m.key.value in entities;
    if NodeMatching.IsMatched(m) && node && entity then
        NodeDifferences(rules, nodes[m.baseline.value], entities[m.key.value])
    else if m.how.Ambiguous? then
      // a node with the entity's id states the same ambiguity, with its candidates
      if m.baseline.None? && m.key.Some? && m.key.value in nodes then {} else {NodeUnclear(m.baseline, m.key)}
    else if node then {NodeRemoved(m.baseline.value)}
    else if entity then {NodeAdded(m.key.value)}
    else {}
  }

  function KindsStated(kinds: map<Id, Option<Id>>, group: set<Id>): set<Id> {
    set r | r in group && r in kinds && kinds[r].Some? :: kinds[r].value
  }

  function OfConnectionMatch(connections: map<Id, Connection>, kinds: map<Id, Option<Id>>,
      m: ConnectionMatch): set<Difference> {
    var group := m.relationships * kinds.Keys;
    var connection := m.baseline.Some? && m.baseline.value in connections;
    var stated := KindsStated(kinds, group);
    if connection && (m.how.SameId? || m.how.BySignature?) then
      if stated == {} || connections[m.baseline.value].kind in stated then {} else {KindDiffers(m.baseline.value)}
    else if m.how.Ambiguous? then {ConnectionUnclear(m.baseline, m.pair)}
    else if connection then {ConnectionRemoved(m.baseline.value)}
    else if group == {} then {}
    else {ConnectionAdded(m.pair, group)}
  }

  ghost predicate FromNodes(rules: Rules, nodes: map<Id, Node>, entities: map<Id, Entity>, matches: seq<NodeMatch>,
      n: int, d: Difference) {
    exists i :: 0 <= i < n && i < |matches| && d in OfNodeMatch(rules, nodes, entities, matches[i])
  }

  method CompareNodes(rules: Rules, nodes: map<Id, Node>, entities: map<Id, Entity>,
      matches: seq<NodeMatch>) returns (found: set<Difference>)
    ensures forall d :: d in found <==> FromNodes(rules, nodes, entities, matches, |matches|, d)
  {
    hide NodeDifferences;
    found := {};
    for i := 0 to |matches|
      invariant forall d :: d in found <==> FromNodes(rules, nodes, entities, matches, i, d)
    {
      var m, more := matches[i], {};
      var node := m.baseline.Some? && m.baseline.value in nodes;
      var entity := m.key.Some? && m.key.value in entities;
      if NodeMatching.IsMatched(m) && node && entity {
        more := CompareNode(rules, nodes[m.baseline.value], entities[m.key.value]);
      } else if m.how.Ambiguous? {
        if !(m.baseline.None? && m.key.Some? && m.key.value in nodes) {
          more := {NodeUnclear(m.baseline, m.key)};
        }
      } else if node {
        more := {NodeRemoved(m.baseline.value)};
      } else if entity {
        more := {NodeAdded(m.key.value)};
      }
      assert more == OfNodeMatch(rules, nodes, entities, m);
      FromNodesNext(rules, nodes, entities, matches, i);
      found := found + more;
    }
  }

  lemma FromNodesNext(rules: Rules, nodes: map<Id, Node>, entities: map<Id, Entity>, matches: seq<NodeMatch>, n: int)
    requires 0 <= n < |matches|
    ensures forall d :: FromNodes(rules, nodes, entities, matches, n + 1, d) <==>
                        FromNodes(rules, nodes, entities, matches, n, d)
                            || d in OfNodeMatch(rules, nodes, entities, matches[n])
  {
    hide OfNodeMatch;
  }

  ghost predicate FromConnections(connections: map<Id, Connection>, kinds: map<Id, Option<Id>>,
      matches: seq<ConnectionMatch>, n: int, d: Difference) {
    exists i :: 0 <= i < n && i < |matches| && d in OfConnectionMatch(connections, kinds, matches[i])
  }

  method CompareConnections(connections: map<Id, Connection>, kinds: map<Id, Option<Id>>,
      matches: seq<ConnectionMatch>) returns (found: set<Difference>)
    ensures forall d :: d in found <==> FromConnections(connections, kinds, matches, |matches|, d)
  {
    hide OfConnectionMatch;
    found := {};
    for i := 0 to |matches|
      invariant forall d :: d in found <==> FromConnections(connections, kinds, matches, i, d)
    {
      found := found + OfConnectionMatch(connections, kinds, matches[i]);
    }
  }

  // --- a baseline against a run --------------------------------------------------------------------

  function SidesOf(nodes: map<Id, Node>, run: Run, mappings: map<Id, Id>, excluded: set<Id>): NodeMatching.Sides {
    NodeMatching.Sides(
      map b | b in nodes && b !in excluded :: nodes[b].place,
      map k | k in run.entities && k !in excluded && run.entities[k].role.Component? :: run.entities[k].place,
      mappings)
  }

  function Without(rs: seq<Relationship>, excluded: set<Id>): (s: seq<Relationship>)
    ensures forall r :: r in s <==> r in rs && r.id !in excluded
    ensures Identified(rs) ==> Identified(s)
  {
    if rs == [] then []
    else
      assert rs == [rs[0]] + rs[1..];
      var s := Without(rs[1..], excluded);
      assert Identified(rs) ==> Identified(rs[1..]);
      assert Identified(rs) ==> forall j :: 0 <= j < |s| ==> s[j] in rs[1..] && s[j].id != rs[0].id;
      if rs[0].id in excluded then s else [rs[0]] + s
  }

  function KindsOf(rs: seq<Relationship>): (m: map<Id, Option<Id>>)
    ensures forall id :: id in m ==> exists r :: r in rs && r.id == id && m[id] == r.kind
    ensures forall r :: r in rs ==> r.id in m
  {
    if rs == [] then map[]
    else
      var last := rs[|rs| - 1];
      assert rs == rs[..|rs| - 1] + [last];
      KindsOf(rs[..|rs| - 1])[last.id := last.kind]
  }

  /** What matching a baseline with a run leads to. */
  datatype Reading = Reading(nodes: seq<NodeMatch>, links: ConnectionMatching.Links, connections: seq<ConnectionMatch>)

  ghost predicate IsReading(nodes: map<Id, Node>, connections: map<Id, Connection>, run: Run, mappings: map<Id, Id>,
                            excluded: set<Id>, g: Reading) {
    var rs := Without(run.relationships, excluded);
    && NodeMatching.Matches(SidesOf(nodes, run, mappings, excluded), g.nodes)
    && ConnectionMatching.RefsAre(run.entities, Routes(rs, run.entities), ConnectionMatching.BaselineOf(g.nodes), rs,
        |rs|, g.links.refs)
    && g.links.connections == (map c | c in connections && c !in excluded :: connections[c])
    && ConnectionMatching.Matched(g.links, g.connections)
  }

  ghost predicate Reported(rules: Rules, nodes: map<Id, Node>, connections: map<Id, Connection>, run: Run,
      g: Reading, d: Difference) {
    FromNodes(rules, nodes, run.entities, g.nodes, |g.nodes|, d)
    || FromConnections(connections, KindsOf(run.relationships), g.connections, |g.connections|, d)
  }

  /** Every difference of a run from a baseline. */
  method Differences(rules: Rules, nodes: map<Id, Node>, connections: map<Id, Connection>, run: Run,
      mappings: map<Id, Id>,
                     excluded: set<Id>) returns (found: set<Difference>)
    requires ValidRun(run)
    ensures exists g :: IsReading(nodes, connections, run, mappings, excluded, g)
              && forall d :: d in found <==> Reported(rules, nodes, connections, run, g, d)
  {
    hide NodeMatching.Matches, ConnectionMatching.RefsAre, ConnectionMatching.Matched, FromNodes, FromConnections;
    var matches := NodeMatching.MatchNodes(SidesOf(nodes, run, mappings, excluded));
    var rs := Without(run.relationships, excluded);
    var refs := ConnectionMatching.Endpoints(run.entities, ConnectionMatching.BaselineOf(matches), rs);
    var links := ConnectionMatching.Links(map c | c in connections && c !in excluded :: connections[c], refs);
    var joined := ConnectionMatching.MatchConnections(links);
    ghost var g := Reading(matches, links, joined);
    assert IsReading(nodes, connections, run, mappings, excluded, g);
    var ofNodes := CompareNodes(rules, nodes, run.entities, matches);
    var ofConnections := CompareConnections(connections, KindsOf(run.relationships), joined);
    found := ofNodes + ofConnections;
  }
}
