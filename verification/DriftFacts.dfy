/** A proposal compared with the run it came from: what is reported, exactly. */
module DriftFacts {
  import opened Options
  import opened Reachability
  import opened Discovery
  import opened Proposal
  import opened NodeMatching
  import C = ConnectionMatching
  import opened Comparison

  // --- when a proposal fails -----------------------------------------------------------------------

  lemma FirstSigned(w: Wiring, rs: seq<Relationship>, i: nat, g: Signature) returns (j: nat)
    requires Signs(w, rs, i, g)
    ensures j <= i && Signs(w, rs, j, g) && Proposes(w, rs, j)
    decreases i
  {
    hide Eligible, SignatureOf;
    if k :| 0 <= k < i && Signs(w, rs, k, g) {
      j := FirstSigned(w, rs, k, g);
    } else {
      j := i;
    }
  }

  /**
   * A proposal fails exactly when a reference of one of its nodes goes through a service back to that node,
   * and nothing but the same connection proposed before keeps it out.
   */
  lemma FailsExactly(w: Wiring, rs: seq<Relationship>)
    ensures (exists j :: SelfProposed(w, rs, j)) <==>
            exists i :: 0 <= i < |rs| && Eligible(w, rs[i]) && ToItself(w, rs[i])
  {
    hide Eligible;
    if i :| 0 <= i < |rs| && Eligible(w, rs[i]) && ToItself(w, rs[i]) {
      EligibleTarget(w, rs[i]);
      var j := FirstSigned(w, rs, i, SignatureOf(w, rs[i]));
      EligibleTarget(w, rs[j]);
      assert SelfProposed(w, rs, j);
    }
    if j :| SelfProposed(w, rs, j) {
      assert Eligible(w, rs[j]) && ToItself(w, rs[j]);
    }
  }

  lemma EligibleTarget(w: Wiring, r: Relationship)
    requires Eligible(w, r)
    ensures r.target.Some?
  {
  }

  /** Only a service's route leads back: the relationship itself names another entity. */
  lemma BackThroughService(run: Run, w: Wiring, r: Relationship)
    requires ValidRun(run) && r in run.relationships && w.entities == run.entities && ToItself(w, r)
    ensures r.target.value in w.routes && w.entities[r.target.value].role.Routing?
    ensures w.routes[r.target.value] == r.source
  {
    assert Joins(run.entities, r);
  }

  // --- nodes ---------------------------------------------------------------------------------------

  lemma {:induction false} StatedValue(mappings: seq<PropertyMapping>, p: Id)
    ensures p !in Stated(mappings) ==> p !in ConfigurationOf(mappings)
    ensures p in Stated(mappings) && Stated(mappings)[p].valid && Stated(mappings)[p].value.Some? ==>
              p in ConfigurationOf(mappings) && ConfigurationOf(mappings)[p] == Stated(mappings)[p].value.value
    decreases |mappings|
  {
    if mappings != [] {
      StatedValue(mappings[..|mappings| - 1], p);
    }
  }

  lemma SameConfiguration(rules: Rules, node: Node, e: Entity)
    requires node.configuration == ConfigurationOf(e.configuration)
    ensures DeclaredConfiguration(rules, node, e) == node.configuration
  {
    hide Stated, ConfigurationOf;
    forall p
      ensures p in DeclaredConfiguration(rules, node, e) <==> p in node.configuration
      ensures p in node.configuration ==> DeclaredAt(rules, node, e, p) == Some(node.configuration[p])
    {
      StatedValue(e.configuration, p);
      assert p in DeclaredConfiguration(rules, node, e) <==> p in Names(node, e) && DeclaredAt(rules, node, e, p).Some?;
    }
    assert forall p :: p in DeclaredConfiguration(rules, node, e) ==>
             DeclaredConfiguration(rules, node, e)[p] == DeclaredAt(rules, node, e, p).value;
  }

  lemma SameTechnology(rules: Rules, node: Node, e: Entity)
    requires node.technology == TechnologyOf(rules, e)
    ensures DeclaredTechnology(rules, node, e) == node.technology
  {
  }

  /** A reviewer chose another component than the confident mapping's, or one the catalog does not hold. */
  predicate Overridden(rules: Rules, decisions: map<Id, Decision>, e: Entity) {
    e.mapped.Some? && ComponentOf(rules, decisions, e) != e.mapped
  }

  /** What is reported of a proposed node: values that cannot be read, and a component a reviewer overrode. */
  lemma OwnNode(rules: Rules, decisions: map<Id, Decision>, e: Entity, d: Difference)
    requires Becomes(rules, decisions, e)
    ensures var node := NodeOf(rules, decisions, e, KindOf(decisions, e).value);
            d in NodeDifferences(rules, node, e) ==>
              d.id == e.key && ((d.Unreadable? && IsUnreadable(rules, node, e, d.property))
              || (Overridden(rules, decisions, e) && (d.Incomparable? || d == FieldDiffers(e.key, ComponentField))))
    ensures var node := NodeOf(rules, decisions, e, KindOf(decisions, e).value);
            Overridden(rules, decisions, e) ==>
              Incomparable(e.key) in NodeDifferences(rules, node, e)
                  || FieldDiffers(e.key, ComponentField) in NodeDifferences(rules, node, e)
  {
    hide Stated, ConfigurationOf, DeclaredConfiguration, TechnologyOf, DeclaredTechnology, IsUnreadable, ComponentOf;
    var node := NodeOf(rules, decisions, e, KindOf(decisions, e).value);
    SameConfiguration(rules, node, e);
    SameTechnology(rules, node, e);
    var declared := Declared(rules, node, e);
    assert declared == node.(component := declared.component);
    if Overridden(rules, decisions, e) {
      assert FieldsDiffering(node, declared) == {ComponentField};
    } else {
      assert declared == node;
      assert FieldsDiffering(node, declared) == {};
    }
  }

  lemma OwnClaims(rules: Rules, decisions: map<Id, Decision>, run: Run, o: Outcome, mappings: map<Id, Id>, k: Id)
    requires o.Proposed? && ValidRun(run) && IsProposal(rules, decisions, run, o)
    ensures var s := SidesOf(o.nodes, run, mappings, {});
            && s.nodes.Keys == o.nodes.Keys && Claimants(s, k) == (if k in o.nodes then {k} else {})
            && (k in o.nodes ==> k in s.entities && OfNode(s, k) == NodeMatch(Some(k), Some(k), SameId, {}))
            && !IsLost(s, k)
  {
    hide ConnectionsAre, StatusesAre, ById, NodeOf;
    var s := SidesOf(o.nodes, run, mappings, {});
    forall b | b in s.nodes
      ensures b in s.entities && ClaimOf(s, b) == Some(b)
    {
      assert Becomes(rules, decisions, run.entities[b]);
    }
  }

  lemma OwnUnmet(rules: Rules, decisions: map<Id, Decision>, run: Run, o: Outcome, mappings: map<Id, Id>, k: Id)
    requires o.Proposed? && ValidRun(run) && IsProposal(rules, decisions, run, o)
    ensures var s := SidesOf(o.nodes, run, mappings, {});
            && (k in Unmet(s) <==> k in run.entities && run.entities[k].role.Component? && k !in o.nodes)
            && (k in Unmet(s) ==> OfEntity(s, k) == NodeMatch(None, Some(k), Unmatched, {}))
  {
    hide IsProposal, ClaimOf, Claimants, IsLost;
    var s := SidesOf(o.nodes, run, mappings, {});
    OwnClaims(rules, decisions, run, o, mappings, k);
    if k in o.nodes {
      TakenIf(s, k, k);
    } else {
      FreeNotTaken(s, k);
    }
    forall b
      ensures b !in NodesNear(s, k)
    {
      OwnClaims(rules, decisions, run, o, mappings, b);
    }
    assert NodesNear(s, k) == {};
  }

  /** Every node is matched by its id, and every other component entity by nothing. */
  lemma OwnMatch(rules: Rules, decisions: map<Id, Decision>, run: Run, o: Outcome, mappings: map<Id, Id>, g: Reading,
      i: int)
    requires o.Proposed? && ValidRun(run) && IsProposal(rules, decisions, run, o)
    requires IsReading(o.nodes, o.connections, run, mappings, {}, g)
    requires 0 <= i < |g.nodes|
    ensures (exists b :: b in o.nodes && g.nodes[i] == NodeMatch(Some(b), Some(b), SameId, {}))
            || (exists k :: k in run.entities && run.entities[k].role.Component? && k !in o.nodes
                  && g.nodes[i] == NodeMatch(None, Some(k), Unmatched, {}))
  {
    hide IsProposal, OfNode, OfEntity, Unmet, C.RefsAre, C.Matched;
    var s := SidesOf(o.nodes, run, mappings, {});
    var m := g.nodes[i];
    assert Right(s, s.nodes.Keys, Unmet(s), m);
    if m.baseline.Some? {
      OwnClaims(rules, decisions, run, o, mappings, m.baseline.value);
    } else {
      OwnUnmet(rules, decisions, run, o, mappings, m.key.value);
    }
  }

  lemma OwnFound(rules: Rules, decisions: map<Id, Decision>, run: Run, o: Outcome, mappings: map<Id, Id>, g: Reading,
      k: Id)
    requires o.Proposed? && ValidRun(run) && IsProposal(rules, decisions, run, o)
    requires IsReading(o.nodes, o.connections, run, mappings, {}, g)
    ensures k in o.nodes ==> exists i :: 0 <= i < |g.nodes| && g.nodes[i] == NodeMatch(Some(k), Some(k), SameId, {})
    ensures k in run.entities && run.entities[k].role.Component? && k !in o.nodes ==>
              exists i :: 0 <= i < |g.nodes| && g.nodes[i] == NodeMatch(None, Some(k), Unmatched, {})
  {
    hide IsProposal, OfNode, OfEntity, Unmet, C.RefsAre, C.Matched, Right;
    var s := SidesOf(o.nodes, run, mappings, {});
    OwnClaims(rules, decisions, run, o, mappings, k);
    OwnUnmet(rules, decisions, run, o, mappings, k);
    assert k in o.nodes ==> OfNode(s, k) in g.nodes;
    assert k in Unmet(s) ==> OfEntity(s, k) in g.nodes;
  }

  lemma OwnBaseline(rules: Rules, decisions: map<Id, Decision>, run: Run, o: Outcome, mappings: map<Id, Id>,
      g: Reading, k: Id)
    requires o.Proposed? && ValidRun(run) && IsProposal(rules, decisions, run, o)
    requires IsReading(o.nodes, o.connections, run, mappings, {}, g)
    ensures k in C.BaselineOf(g.nodes) <==> k in o.nodes
    ensures k in o.nodes ==> C.BaselineOf(g.nodes)[k] == k
  {
    hide IsProposal, IsReading, C.BaselineOf;
    var m := C.BaselineOf(g.nodes);
    if k in m {
      var i :| 0 <= i < |g.nodes| && IsMatched(g.nodes[i]) && g.nodes[i].key == Some(k)
          && g.nodes[i].baseline == Some(m[k]);
      OwnMatch(rules, decisions, run, o, mappings, g, i);
    }
    OwnFound(rules, decisions, run, o, mappings, g, k);
  }

  /** What comparing the nodes reports, and that every withheld component is reported as added. */
  lemma OwnNodes(rules: Rules, decisions: map<Id, Decision>, run: Run, o: Outcome, mappings: map<Id, Id>, g: Reading,
      d: Difference)
    requires o.Proposed? && ValidRun(run) && IsProposal(rules, decisions, run, o)
    requires IsReading(o.nodes, o.connections, run, mappings, {}, g)
    requires FromNodes(rules, o.nodes, run.entities, g.nodes, |g.nodes|, d)
    ensures (d.NodeAdded? && Withheld(run, o, d.id)) || OfProposedNode(rules, decisions, run, o, d)
  {
    hide IsProposal, IsReading, NodeDifferences, NodeOf;
    var i :| 0 <= i < |g.nodes| && d in OfNodeMatch(rules, o.nodes, run.entities, g.nodes[i]);
    OwnMatch(rules, decisions, run, o, mappings, g, i);
    if g.nodes[i].baseline.Some? {
      var b := g.nodes[i].baseline.value;
      ProposedNode(rules, decisions, run, o, b);
      OwnNode(rules, decisions, run.entities[b], d);
    }
  }

  /** A component entity the proposal withheld. */
  predicate Withheld(run: Run, o: Outcome, k: Id)
    requires o.Proposed?
  {
    k in run.entities && run.entities[k].role.Component? && k !in o.nodes
  }

  /** A value of a proposed node the run could not read, or a component a reviewer overrode. */
  ghost predicate OfProposedNode(rules: Rules, decisions: map<Id, Decision>, run: Run, o: Outcome, d: Difference)
    requires o.Proposed?
  {
    && (d.Unreadable? || d.Incomparable? || d.FieldDiffers?) && d.id in o.nodes && d.id in run.entities
    && (if d.Unreadable? then IsUnreadable(rules, o.nodes[d.id], run.entities[d.id], d.property)
        else Overridden(rules, decisions, run.entities[d.id]) && (d.FieldDiffers? ==> d.field == ComponentField))
  }

  lemma ProposedNode(rules: Rules, decisions: map<Id, Decision>, run: Run, o: Outcome, b: Id)
    requires o.Proposed? && ValidRun(run) && IsProposal(rules, decisions, run, o) && b in o.nodes
    ensures b in run.entities && run.entities[b].key == b && Becomes(rules, decisions, run.entities[b])
    ensures o.nodes[b] == NodeOf(rules, decisions, run.entities[b], KindOf(decisions, run.entities[b]).value)
  {
    hide ConnectionsAre, StatusesAre, ById, NodeOf;
  }

  // --- what a comparison cannot leave out ----------------------------------------------------------

  /** The node is matched with an entity it can be compared with. */
  ghost predicate IsCompared(rules: Rules, nodes: map<Id, Node>, entities: map<Id, Entity>, g: Reading, b: Id, i: int)
    requires b in nodes
  {
    && 0 <= i < |g.nodes| && IsMatched(g.nodes[i]) && g.nodes[i].baseline == Some(b)
    && g.nodes[i].key.Some? && g.nodes[i].key.value in entities
    && rules.node(Declared(rules, nodes[b], entities[g.nodes[i].key.value]))
  }

  lemma FieldFrom(rules: Rules, nodes: map<Id, Node>, entities: map<Id, Entity>, m: NodeMatch, d: Difference)
    requires d.FieldDiffers? && d in OfNodeMatch(rules, nodes, entities, m) && forall k :: k in nodes ==>
             nodes[k].id == k
    ensures IsMatched(m) && m.baseline == Some(d.id) && d.id in nodes && m.key.Some? && m.key.value in entities
    ensures d in NodeDifferences(rules, nodes[d.id], entities[m.key.value])
  {
    hide NodeDifferences;
    if m.baseline.Some? && m.baseline.value in nodes && m.key.Some? && m.key.value in entities {
      var b := m.baseline.value;
      FieldNames(rules, nodes[b], entities[m.key.value], d);
      assert nodes[b].id == b && m.baseline == Some(b);
    }
  }

  lemma FieldNames(rules: Rules, node: Node, e: Entity, d: Difference)
    requires d.FieldDiffers?
    ensures d in NodeDifferences(rules, node, e) ==> d.id == node.id
  {
    hide Declared, FieldsDiffering, UnreadableOf;
  }

  lemma NoFields(connections: map<Id, Connection>, kinds: map<Id, Option<Id>>, matches: seq<C.ConnectionMatch>,
      d: Difference)
    requires d.FieldDiffers?
    ensures !FromConnections(connections, kinds, matches, |matches|, d)
  {
    hide KindsStated;
  }

  /**
   * The unknown properties and the unrecognised settings of a node are reported exactly when it has them and is
   * matched with an entity it can be compared with, whether or not the source could express them.
   */
  lemma DroppedReported(rules: Rules, nodes: map<Id, Node>, connections: map<Id, Connection>, run: Run, g: Reading,
      b: Id, path: Id)
    requires b in nodes && forall k :: k in nodes ==> nodes[k].id == k
    ensures Reported(rules, nodes, connections, run, g, FieldDiffers(b, UnknownField)) <==>
            nodes[b].unknown != {} && exists i :: IsCompared(rules, nodes, run.entities, g, b, i)
    ensures Reported(rules, nodes, connections, run, g, FieldDiffers(b, ExtraField(path))) <==>
            path in nodes[b].extra && exists i :: IsCompared(rules, nodes, run.entities, g, b, i)
  {
    hide NodeDifferences, FromConnections, KindsOf, Declared;
    forall d | d == FieldDiffers(b, UnknownField) || d == FieldDiffers(b, ExtraField(path))
      ensures Reported(rules, nodes, connections, run, g, d) <==>
              (if d.field.UnknownField? then nodes[b].unknown != {} else path in nodes[b].extra)
              && exists i :: IsCompared(rules, nodes, run.entities, g, b, i)
    {
      NoFields(connections, KindsOf(run.relationships), g.connections, d);
      if i :| 0 <= i < |g.nodes| && d in OfNodeMatch(rules, nodes, run.entities, g.nodes[i]) {
        FieldFrom(rules, nodes, run.entities, g.nodes[i], d);
        DroppedExactly(rules, nodes[b], run.entities[g.nodes[i].key.value], path);
        assert IsCompared(rules, nodes, run.entities, g, b, i);
      }
      if i :| IsCompared(rules, nodes, run.entities, g, b, i) {
        DroppedExactly(rules, nodes[b], run.entities[g.nodes[i].key.value], path);
        assert OfNodeMatch(rules, nodes, run.entities, g.nodes[i])
            == NodeDifferences(rules, nodes[b], run.entities[g.nodes[i].key.value]);
      }
    }
  }
}
