/** The references of a run against the connections proposed from it, and the whole of what is reported. */
module OwnDrift {
  import opened Options
  import opened Reachability
  import opened Discovery
  import opened Proposal
  import NodeMatching
  import opened ConnectionMatching
  import F = MatchingFacts
  import Comparison
  import D = DriftFacts

  type Difference = Comparison.Difference
  type Reading = Comparison.Reading

  /**
   * A run, what was proposed from it under which rules and decisions, and the proposal's elements matched with it
   * under the identities confirmed.
   */
  datatype Trial = Trial(rules: Rules, decisions: map<Id, Decision>, run: Run, o: Outcome, mappings: map<Id, Id>,
    g: Reading)

  /** A proposal, and its elements matched with the run it came from. */
  ghost predicate Own(t: Trial) {
    && t.o.Proposed? && ValidRun(t.run) && IsProposal(t.rules, t.decisions, t.run, t.o)
    && Comparison.IsReading(t.o.nodes, t.o.connections, t.run, t.mappings, {}, t.g)
  }

  /** The routes as the matching finds them: relationships by (source, reference, id). */
  function RunRoutes(run: Run): map<Id, Id> {
    Routes(Comparison.Without(run.relationships, {}), run.entities)
  }

  /** The routes the proposal follows: relationships by id. */
  function ProposalRoutes(run: Run): map<Id, Id> {
    Routes(ById(run.relationships), run.entities)
  }

  lemma {:induction false} WithoutNone(rs: seq<Relationship>)
    ensures Comparison.Without(rs, {}) == rs
  {
    if rs != [] {
      WithoutNone(rs[1..]);
      assert rs == [rs[0]] + rs[1..];
    }
  }

  lemma OneSelectorAgrees(run: Run)
    requires OneSelector(run.relationships, run.entities)
    ensures RunRoutes(run) == ProposalRoutes(run)
  {
    hide Routes, Selects;
    RoutesOrderFree(run.relationships, ById(run.relationships), run.entities);
    RoutesOrderFree(run.relationships, Comparison.Without(run.relationships, {}), run.entities);
  }

  // --- one reference -------------------------------------------------------------------------------

  lemma RefIs(t: Trial, r: Relationship)
    requires Own(t) && r in t.run.relationships
    ensures var ends := EndsOf(t.run.entities, RunRoutes(t.run), r);
            && (r.id in t.g.links.refs <==> ends.Some?)
            && (ends.Some? && r.id in t.g.links.refs ==>
                  t.g.links.refs[r.id].kind == r.kind && t.g.links.refs[r.id].pair == ends.value
                  && (t.g.links.refs[r.id].matched <==>
                      ends.value.source in t.o.nodes && ends.value.target in t.o.nodes))
  {
    hide EndsOf, Routes, IsProposal, BaselineOf, NodeMatching.Matches, Matched;
    var rs := Comparison.Without(t.run.relationships, {});
    assert r in rs;
    var i :| 0 <= i < |rs| && rs[i] == r;
    var ends := EndsOf(t.run.entities, RunRoutes(t.run), r);
    if ends.Some? {
      D.OwnBaseline(t.rules, t.decisions, t.run, t.o, t.mappings, t.g, ends.value.source);
      D.OwnBaseline(t.rules, t.decisions, t.run, t.o, t.mappings, t.g, ends.value.target);
    }
  }

  lemma RefFrom(t: Trial, id: Id)
    returns (r: Relationship)
    requires Own(t) && id in t.g.links.refs
    ensures r in t.run.relationships && r.id == id
  {
    hide EndsOf, Routes, IsProposal, BaselineOf, NodeMatching.Matches, Matched;
    var rs := Comparison.Without(t.run.relationships, {});
    var i :| 0 <= i < |rs| && rs[i].id == id;
    r := rs[i];
    assert r in rs;
  }

  /** The relationship a proposed connection comes from. */
  lemma ConnectionFrom(rules: Rules, decisions: map<Id, Decision>, run: Run, o: Outcome, c: Id)
    returns (r: Relationship)
    requires o.Proposed? && ValidRun(run) && IsProposal(rules, decisions, run, o) && c in o.connections
    ensures r in run.relationships && r.id == c && Eligible(WiringOf(run, decisions, o.nodes), r)
    ensures o.connections[c] == ConnectionOf(WiringOf(run, decisions, o.nodes), r)
  {
    hide NodesAre, StatusesAre, Eligible, Routes, ById;
    var rs, w := ById(run.relationships), WiringOf(run, decisions, o.nodes);
    ProposesEligible(w, rs);
    assert ProposedBy(w, rs, |rs|, c);
    var j :| 0 <= j < |rs| && rs[j].id == c && Proposes(w, rs, j);
    r := rs[j];
    assert r in rs;
  }

  lemma SameEnds(entities: map<Id, Entity>, routes: map<Id, Id>, w: Wiring, r: Relationship)
    requires w.entities == entities && Eligible(w, r) && r.target.value in entities
    requires forall k :: k in w.nodes ==> k in entities && entities[k].role.Component?
    ensures EndsOf(entities, routes, r) == Some(PairOf(ConnectionOf(w, r))) <==>
            Reached(entities, routes, r.target.value) == Reached(entities, w.routes, r.target.value)
  {
    hide ConnectionKindOf, IsDeclined;
  }

  lemma NodesAreComponents(rules: Rules, decisions: map<Id, Decision>, run: Run, o: Outcome)
    requires o.Proposed? && ValidRun(run) && IsProposal(rules, decisions, run, o)
    ensures forall k :: k in o.nodes ==> k in run.entities && run.entities[k].role.Component?
  {
    hide ConnectionsAre, StatusesAre, ById, NodeOf;
  }

  /**
   * A proposed connection is matched as the same reference exactly when the matching follows its reference
   * where the proposal followed it.
   */
  lemma SameIdExactly(t: Trial, c: Id)
    returns (r: Relationship)
    requires Own(t) && c in t.o.connections
    ensures r in t.run.relationships && r.id == c && r.target.Some?
    ensures IsSame(t.g.links, c) <==>
            Reached(t.run.entities, RunRoutes(t.run), r.target.value)
                == Reached(t.run.entities, ProposalRoutes(t.run), r.target.value)
  {
    hide NodesAre, StatusesAre, Routes, ById, IsProposal, EndsOf, Reached, RefsAre, NodeMatching.Matches, Matched;
    r := ConnectionFrom(t.rules, t.decisions, t.run, t.o, c);
    var w := WiringOf(t.run, t.decisions, t.o.nodes);
    assert Joins(t.run.entities, r);
    NodesAreComponents(t.rules, t.decisions, t.run, t.o);
    SameEnds(t.run.entities, RunRoutes(t.run), w, r);
    RefIs(t, r);
    assert c in t.g.links.connections && t.g.links.connections[c] == t.o.connections[c];
    EndsAreNodes(w, r);
  }

  lemma EndsAreNodes(w: Wiring, r: Relationship)
    requires Eligible(w, r)
    ensures ConnectionOf(w, r).source in w.nodes && ConnectionOf(w, r).target in w.nodes && r.target.Some?
  {
  }

  // --- every reference -----------------------------------------------------------------------------

  /** With the same routes on both sides, every proposed connection is matched as the same reference. */
  lemma AllSame(t: Trial)
    requires Own(t) && RunRoutes(t.run) == ProposalRoutes(t.run)
    ensures t.g.links.connections == t.o.connections && forall c :: c in t.g.links.connections ==> IsSame(t.g.links, c)
  {
    hide IsProposal, Routes, ById, IsSame, NodeMatching.Matches, Matched, RefsAre;
    forall c | c in t.g.links.connections
      ensures IsSame(t.g.links, c)
    {
      var r := SameIdExactly(t, c);
    }
  }

  lemma NothingElse(l: Links, c: Id, r: Id)
    requires forall x :: x in l.connections ==> IsSame(l, x)
    ensures Takes(l, c, r) <==> c in l.connections && c == r
    ensures !Lists(l, c, r)
  {
    hide IsSame, Chosen, Stating;
  }

  /** What is left over holds none of the proposed connections' references. */
  lemma LeftIsWithheld(l: Links, found: seq<ConnectionMatch>, i: int, r: Id)
    requires Matched(l, found) && 0 <= i < |found| && (forall c :: c in l.connections ==> IsSame(l, c))
    requires found[i].baseline.None? && r in found[i].relationships
    ensures r in l.refs && r !in l.connections && found[i].how.Unmatched?
  {
    hide Matched, Taken, Listed, IsSame;
    F.HolderIs(l, found, i, r);
    F.LeftoverIs(l, found[i].pair, r);
    NothingElse(l, r, r);
    if r in l.connections {
      SameIsMatched(l, r);
    }
  }

  lemma SameIsMatched(l: Links, c: Id)
    requires IsSame(l, c)
    ensures c in l.refs && l.refs[c].matched
  {
  }

  lemma WithheldIsLeft(l: Links, found: seq<ConnectionMatch>, r: Id) returns (i: int)
    requires Matched(l, found) && (forall c :: c in l.connections ==> IsSame(l, c)) && r in l.refs
    requires r !in l.connections
    ensures 0 <= i < |found| && found[i].baseline.None? && r in found[i].relationships && found[i].how.Unmatched?
  {
    hide Matched, Taken, Listed, IsSame, Takes, Lists;
    F.ReferenceKept(l, found, r);
    i :| 0 <= i < |found| && (r in found[i].relationships || r in found[i].candidates);
    F.HolderIs(l, found, i, r);
    if found[i].baseline.Some? {
      NothingElse(l, found[i].baseline.value, r);
      assert false;
    }
  }

  /** A reference that gave no connection of the proposal. */
  predicate ReferenceWithheld(o: Outcome, id: Id)
    requires o.Proposed?
  {
    id in o.connectionStatus && o.connectionStatus[id] != Included
  }

  lemma StatusOf(rules: Rules, decisions: map<Id, Decision>, run: Run, o: Outcome, r: Relationship)
    requires o.Proposed? && ValidRun(run) && IsProposal(rules, decisions, run, o) && r in run.relationships
    ensures ReferenceWithheld(o, r.id) <==> r.id !in o.connections
  {
    hide NodesAre, ConnectionsAre, ById, Routes;
    var rs := ById(run.relationships);
    assert r in rs;
    var j :| 0 <= j < |rs| && rs[j] == r;
  }

  /** A proposed connection states the kind its own reference states. */
  lemma OwnKind(rules: Rules, decisions: map<Id, Decision>, run: Run, o: Outcome, c: Id)
    requires o.Proposed? && ValidRun(run) && IsProposal(rules, decisions, run, o) && c in o.connections
    ensures var stated := Comparison.KindsStated(Comparison.KindsOf(run.relationships),
            {c} * Comparison.KindsOf(run.relationships).Keys);
            stated == {} || o.connections[c].kind in stated
  {
    hide IsProposal, Eligible, Comparison.KindsOf, Routes, ById, ValidRun, ConnectionOf;
    var r := ConnectionFrom(rules, decisions, run, o, c);
    var kinds := Comparison.KindsOf(run.relationships);
    var q :| q in run.relationships && q.id == c && kinds[c] == q.kind;
    SameRelationship(run, r, q);
    KindIs(WiringOf(run, decisions, o.nodes), r);
    var stated := Comparison.KindsStated(kinds, {c} * kinds.Keys);
    if r.kind.Some? {
      assert c in {c} * kinds.Keys && kinds[c].value in stated;
    } else {
      assert forall x :: x in {c} * kinds.Keys ==> x == c;
      assert stated == {};
    }
  }

  lemma SameRelationship(run: Run, r: Relationship, q: Relationship)
    requires ValidRun(run) && r in run.relationships && q in run.relationships && r.id == q.id
    ensures r == q
  {
    var i :| 0 <= i < |run.relationships| && run.relationships[i] == r;
    var j :| 0 <= j < |run.relationships| && run.relationships[j] == q;
  }

  lemma KindIs(w: Wiring, r: Relationship)
    requires Eligible(w, r)
    ensures r.kind.Some? ==> ConnectionOf(w, r).kind == r.kind.value
  {
  }

  /** What comparing the connections reports: references the proposal withheld, and nothing else. */
  lemma OwnConnections(t: Trial, d: Difference)
    requires Own(t) && RunRoutes(t.run) == ProposalRoutes(t.run)
    requires Comparison.FromConnections(t.o.connections, Comparison.KindsOf(t.run.relationships), t.g.connections,
             |t.g.connections|, d)
    ensures d.ConnectionAdded? && d.references != {} && forall r :: r in d.references ==> ReferenceWithheld(t.o, r)
  {
    hide IsProposal, Routes, ById, Matched, RefsAre, NodeMatching.Matches, Comparison.KindsOf,
      Comparison.KindsStated, IsSame;
    AllSame(t);
    var kinds := Comparison.KindsOf(t.run.relationships);
    var i :| 0 <= i < |t.g.connections|
        && d in Comparison.OfConnectionMatch(t.o.connections, kinds, t.g.connections[i]);
    var m := t.g.connections[i];
    OwnMatchIs(t.g.links, t.g.connections, i);
    if m.baseline.Some? {
      OwnKind(t.rules, t.decisions, t.run, t.o, m.baseline.value);
      assert false;
    } else {
      forall r | r in m.relationships
        ensures ReferenceWithheld(t.o, r) && m.how.Unmatched?
      {
        LeftIsWithheld(t.g.links, t.g.connections, i, r);
        var q := RefFrom(t, r);
        StatusOf(t.rules, t.decisions, t.run, t.o, q);
      }
    }
  }

  lemma OwnMatchIs(l: Links, found: seq<ConnectionMatch>, i: int)
    requires Matched(l, found) && 0 <= i < |found| && forall c :: c in l.connections ==> IsSame(l, c)
    ensures var m := found[i];
            if m.baseline.Some? then m.baseline.value in l.connections && m.how.SameId?
                && m.relationships == {m.baseline.value}
            else m.how.Unmatched?
  {
    hide IsSame, Chosen, Stating, PairsOf, Leftover, Strays;
    assert Right(l, Progress(l.connections.Keys, PairsOf(l, true), PairsOf(l, false)), found[i]);
  }

  // --- the whole report ----------------------------------------------------------------------------

  /** What a comparison with its own run may say of a proposal. */
  ghost predicate Explained(rules: Rules, decisions: map<Id, Decision>, run: Run, o: Outcome, d: Difference)
    requires o.Proposed?
  {
    || (d.NodeAdded? && D.Withheld(run, o, d.id))
    || (d.ConnectionAdded? && d.references != {} && forall r :: r in d.references ==> ReferenceWithheld(o, r))
    || D.OfProposedNode(rules, decisions, run, o, d)
  }

  /**
   * Compared with the run it came from, a proposal shows no removal; what is added names candidates the
   * proposal withheld; and a value differs only where a reviewer overrode a confident component. Whatever
   * identities were confirmed, as long as the services lead where the proposal followed them.
   */
  lemma OwnDriftIsExplained(t: Trial, d: Difference)
    requires Own(t) && RunRoutes(t.run) == ProposalRoutes(t.run)
    requires Comparison.Reported(t.rules, t.o.nodes, t.o.connections, t.run, t.g, d)
    ensures Explained(t.rules, t.decisions, t.run, t.o, d)
  {
    hide IsProposal, Routes, ById, Comparison.IsReading, Comparison.FromNodes, Comparison.FromConnections;
    if Comparison.FromNodes(t.rules, t.o.nodes, t.run.entities, t.g.nodes, |t.g.nodes|, d) {
      D.OwnNodes(t.rules, t.decisions, t.run, t.o, t.mappings, t.g, d);
    } else {
      OwnConnections(t, d);
    }
  }

  /** Without decisions, nothing differs: only additions, and values the run could not read. */
  lemma NothingDiffersUndecided(t: Trial, d: Difference)
    requires Own(t) && t.decisions == map[] && OneSelector(t.run.relationships, t.run.entities)
    requires Comparison.Reported(t.rules, t.o.nodes, t.o.connections, t.run, t.g, d)
    ensures d.NodeAdded? || d.ConnectionAdded? || d.Unreadable?
  {
    hide Own, Routes, ById, Comparison.Reported, OneSelector, D.Withheld, RunRoutes, ProposalRoutes;
    OneSelectorAgrees(t.run);
    OwnIs(t);
    OwnDriftIsExplained(t, d);
  }

  lemma OwnIs(t: Trial)
    requires Own(t)
    ensures t.o.Proposed?
  {
  }

  /** Every component the proposal withheld is reported as added. */
  lemma WithheldNodeReported(t: Trial, k: Id)
    requires Own(t) && D.Withheld(t.run, t.o, k)
    ensures Comparison.Reported(t.rules, t.o.nodes, t.o.connections, t.run, t.g, Comparison.NodeAdded(k))
  {
    hide IsProposal, Comparison.IsReading, Comparison.NodeDifferences, Comparison.FromConnections, Routes, ById;
    D.OwnFound(t.rules, t.decisions, t.run, t.o, t.mappings, t.g, k);
    var i :| 0 <= i < |t.g.nodes| && t.g.nodes[i] == NodeMatching.NodeMatch(None, Some(k), NodeMatching.Unmatched, {});
    assert Comparison.NodeAdded(k) in Comparison.OfNodeMatch(t.rules, t.o.nodes, t.run.entities, t.g.nodes[i]);
  }

  /** Every reference between components that the proposal withheld is reported as an added connection. */
  lemma WithheldReferenceReported(t: Trial, r: Relationship)
    returns (d: Difference)
    requires Own(t) && RunRoutes(t.run) == ProposalRoutes(t.run)
    requires r in t.run.relationships && EndsOf(t.run.entities, RunRoutes(t.run), r).Some?
             && ReferenceWithheld(t.o, r.id)
    ensures d.ConnectionAdded? && r.id in d.references
            && Comparison.Reported(t.rules, t.o.nodes, t.o.connections, t.run, t.g, d)
  {
    hide IsProposal, Routes, ById, Comparison.FromNodes, Comparison.KindsOf, Matched, RefsAre, NodeMatching.Matches,
      EndsOf, IsSame;
    AllSame(t);
    RefIs(t, r);
    StatusOf(t.rules, t.decisions, t.run, t.o, r);
    var kinds := Comparison.KindsOf(t.run.relationships);
    var i := WithheldIsLeft(t.g.links, t.g.connections, r.id);
    var m := t.g.connections[i];
    d := Comparison.ConnectionAdded(m.pair, m.relationships * kinds.Keys);
    assert r.id in m.relationships * kinds.Keys;
    assert d in Comparison.OfConnectionMatch(t.o.connections, kinds, m);
  }

  /** A reference that repeats a proposed connection is reported as added, between the ends it already joins. */
  lemma RepeatIsReported(t: Trial, j: int)
    returns (d: Difference, c: Id)
    requires Own(t) && RunRoutes(t.run) == ProposalRoutes(t.run)
    requires var w := WiringOf(t.run, t.decisions, t.o.nodes); var rs := ById(t.run.relationships);
             0 <= j < |rs| && Eligible(w, rs[j]) && !Proposes(w, rs, j)
    ensures c in t.o.connections
    ensures PairOf(t.o.connections[c])
            == PairOf(ConnectionOf(WiringOf(t.run, t.decisions, t.o.nodes), ById(t.run.relationships)[j]))
    ensures t.o.connections[c].kind
            == ConnectionOf(WiringOf(t.run, t.decisions, t.o.nodes), ById(t.run.relationships)[j]).kind
    ensures d.ConnectionAdded? && ById(t.run.relationships)[j].id in d.references
    ensures Comparison.Reported(t.rules, t.o.nodes, t.o.connections, t.run, t.g, d)
  {
    hide NodesAre, StatusesAre, Routes, Eligible, EndsOf, Comparison.IsReading, Comparison.Reported, Reached;
    var w, rs := WiringOf(t.run, t.decisions, t.o.nodes), ById(t.run.relationships);
    var r := rs[j];
    assert r in rs;
    var i := D.FirstSigned(w, rs, j, SignatureOf(w, r));
    c := rs[i].id;
    NotProposed(t.run, w, rs, j, t.o.connections);
    StatusOf(t.rules, t.decisions, t.run, t.o, r);
    NodesAreComponents(t.rules, t.decisions, t.run, t.o);
    assert Joins(t.run.entities, r);
    EndsAreNodes(w, r);
    SameEnds(t.run.entities, RunRoutes(t.run), w, r);
    d := WithheldReferenceReported(t, r);
  }

  lemma NotProposed(run: Run, w: Wiring, rs: seq<Relationship>, j: int, connections: map<Id, Connection>)
    requires ValidRun(run) && rs == ById(run.relationships) && 0 <= j < |rs| && !Proposes(w, rs, j)
    requires ConnectionsAre(w, rs, |rs|, connections)
    ensures rs[j].id !in connections
  {
    hide Proposes, ById, Joins;
    ByIdIdentified(run);
    forall i | 0 <= i < |rs| && rs[i].id == rs[j].id
      ensures i == j
    {
    }
  }
}
