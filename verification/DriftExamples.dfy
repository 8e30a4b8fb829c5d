/** Runs a source can give, written out, and what proposing and comparing them comes to. */
module DriftExamples {
  import opened Options
  import opened Reachability
  import opened Discovery
  import opened Proposal
  import NodeMatching
  import opened ConnectionMatching
  import Comparison
  import D = DriftFacts
  import opened OwnDrift
  import opened RouteDrift

  /** Checks that accept everything, and sources that can state everything. */
  function Anything(): Rules {
    Rules({}, t => true, n => true, (s, p) => true)
  }

  function Workload(k: Id): Entity {
    Entity(k, Component, Some(1), None, None, None, Image, [], 100 + k)
  }

  function Service(k: Id): Entity {
    Entity(k, Routing, None, None, None, None, Image, [], 100 + k)
  }

  ghost predicate NodesOf(run: Run, nodes: map<Id, Node>) {
    exists status :: NodesAre(Anything(), map[], run.entities, run.entities.Keys, nodes, status)
  }

  /** Every workload is proposed, and no service. */
  lemma WorkloadsProposed(run: Run, nodes: map<Id, Node>, k: Id)
    requires NodesOf(run, nodes) && k in run.entities && run.entities[k] in {Workload(k), Service(k)}
    ensures k in nodes <==> run.entities[k] == Workload(k)
  {
  }

  // --- a service with two selectors ----------------------------------------------------------------

  /** A workload refers to a service; the service's first selector leads to 3, its second, of the lower id, to 4. */
  function ToService(): Relationship {
    Relationship(12, 1, 1, false, Some(2), Some(7))
  }

  function FirstSelector(): Relationship {
    Relationship(11, 2, 1, true, Some(3), None)
  }

  function SecondSelector(): Relationship {
    Relationship(10, 2, 2, true, Some(4), None)
  }

  function TwoSelectors(): Run {
    Run(map[1 := Workload(1), 2 := Service(2), 3 := Workload(3), 4 := Workload(4)],
        [ToService(), FirstSelector(), SecondSelector()])
  }

  lemma SelectorsInOrder()
    ensures ById([ToService(), FirstSelector(), SecondSelector()]) == [SecondSelector(), FirstSelector(), ToService()]
  {
    var a, b, c := ToService(), FirstSelector(), SecondSelector();
    assert [a, b, c][1..] == [b, c] && [b, c][1..] == [c] && [c][1..] == [];
    assert Insert(c, []) == [c];
    assert Insert(b, [c]) == [c] + Insert(b, [c][1..]) == [c, b];
    assert [c, b][1..] == [b] && [b][1..] == [];
    assert Insert(a, [b]) == [b] + Insert(a, []) == [b, a];
    assert Insert(a, [c, b]) == [c] + Insert(a, [b]) == [c, b, a];
  }

  lemma SelectorsListed()
    ensures ValidRun(TwoSelectors())
    ensures ById(TwoSelectors().relationships) == [SecondSelector(), FirstSelector(), ToService()]
    ensures !Selects(TwoSelectors().entities, ToService())
    ensures Selects(TwoSelectors().entities, FirstSelector()) && Selects(TwoSelectors().entities, SecondSelector())
  {
    hide ById;
    SelectorsInOrder();
  }

  /** The proposal follows the service to 3, and the matching to 4. */
  lemma SelectorsDisagree()
    ensures 2 in RunRoutes(TwoSelectors()) && RunRoutes(TwoSelectors())[2] == 4
    ensures 2 in ProposalRoutes(TwoSelectors()) && ProposalRoutes(TwoSelectors())[2] == 3
  {
    hide Routes, ValidRun, Selects, RunRoutes, ProposalRoutes;
    var run := TwoSelectors();
    SelectorsListed();
    assert IsSelector(run, 2, FirstSelector()) && IsSelector(run, 2, SecondSelector());
    assert LastSelector(run, 2, SecondSelector());
    assert HighestSelector(run, 2, FirstSelector());
    var a, b := Followed(run, 2, FirstSelector());
    LastIsOne(run, 2, a, SecondSelector());
    HighestIsOne(run, 2, b, FirstSelector());
  }

  lemma SelectorNotEligible(w: Wiring, r: Relationship)
    requires r.source in w.entities && w.entities[r.source].role.Routing? && r.selector
    ensures !Eligible(w, r)
  {
  }

  lemma FollowedToThree(w: Wiring)
    requires w.entities == TwoSelectors().entities && 2 in w.routes && w.routes[2] == 3 && 1 in w.nodes && 3 in w.nodes
    requires w.decisions == map[]
    ensures Eligible(w, ToService()) && ConnectionOf(w, ToService()) == Connection(12, 1, 3, 7)
            && !ToItself(w, ToService())
    ensures !Eligible(w, FirstSelector()) && !Eligible(w, SecondSelector())
  {
    SelectorNotEligible(w, FirstSelector());
    SelectorNotEligible(w, SecondSelector());
  }

  lemma ReferenceEligible(nodes: map<Id, Node>)
    requires NodesOf(TwoSelectors(), nodes)
    ensures var w := WiringOf(TwoSelectors(), map[], nodes);
            && Eligible(w, ToService()) && ConnectionOf(w, ToService()) == Connection(12, 1, 3, 7)
            && !ToItself(w, ToService())
            && !Eligible(w, FirstSelector()) && !Eligible(w, SecondSelector())
  {
    hide Routes, ById, NodesOf, Eligible, ToItself, RunRoutes;
    var run := TwoSelectors();
    WorkloadsProposed(run, nodes, 1);
    WorkloadsProposed(run, nodes, 3);
    SelectorsDisagree();
    FollowedToThree(WiringOf(run, map[], nodes));
  }

  lemma OnlyLast(w: Wiring, rs: seq<Relationship>)
    requires |rs| == 3 && !Eligible(w, rs[0]) && !Eligible(w, rs[1]) && Eligible(w, rs[2]) && !ToItself(w, rs[2])
    ensures Proposes(w, rs, 2) && (forall j :: Proposes(w, rs, j) ==> j == 2) && forall j :: !SelfProposed(w, rs, j)
  {
    hide Eligible, SignatureOf, ToItself;
  }

  lemma ReferenceProposed(nodes: map<Id, Node>)
    requires NodesOf(TwoSelectors(), nodes)
    ensures var w, rs := WiringOf(TwoSelectors(), map[], nodes), ById(TwoSelectors().relationships);
            && |rs| == 3 && rs[2] == ToService() && Proposes(w, rs, 2) && (forall j :: Proposes(w, rs, j) ==> j == 2)
            && forall j :: !SelfProposed(w, rs, j)
  {
    hide NodesOf, Eligible, ToItself, ById, ConnectionOf, Proposes, SelfProposed, Routes, ValidRun, Selects;
    ReferenceEligible(nodes);
    SelectorsListed();
    OnlyLast(WiringOf(TwoSelectors(), map[], nodes), ById(TwoSelectors().relationships));
  }

  /** The reference is proposed as a connection to 3. */
  lemma ConnectionProposed(o: Outcome)
    requires o.Proposed? && IsProposal(Anything(), map[], TwoSelectors(), o)
    ensures 12 in o.connections && o.connections[12] == Connection(12, 1, 3, 7)
  {
    hide NodesAre, StatusesAre, Proposes, ById, Eligible, ConnectionOf;
    assert NodesOf(TwoSelectors(), o.nodes);
    ReferenceProposed(o.nodes);
    ReferenceEligible(o.nodes);
  }

  lemma NothingLeft(o: Outcome)
    requires o.Proposed? && IsProposal(Anything(), map[], TwoSelectors(), o)
    ensures Gone(TwoSelectors(), o, 12)
  {
    hide IsProposal, RunRoutes, ProposalRoutes, Alone;
    var run := TwoSelectors();
    ConnectionProposed(o);
    SelectorsDisagree();
    assert Elsewhere(run, ToService());
    forall r | r in run.relationships
      ensures EndsOf(run.entities, RunRoutes(run), r) != Some(Pair(1, 3))
    {
    }
  }

  /** With two selectors, the proposal's only connection is reported as removed by its own run. */
  lemma OwnConnectionRemoved(o: Outcome, mappings: map<Id, Id>, g: Reading)
    requires Own(Trial(Anything(), map[], TwoSelectors(), o, mappings, g))
    ensures Comparison.Reported(Anything(), o.nodes, o.connections, TwoSelectors(), g, Comparison.ConnectionRemoved(12))
  {
    hide IsProposal, Comparison.IsReading, Gone, Comparison.FromConnections, Comparison.FromNodes, ValidRun;
    NothingLeft(o);
    RemovedExactly(Trial(Anything(), map[], TwoSelectors(), o, mappings, g), 12);
  }

  /** Proposed from that run, and compared with it. */
  method CompareTwoSelectors() returns (o: Outcome, found: set<Comparison.Difference>)
    ensures o.Proposed? && 12 in o.connections && Comparison.ConnectionRemoved(12) in found
  {
    hide IsProposal, Comparison.IsReading, Comparison.Reported, ValidRun, ById, NodesAre, SelfProposed;
    var run := TwoSelectors();
    SelectorsListed();
    o := Propose(Anything(), map[], run);
    ghost var nodes, status :|
      NodesAre(Anything(), map[], run.entities, run.entities.Keys, nodes, status) && Decided(run, map[], nodes, o);
    assert NodesOf(run, nodes);
    ReferenceProposed(nodes);
    ConnectionProposed(o);
    found := Comparison.Differences(Anything(), o.nodes, o.connections, run, map[], {});
    ghost var g :| Comparison.IsReading(o.nodes, o.connections, run, map[], {}, g)
                   && forall d :: d in found <==> Comparison.Reported(Anything(), o.nodes, o.connections, run, g, d);
    OwnConnectionRemoved(o, map[], g);
  }

  // --- a service that selects the workload referring to it -----------------------------------------

  function BackSelector(): Relationship {
    Relationship(11, 2, 1, true, Some(1), None)
  }

  function BackToItself(): Run {
    Run(map[1 := Workload(1), 2 := Service(2)], [ToService(), BackSelector()])
  }

  lemma BackListed()
    ensures ValidRun(BackToItself()) && ById(BackToItself().relationships) == [BackSelector(), ToService()]
    ensures 2 in ProposalRoutes(BackToItself()) && ProposalRoutes(BackToItself())[2] == 1
  {
    var a, b, run := ToService(), BackSelector(), BackToItself();
    assert [a, b][1..] == [b] && [b][1..] == [];
    assert Insert(a, [b]) == [b] + Insert(a, []) == [b, a];
    assert Selects(run.entities, b) && b in ById(run.relationships);
    assert forall r :: r in ById(run.relationships) && Selects(run.entities, r) ==> r == b;
  }

  /** Its reference leads back to the workload, and the whole proposal fails. */
  lemma BackToItselfFails(nodes: map<Id, Node>)
    requires NodesOf(BackToItself(), nodes)
    ensures exists j :: SelfProposed(WiringOf(BackToItself(), map[], nodes), ById(BackToItself().relationships), j)
  {
    hide Routes, ById, NodesOf;
    var run := BackToItself();
    WorkloadsProposed(run, nodes, 1);
    BackListed();
    var w, rs := WiringOf(run, map[], nodes), ById(run.relationships);
    assert w.routes == ProposalRoutes(run);
    assert Eligible(w, rs[1]) && ToItself(w, rs[1]);
    D.FailsExactly(w, rs);
  }

  method ProposeBackToItself() returns (o: Outcome)
    ensures o.SelfConnection?
  {
    hide IsProposal, ValidRun, ById, NodesAre, SelfProposed;
    var run := BackToItself();
    BackListed();
    o := Propose(Anything(), map[], run);
    ghost var nodes, status :|
      NodesAre(Anything(), map[], run.entities, run.entities.Keys, nodes, status) && Decided(run, map[], nodes, o);
    assert NodesOf(run, nodes);
    BackToItselfFails(nodes);
  }

  // --- a reference repeated ------------------------------------------------------------------------

  function Once(): Relationship {
    Relationship(11, 1, 1, false, Some(3), Some(7))
  }

  function Again(): Relationship {
    Relationship(12, 1, 2, false, Some(3), Some(7))
  }

  function Repeated(): Run {
    Run(map[1 := Workload(1), 3 := Workload(3)], [Once(), Again()])
  }

  lemma RepeatListed()
    ensures ValidRun(Repeated()) && ById(Repeated().relationships) == [Once(), Again()]
  {
    var a, b := Once(), Again();
    assert [a, b][1..] == [b] && [b][1..] == [];
  }

  lemma RepeatNodes(nodes: map<Id, Node>)
    requires NodesOf(Repeated(), nodes)
    ensures 1 in nodes && 3 in nodes
  {
    hide NodesOf;
    WorkloadsProposed(Repeated(), nodes, 1);
    WorkloadsProposed(Repeated(), nodes, 3);
  }

  lemma NoSelectors()
    ensures RunRoutes(Repeated()) == ProposalRoutes(Repeated())
  {
    hide Routes;
    OneSelectorAgrees(Repeated());
  }

  lemma RepeatEligible(nodes: map<Id, Node>)
    requires NodesOf(Repeated(), nodes)
    ensures var w := WiringOf(Repeated(), map[], nodes);
            && Eligible(w, Once()) && Eligible(w, Again()) && SignatureOf(w, Once()) == SignatureOf(w, Again())
            && !ToItself(w, Once()) && !ToItself(w, Again())
  {
    hide Routes, ById, NodesOf;
    RepeatNodes(nodes);
  }

  /** A difference that reports the repeat as added, between ends a connection of its kind joins already. */
  ghost predicate RepeatAdded(o: Outcome, found: set<Comparison.Difference>, d: Comparison.Difference, c: Id)
    requires o.Proposed?
  {
    && d in found && d.ConnectionAdded? && 12 in d.references
    && c in o.connections && PairOf(o.connections[c]) == Pair(1, 3) && o.connections[c].kind == 7
  }

  /** The repeat is reported as added, though what it joins is joined already. */
  method CompareRepeated() returns (o: Outcome, found: set<Comparison.Difference>)
    ensures o.Proposed? && exists d, c :: RepeatAdded(o, found, d, c)
  {
    hide IsProposal, Comparison.IsReading, Comparison.Reported, ValidRun, ById, NodesAre, Eligible, Proposes, ToItself,
      Routes;
    var run := Repeated();
    RepeatListed();
    NoSelectors();
    o := Propose(Anything(), map[], run);
    ghost var nodes, status :|
      NodesAre(Anything(), map[], run.entities, run.entities.Keys, nodes, status) && Decided(run, map[], nodes, o);
    assert NodesOf(run, nodes);
    RepeatEligible(nodes);
    ghost var w, rs := WiringOf(run, map[], nodes), ById(run.relationships);
    D.FailsExactly(w, rs);
    found := Comparison.Differences(Anything(), o.nodes, o.connections, run, map[], {});
    ghost var g :| Comparison.IsReading(o.nodes, o.connections, run, map[], {}, g)
                   && forall d :: d in found <==> Comparison.Reported(Anything(), o.nodes, o.connections, run, g, d);
    assert !Proposes(w, rs, 1) by { NotAgain(w, rs); }
    ghost var d, c := RepeatIsReported(Trial(Anything(), map[], run, o, map[], g), 1);
    JoinsOneToThree(w);
    assert RepeatAdded(o, found, d, c);
  }

  lemma JoinsOneToThree(w: Wiring)
    requires w.entities == Repeated().entities && Eligible(w, Again())
    ensures PairOf(ConnectionOf(w, Again())) == Pair(1, 3) && ConnectionOf(w, Again()).kind == 7
  {
  }

  lemma NotAgain(w: Wiring, rs: seq<Relationship>)
    requires |rs| == 2 && Eligible(w, rs[0]) && Eligible(w, rs[1]) && SignatureOf(w, rs[0]) == SignatureOf(w, rs[1])
    ensures !Proposes(w, rs, 1)
  {
    assert Signs(w, rs, 0, SignatureOf(w, rs[1]));
  }

  // --- settings no source states -------------------------------------------------------------------

  /** Checks that accept everything, and sources that can state nothing. */
  function NothingDeclarable(): Rules {
    Rules({}, t => true, n => true, (s, p) => false)
  }

  /** A node as its entity gives it, with a property declared unknown and an unrecognised setting. */
  function Settled(): Node {
    Node(1, 1, None, None, map[], {5}, map[6 := 1], None)
  }

  lemma SettledMatched()
    ensures var s := Comparison.SidesOf(map[1 := Settled()], Repeated(), map[], {});
            1 in s.nodes && NodeMatching.OfNode(s, 1)
                == NodeMatching.NodeMatch(Some(1), Some(1), NodeMatching.SameId, {})
  {
    var s := Comparison.SidesOf(map[1 := Settled()], Repeated(), map[], {});
    assert s.nodes.Keys == {1} && 1 in s.entities;
    assert NodeMatching.Claimants(s, 1) == {1};
  }

  lemma SettledReported(g: Reading)
    requires Comparison.IsReading(map[1 := Settled()], map[], Repeated(), map[], {}, g)
    ensures var nodes, run := map[1 := Settled()], Repeated();
            && Comparison.Reported(NothingDeclarable(), nodes, map[], run, g,
                Comparison.FieldDiffers(1, Comparison.UnknownField))
            && Comparison.Reported(NothingDeclarable(), nodes, map[], run, g,
                Comparison.FieldDiffers(1, Comparison.ExtraField(6)))
  {
    hide Comparison.Reported, NodeMatching.OfNode, NodeMatching.OfEntity, NodeMatching.Unmet, Comparison.SidesOf,
      Repeated, Matched, RefsAre, Routes, Comparison.Declared;
    SettledMatched();
    RepeatHolds();
    var nodes, run := map[1 := Settled()], Repeated();
    var s := Comparison.SidesOf(nodes, run, map[], {});
    assert NodeMatching.OfNode(s, 1) in g.nodes;
    var i :| 0 <= i < |g.nodes| && g.nodes[i] == NodeMatching.OfNode(s, 1);
    assert D.IsCompared(NothingDeclarable(), nodes, run.entities, g, 1, i);
    D.DroppedReported(NothingDeclarable(), nodes, map[], run, g, 1, 6);
  }

  /** Compared with a source that states nothing of it, the node is reported for both. */
  method CompareSettled() returns (found: set<Comparison.Difference>)
    ensures Comparison.FieldDiffers(1, Comparison.UnknownField) in found
    ensures Comparison.FieldDiffers(1, Comparison.ExtraField(6)) in found
  {
    hide Comparison.Reported, ValidRun, Comparison.IsReading, Repeated, Settled, ById;
    RepeatListed();
    var nodes, run := map[1 := Settled()], Repeated();
    found := Comparison.Differences(NothingDeclarable(), nodes, map[], run, map[], {});
    ghost var g :| Comparison.IsReading(nodes, map[], run, map[], {}, g)
                   && forall d :: d in found <==> Comparison.Reported(NothingDeclarable(), nodes, map[], run, g, d);
    SettledReported(g);
  }

  lemma RepeatHolds()
    ensures 1 in Repeated().entities
  {
  }
}
