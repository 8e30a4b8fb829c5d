/** Which nodes and connections a proposal holds, and what each is, from the run and the decisions themselves. */
module ProposalMeanings {
  import opened Options
  import opened Reachability
  import opened Discovery
  import opened Proposal
  import opened OwnDrift
  import opened RouteDrift

  // --- nodes ---------------------------------------------------------------------------------------

  ghost predicate Declines(decisions: map<Id, Decision>, subject: Id) {
    subject in decisions && decisions[subject] == Declined
  }

  /** The kind the source establishes, or the one a reviewer accepted where it does not. */
  ghost predicate HasKind(decisions: map<Id, Decision>, e: Entity, kind: Id) {
    || e.kind == Some(kind)
    || (e.kind.None? && e.key in decisions && decisions[e.key].Accepted? && decisions[e.key].nodeKind == Some(kind))
  }

  ghost predicate Chooses(decisions: map<Id, Decision>, e: Entity, component: Id) {
    e.key in decisions && decisions[e.key].Accepted? && decisions[e.key].component == Some(component)
  }

  /** An accepted choice the catalog has; none for a choice it has not; without a choice, the confident mapping. */
  ghost predicate HasComponent(rules: Rules, decisions: map<Id, Decision>, e: Entity, component: Option<Id>) {
    && (forall c :: Chooses(decisions, e, c) ==> component == if c in rules.catalog then Some(c) else None)
    && ((forall c :: !Chooses(decisions, e, c)) ==> component == e.mapped)
  }

  /** The technology stated, with its version if that can be held, else without it if that can. */
  ghost predicate HasTechnology(rules: Rules, e: Entity, technology: Option<Technology>) {
    match e.technology
    case None => technology == None
    case Some(name) =>
      var whole, bare := Technology(name, e.version), Technology(name, None);
      && (rules.technology(whole) ==> technology == Some(whole))
      && (!rules.technology(whole) && rules.technology(bare) ==> technology == Some(bare))
      && (!rules.technology(whole) && !rules.technology(bare) ==> technology == None)
  }

  ghost predicate IsUsable(e: Entity, p: Id, i: int) {
    0 <= i < |e.configuration| && e.configuration[i].property == p && e.configuration[i].valid
    && e.configuration[i].value.Some?
  }

  /** The property has the value of its last usable mapping, and none without one. */
  ghost predicate HasValues(e: Entity, values: map<Id, int>) {
    && (forall p :: p in values <==> exists i :: IsUsable(e, p, i))
    && forall p, i :: IsUsable(e, p, i) && p in values && (forall j :: i < j ==> !IsUsable(e, p, j)) ==>
         Some(values[p]) == e.configuration[i].value
  }

  ghost predicate IsNodeOf(rules: Rules, decisions: map<Id, Decision>, e: Entity, n: Node) {
    && n.id == e.key && n.place == Some(e.place) && n.unknown == {} && n.extra == map[]
    && HasKind(decisions, e, n.kind) && HasComponent(rules, decisions, e, n.component)
    && HasTechnology(rules, e, n.technology) && HasValues(e, n.configuration)
  }

  lemma {:induction false} ConfigurationHas(ms: seq<PropertyMapping>, p: Id)
    ensures p in ConfigurationOf(ms) <==>
            exists i :: 0 <= i < |ms| && ms[i].property == p && ms[i].valid && ms[i].value.Some?
    ensures p in ConfigurationOf(ms) ==>
              exists i :: 0 <= i < |ms| && ms[i].property == p && ms[i].valid
                && ms[i].value == Some(ConfigurationOf(ms)[p])
                && forall j :: i < j < |ms| ==> !(ms[j].property == p && ms[j].valid && ms[j].value.Some?)
    decreases |ms|
  {
    if ms != [] {
      var z := |ms| - 1;
      ConfigurationHas(ms[..z], p);
      assert forall i :: 0 <= i < z ==> ms[..z][i] == ms[i];
      if ms[z].property == p && ms[z].valid && ms[z].value.Some? {
        assert ms[z].value == Some(ConfigurationOf(ms)[p]);
      } else if p in ConfigurationOf(ms[..z]) {
        var i :| 0 <= i < z && ms[..z][i].property == p && ms[..z][i].valid
          && ms[..z][i].value == Some(ConfigurationOf(ms[..z])[p])
          && forall j :: i < j < z ==> !(ms[..z][j].property == p && ms[..z][j].valid && ms[..z][j].value.Some?);
        assert ms[i].value == Some(ConfigurationOf(ms)[p]);
      }
    }
  }

  lemma ValuesAre(e: Entity)
    ensures HasValues(e, ConfigurationOf(e.configuration))
  {
    hide ConfigurationOf;
    var values, ms := ConfigurationOf(e.configuration), e.configuration;
    forall p
      ensures p in values <==> exists i :: IsUsable(e, p, i)
      ensures forall i :: IsUsable(e, p, i) && p in values && (forall j :: i < j ==> !IsUsable(e, p, j)) ==>
                Some(values[p]) == ms[i].value
    {
      ConfigurationHas(ms, p);
      if p in values {
        var i :| 0 <= i < |ms| && ms[i].property == p && ms[i].valid && ms[i].value == Some(values[p])
          && forall j :: i < j < |ms| ==> !(ms[j].property == p && ms[j].valid && ms[j].value.Some?);
        assert IsUsable(e, p, i) && forall j :: i < j ==> !IsUsable(e, p, j);
        forall k | IsUsable(e, p, k) && forall j :: k < j ==> !IsUsable(e, p, j)
          ensures k == i
        {
        }
      }
    }
  }

  lemma ValuesAreOne(e: Entity, a: map<Id, int>, b: map<Id, int>)
    requires HasValues(e, a) && HasValues(e, b)
    ensures a == b
  {
    assert forall p :: p in a <==> p in b;
    forall p | p in a && p in b
      ensures a[p] == b[p]
    {
      var i := LastUsable(e, p, |e.configuration|);
    }
  }

  lemma {:induction false} LastUsable(e: Entity, p: Id, n: nat) returns (i: int)
    requires (exists j :: IsUsable(e, p, j)) && forall j :: n <= j ==> !IsUsable(e, p, j)
    ensures IsUsable(e, p, i) && forall j :: i < j ==> !IsUsable(e, p, j)
  {
    i := n - 1;
    if n > 0 && !IsUsable(e, p, i) {
      i := LastUsable(e, p, n - 1);
    }
  }

  lemma KindIs(decisions: map<Id, Decision>, e: Entity, kind: Id)
    ensures HasKind(decisions, e, kind) <==> KindOf(decisions, e) == Some(kind)
  {
  }

  lemma ComponentIs(rules: Rules, decisions: map<Id, Decision>, e: Entity, component: Option<Id>)
    ensures HasComponent(rules, decisions, e, component) <==> component == ComponentOf(rules, decisions, e)
  {
    if e.key in decisions && decisions[e.key].Accepted? && decisions[e.key].component.Some? {
      assert Chooses(decisions, e, decisions[e.key].component.value);
    }
  }

  lemma TechnologyIs(rules: Rules, e: Entity, technology: Option<Technology>)
    ensures HasTechnology(rules, e, technology) <==> technology == TechnologyOf(rules, e)
  {
  }

  lemma NodeIs(rules: Rules, decisions: map<Id, Decision>, e: Entity, n: Node)
    ensures IsNodeOf(rules, decisions, e, n) <==>
            KindOf(decisions, e) == Some(n.kind) && n == NodeOf(rules, decisions, e, n.kind)
  {
    hide HasKind, HasComponent, HasTechnology, HasValues, KindOf, ComponentOf, TechnologyOf, ConfigurationOf;
    KindIs(decisions, e, n.kind);
    ComponentIs(rules, decisions, e, n.component);
    TechnologyIs(rules, e, n.technology);
    ValuesAre(e);
    if HasValues(e, n.configuration) {
      ValuesAreOne(e, n.configuration, ConfigurationOf(e.configuration));
    }
  }

  /**
   * A component that is not declined is proposed exactly when it has a kind and the checks accept the node it makes;
   * the node has the kind, the component, the technology and the values those rules give. It waits for a reviewer
   * exactly when it has no kind.
   */
  lemma NodeExactly(rules: Rules, decisions: map<Id, Decision>, run: Run, o: Outcome, k: Id)
    requires o.Proposed? && ValidRun(run) && IsProposal(rules, decisions, run, o) && k in run.entities
    ensures var e := run.entities[k];
            var asked := e.role.Component? && !Declines(decisions, k);
            && (k in o.nodes <==> asked && exists n :: IsNodeOf(rules, decisions, e, n) && rules.node(n))
            && (k in o.nodes ==> IsNodeOf(rules, decisions, e, o.nodes[k]))
            && k in o.nodeStatus && (o.nodeStatus[k] == Included <==> k in o.nodes)
            && (o.nodeStatus[k] == NeedsReview <==> asked && forall kind :: !HasKind(decisions, e, kind))
  {
    hide ConnectionsAre, StatusesAre, ById, IsNodeOf, HasKind, NodeOf, KindOf, Joins;
    var e := run.entities[k];
    forall n
      ensures IsNodeOf(rules, decisions, e, n) <==>
              KindOf(decisions, e) == Some(n.kind) && n == NodeOf(rules, decisions, e, n.kind)
    {
      NodeIs(rules, decisions, e, n);
    }
    forall kind
      ensures HasKind(decisions, e, kind) <==> KindOf(decisions, e) == Some(kind)
    {
      KindIs(decisions, e, kind);
    }
    if KindOf(decisions, e).Some? {
      KindHeld(rules, decisions, e, KindOf(decisions, e).value);
    }
  }

  lemma KindHeld(rules: Rules, decisions: map<Id, Decision>, e: Entity, kind: Id)
    ensures NodeOf(rules, decisions, e, kind).kind == kind
  {
  }

  // --- connections ---------------------------------------------------------------------------------

  /** A resolved selector of a routing entity. */
  ghost predicate Picks(run: Run, s: Id, a: Relationship) {
    && a in run.relationships && a.source == s && a.selector && a.target.Some?
    && s in run.entities && run.entities[s].role.Routing?
  }

  ghost predicate PicksLast(run: Run, s: Id, a: Relationship) {
    Picks(run, s, a) && forall b :: Picks(run, s, b) ==> b.id <= a.id
  }

  /** A reference to a service leads to what its selector of highest id picks; any other to what it names. */
  ghost predicate LeadsTo(run: Run, target: Id, w: Id) {
    || (exists a :: PicksLast(run, target, a) && a.target == Some(w))
    || (w == target && forall a :: !Picks(run, target, a))
  }

  /** The kind the source states, or the one a reviewer accepted where it does not. */
  ghost predicate HasConnectionKind(decisions: map<Id, Decision>, r: Relationship, kind: Id) {
    || r.kind == Some(kind)
    || (r.kind.None? && r.id in decisions && decisions[r.id].Accepted? && decisions[r.id].connectionKind == Some(kind))
  }

  /** The reference is asked about: it is resolved, no selector of a service, and not declined. */
  ghost predicate IsAsked(run: Run, decisions: map<Id, Decision>, r: Relationship) {
    && r in run.relationships && r.target.Some? && !Declines(decisions, r.id)
    && r.source in run.entities && !(run.entities[r.source].role.Routing? && r.selector)
  }

  /** The reference joins two proposed nodes by a connection of that kind. */
  ghost predicate Makes(run: Run, decisions: map<Id, Decision>, o: Outcome, r: Relationship, w: Id, kind: Id)
    requires o.Proposed?
  {
    && IsAsked(run, decisions, r) && LeadsTo(run, r.target.value, w)
    && r.source in o.nodes && w in o.nodes && HasConnectionKind(decisions, r, kind)
  }

  /** It does, and none of a lower id makes the same connection. */
  ghost predicate MakesFirst(run: Run, decisions: map<Id, Decision>, o: Outcome, r: Relationship, w: Id, kind: Id)
    requires o.Proposed?
  {
    && Makes(run, decisions, o, r, w, kind)
    && forall q :: Makes(run, decisions, o, q, w, kind) && q.source == r.source ==> r.id <= q.id
  }

  lemma PicksSelects(run: Run, s: Id, a: Relationship)
    ensures Picks(run, s, a) <==> IsSelector(run, s, a)
  {
  }

  lemma LeadsExactly(run: Run, target: Id, w: Id)
    requires ValidRun(run)
    ensures LeadsTo(run, target, w) <==> w == Reached(run.entities, ProposalRoutes(run), target)
  {
    hide ValidRun, ProposalRoutes, RunRoutes, Picks, IsSelector;
    forall a
      ensures Picks(run, target, a) <==> IsSelector(run, target, a)
      ensures PicksLast(run, target, a) <==> HighestSelector(run, target, a)
    {
      forall b
        ensures Picks(run, target, b) <==> IsSelector(run, target, b)
      {
        PicksSelects(run, target, b);
      }
    }
    if q :| IsSelector(run, target, q) {
      Routed(run, target, q);
      var a, b := Followed(run, target, q);
      forall y | HighestSelector(run, target, y)
        ensures y == b
      {
        HighestIsOne(run, target, y, b);
      }
    } else if target in ProposalRoutes(run) {
      SelectorOf(run, target);
    }
  }

  lemma ConnectionKindIs(decisions: map<Id, Decision>, r: Relationship, kind: Id)
    ensures HasConnectionKind(decisions, r, kind) <==> ConnectionKindOf(decisions, r) == Some(kind)
  {
  }

  lemma MakesExactly(rules: Rules, decisions: map<Id, Decision>, run: Run, o: Outcome, r: Relationship, w: Id, kind: Id)
    requires o.Proposed? && ValidRun(run) && IsProposal(rules, decisions, run, o)
    ensures var wiring := WiringOf(run, decisions, o.nodes);
            Makes(run, decisions, o, r, w, kind) <==>
            r in run.relationships && Eligible(wiring, r) && SignatureOf(wiring, r) == Signature(r.source, w, kind)
  {
    hide ConnectionsAre, StatusesAre, LeadsTo, HasConnectionKind, ConnectionKindOf, Joins, ById, Routes, Reached;
    if r.target.Some? {
      LeadsExactly(run, r.target.value, w);
    }
    ConnectionKindIs(decisions, r, kind);
  }

  /**
   * A reference gives a connection exactly when it joins two proposed nodes by a known kind, and no reference of a
   * lower id makes the same connection; it is that connection.
   */
  lemma ConnectionExactly(rules: Rules, decisions: map<Id, Decision>, run: Run, o: Outcome, id: Id)
    requires o.Proposed? && ValidRun(run) && IsProposal(rules, decisions, run, o)
    ensures id in o.connections <==> exists r, w, kind :: MakesFirst(run, decisions, o, r, w, kind) && r.id == id
    ensures forall r, w, kind :: MakesFirst(run, decisions, o, r, w, kind) && r.id == id && id in o.connections ==>
              o.connections[id] == Connection(id, r.source, w, kind)
  {
    hide NodesAre, StatusesAre, Makes, Joins, ById, Eligible, ValidRun;
    var wiring, rs := WiringOf(run, decisions, o.nodes), ById(run.relationships);
    if id in o.connections {
      var j :| 0 <= j < |rs| && rs[j].id == id && Proposes(wiring, rs, j);
      ProposesMakes(rules, decisions, run, o, j);
    }
    forall r, w, kind | MakesFirst(run, decisions, o, r, w, kind) && r.id == id
      ensures id in o.connections && o.connections[id] == Connection(id, r.source, w, kind)
    {
      var j := MakesProposes(rules, decisions, run, o, r, w, kind);
      MakesExactly(rules, decisions, run, o, r, w, kind);
      assert ProposedBy(wiring, rs, |rs|, id);
    }
  }

  lemma ProposesMakes(rules: Rules, decisions: map<Id, Decision>, run: Run, o: Outcome, j: int)
    requires o.Proposed? && ValidRun(run) && IsProposal(rules, decisions, run, o)
    requires Proposes(WiringOf(run, decisions, o.nodes), ById(run.relationships), j)
    ensures var r, wiring := ById(run.relationships)[j], WiringOf(run, decisions, o.nodes);
            Eligible(wiring, r)
            && MakesFirst(run, decisions, o, r, SignatureOf(wiring, r).target, SignatureOf(wiring, r).kind)
  {
    hide NodesAre, StatusesAre, ConnectionsAre, Makes, Joins, ById, Eligible;
    var wiring, rs := WiringOf(run, decisions, o.nodes), ById(run.relationships);
    var r := rs[j];
    var g := SignatureOf(wiring, r);
    assert r in rs;
    SignatureSource(wiring, r);
    MakesExactly(rules, decisions, run, o, r, g.target, g.kind);
    ByIdAscending(run.relationships);
    forall q | Makes(run, decisions, o, q, g.target, g.kind) && q.source == r.source
      ensures r.id <= q.id
    {
      MakesExactly(rules, decisions, run, o, q, g.target, g.kind);
      assert q in rs;
      var i :| 0 <= i < |rs| && rs[i] == q;
      assert Signs(wiring, rs, i, g);
    }
  }

  lemma SignatureSource(w: Wiring, r: Relationship)
    requires Eligible(w, r)
    ensures SignatureOf(w, r).source == r.source
    ensures ConnectionOf(w, r) == Connection(r.id, r.source, SignatureOf(w, r).target, SignatureOf(w, r).kind)
  {
  }

  lemma MakesProposes(rules: Rules, decisions: map<Id, Decision>, run: Run, o: Outcome, r: Relationship, w: Id,
      kind: Id)
    returns (j: int)
    requires o.Proposed? && ValidRun(run) && IsProposal(rules, decisions, run, o)
    requires MakesFirst(run, decisions, o, r, w, kind)
    ensures Proposes(WiringOf(run, decisions, o.nodes), ById(run.relationships), j) && ById(run.relationships)[j] == r
  {
    hide NodesAre, StatusesAre, ConnectionsAre, Makes, Joins, ById, Eligible;
    var wiring, rs := WiringOf(run, decisions, o.nodes), ById(run.relationships);
    MakesExactly(rules, decisions, run, o, r, w, kind);
    ByIdAscending(run.relationships);
    assert r in rs;
    j :| 0 <= j < |rs| && rs[j] == r;
    forall i | 0 <= i < j
      ensures !Signs(wiring, rs, i, SignatureOf(wiring, r))
    {
      if Signs(wiring, rs, i, SignatureOf(wiring, r)) {
        SignatureSource(wiring, rs[i]);
        assert rs[i] in rs;
        MakesExactly(rules, decisions, run, o, rs[i], w, kind);
      }
    }
  }

  /** A node that is proposed, or waits for a reviewer. */
  ghost predicate MayBe(decisions: map<Id, Decision>, run: Run, o: Outcome, k: Id)
    requires o.Proposed?
  {
    || k in o.nodes
    || (k in run.entities && run.entities[k].role.Component? && !Declines(decisions, k)
        && forall kind :: !HasKind(decisions, run.entities[k], kind))
  }

  /**
   * A reference waits for a reviewer exactly when it joins components that are proposed or may be, and one of them or
   * its own kind is still to be stated.
   */
  lemma WaitsExactly(rules: Rules, decisions: map<Id, Decision>, run: Run, o: Outcome, r: Relationship)
    requires o.Proposed? && ValidRun(run) && IsProposal(rules, decisions, run, o) && r in run.relationships
    ensures r.id in o.connectionStatus
    ensures o.connectionStatus[r.id] == Included <==> r.id in o.connections
    ensures o.connectionStatus[r.id] == NeedsReview <==>
            IsAsked(run, decisions, r)
            && exists w :: LeadsTo(run, r.target.value, w)
                 && MayBe(decisions, run, o, r.source) && MayBe(decisions, run, o, w)
                 && (r.source !in o.nodes || w !in o.nodes || forall kind :: !HasConnectionKind(decisions, r, kind))
  {
    hide ConnectionsAre, NodesAre, LeadsTo, HasConnectionKind, MayBe, Possible, ConnectionKindOf, Joins, ById, Routes,
      Reached;
    var rs, wiring := ById(run.relationships), WiringOf(run, decisions, o.nodes);
    assert r in rs;
    var j :| 0 <= j < |rs| && rs[j] == r;
    assert o.connectionStatus[rs[j].id] == NeedsReview <==> Awaits(wiring, r);
    forall kind
      ensures HasConnectionKind(decisions, r, kind) <==> ConnectionKindOf(decisions, r) == Some(kind)
    {
      ConnectionKindIs(decisions, r, kind);
    }
    if ConnectionKindOf(decisions, r).Some? {
      assert HasConnectionKind(decisions, r, ConnectionKindOf(decisions, r).value);
    }
    MayBeIs(rules, decisions, run, o, r.source);
    if r.target.Some? {
      var w := Reached(run.entities, ProposalRoutes(run), r.target.value);
      MayBeIs(rules, decisions, run, o, w);
      forall x
        ensures LeadsTo(run, r.target.value, x) <==> x == w
      {
        LeadsExactly(run, r.target.value, x);
      }
      assert LeadsTo(run, r.target.value, w);
    }
  }

  lemma MayBeIs(rules: Rules, decisions: map<Id, Decision>, run: Run, o: Outcome, k: Id)
    requires o.Proposed? && ValidRun(run) && IsProposal(rules, decisions, run, o)
    ensures MayBe(decisions, run, o, k) <==> Possible(WiringOf(run, decisions, o.nodes), k)
    ensures MayBe(decisions, run, o, k) ==> k in run.entities && run.entities[k].role.Component?
  {
    hide ConnectionsAre, StatusesAre, HasKind, Joins, ById, Routes, KindOf, NodeOf;
    if k in run.entities {
      forall kind
        ensures HasKind(decisions, run.entities[k], kind) <==> KindOf(decisions, run.entities[k]) == Some(kind)
      {
        KindIs(decisions, run.entities[k], kind);
      }
    }
  }
}
