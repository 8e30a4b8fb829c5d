/** What a comparison reports of a baseline's nodes, from the baseline and the run themselves. */
module DriftMeanings {
  import opened Options
  import opened Reachability
  import opened Discovery
  import opened NodeMatching
  import opened Comparison

  /** A baseline and what it is compared with. */
  datatype Trial = Trial(rules: Rules, nodes: map<Id, Node>, connections: map<Id, Connection>, run: Run,
    mappings: map<Id, Id>, excluded: set<Id>)

  ghost predicate IsRead(t: Trial, g: Reading) {
    && (forall b :: b in t.nodes ==> t.nodes[b].id == b)
    && IsReading(t.nodes, t.connections, t.run, t.mappings, t.excluded, g)
  }

  ghost predicate Reports(t: Trial, g: Reading, d: Difference) {
    Reported(t.rules, t.nodes, t.connections, t.run, g, d)
  }

  // --- which node is which entity ------------------------------------------------------------------

  ghost predicate IsBaseline(t: Trial, b: Id) {
    b in t.nodes && b !in t.excluded
  }

  ghost predicate IsCandidate(t: Trial, k: Id) {
    k in t.run.entities && k !in t.excluded && t.run.entities[k].role.Component?
  }

  /** The entity has the node's id; or none has, and a person confirmed that the node is the entity. */
  ghost predicate Claims(t: Trial, b: Id, k: Id) {
    && IsBaseline(t, b) && IsCandidate(t, k)
    && (b == k || (!IsCandidate(t, b) && b in t.mappings && t.mappings[b] == k))
  }

  ghost predicate OnlyClaims(t: Trial, b: Id, k: Id) {
    Claims(t, b, k) && forall c :: Claims(t, c, k) ==> c == b
  }

  ghost predicate Unclaimed(t: Trial, k: Id) {
    IsCandidate(t, k) && forall b :: !Claims(t, b, k)
  }

  ghost predicate Lost(t: Trial, b: Id) {
    IsBaseline(t, b) && forall k :: !Claims(t, b, k)
  }

  /** A node that is no entity, of which nothing was confirmed, was discovered where an unclaimed entity stands. */
  ghost predicate StoodAt(t: Trial, b: Id, k: Id) {
    && Lost(t, b) && b !in t.mappings && Unclaimed(t, k)
    && t.nodes[b].place == Some(t.run.entities[k].place)
  }

  function SidesIn(t: Trial): Sides {
    SidesOf(t.nodes, t.run, t.mappings, t.excluded)
  }

  lemma SidesAre(t: Trial, b: Id)
    ensures b in SidesIn(t).nodes <==> IsBaseline(t, b)
    ensures b in SidesIn(t).nodes ==> SidesIn(t).nodes[b] == t.nodes[b].place
    ensures b in SidesIn(t).entities <==> IsCandidate(t, b)
    ensures b in SidesIn(t).entities ==> SidesIn(t).entities[b] == t.run.entities[b].place
    ensures SidesIn(t).mappings == t.mappings
  {
  }

  lemma ClaimsExactly(t: Trial, b: Id, k: Id)
    ensures Claims(t, b, k) <==> b in SidesIn(t).nodes && ClaimOf(SidesIn(t), b) == Some(k)
    ensures Claims(t, b, k) <==> b in Claimants(SidesIn(t), k)
  {
    hide SidesIn, IsBaseline, IsCandidate;
    SidesAre(t, b);
    SidesAre(t, k);
  }

  lemma SidesTold(t: Trial, b: Id, k: Id)
    ensures Lost(t, b) <==> IsLost(SidesIn(t), b)
    ensures Unclaimed(t, k) <==> IsFree(SidesIn(t), k)
    ensures OnlyClaims(t, b, k) <==> Claimants(SidesIn(t), k) == {b}
  {
    hide SidesIn, Claims, Claimants, ClaimOf;
    SidesAre(t, b);
    SidesAre(t, k);
    forall x, y
      ensures Claims(t, x, y) <==> x in SidesIn(t).nodes && ClaimOf(SidesIn(t), x) == Some(y)
      ensures Claims(t, x, y) <==> x in Claimants(SidesIn(t), y)
    {
      ClaimsExactly(t, x, y);
    }
    if IsBaseline(t, b) && ClaimOf(SidesIn(t), b).Some? {
      assert Claims(t, b, ClaimOf(SidesIn(t), b).value);
    }
    OneClaims(t, b, k);
    NoneIn(Claimants(SidesIn(t), k));
  }

  lemma NoneIn(s: set<Id>)
    ensures s == {} <==> forall x :: x !in s
  {
    if s != {} {
      var x := AnyOf(s);
    }
  }

  lemma OneClaims(t: Trial, b: Id, k: Id)
    requires forall x, y :: Claims(t, x, y) <==> x in Claimants(SidesIn(t), y)
    ensures OnlyClaims(t, b, k) <==> Claimants(SidesIn(t), k) == {b}
  {
    hide SidesIn, Claims, Claimants;
    var all := Claimants(SidesIn(t), k);
    if OnlyClaims(t, b, k) {
      assert forall c :: c in all <==> c == b;
      assert all == {b};
    }
    if all == {b} {
      assert b in all;
      assert forall c :: c in all ==> c == b;
    }
  }

  lemma StoodTold(t: Trial, b: Id, k: Id)
    ensures StoodAt(t, b, k) <==> b in NodesNear(SidesIn(t), k)
    ensures StoodAt(t, b, k) <==> IsLost(SidesIn(t), b) && b !in t.mappings && k in Nearby(SidesIn(t), b)
  {
    hide SidesIn, Claims, Claimants, ClaimOf;
    SidesTold(t, b, k);
    SidesAre(t, b);
    SidesAre(t, k);
    NearHas(SidesIn(t), b, k);
  }

  lemma NearHas(s: Sides, b: Id, k: Id)
    ensures b in NodesNear(s, k) <==> IsLost(s, b) && b !in s.mappings && k in Nearby(s, b)
  {
    if IsLost(s, b) && k in Nearby(s, b) {
      NoneIn(Nearby(s, b));
    }
  }

  // --- nodes removed, added or unclear -------------------------------------------------------------

  /** The matches found: one of every node, and one of every entity that is not matched. */
  lemma FoundExactly(t: Trial, g: Reading, m: NodeMatch)
    requires IsRead(t, g)
    ensures m in g.nodes <==>
            (exists b :: b in SidesIn(t).nodes && m == OfNode(SidesIn(t), b))
            || exists k :: k in Unmet(SidesIn(t)) && m == OfEntity(SidesIn(t), k)
  {
    hide ConnectionMatching.RefsAre, ConnectionMatching.Matched, OfNode, OfEntity, Unmet, Routes;
    var s := SidesIn(t);
    if m in g.nodes {
      var i :| 0 <= i < |g.nodes| && g.nodes[i] == m;
      assert Right(s, s.nodes.Keys, Unmet(s), g.nodes[i]);
    }
  }

  /** What the match of a node leads to. */
  lemma OfNodeLeads(t: Trial, b: Id)
    requires b in SidesIn(t).nodes
    ensures var found := OfNodeMatch(t.rules, t.nodes, t.run.entities, OfNode(SidesIn(t), b));
            && ((exists k :: StoodAt(t, b, k)) ==> found == {NodeUnclear(Some(b), None)})
            && (Lost(t, b) && (forall k :: !StoodAt(t, b, k)) ==> found == {NodeRemoved(b)})
            && (forall k :: Claims(t, b, k) && !OnlyClaims(t, b, k) ==> found == {NodeUnclear(Some(b), None)})
            && (forall k :: OnlyClaims(t, b, k) ==> found == NodeDifferences(t.rules, t.nodes[b], t.run.entities[k]))
  {
    hide SidesIn, NodeDifferences, StoodAt, OnlyClaims, Claimants, Nearby;
    var s := SidesIn(t);
    SidesAre(t, b);
    forall k
      ensures Claims(t, b, k) <==> ClaimOf(s, b) == Some(k)
      ensures Lost(t, b) <==> IsLost(s, b)
      ensures OnlyClaims(t, b, k) <==> Claimants(s, k) == {b}
      ensures OnlyClaims(t, b, k) ==> Claims(t, b, k)
      ensures StoodAt(t, b, k) <==> IsLost(s, b) && b !in t.mappings && k in Nearby(s, b)
    {
      ClaimsExactly(t, b, k);
      SidesTold(t, b, k);
      StoodTold(t, b, k);
      OnlyClaimIs(t, b, k);
    }
    NoneIn(Nearby(s, b));
  }

  lemma OnlyClaimIs(t: Trial, b: Id, k: Id)
    ensures OnlyClaims(t, b, k) ==> Claims(t, b, k)
  {
  }

  lemma EntityTold(t: Trial, k: Id)
    ensures k in Unmet(SidesIn(t)) <==> IsCandidate(t, k) && forall b :: !OnlyClaims(t, b, k)
    ensures NodesNear(SidesIn(t), k) == {} <==> forall b :: !StoodAt(t, b, k)
  {
    hide SidesIn, OnlyClaims, StoodAt, Claimants, NodesNear, IsCandidate;
    var s := SidesIn(t);
    SidesAre(t, k);
    forall b
      ensures OnlyClaims(t, b, k) <==> Claimants(s, k) == {b}
      ensures OnlyClaims(t, b, k) ==> b in s.nodes
      ensures StoodAt(t, b, k) <==> b in NodesNear(s, k)
    {
      SidesTold(t, b, k);
      StoodTold(t, b, k);
      OnlyClaimKnown(t, b, k);
    }
    NoneIn(NodesNear(s, k));
  }

  lemma OnlyClaimKnown(t: Trial, b: Id, k: Id)
    ensures OnlyClaims(t, b, k) ==> b in SidesIn(t).nodes
  {
  }

  /** What the match of an entity that is not matched leads to. */
  lemma OfEntityLeads(t: Trial, k: Id)
    requires k in Unmet(SidesIn(t))
    ensures var found := OfNodeMatch(t.rules, t.nodes, t.run.entities, OfEntity(SidesIn(t), k));
            if Unclaimed(t, k) && forall b :: !StoodAt(t, b, k) then found == {NodeAdded(k)}
            else found == if k in t.nodes then {} else {NodeUnclear(None, Some(k))}
  {
    hide SidesIn, StoodAt, NodesNear, NodeDifferences, Unclaimed, Claimants;
    SidesTold(t, k, k);
    EntityTold(t, k);
    UnmetKnown(t, k);
  }

  lemma UnmetKnown(t: Trial, k: Id)
    requires k in Unmet(SidesIn(t))
    ensures k in t.run.entities
  {
  }

  lemma NoNodes(connections: map<Id, Connection>, kinds: map<Id, Option<Id>>, matches: seq<ConnectionMatch>,
      d: Difference)
    requires !d.ConnectionRemoved? && !d.ConnectionAdded? && !d.ConnectionUnclear? && !d.KindDiffers?
    ensures !FromConnections(connections, kinds, matches, |matches|, d)
  {
    hide KindsStated;
  }

  /** What is reported of nodes comes from the match of a node, or of an entity that is not matched. */
  lemma ReportedFrom(t: Trial, g: Reading, d: Difference)
    requires IsRead(t, g) && !d.ConnectionRemoved? && !d.ConnectionAdded? && !d.ConnectionUnclear? && !d.KindDiffers?
    ensures Reports(t, g, d) <==> (exists b :: LedToByNode(t, b, d)) || exists k :: LedToByEntity(t, k, d)
  {
    hide FromConnections, OfNodeMatch, OfNode, OfEntity, Unmet, SidesIn, IsReading, KindsOf;
    NoNodes(t.connections, KindsOf(t.run.relationships), g.connections, d);
    if Reports(t, g, d) {
      var i :| 0 <= i < |g.nodes| && d in OfNodeMatch(t.rules, t.nodes, t.run.entities, g.nodes[i]);
      FoundExactly(t, g, g.nodes[i]);
      if b :| b in SidesIn(t).nodes && g.nodes[i] == OfNode(SidesIn(t), b) {
        assert LedToByNode(t, b, d);
      } else {
        var k :| k in Unmet(SidesIn(t)) && g.nodes[i] == OfEntity(SidesIn(t), k);
        assert LedToByEntity(t, k, d);
      }
    }
    if b :| LedToByNode(t, b, d) {
      FoundExactly(t, g, OfNode(SidesIn(t), b));
      var i :| 0 <= i < |g.nodes| && g.nodes[i] == OfNode(SidesIn(t), b);
    }
    if k :| LedToByEntity(t, k, d) {
      FoundExactly(t, g, OfEntity(SidesIn(t), k));
      var i :| 0 <= i < |g.nodes| && g.nodes[i] == OfEntity(SidesIn(t), k);
    }
  }

  ghost predicate LedToByNode(t: Trial, b: Id, d: Difference) {
    b in SidesIn(t).nodes && d in OfNodeMatch(t.rules, t.nodes, t.run.entities, OfNode(SidesIn(t), b))
  }

  ghost predicate LedToByEntity(t: Trial, k: Id, d: Difference) {
    k in Unmet(SidesIn(t)) && d in OfNodeMatch(t.rules, t.nodes, t.run.entities, OfEntity(SidesIn(t), k))
  }

  /** A node claims one entity, or is lost. */
  lemma NodeCases(t: Trial, b: Id)
    requires IsBaseline(t, b)
    ensures Lost(t, b) || exists k :: Claims(t, b, k)
    ensures forall k, x :: Claims(t, b, k) && Claims(t, b, x) ==> k == x
  {
  }

  /** What a node is reported for when it is not compared with an entity. */
  ghost predicate NodeLeadsTo(t: Trial, b: Id, d: Difference) {
    || (d == NodeRemoved(b) && Lost(t, b) && forall k :: !StoodAt(t, b, k))
    || (d == NodeUnclear(Some(b), None)
        && exists k :: StoodAt(t, b, k) || (Claims(t, b, k) && !OnlyClaims(t, b, k)))
  }

  lemma NodeLeads(t: Trial, b: Id, d: Difference)
    requires d.NodeRemoved? || d.NodeAdded? || d.NodeUnclear?
    ensures LedToByNode(t, b, d) <==> NodeLeadsTo(t, b, d)
  {
    hide SidesIn, OfNodeMatch, OfNode, NodeDifferences;
    SidesAre(t, b);
    if IsBaseline(t, b) {
      OfNodeLeads(t, b);
      NodeCases(t, b);
      if k :| OnlyClaims(t, b, k) {
        NoneOfValues(t.rules, t.nodes[b], t.run.entities[k], d);
      }
    }
  }

  lemma NoneOfValues(rules: Rules, node: Node, e: Entity, d: Difference)
    requires d.NodeRemoved? || d.NodeAdded? || d.NodeUnclear?
    ensures d !in NodeDifferences(rules, node, e)
  {
    hide Declared, FieldsDiffering, UnreadableOf;
  }

  /** What an entity is reported for when no node is matched with it. */
  ghost predicate EntityLeadsTo(t: Trial, k: Id, d: Difference) {
    || (d == NodeAdded(k) && Unclaimed(t, k) && forall b :: !StoodAt(t, b, k))
    || (d == NodeUnclear(None, Some(k)) && IsCandidate(t, k) && k !in t.nodes
        && (forall b :: !OnlyClaims(t, b, k)) && exists b :: StoodAt(t, b, k) || Claims(t, b, k))
  }

  lemma EntityLeads(t: Trial, k: Id, d: Difference)
    ensures LedToByEntity(t, k, d) <==> EntityLeadsTo(t, k, d)
  {
    hide SidesIn, OfNodeMatch, OfEntity, Unmet, StoodAt, Claims;
    EntityTold(t, k);
    if k in Unmet(SidesIn(t)) {
      OfEntityLeads(t, k);
    }
    if Unclaimed(t, k) && forall b :: !StoodAt(t, b, k) {
      assert forall b :: !OnlyClaims(t, b, k);
    }
  }

  lemma OtherwiseFrom(t: Trial, g: Reading, d: Difference)
    requires IsRead(t, g) && (d.NodeRemoved? || d.NodeAdded? || d.NodeUnclear?)
    ensures Reports(t, g, d) <==> (exists b :: NodeLeadsTo(t, b, d)) || exists k :: EntityLeadsTo(t, k, d)
  {
    hide LedToByNode, LedToByEntity, NodeLeadsTo, EntityLeadsTo, Reports, IsRead;
    ReportedFrom(t, g, d);
    forall b
      ensures LedToByNode(t, b, d) <==> NodeLeadsTo(t, b, d)
      ensures LedToByEntity(t, b, d) <==> EntityLeadsTo(t, b, d)
    {
      NodeLeads(t, b, d);
      EntityLeads(t, b, d);
    }
  }

  /**
   * A node is reported removed exactly when it is no entity, and was not discovered where an unclaimed entity stands;
   * an entity added exactly when no node claims it, and none so lost stood there. What is reported unclear is a node
   * that claims an entity together with others, or a lost one and what stands where it stood; an entity that a node
   * is, by its id, is not reported for it again.
   */
  lemma NodesExactly(t: Trial, g: Reading, x: Id)
    requires IsRead(t, g)
    ensures Reports(t, g, NodeRemoved(x)) <==> Lost(t, x) && forall k :: !StoodAt(t, x, k)
    ensures Reports(t, g, NodeAdded(x)) <==> Unclaimed(t, x) && forall b :: !StoodAt(t, b, x)
    ensures Reports(t, g, NodeUnclear(Some(x), None)) <==>
            exists k :: StoodAt(t, x, k) || (Claims(t, x, k) && !OnlyClaims(t, x, k))
    ensures Reports(t, g, NodeUnclear(None, Some(x))) <==>
            IsCandidate(t, x) && x !in t.nodes && (forall b :: !OnlyClaims(t, b, x))
            && exists b :: StoodAt(t, b, x) || Claims(t, b, x)
  {
    hide Lost, Unclaimed, IsCandidate, StoodAt, Claims, OnlyClaims, Reports, IsRead;
    var removed, added, node, entity := NodeRemoved(x), NodeAdded(x), NodeUnclear(Some(x), None),
      NodeUnclear(None, Some(x));
    OtherwiseFrom(t, g, removed);
    OtherwiseFrom(t, g, added);
    OtherwiseFrom(t, g, node);
    OtherwiseFrom(t, g, entity);
    assert NodeLeadsTo(t, x, removed) <==> Lost(t, x) && forall k :: !StoodAt(t, x, k);
    assert EntityLeadsTo(t, x, added) <==> Unclaimed(t, x) && forall b :: !StoodAt(t, b, x);
    assert NodeLeadsTo(t, x, node) <==> exists k :: StoodAt(t, x, k) || (Claims(t, x, k) && !OnlyClaims(t, x, k));
    assert EntityLeadsTo(t, x, entity) <==>
        IsCandidate(t, x) && x !in t.nodes && (forall b :: !OnlyClaims(t, b, x))
        && exists b :: StoodAt(t, b, x) || Claims(t, b, x);
  }

  // --- what a matched node is compared with --------------------------------------------------------

  /** The last mapping of the property, the only one that counts. */
  ghost predicate IsLastMapping(e: Entity, p: Id, j: int) {
    && 0 <= j < |e.configuration| && e.configuration[j].property == p
    && forall i :: j < i < |e.configuration| ==> e.configuration[i].property != p
  }

  ghost predicate StatesNothing(e: Entity, p: Id) {
    forall i :: 0 <= i < |e.configuration| ==> e.configuration[i].property != p
  }

  ghost predicate StatesValue(e: Entity, p: Id, v: int) {
    exists j :: IsLastMapping(e, p, j) && e.configuration[j].valid && e.configuration[j].value == Some(v)
  }

  ghost predicate StatesUnusable(e: Entity, p: Id) {
    exists j :: IsLastMapping(e, p, j) && (!e.configuration[j].valid || e.configuration[j].value.None?)
  }

  /** The technology the entity states, a version it does not state taken from the node, if it can be held. */
  ghost predicate StatesTechnology(rules: Rules, node: Node, e: Entity, x: Technology) {
    && e.technology == Some(x.name) && rules.technology(x)
    && (e.version.Some? ==> x.version == e.version)
    && (e.version.None? && node.technology.Some? ==> x.version == node.technology.value.version)
    && (e.version.None? && node.technology.None? ==> x.version.None?)
  }

  function ValueAt(node: Node, p: Id): Option<int> {
    if p in node.configuration then Some(node.configuration[p]) else None
  }

  /** The node as the source declares it: what the source can and does state, over what the node held. */
  ghost predicate AsDeclared(rules: Rules, node: Node, e: Entity, now: Node) {
    && now.id == node.id && now.place == node.place && now.unknown == {} && now.extra == map[]
    && (e.kind.Some? ==> now.kind == e.kind.value) && (e.kind.None? ==> now.kind == node.kind)
    && (e.mapped.Some? ==> now.component == e.mapped) && (e.mapped.None? ==> now.component == node.component)
    && (forall x :: StatesTechnology(rules, node, e, x) ==> now.technology == Some(x))
    && ((forall x :: !StatesTechnology(rules, node, e, x)) ==> now.technology == node.technology)
    && forall p ::
         && (!rules.declarable(e.source, p) || StatesUnusable(e, p) ==> ValueAt(now, p) == ValueAt(node, p))
         && (rules.declarable(e.source, p) && StatesNothing(e, p) ==> ValueAt(now, p) == None)
         && (rules.declarable(e.source, p) ==> forall v :: StatesValue(e, p, v) ==> ValueAt(now, p) == Some(v))
  }

  lemma {:induction false} StatedLast(ms: seq<PropertyMapping>, p: Id)
    ensures p !in Stated(ms) <==> forall i :: 0 <= i < |ms| ==> ms[i].property != p
    ensures p in Stated(ms) ==>
              exists j :: 0 <= j < |ms| && ms[j] == Stated(ms)[p] && ms[j].property == p
                && forall i :: j < i < |ms| ==> ms[i].property != p
    decreases |ms|
  {
    if ms != [] {
      var z := |ms| - 1;
      StatedLast(ms[..z], p);
      if p in Stated(ms) && ms[z].property != p {
        var j :| 0 <= j < z && ms[..z][j] == Stated(ms[..z])[p] && ms[..z][j].property == p
          && forall i :: j < i < z ==> ms[..z][i].property != p;
        assert ms[j] == Stated(ms)[p] && forall i :: j < i < z ==> ms[..z][i] == ms[i];
      }
      assert forall i :: 0 <= i < z ==> ms[..z][i] == ms[i];
    }
  }

  /** Each property is stated with a value, unusably, or not at all. */
  lemma StatedIs(e: Entity, p: Id)
    ensures StatesNothing(e, p) <==> p !in Stated(e.configuration)
    ensures StatesUnusable(e, p) <==>
            p in Stated(e.configuration)
            && (!Stated(e.configuration)[p].valid || Stated(e.configuration)[p].value.None?)
    ensures forall v :: StatesValue(e, p, v) <==>
                        p in Stated(e.configuration) && Stated(e.configuration)[p].valid
                        && Stated(e.configuration)[p].value == Some(v)
  {
    hide Stated;
    var ms := e.configuration;
    StatedLast(ms, p);
    if p in Stated(ms) {
      var j :| 0 <= j < |ms| && ms[j] == Stated(ms)[p] && ms[j].property == p
        && forall i :: j < i < |ms| ==> ms[i].property != p;
      assert IsLastMapping(e, p, j);
      forall i | IsLastMapping(e, p, i)
        ensures i == j
      {
      }
    }
  }

  lemma DeclaredValueIs(rules: Rules, node: Node, e: Entity, p: Id)
    ensures var at := DeclaredAt(rules, node, e, p);
            && ValueAt(Declared(rules, node, e), p) == at
            && (!rules.declarable(e.source, p) || StatesUnusable(e, p) ==> at == ValueAt(node, p))
            && (rules.declarable(e.source, p) && StatesNothing(e, p) ==> at == None)
            && (rules.declarable(e.source, p) ==> forall v :: StatesValue(e, p, v) ==> at == Some(v))
    ensures IsUnreadable(rules, node, e, p) <==> rules.declarable(e.source, p) && StatesUnusable(e, p)
    ensures p in UnreadableOf(rules, node, e) <==> IsUnreadable(rules, node, e, p)
  {
    hide Stated, StatesNothing, StatesUnusable, StatesValue;
    StatedIs(e, p);
  }

  lemma TechnologyIs(rules: Rules, node: Node, e: Entity)
    ensures forall x :: StatesTechnology(rules, node, e, x) ==> DeclaredTechnology(rules, node, e) == Some(x)
    ensures DeclaredTechnology(rules, node, e) != node.technology ==>
              DeclaredTechnology(rules, node, e).Some?
              && StatesTechnology(rules, node, e, DeclaredTechnology(rules, node, e).value)
  {
  }

  /** There is one such node, and it is what the node is compared with. */
  lemma AsDeclaredIs(rules: Rules, node: Node, e: Entity, now: Node)
    ensures AsDeclared(rules, node, e, now) <==> now == Declared(rules, node, e)
  {
    hide StatesNothing, StatesUnusable, StatesValue, DeclaredAt, DeclaredConfiguration, StatesTechnology, UnreadableOf,
      DeclaredTechnology;
    var d := Declared(rules, node, e);
    TechnologyIs(rules, node, e);
    forall p
      ensures (!rules.declarable(e.source, p) || StatesUnusable(e, p) ==> ValueAt(d, p) == ValueAt(node, p))
      ensures (rules.declarable(e.source, p) && StatesNothing(e, p) ==> ValueAt(d, p) == None)
      ensures (rules.declarable(e.source, p) ==> forall v :: StatesValue(e, p, v) ==> ValueAt(d, p) == Some(v))
    {
      DeclaredValueIs(rules, node, e, p);
    }
    assert AsDeclared(rules, node, e, d);
    if AsDeclared(rules, node, e, now) {
      forall p
        ensures ValueAt(now, p) == ValueAt(d, p)
      {
        StatedSomehow(e, p);
      }
      SameValues(now, d);
    }
  }

  lemma StatedSomehow(e: Entity, p: Id)
    ensures StatesNothing(e, p) || StatesUnusable(e, p) || exists v :: StatesValue(e, p, v)
  {
    hide Stated, StatesNothing, StatesUnusable, StatesValue;
    StatedIs(e, p);
    var stated := Stated(e.configuration);
    if p in stated && stated[p].value.Some? {
      assert StatesValue(e, p, stated[p].value.value) <==> stated[p].valid;
    }
  }

  lemma SameValues(a: Node, b: Node)
    requires forall p :: ValueAt(a, p) == ValueAt(b, p)
    ensures a.configuration == b.configuration
  {
    forall p
      ensures p in a.configuration <==> p in b.configuration
      ensures p in a.configuration && p in b.configuration ==> a.configuration[p] == b.configuration[p]
    {
      assert ValueAt(a, p) == ValueAt(b, p);
    }
  }

  // --- the values reported -------------------------------------------------------------------------

  /** What is reported of the values of a matched node. */
  lemma MatchedFrom(t: Trial, g: Reading, b: Id, k: Id, d: Difference)
    requires IsRead(t, g) && OnlyClaims(t, b, k) && k in t.run.entities && b in t.nodes
    requires (d.FieldDiffers? || d.Unreadable? || d.Incomparable?) && d.id == b
    ensures Reports(t, g, d) <==> d in NodeDifferences(t.rules, t.nodes[b], t.run.entities[k])
  {
    hide LedToByEntity, Reports, SidesIn, OfNodeMatch, OfNode, NodeDifferences, IsReading;
    ReportedFrom(t, g, d);
    forall c
      ensures !LedToByEntity(t, c, d)
      ensures LedToByNode(t, c, d) <==> c == b && d in NodeDifferences(t.rules, t.nodes[b], t.run.entities[k])
    {
      EntityLeads(t, c, d);
      MatchedLeads(t, c, d);
      SidesAre(t, c);
      if c == b {
        OfNodeLeads(t, b);
      }
    }
    assert LedToByNode(t, b, d) <==> d in NodeDifferences(t.rules, t.nodes[b], t.run.entities[k]);
  }

  /** The values of a node are reported of no other, and only when it is matched. */
  lemma MatchedLeads(t: Trial, c: Id, d: Difference)
    requires (d.FieldDiffers? || d.Unreadable? || d.Incomparable?) && forall b :: b in t.nodes ==> t.nodes[b].id == b
    ensures LedToByNode(t, c, d) ==> d.id == c && exists k :: OnlyClaims(t, c, k)
  {
    hide SidesIn, OfNodeMatch, OfNode, NodeDifferences;
    SidesAre(t, c);
    if IsBaseline(t, c) {
      OfNodeLeads(t, c);
      NodeCases(t, c);
      if k :| OnlyClaims(t, c, k) {
        NamesItsNode(t.rules, t.nodes[c], t.run.entities[k], d);
      }
    }
  }

  lemma NamesItsNode(rules: Rules, node: Node, e: Entity, d: Difference)
    requires d.FieldDiffers? || d.Unreadable? || d.Incomparable?
    ensures d in NodeDifferences(rules, node, e) ==> d.id == node.id
  {
    hide Declared, FieldsDiffering, UnreadableOf;
  }

  /** Values are reported of a node only when one entity is matched with it. */
  lemma ValuesOfMatched(t: Trial, g: Reading, d: Difference)
    requires IsRead(t, g) && (d.FieldDiffers? || d.Unreadable? || d.Incomparable?) && Reports(t, g, d)
    ensures exists k :: OnlyClaims(t, d.id, k)
  {
    hide LedToByEntity, LedToByNode, Reports, IsReading, OnlyClaims;
    ReportedFrom(t, g, d);
    if k :| LedToByEntity(t, k, d) {
      EntityLeads(t, k, d);
    }
    if b :| LedToByNode(t, b, d) {
      MatchedLeads(t, b, d);
    }
  }

  lemma FieldIn(rules: Rules, node: Node, e: Entity, f: Field)
    ensures FieldDiffers(node.id, f) in NodeDifferences(rules, node, e) <==>
            rules.node(Declared(rules, node, e)) && f in FieldsDiffering(node, Declared(rules, node, e))
  {
    hide Declared, FieldsDiffering, UnreadableOf;
  }

  lemma UnreadableIn(rules: Rules, node: Node, e: Entity, p: Id)
    ensures Unreadable(node.id, p) in NodeDifferences(rules, node, e) <==>
            rules.node(Declared(rules, node, e)) && p in UnreadableOf(rules, node, e)
    ensures Incomparable(node.id) in NodeDifferences(rules, node, e) <==> !rules.node(Declared(rules, node, e))
  {
    hide Declared, FieldsDiffering, UnreadableOf;
  }

  lemma PropertyDiffers(a: Node, b: Node, p: Id)
    ensures Property(p) in FieldsDiffering(a, b) <==> ValueAt(a, p) != ValueAt(b, p)
  {
  }

  /**
   * When a matched node can be compared, its kind and its component are reported exactly when the entity has another;
   * its technology, when the entity states another that can be held; and a property, when the source can declare it
   * and either no longer does, or last declares another usable value. A last value that is not usable is reported
   * unreadable instead. A node that the checks do not accept as declared is reported once, for that.
   */
  lemma ValuesExactly(t: Trial, g: Reading, b: Id, k: Id, now: Node, p: Id)
    requires IsRead(t, g) && OnlyClaims(t, b, k) && b in t.nodes && k in t.run.entities
    requires AsDeclared(t.rules, t.nodes[b], t.run.entities[k], now)
    ensures var node, e, comparable := t.nodes[b], t.run.entities[k], t.rules.node(now);
            && (Reports(t, g, Incomparable(b)) <==> !comparable)
            && (Reports(t, g, FieldDiffers(b, KindField)) <==>
                  comparable && e.kind.Some? && e.kind.value != node.kind)
            && (Reports(t, g, FieldDiffers(b, ComponentField)) <==>
                  comparable && e.mapped.Some? && e.mapped != node.component)
            && (Reports(t, g, FieldDiffers(b, TechnologyField)) <==>
                  comparable && exists x :: StatesTechnology(t.rules, node, e, x) && node.technology != Some(x))
            && (Reports(t, g, FieldDiffers(b, Property(p))) <==>
                  comparable && t.rules.declarable(e.source, p)
                  && ((StatesNothing(e, p) && p in node.configuration)
                      || exists v :: StatesValue(e, p, v) && ValueAt(node, p) != Some(v)))
            && (Reports(t, g, Unreadable(b, p)) <==>
                  comparable && t.rules.declarable(e.source, p) && StatesUnusable(e, p))
            && (Reports(t, g, FieldDiffers(b, UnknownField)) <==> comparable && node.unknown != {})
            && (Reports(t, g, FieldDiffers(b, ExtraField(p))) <==> comparable && p in node.extra)
  {
    hide Reports, IsRead, OnlyClaims, AsDeclared, NodeDifferences, UnreadableOf, StatesValue, StatesNothing,
      StatesUnusable, StatesTechnology, IsUnreadable, DeclaredAt, DeclaredTechnology, DeclaredConfiguration, ValueAt;
    var node, e := t.nodes[b], t.run.entities[k];
    NodeIds(t, g, b);
    AsDeclaredIs(t.rules, node, e, now);
    MatchedFrom(t, g, b, k, Incomparable(b));
    MatchedFrom(t, g, b, k, Unreadable(b, p));
    UnreadableIn(t.rules, node, e, p);
    DeclaredValueIs(t.rules, node, e, p);
    MatchedFrom(t, g, b, k, FieldDiffers(b, KindField));
    FieldIn(t.rules, node, e, KindField);
    MatchedFrom(t, g, b, k, FieldDiffers(b, ComponentField));
    FieldIn(t.rules, node, e, ComponentField);
    MatchedFrom(t, g, b, k, FieldDiffers(b, TechnologyField));
    FieldIn(t.rules, node, e, TechnologyField);
    TechnologyIs(t.rules, node, e);
    MatchedFrom(t, g, b, k, FieldDiffers(b, Property(p)));
    FieldIn(t.rules, node, e, Property(p));
    PropertyDiffers(node, now, p);
    StatedSomehow(e, p);
    HeldIs(node, p);
    MatchedFrom(t, g, b, k, FieldDiffers(b, UnknownField));
    MatchedFrom(t, g, b, k, FieldDiffers(b, ExtraField(p)));
    DroppedExactly(t.rules, node, e, p);
  }

  lemma HeldIs(node: Node, p: Id)
    ensures ValueAt(node, p).Some? <==> p in node.configuration
  {
  }

  lemma NodeIds(t: Trial, g: Reading, b: Id)
    requires IsRead(t, g) && b in t.nodes
    ensures t.nodes[b].id == b
  {
    hide IsReading;
  }
}
