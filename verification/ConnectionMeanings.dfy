/** What a comparison reports of a baseline's connections, from the baseline and the run themselves. */
module ConnectionMeanings {
  import opened Options
  import opened Reachability
  import opened Discovery
  import opened ConnectionMatching
  import opened Comparison
  import opened DriftMeanings
  import NodeMatching
  import OwnDrift
  import RouteDrift

  // --- where a reference leads ---------------------------------------------------------------------

  ghost predicate IsRead(t: Trial, g: Reading) {
    ValidRun(t.run) && DriftMeanings.IsRead(t, g)
  }

  ghost predicate IsReference(t: Trial, r: Relationship) {
    r in t.run.relationships && r.id !in t.excluded
  }

  /** A resolved selector of a routing entity. */
  ghost predicate Picks(t: Trial, s: Id, a: Relationship) {
    && IsReference(t, a) && a.source == s && a.selector && a.target.Some?
    && s in t.run.entities && t.run.entities[s].role.Routing?
  }

  /** The last of them by source, reference and id. */
  ghost predicate PicksLast(t: Trial, s: Id, a: Relationship) {
    Picks(t, s, a) && forall b :: Picks(t, s, b) ==> b == a || Before(b, a)
  }

  /** A reference to a service leads to what its last selector picks, if it has any; any other to what it names. */
  ghost predicate Leads(t: Trial, target: Id, w: Id) {
    && target in t.run.entities
    && (t.run.entities[target].role.Routing? ==> exists a :: PicksLast(t, target, a) && a.target == Some(w))
    && (!t.run.entities[target].role.Routing? ==> w == target)
  }

  ghost predicate IsComponent(t: Trial, k: Id) {
    k in t.run.entities && t.run.entities[k].role.Component?
  }

  /** The reference leads from one component to another. */
  ghost predicate Refers(t: Trial, r: Relationship, w: Id) {
    && IsReference(t, r) && r.target.Some? && Leads(t, r.target.value, w)
    && IsComponent(t, r.source) && IsComponent(t, w)
  }

  function References(t: Trial): seq<Relationship> {
    Without(t.run.relationships, t.excluded)
  }

  function RoutesIn(t: Trial): map<Id, Id> {
    Routes(References(t), t.run.entities)
  }

  ghost predicate InOrder(rs: seq<Relationship>) {
    forall i, j :: 0 <= i < j < |rs| ==> Before(rs[i], rs[j])
  }

  lemma {:induction false} WithoutOrdered(rs: seq<Relationship>, excluded: set<Id>)
    requires InOrder(rs)
    ensures InOrder(Without(rs, excluded))
  {
    hide Before;
    if rs != [] {
      var s := Without(rs[1..], excluded);
      WithoutOrdered(rs[1..], excluded);
      assert Without(rs, excluded) == if rs[0].id in excluded then s else [rs[0]] + s;
      forall j | 0 <= j < |s|
        ensures Before(rs[0], s[j])
      {
        assert s[j] in rs[1..];
        var i :| 0 <= i < |rs[1..]| && rs[1..][i] == s[j];
        assert rs[i + 1] == s[j];
      }
    }
  }

  lemma PicksSelects(t: Trial, s: Id, a: Relationship)
    ensures Picks(t, s, a) <==> a in References(t) && RouteDrift.SelectsFor(t.run.entities, s, a)
  {
  }

  lemma LastPicked(t: Trial, s: Id, i: int)
    requires ValidRun(t.run) && RouteDrift.IsLastFor(References(t), t.run.entities, s, i)
    ensures PicksLast(t, s, References(t)[i])
    ensures s in RoutesIn(t) && References(t)[i].target == Some(RoutesIn(t)[s])
  {
    hide Joins, Before, Routes, References, RouteDrift.SelectsFor, Picks;
    var rs := References(t);
    RouteDrift.RouteIsLast(rs, t.run.entities, s, i);
    ReferencesOrdered(t);
    PicksSelects(t, s, rs[i]);
    assert rs[i] in rs;
    forall b | Picks(t, s, b)
      ensures b == rs[i] || Before(b, rs[i])
    {
      PicksSelects(t, s, b);
      var j :| 0 <= j < |rs| && rs[j] == b;
    }
  }

  lemma ReferencesOrdered(t: Trial)
    requires ValidRun(t.run)
    ensures InOrder(References(t))
  {
    hide Joins, Before;
    WithoutOrdered(t.run.relationships, t.excluded);
  }

  lemma LastIsOne(t: Trial, s: Id, a: Relationship, b: Relationship)
    requires PicksLast(t, s, a) && PicksLast(t, s, b)
    ensures a == b
  {
  }

  lemma RouteExactly(t: Trial, s: Id)
    requires ValidRun(t.run)
    ensures s in RoutesIn(t) <==> exists a :: PicksLast(t, s, a)
    ensures forall a :: PicksLast(t, s, a) && s in RoutesIn(t) ==> a.target == Some(RoutesIn(t)[s])
  {
    hide ValidRun, References, Routes, RouteDrift.SelectsFor, PicksLast;
    var rs := References(t);
    if s in RoutesIn(t) || exists a :: PicksLast(t, s, a) {
      var k := SelectorFor(t, s);
      var i := RouteDrift.LastFor(rs, t.run.entities, s, k);
      LastPicked(t, s, i);
      forall a | PicksLast(t, s, a)
        ensures a == rs[i]
      {
        LastIsOne(t, s, a, rs[i]);
      }
    }
  }

  lemma SelectorFor(t: Trial, s: Id) returns (k: int)
    requires s in RoutesIn(t) || exists a :: PicksLast(t, s, a)
    ensures 0 <= k < |References(t)| && RouteDrift.SelectsFor(t.run.entities, s, References(t)[k])
  {
    hide References, Before;
    var rs := References(t);
    if a :| PicksLast(t, s, a) {
      PicksSelects(t, s, a);
      k :| 0 <= k < |rs| && rs[k] == a;
    } else {
      var r :| r in rs && Selects(t.run.entities, r) && r.source == s;
      k :| 0 <= k < |rs| && rs[k] == r;
    }
  }

  lemma EndsExactly(t: Trial, r: Relationship, w: Id)
    requires ValidRun(t.run) && r in References(t)
    ensures Refers(t, r, w) <==> EndsOf(t.run.entities, RoutesIn(t), r) == Some(Pair(r.source, w))
    ensures EndsOf(t.run.entities, RoutesIn(t), r).Some? ==>
            EndsOf(t.run.entities, RoutesIn(t), r).value.source == r.source
  {
    hide ValidRun, RoutesIn, PicksLast;
    if r.target.Some? {
      RouteExactly(t, r.target.value);
      if a :| PicksLast(t, r.target.value, a) {
        PicksRouting(t, r.target.value, a);
        forall b | PicksLast(t, r.target.value, b)
          ensures b == a
        {
          LastIsOne(t, r.target.value, a, b);
        }
      }
    }
  }

  lemma PicksRouting(t: Trial, s: Id, a: Relationship)
    requires PicksLast(t, s, a)
    ensures s in t.run.entities && t.run.entities[s].role.Routing? && a.target.Some?
  {
  }

  // --- the nodes it joins --------------------------------------------------------------------------

  lemma ReadMatches(t: Trial, g: Reading)
    requires IsRead(t, g)
    ensures NodeMatching.Matches(SidesIn(t), g.nodes)
  {
    hide ValidRun, RefsAre, Matched, Routes, NodeMatching.Matches;
  }

  lemma BaselineExactly(t: Trial, g: Reading, k: Id)
    requires IsRead(t, g)
    ensures k in BaselineOf(g.nodes) <==> exists b :: OnlyClaims(t, b, k)
    ensures forall b :: OnlyClaims(t, b, k) && k in BaselineOf(g.nodes) ==> BaselineOf(g.nodes)[k] == b
  {
    hide IsRead, BaselineOf, OnlyClaims, SidesIn, NodeMatching.Matches, NodeMatching.Claimants;
    var m := BaselineOf(g.nodes);
    ReadMatches(t, g);
    if k in m {
      var i :| 0 <= i < |g.nodes| && NodeMatching.IsMatched(g.nodes[i]) && g.nodes[i].key == Some(k)
        && g.nodes[i].baseline == Some(m[k]);
      MatchedOnly(t, g, i);
    }
    forall b | OnlyClaims(t, b, k)
      ensures k in m && m[k] == b
    {
      SidesTold(t, b, k);
      OnlyClaimKnown(t, b, k);
      NodeMatching.MatchedExactly(SidesIn(t), g.nodes, b, k);
      var i :| 0 <= i < |g.nodes| && NodeMatching.IsMatched(g.nodes[i]) && g.nodes[i].baseline == Some(b)
        && g.nodes[i].key == Some(k);
      OneClaimant(t, b, m[k], k);
    }
  }

  lemma OneClaimant(t: Trial, b: Id, c: Id, k: Id)
    requires OnlyClaims(t, b, k) && OnlyClaims(t, c, k)
    ensures b == c
  {
  }

  lemma MatchedOnly(t: Trial, g: Reading, i: int)
    requires IsRead(t, g) && 0 <= i < |g.nodes| && NodeMatching.IsMatched(g.nodes[i])
    ensures g.nodes[i].baseline.Some? && g.nodes[i].key.Some?
    ensures OnlyClaims(t, g.nodes[i].baseline.value, g.nodes[i].key.value)
  {
    hide IsRead, OnlyClaims, SidesIn, NodeMatching.Matches, NodeMatching.Claimants;
    ReadMatches(t, g);
    MatchedIs(SidesIn(t), g.nodes, i);
    SidesTold(t, g.nodes[i].baseline.value, g.nodes[i].key.value);
  }

  lemma MatchedIs(s: NodeMatching.Sides, found: seq<NodeMatch>, i: int)
    requires NodeMatching.Matches(s, found) && 0 <= i < |found| && NodeMatching.IsMatched(found[i])
    ensures found[i].baseline.Some? && found[i].key.Some?
    ensures NodeMatching.Claimants(s, found[i].key.value) == {found[i].baseline.value}
  {
    hide NodeMatching.Claimants, NodeMatching.IsLost, NodeMatching.IsNear, NodeMatching.Unmet, NodeMatching.Nearby;
    assert NodeMatching.Right(s, s.nodes.Keys, NodeMatching.Unmet(s), found[i]);
  }

  /** The reference leads from the entity of one node to that of another. */
  ghost predicate JoinsAt(t: Trial, r: Relationship, p: Pair) {
    exists w :: Refers(t, r, w) && OnlyClaims(t, p.source, r.source) && OnlyClaims(t, p.target, w)
  }

  /** The node that is the entity, if one is, else the entity itself. */
  ghost predicate StandsFor(t: Trial, e: Id, k: Id) {
    OnlyClaims(t, e, k) || (e == k && forall b :: !OnlyClaims(t, b, k))
  }

  /** The reference leads to or from an entity that is no node. */
  ghost predicate StraysAt(t: Trial, r: Relationship, p: Pair) {
    exists w :: Refers(t, r, w) && StandsFor(t, p.source, r.source) && StandsFor(t, p.target, w)
      && ((forall b :: !OnlyClaims(t, b, r.source)) || forall b :: !OnlyClaims(t, b, w))
  }

  lemma RefIs(t: Trial, g: Reading, r: Relationship)
    requires IsRead(t, g) && r in References(t)
    ensures var ends := EndsOf(t.run.entities, RoutesIn(t), r);
            && (r.id in g.links.refs <==> ends.Some?)
            && (ends.Some? && r.id in g.links.refs ==>
                  g.links.refs[r.id] == RefOf(BaselineOf(g.nodes), ends.value, r.kind))
  {
    hide ValidRun, EndsOf, Routes, BaselineOf, Matched, RefOf, NodeMatching.Matches;
    var rs := References(t);
    var i :| 0 <= i < |rs| && rs[i] == r;
  }

  lemma RefFrom(t: Trial, g: Reading, x: Id) returns (r: Relationship)
    requires IsRead(t, g) && x in g.links.refs
    ensures r in References(t) && r.id == x
  {
    hide ValidRun, EndsOf, Routes, BaselineOf, Matched, RefOf, NodeMatching.Matches;
    var rs := References(t);
    var i :| 0 <= i < |rs| && rs[i].id == x;
    r := rs[i];
  }

  lemma RefExactly(t: Trial, g: Reading, r: Relationship, p: Pair)
    requires IsRead(t, g) && r in References(t)
    ensures JoinsAt(t, r, p) <==>
            r.id in g.links.refs && g.links.refs[r.id].matched && g.links.refs[r.id].pair == p
    ensures StraysAt(t, r, p) <==>
            r.id in g.links.refs && !g.links.refs[r.id].matched && g.links.refs[r.id].pair == p
    ensures r.id in g.links.refs ==> g.links.refs[r.id].kind == r.kind
  {
    hide ValidRun, EndsOf, RoutesIn, BaselineOf, Refers, OnlyClaims, References, DriftMeanings.IsRead;
    RefIs(t, g, r);
    forall w
      ensures Refers(t, r, w) <==> EndsOf(t.run.entities, RoutesIn(t), r) == Some(Pair(r.source, w))
    {
      EndsExactly(t, r, w);
    }
    var ends := EndsOf(t.run.entities, RoutesIn(t), r);
    if ends.Some? {
      EndsExactly(t, r, ends.value.target);
      BaselineExactly(t, g, ends.value.source);
      BaselineExactly(t, g, ends.value.target);
      assert Refers(t, r, ends.value.target);
    }
  }

  // --- which connection is which reference ---------------------------------------------------------

  ghost predicate IsConnection(t: Trial, c: Id) {
    c in t.connections && c !in t.excluded
  }

  /** The connection of that id joins those nodes, and one of its references kept its id and joins them still. */
  ghost predicate IsFound(t: Trial, c: Id) {
    IsConnection(t, c) && exists r: Relationship :: r.id == c && JoinsAt(t, r, PairOf(t.connections[c]))
  }

  /** A reference that joins the nodes and is not a connection found by its id. */
  ghost predicate IsOpen(t: Trial, r: Relationship, p: Pair) {
    JoinsAt(t, r, p) && !IsFound(t, r.id)
  }

  /** Another connection of the same ends that was not found by its id. */
  ghost predicate IsSibling(t: Trial, c: Id, d: Id)
    requires IsConnection(t, c)
  {
    IsConnection(t, d) && !IsFound(t, d) && PairOf(t.connections[d]) == PairOf(t.connections[c])
  }

  /** The connection is one of the references: by its id; else as the only one left between its ends; else by kind. */
  ghost predicate Accepts(t: Trial, c: Id, r: Relationship) {
    && IsConnection(t, c)
    && var p, kind := PairOf(t.connections[c]), t.connections[c].kind;
       if IsFound(t, c) then r.id == c && JoinsAt(t, r, p)
       else
         && IsOpen(t, r, p)
         && ((forall d :: IsSibling(t, c, d) ==> d == c)
             || (r.kind == Some(kind)
                 && forall d :: IsSibling(t, c, d) && t.connections[d].kind == kind ==> c <= d))
  }

  /** It is none of them, but may be one that states no kind. */
  ghost predicate MayBe(t: Trial, c: Id, r: Relationship) {
    && IsConnection(t, c) && !IsFound(t, c) && (forall q :: !Accepts(t, c, q))
    && IsOpen(t, r, PairOf(t.connections[c])) && r.kind.None?
  }

  lemma LinksHold(t: Trial, g: Reading, c: Id)
    requires IsRead(t, g)
    ensures c in g.links.connections <==> IsConnection(t, c)
    ensures c in g.links.connections ==> g.links.connections[c] == t.connections[c]
    ensures Matched(g.links, g.connections)
  {
    hide ValidRun, RefsAre, Matched, Routes, NodeMatching.Matches;
  }

  lemma JoinsKnown(t: Trial, r: Relationship, p: Pair)
    ensures JoinsAt(t, r, p) || StraysAt(t, r, p) ==> r in References(t)
  {
  }

  /** A reference is found in the group of a pair of nodes exactly when it joins them. */
  lemma GroupExactly(t: Trial, g: Reading, p: Pair, x: Id)
    requires IsRead(t, g)
    ensures x in Group(g.links, p) <==> exists r: Relationship :: r.id == x && JoinsAt(t, r, p)
    ensures x in Strays(g.links, p) <==> exists r: Relationship :: r.id == x && StraysAt(t, r, p)
  {
    hide IsRead, JoinsAt, StraysAt, References;
    if x in g.links.refs {
      var r := RefFrom(t, g, x);
      RefExactly(t, g, r, p);
    }
    forall r: Relationship | r.id == x && (JoinsAt(t, r, p) || StraysAt(t, r, p))
      ensures x in g.links.refs
      ensures JoinsAt(t, r, p) ==> x in Group(g.links, p)
      ensures StraysAt(t, r, p) ==> x in Strays(g.links, p)
    {
      JoinsKnown(t, r, p);
      RefExactly(t, g, r, p);
    }
  }

  lemma SameReference(t: Trial, r: Relationship, q: Relationship, p: Pair, o: Pair)
    requires ValidRun(t.run) && JoinsAt(t, r, p) && JoinsAt(t, q, o) && r.id == q.id
    ensures r == q
  {
    OwnDrift.SameRelationship(t.run, r, q);
  }

  lemma FoundExactly(t: Trial, g: Reading, c: Id)
    requires IsRead(t, g)
    ensures IsSame(g.links, c) <==> IsFound(t, c)
  {
    hide IsRead, JoinsAt;
    LinksHold(t, g, c);
    if IsConnection(t, c) {
      GroupExactly(t, g, PairOf(t.connections[c]), c);
    }
  }

  lemma OpenExactly(t: Trial, g: Reading, p: Pair, r: Relationship)
    requires IsRead(t, g) && JoinsAt(t, r, p)
    ensures r.id in Available(g.links, p) <==> IsOpen(t, r, p)
    ensures r.id in g.links.refs && g.links.refs[r.id].kind == r.kind && r.id in Group(g.links, p)
  {
    hide IsRead, JoinsAt, IsSame, IsFound;
    JoinsKnown(t, r, p);
    RefExactly(t, g, r, p);
    FoundExactly(t, g, r.id);
    KeptExactly(g.links, r.id);
    LinksHold(t, g, r.id);
  }

  lemma KeptExactly(l: Links, c: Id)
    ensures c in ConnectionMatching.Kept(l) <==> IsSame(l, c)
  {
  }

  lemma OpenFrom(t: Trial, g: Reading, p: Pair, x: Id) returns (r: Relationship)
    requires IsRead(t, g) && x in Group(g.links, p)
    ensures r.id == x && JoinsAt(t, r, p)
  {
    hide IsRead, JoinsAt;
    GroupExactly(t, g, p, x);
    r :| r.id == x && JoinsAt(t, r, p);
  }

  lemma SiblingExactly(t: Trial, g: Reading, c: Id, d: Id)
    requires IsRead(t, g) && IsConnection(t, c)
    ensures d in Siblings(g.links, PairOf(t.connections[c])) <==> IsSibling(t, c, d)
  {
    hide IsRead, IsSame, IsFound;
    LinksHold(t, g, d);
    FoundExactly(t, g, d);
  }

  lemma AloneExactly(t: Trial, g: Reading, c: Id)
    requires IsRead(t, g) && IsConnection(t, c) && !IsFound(t, c)
    ensures c in g.links.connections
    ensures Siblings(g.links, PairOf(t.connections[c])) == {c} <==> forall d :: IsSibling(t, c, d) ==> d == c
    ensures IsFirst(g.links, c) <==>
            forall d :: IsSibling(t, c, d) && t.connections[d].kind == t.connections[c].kind ==> c <= d
  {
    hide IsRead, IsSame, IsFound, IsSibling, Siblings;
    LinksHold(t, g, c);
    var siblings := Siblings(g.links, PairOf(t.connections[c]));
    forall d
      ensures d in siblings <==> IsSibling(t, c, d)
      ensures d in g.links.connections <==> IsConnection(t, d)
      ensures d in g.links.connections ==> g.links.connections[d] == t.connections[d]
    {
      SiblingExactly(t, g, c, d);
      LinksHold(t, g, d);
    }
    assert IsSibling(t, c, c) by { OwnSibling(t, c); }
    assert forall d :: IsSibling(t, c, d) ==> IsConnection(t, d) by { SiblingsKnown(t, c); }
    if forall d :: IsSibling(t, c, d) ==> d == c {
      assert forall d :: d in siblings <==> d == c;
      assert siblings == {c};
    }
    assert siblings == {c} ==> forall d :: d in siblings ==> d == c;
  }

  lemma OwnSibling(t: Trial, c: Id)
    requires IsConnection(t, c) && !IsFound(t, c)
    ensures IsSibling(t, c, c)
  {
  }

  lemma SiblingsKnown(t: Trial, c: Id)
    requires IsConnection(t, c)
    ensures forall d :: IsSibling(t, c, d) ==> IsConnection(t, d)
  {
  }

  /** A connection takes the references it is, and lists those it may be. */
  lemma TakesExactly(t: Trial, g: Reading, c: Id, r: Relationship)
    requires IsRead(t, g) && IsConnection(t, c) && JoinsAt(t, r, PairOf(t.connections[c]))
    ensures c in g.links.connections
    ensures IsFound(t, c) ==> (r.id in OfConnection(g.links, c).relationships <==> Accepts(t, c, r))
    ensures !IsFound(t, c) ==> (r.id in Chosen(g.links, c) <==> Accepts(t, c, r))
  {
    hide IsRead, JoinsAt, IsSame, IsFound, IsSibling, Siblings, Available, Group;
    LinksHold(t, g, c);
    FoundExactly(t, g, c);
    OpenExactly(t, g, PairOf(t.connections[c]), r);
    if !IsFound(t, c) {
      AloneExactly(t, g, c);
    }
  }

  lemma ChosenFrom(t: Trial, g: Reading, c: Id, x: Id)
    requires IsRead(t, g) && c in g.links.connections && x in Chosen(g.links, c)
    ensures x in Group(g.links, PairOf(g.links.connections[c]))
  {
    hide IsRead;
  }

  lemma ChosenExactly(t: Trial, g: Reading, c: Id)
    requires IsRead(t, g) && IsConnection(t, c) && !IsFound(t, c)
    ensures c in g.links.connections
    ensures forall x :: x in Chosen(g.links, c) <==> exists r :: Accepts(t, c, r) && r.id == x
    ensures forall x :: x in Stating(g.links, PairOf(t.connections[c]), None) <==>
                        exists r :: IsOpen(t, r, PairOf(t.connections[c])) && r.kind.None? && r.id == x
  {
    hide IsRead, JoinsAt, IsFound, IsSibling, Chosen, Available, Group, IsSame;
    LinksHold(t, g, c);
    var p := PairOf(t.connections[c]);
    forall x
      ensures x in Chosen(g.links, c) <==> exists r :: Accepts(t, c, r) && r.id == x
    {
      if x in Chosen(g.links, c) {
        ChosenFrom(t, g, c, x);
        var r := OpenFrom(t, g, p, x);
        TakesExactly(t, g, c, r);
      }
      if r :| Accepts(t, c, r) && r.id == x {
        TakesExactly(t, g, c, r);
      }
    }
    forall x
      ensures x in Stating(g.links, p, None) <==> exists r :: IsOpen(t, r, p) && r.kind.None? && r.id == x
    {
      if x in Stating(g.links, p, None) {
        AvailableGroup(g.links, p, x);
        var r := OpenFrom(t, g, p, x);
        OpenExactly(t, g, p, r);
      }
      if r :| IsOpen(t, r, p) && r.kind.None? && r.id == x {
        OpenExactly(t, g, p, r);
      }
    }
  }

  lemma AvailableGroup(l: Links, p: Pair, x: Id)
    ensures x in Available(l, p) ==> x in Group(l, p)
  {
  }

  /** What a connection is matched with, and how. */
  lemma MatchExactly(t: Trial, g: Reading, c: Id)
    requires IsRead(t, g) && IsConnection(t, c)
    ensures c in g.links.connections
    ensures var m := OfConnection(g.links, c);
            && m.baseline == Some(c) && m.pair == PairOf(t.connections[c])
            && (forall x :: x in m.relationships <==> exists r :: Accepts(t, c, r) && r.id == x)
            && (forall x :: x in m.candidates <==> exists r :: MayBe(t, c, r) && r.id == x)
            && (m.how.SameId? || m.how.BySignature? <==> exists r :: Accepts(t, c, r))
            && (m.how.Ambiguous? <==> exists r :: MayBe(t, c, r))
            && (m.how.Unmatched? <==> (forall r :: !Accepts(t, c, r)) && forall r :: !MayBe(t, c, r))
  {
    hide IsRead, JoinsAt, IsFound, IsSibling, Chosen, Stating, IsSame, IsOpen;
    LinksHold(t, g, c);
    FoundExactly(t, g, c);
    var m := OfConnection(g.links, c);
    if IsFound(t, c) {
      var r := FoundBy(t, c);
      assert m.relationships == {c};
      assert Accepts(t, c, r);
    } else {
      ChosenExactly(t, g, c);
      NoneIn(Chosen(g.links, c));
      NoneIn(Stating(g.links, PairOf(t.connections[c]), None));
      MatchCases(t, g, c);
    }
  }

  lemma FoundBy(t: Trial, c: Id) returns (r: Relationship)
    requires IsFound(t, c)
    ensures r.id == c && JoinsAt(t, r, PairOf(t.connections[c]))
  {
    r :| r.id == c && JoinsAt(t, r, PairOf(t.connections[c]));
  }

  lemma MatchCases(t: Trial, g: Reading, c: Id)
    requires c in g.links.connections && IsConnection(t, c) && !IsFound(t, c)
    requires forall x :: x in Chosen(g.links, c) <==> exists r :: Accepts(t, c, r) && r.id == x
    requires forall x :: x in Stating(g.links, PairOf(t.connections[c]), None) <==>
                         exists r :: IsOpen(t, r, PairOf(t.connections[c])) && r.kind.None? && r.id == x
    ensures (exists r :: Accepts(t, c, r)) <==> exists x :: x in Chosen(g.links, c)
    ensures (forall r :: !Accepts(t, c, r)) ==>
              forall x :: x in Stating(g.links, PairOf(t.connections[c]), None) <==>
                          exists r :: MayBe(t, c, r) && r.id == x
    ensures (exists r :: MayBe(t, c, r)) <==>
            (forall r :: !Accepts(t, c, r)) && exists x :: x in Stating(g.links, PairOf(t.connections[c]), None)
  {
    hide Accepts, IsFound, IsOpen, Chosen, Stating;
    var none := Stating(g.links, PairOf(t.connections[c]), None);
    if r :| MayBe(t, c, r) {
      assert r.id in none;
    }
    if r :| Accepts(t, c, r) {
      assert r.id in Chosen(g.links, c);
    }
  }

  // --- what is reported ----------------------------------------------------------------------------

  ghost predicate OfConnections(d: Difference) {
    d.ConnectionRemoved? || d.ConnectionAdded? || d.ConnectionUnclear? || d.KindDiffers?
  }

  ghost predicate LedTo(t: Trial, m: ConnectionMatch, d: Difference) {
    d in OfConnectionMatch(t.connections, KindsOf(t.run.relationships), m)
  }

  lemma NotOfNodes(t: Trial, g: Reading, d: Difference)
    requires OfConnections(d)
    ensures !FromNodes(t.rules, t.nodes, t.run.entities, g.nodes, |g.nodes|, d)
  {
    hide Declared, FieldsDiffering, UnreadableOf;
  }

  lemma ReportedBy(t: Trial, g: Reading, d: Difference)
    requires OfConnections(d)
    ensures DriftMeanings.Reports(t, g, d) <==> exists m :: m in g.connections && LedTo(t, m, d)
  {
    hide OfConnectionMatch, OfNodeMatch, KindsOf;
    NotOfNodes(t, g, d);
    if DriftMeanings.Reports(t, g, d) {
      var kinds := KindsOf(t.run.relationships);
      var i :| 0 <= i < |g.connections| && d in OfConnectionMatch(t.connections, kinds, g.connections[i]);
      assert LedTo(t, g.connections[i], d);
    }
    if m :| m in g.connections && LedTo(t, m, d) {
      var i :| 0 <= i < |g.connections| && g.connections[i] == m;
    }
  }

  /** The matches found: one of every connection, and one of the references left over between a pair of ends. */
  lemma MatchesExactly(t: Trial, g: Reading, m: ConnectionMatch)
    requires IsRead(t, g)
    ensures m in g.connections <==>
            (m.baseline.Some? && IsConnection(t, m.baseline.value) && m.baseline.value in g.links.connections
             && m == OfConnection(g.links, m.baseline.value))
            || (m == OfLeftover(g.links, m.pair) && m.relationships != {})
            || (m == OfStrays(g.links, m.pair) && m.relationships != {})
  {
    hide IsRead, OfConnection, Leftover, Strays, Group;
    LinksAre(t, g);
    PairsKnown(g.links, m.pair);
    if m in g.connections {
      var i :| 0 <= i < |g.connections| && g.connections[i] == m;
      if m.baseline.Some? {
        LinksHold(t, g, m.baseline.value);
      }
    }
  }

  lemma LinksAre(t: Trial, g: Reading)
    requires IsRead(t, g)
    ensures Matched(g.links, g.connections)
  {
    hide ValidRun, RefsAre, Matched, Routes, NodeMatching.Matches;
  }

  lemma PairsKnown(l: Links, p: Pair)
    ensures Leftover(l, p) != {} ==> p in PairsOf(l, true)
    ensures Strays(l, p) != {} ==> p in PairsOf(l, false)
  {
    hide Taken, Listed;
    if Leftover(l, p) != {} {
      var x := AnyOf(Leftover(l, p));
      assert x in Group(l, p);
    }
    if Strays(l, p) != {} {
      var x := AnyOf(Strays(l, p));
    }
  }

  lemma AllKinds(t: Trial, r: Relationship)
    requires ValidRun(t.run) && r in t.run.relationships
    ensures r.id in KindsOf(t.run.relationships) && KindsOf(t.run.relationships)[r.id] == r.kind
  {
    hide KindsOf, Joins, Before;
    var kinds := KindsOf(t.run.relationships);
    assert r.id in kinds;
    var q :| q in t.run.relationships && q.id == r.id && kinds[r.id] == q.kind;
    OwnDrift.SameRelationship(t.run, r, q);
  }

  lemma AcceptedKnown(t: Trial, c: Id, r: Relationship)
    requires Accepts(t, c, r)
    ensures r in t.run.relationships && JoinsAt(t, r, PairOf(t.connections[c]))
  {
    hide OnlyClaims, IsFound;
  }

  /** The kinds stated by what a connection takes. */
  lemma StatedExactly(t: Trial, g: Reading, c: Id, group: set<Id>)
    requires IsRead(t, g) && IsConnection(t, c) && c in g.links.connections
    requires group == OfConnection(g.links, c).relationships * KindsOf(t.run.relationships).Keys
    ensures forall k :: k in KindsStated(KindsOf(t.run.relationships), group) <==>
                        exists r :: Accepts(t, c, r) && r.kind == Some(k)
    ensures KindsStated(KindsOf(t.run.relationships), group) == {} <==>
            forall r :: Accepts(t, c, r) ==> r.kind.None?
  {
    hide KindsOf, OfConnection, Accepts, DriftMeanings.IsRead, ValidRun;
    MatchExactly(t, g, c);
    var kinds := KindsOf(t.run.relationships);
    var stated := KindsStated(kinds, group);
    forall r | Accepts(t, c, r)
      ensures r.id in group && r.id in kinds && kinds[r.id] == r.kind
    {
      AcceptedKnown(t, c, r);
      AllKinds(t, r);
    }
    forall k
      ensures k in stated <==> exists r :: Accepts(t, c, r) && r.kind == Some(k)
    {
      if k in stated {
        var x :| x in group && x in kinds && kinds[x] == Some(k);
        var r :| Accepts(t, c, r) && r.id == x;
      }
    }
    NoneIn(stated);
    assert forall r :: Accepts(t, c, r) && r.kind.Some? ==> r.kind.value in stated;
  }

  /** What the match of a connection leads to. */
  lemma ConnectionLeads(t: Trial, g: Reading, c: Id, d: Difference)
    requires IsRead(t, g) && IsConnection(t, c)
    ensures c in g.links.connections
    ensures LedTo(t, OfConnection(g.links, c), d) <==>
            || (d == KindDiffers(c) && (exists r :: Accepts(t, c, r) && r.kind.Some?)
                && forall r :: Accepts(t, c, r) ==> r.kind != Some(t.connections[c].kind))
            || (d == ConnectionUnclear(Some(c), PairOf(t.connections[c])) && exists r :: MayBe(t, c, r))
            || (d == ConnectionRemoved(c) && (forall r :: !Accepts(t, c, r)) && forall r :: !MayBe(t, c, r))
  {
    hide IsRead, KindsOf, OfConnection, Accepts, MayBe, KindsStated;
    MatchExactly(t, g, c);
    var m := OfConnection(g.links, c);
    StatedExactly(t, g, c, m.relationships * KindsOf(t.run.relationships).Keys);
    HowIs(m);
  }

  lemma HowIs(m: ConnectionMatch)
    ensures m.how.SameId? || m.how.BySignature? || m.how.Ambiguous? || m.how.Unmatched? || m.how.ConfirmedMapping?
  {
  }

  /**
   * A connection is reported removed exactly when it is none of the references, and may be none that states no kind;
   * unclear when it is none but may be such a one; and of another kind when what it is states kinds, and not its own.
   */
  lemma ConnectionsExactly(t: Trial, g: Reading, c: Id, p: Pair)
    requires IsRead(t, g)
    ensures DriftMeanings.Reports(t, g, ConnectionRemoved(c)) <==>
            IsConnection(t, c) && (forall r :: !Accepts(t, c, r)) && forall r :: !MayBe(t, c, r)
    ensures DriftMeanings.Reports(t, g, ConnectionUnclear(Some(c), p)) <==>
            IsConnection(t, c) && p == PairOf(t.connections[c]) && exists r :: MayBe(t, c, r)
    ensures DriftMeanings.Reports(t, g, KindDiffers(c)) <==>
            IsConnection(t, c) && (exists r :: Accepts(t, c, r) && r.kind.Some?)
            && forall r :: Accepts(t, c, r) ==> r.kind != Some(t.connections[c].kind)
  {
    hide IsRead, DriftMeanings.Reports, LedTo, Accepts, MayBe;
    OfOneConnection(t, g, c, ConnectionRemoved(c));
    OfOneConnection(t, g, c, ConnectionUnclear(Some(c), p));
    OfOneConnection(t, g, c, KindDiffers(c));
    if IsConnection(t, c) {
      ConnectionLeads(t, g, c, ConnectionRemoved(c));
      ConnectionLeads(t, g, c, ConnectionUnclear(Some(c), p));
      ConnectionLeads(t, g, c, KindDiffers(c));
    }
  }

  /** What names a connection is reported by its match alone. */
  lemma OfOneConnection(t: Trial, g: Reading, c: Id, d: Difference)
    requires IsRead(t, g) && (d == ConnectionRemoved(c) || d == KindDiffers(c) || d.ConnectionUnclear?)
    requires d.ConnectionUnclear? ==> d.connection == Some(c)
    ensures DriftMeanings.Reports(t, g, d) <==>
            IsConnection(t, c) && c in g.links.connections && LedTo(t, OfConnection(g.links, c), d)
  {
    hide IsRead, DriftMeanings.Reports, OfConnection, KindsOf, KindsStated, OfLeftover, OfStrays;
    ReportedBy(t, g, d);
    if m :| m in g.connections && LedTo(t, m, d) {
      MatchesExactly(t, g, m);
      LeftNames(g.links, m.pair);
    }
    if IsConnection(t, c) && c in g.links.connections {
      MatchesExactly(t, g, OfConnection(g.links, c));
      MatchExactly(t, g, c);
    }
  }

  lemma LeftNames(l: Links, p: Pair)
    ensures var m := OfLeftover(l, p); m.baseline.None? && m.how.Unmatched? && m.pair == p
    ensures var m := OfStrays(l, p); m.baseline.None? && m.how.Unmatched? && m.pair == p
  {
  }

  /** A reference that joins the nodes, that no connection is, nor may be. */
  ghost predicate IsLeft(t: Trial, r: Relationship, p: Pair) {
    JoinsAt(t, r, p) && forall c :: !Accepts(t, c, r) && !MayBe(t, c, r)
  }

  lemma AcceptsAt(t: Trial, c: Id, r: Relationship, q: Relationship, p: Pair)
    requires ValidRun(t.run) && JoinsAt(t, r, p) && (Accepts(t, c, q) || MayBe(t, c, q)) && q.id == r.id
    ensures q == r && PairOf(t.connections[c]) == p
  {
    hide ValidRun, OnlyClaims, Leads, IsFound;
    OwnDrift.SameRelationship(t.run, r, q);
    assert JoinsAt(t, r, PairOf(t.connections[c]));
    JoinsOnce(t, r, p, PairOf(t.connections[c]));
  }

  lemma JoinsOnce(t: Trial, r: Relationship, p: Pair, q: Pair)
    requires JoinsAt(t, r, p) && JoinsAt(t, r, q)
    ensures p == q
  {
    hide OnlyClaims, Refers;
    var w :| Refers(t, r, w) && OnlyClaims(t, p.source, r.source) && OnlyClaims(t, p.target, w);
    var v :| Refers(t, r, v) && OnlyClaims(t, q.source, r.source) && OnlyClaims(t, q.target, v);
    LeadsOnce(t, r, w, v);
    OneClaimant(t, p.source, q.source, r.source);
    OneClaimant(t, p.target, q.target, w);
  }

  lemma LeadsOnce(t: Trial, r: Relationship, w: Id, v: Id)
    requires Refers(t, r, w) && Refers(t, r, v)
    ensures w == v
  {
    hide PicksLast;
    var s := r.target.value;
    if t.run.entities[s].role.Routing? {
      var a :| PicksLast(t, s, a) && a.target == Some(w);
      var b :| PicksLast(t, s, b) && b.target == Some(v);
      LastIsOne(t, s, a, b);
    }
  }

  lemma LeftExactly(t: Trial, g: Reading, p: Pair)
    requires IsRead(t, g)
    ensures forall x :: x in Leftover(g.links, p) <==> exists r :: IsLeft(t, r, p) && r.id == x
    ensures forall x :: x in Strays(g.links, p) <==> exists r :: StraysAt(t, r, p) && r.id == x
  {
    hide IsRead, JoinsAt, StraysAt, Accepts, MayBe, Group, Strays, Taken, Listed;
    forall x
      ensures x in Leftover(g.links, p) <==> exists r :: IsLeft(t, r, p) && r.id == x
      ensures x in Strays(g.links, p) <==> exists r :: StraysAt(t, r, p) && r.id == x
    {
      GroupExactly(t, g, p, x);
      forall r: Relationship | r.id == x && JoinsAt(t, r, p)
        ensures x in Leftover(g.links, p) <==> IsLeft(t, r, p)
      {
        TakenExactly(t, g, p, r);
      }
    }
  }

  lemma TakenExactly(t: Trial, g: Reading, p: Pair, r: Relationship)
    requires IsRead(t, g) && JoinsAt(t, r, p)
    ensures r.id in Leftover(g.links, p) <==> IsLeft(t, r, p)
  {
    hide DriftMeanings.IsRead, JoinsAt, Accepts, MayBe, Group, OfConnection, ValidRun;
    var all := g.links.connections.Keys;
    GroupExactly(t, g, p, r.id);
    if c :| Accepts(t, c, r) || MayBe(t, c, r) {
      AcceptsConnection(t, c, r);
      MatchExactly(t, g, c);
      assert c in all;
      assert Accepts(t, c, r) ==> r.id in OfConnection(g.links, c).relationships;
      assert MayBe(t, c, r) ==> r.id in OfConnection(g.links, c).candidates;
    }
    if r.id in Taken(g.links, all) {
      var c :| c in all && c in g.links.connections && r.id in OfConnection(g.links, c).relationships;
      LinksHold(t, g, c);
      MatchExactly(t, g, c);
      var q :| Accepts(t, c, q) && q.id == r.id;
      AcceptsAt(t, c, r, q, p);
    }
    if r.id in Listed(g.links, all) {
      var c :| c in all && c in g.links.connections && r.id in OfConnection(g.links, c).candidates;
      LinksHold(t, g, c);
      MatchExactly(t, g, c);
      var q :| MayBe(t, c, q) && q.id == r.id;
      AcceptsAt(t, c, r, q, p);
    }
  }

  lemma AcceptsConnection(t: Trial, c: Id, r: Relationship)
    requires Accepts(t, c, r) || MayBe(t, c, r)
    ensures IsConnection(t, c)
  {
    hide IsFound, JoinsAt;
  }

  /**
   * Added are, by the ends they join, the references left over between two nodes, and those to or from an entity that
   * is no node; each group is reported at once.
   */
  lemma AddedExactly(t: Trial, g: Reading, p: Pair, ids: set<Id>)
    requires IsRead(t, g)
    ensures DriftMeanings.Reports(t, g, ConnectionAdded(p, ids)) <==>
            ids != {}
            && ((forall x :: x in ids <==> exists r :: IsLeft(t, r, p) && r.id == x)
                || forall x :: x in ids <==> exists r :: StraysAt(t, r, p) && r.id == x)
  {
    hide IsRead, DriftMeanings.Reports, IsLeft, StraysAt, Leftover, Strays, OfConnection, KindsOf, KindsStated;
    var d := ConnectionAdded(p, ids);
    LeftExactly(t, g, p);
    ReportedBy(t, g, d);
    AddedBy(t, g, p, Leftover(g.links, p));
    AddedBy(t, g, p, Strays(g.links, p));
    if m :| m in g.connections && LedTo(t, m, d) {
      MatchesExactly(t, g, m);
      if m.baseline.Some? {
        ConnectionLeads(t, g, m.baseline.value, d);
      }
      AddedBy(t, g, m.pair, Leftover(g.links, m.pair));
      AddedBy(t, g, m.pair, Strays(g.links, m.pair));
      assert ids == Leftover(g.links, p) || ids == Strays(g.links, p);
    }
    if ids != {} && forall x :: x in ids <==> x in Leftover(g.links, p) {
      assert ids == Leftover(g.links, p);
      MatchesExactly(t, g, OfLeftover(g.links, p));
      assert LedTo(t, OfLeftover(g.links, p), d);
    }
    if ids != {} && forall x :: x in ids <==> x in Strays(g.links, p) {
      assert ids == Strays(g.links, p);
      MatchesExactly(t, g, OfStrays(g.links, p));
      assert LedTo(t, OfStrays(g.links, p), d);
    }
  }

  /** What is left over leads to one addition of all of it. */
  lemma AddedBy(t: Trial, g: Reading, p: Pair, left: set<Id>)
    requires IsRead(t, g) && (left == Leftover(g.links, p) || left == Strays(g.links, p))
    ensures forall d :: LedTo(t, ConnectionMatch(None, left, NodeMatching.Unmatched, p, {}), d) <==>
                        left != {} && d == ConnectionAdded(p, left)
  {
    hide IsRead, KindsOf, Group, Taken, Listed, OfConnection;
    var kinds := KindsOf(t.run.relationships);
    forall x | x in left
      ensures x in kinds
    {
      LeftKnown(t, g, p, x);
    }
    assert left * kinds.Keys == left;
  }

  lemma LeftKnown(t: Trial, g: Reading, p: Pair, x: Id)
    requires IsRead(t, g) && (x in Leftover(g.links, p) || x in Strays(g.links, p))
    ensures x in KindsOf(t.run.relationships)
  {
    hide DriftMeanings.IsRead, ValidRun, KindsOf, Taken, Listed;
    var r := RefFrom(t, g, x);
    AllKinds(t, r);
  }
}
