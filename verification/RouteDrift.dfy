/**
 * A service with several selectors: what a proposal compared with its own run shows when the matching follows
 * a service elsewhere than the proposal did, exactly.
 */
module RouteDrift {
  import opened Options
  import opened Reachability
  import opened Discovery
  import opened Proposal
  import NodeMatching
  import opened ConnectionMatching
  import Comparison
  import D = DriftFacts
  import opened OwnDrift

  // --- where a service leads -----------------------------------------------------------------------

  ghost predicate IsSelector(run: Run, s: Id, r: Relationship) {
    r in run.relationships && Selects(run.entities, r) && r.source == s
  }

  /** The selector of the service that is last by reference and id: the one the matching follows. */
  ghost predicate LastSelector(run: Run, s: Id, a: Relationship) {
    IsSelector(run, s, a) && forall b :: IsSelector(run, s, b) ==> b == a || Before(b, a)
  }

  /** The selector of the service with the highest id: the one the proposal followed. */
  ghost predicate HighestSelector(run: Run, s: Id, a: Relationship) {
    IsSelector(run, s, a) && forall b :: IsSelector(run, s, b) ==> b.id <= a.id
  }

  /** The matching follows the reference to another workload than the proposal did. */
  predicate Elsewhere(run: Run, r: Relationship) {
    r.target.Some?
    && Reached(run.entities, RunRoutes(run), r.target.value) != Reached(run.entities, ProposalRoutes(run),
        r.target.value)
  }

  predicate SelectsFor(entities: map<Id, Entity>, s: Id, r: Relationship) {
    Selects(entities, r) && r.source == s
  }

  /** The last of the listed selectors of the service. */
  ghost predicate IsLastFor(rs: seq<Relationship>, entities: map<Id, Entity>, s: Id, i: int) {
    0 <= i < |rs| && SelectsFor(entities, s, rs[i]) && forall j :: i < j < |rs| ==> !SelectsFor(entities, s, rs[j])
  }

  lemma {:induction false} RouteIsLast(rs: seq<Relationship>, entities: map<Id, Entity>, s: Id, i: int)
    requires IsLastFor(rs, entities, s, i)
    ensures s in Routes(rs, entities) && rs[i].target == Some(Routes(rs, entities)[s])
    decreases |rs|
  {
    hide Selects;
    var front := rs[..|rs| - 1];
    if i < |front| {
      assert front[i] == rs[i] && forall j :: i < j < |front| ==> !SelectsFor(entities, s, front[j]);
      RouteIsLast(front, entities, s, i);
    } else {
      SelectorLeads(entities, rs[i]);
    }
  }

  lemma SelectorLeads(entities: map<Id, Entity>, r: Relationship)
    requires Selects(entities, r)
    ensures r.target.Some?
  {
  }

  lemma {:induction false} LastFor(rs: seq<Relationship>, entities: map<Id, Entity>, s: Id, k: int) returns (i: int)
    requires 0 <= k < |rs| && SelectsFor(entities, s, rs[k])
    ensures IsLastFor(rs, entities, s, i)
    decreases |rs|
  {
    hide SelectsFor;
    var z := |rs| - 1;
    if SelectsFor(entities, s, rs[z]) {
      i := z;
    } else {
      assert rs[..z][k] == rs[k];
      i := LastFor(rs[..z], entities, s, k);
      assert forall j :: i < j < z ==> rs[..z][j] == rs[j];
    }
  }

  lemma InOrderOfReference(run: Run, i: int, j: int)
    requires ValidRun(run) && 0 <= i < j < |run.relationships|
    ensures Before(run.relationships[i], run.relationships[j]) && run.relationships[i] != run.relationships[j]
  {
    hide Joins;
  }

  lemma RunRoutesAre(run: Run)
    ensures RunRoutes(run) == Routes(run.relationships, run.entities)
  {
    hide Routes;
    WithoutNone(run.relationships);
  }

  lemma LastIsLast(run: Run, s: Id, i: int)
    requires ValidRun(run) && IsLastFor(run.relationships, run.entities, s, i)
    ensures LastSelector(run, s, run.relationships[i])
  {
    hide ValidRun, Selects, Before;
    var rs := run.relationships;
    assert IsSelector(run, s, rs[i]);
    forall b | IsSelector(run, s, b)
      ensures b == rs[i] || Before(b, rs[i])
    {
      var j :| 0 <= j < |rs| && rs[j] == b;
      if j < i {
        InOrderOfReference(run, j, i);
      }
    }
  }

  lemma MatchingFollows(run: Run, s: Id, i: int)
    requires ValidRun(run) && IsLastFor(run.relationships, run.entities, s, i)
    ensures LastSelector(run, s, run.relationships[i])
    ensures s in RunRoutes(run) && run.relationships[i].target == Some(RunRoutes(run)[s])
  {
    hide ValidRun, Routes, LastSelector, RunRoutes;
    LastIsLast(run, s, i);
    RunRoutesAre(run);
    RouteIsLast(run.relationships, run.entities, s, i);
  }

  lemma ProposalFollows(run: Run, s: Id, i: int)
    requires ValidRun(run) && IsLastFor(ById(run.relationships), run.entities, s, i)
    ensures HighestSelector(run, s, ById(run.relationships)[i])
    ensures s in ProposalRoutes(run) && ById(run.relationships)[i].target == Some(ProposalRoutes(run)[s])
  {
    hide Routes, Selects, Joins, Before, ById;
    var rs := ById(run.relationships);
    ByIdAscending(run.relationships);
    RouteIsLast(rs, run.entities, s, i);
    assert rs[i] in rs;
    forall b | IsSelector(run, s, b)
      ensures b.id <= rs[i].id
    {
      assert b in rs;
      var j :| 0 <= j < |rs| && rs[j] == b;
    }
  }

  /** The last selector is one, and so is the one with the highest id. */
  lemma LastIsOne(run: Run, s: Id, a: Relationship, b: Relationship)
    requires ValidRun(run) && LastSelector(run, s, a) && LastSelector(run, s, b)
    ensures a == b
  {
  }

  lemma HighestIsOne(run: Run, s: Id, a: Relationship, b: Relationship)
    requires ValidRun(run) && HighestSelector(run, s, a) && HighestSelector(run, s, b)
    ensures a == b
  {
    hide ValidRun;
    SameRelationship(run, a, b);
  }

  lemma SelectorAt(rs: seq<Relationship>, run: Run, s: Id, r: Relationship) returns (k: int)
    requires IsSelector(run, s, r) && r in rs
    ensures 0 <= k < |rs| && SelectsFor(run.entities, s, rs[k])
  {
    k :| 0 <= k < |rs| && rs[k] == r;
  }

  /** With a selector, each side follows the service to where its own choice of selector leads. */
  lemma Followed(run: Run, s: Id, r: Relationship) returns (a: Relationship, b: Relationship)
    requires ValidRun(run) && IsSelector(run, s, r)
    ensures LastSelector(run, s, a) && s in RunRoutes(run) && a.target == Some(RunRoutes(run)[s])
    ensures HighestSelector(run, s, b) && s in ProposalRoutes(run) && b.target == Some(ProposalRoutes(run)[s])
  {
    hide ValidRun, LastSelector, HighestSelector, RunRoutes, ProposalRoutes, SelectsFor;
    var k := SelectorAt(run.relationships, run, s, r);
    var i := LastFor(run.relationships, run.entities, s, k);
    MatchingFollows(run, s, i);
    a := run.relationships[i];
    assert r in ById(run.relationships);
    k := SelectorAt(ById(run.relationships), run, s, r);
    i := LastFor(ById(run.relationships), run.entities, s, k);
    ProposalFollows(run, s, i);
    b := ById(run.relationships)[i];
  }

  lemma SelectorOf(run: Run, s: Id)
    requires s in RunRoutes(run) || s in ProposalRoutes(run)
    ensures exists r :: IsSelector(run, s, r)
  {
    hide Selects, ById, Routes;
    RunRoutesAre(run);
    var rs := if s in RunRoutes(run) then run.relationships else ById(run.relationships);
    var r :| r in rs && Selects(run.entities, r) && r.source == s;
    assert IsSelector(run, s, r);
  }

  lemma Routed(run: Run, s: Id, r: Relationship)
    requires IsSelector(run, s, r)
    ensures s in run.entities && run.entities[s].role.Routing?
  {
  }

  /**
   * A reference is followed elsewhere exactly when the service it names has a selector last by reference and one
   * with the highest id, and they lead to different workloads.
   */
  lemma ElsewhereExactly(run: Run, r: Relationship)
    requires ValidRun(run) && r.target.Some?
    ensures Elsewhere(run, r) <==>
            exists a, b :: LastSelector(run, r.target.value, a) && HighestSelector(run, r.target.value, b)
                && a.target != b.target
  {
    hide ValidRun, RunRoutes, ProposalRoutes, IsSelector;
    var s := r.target.value;
    if q :| IsSelector(run, s, q) {
      Routed(run, s, q);
      var a, b := Followed(run, s, q);
      forall x, y | LastSelector(run, s, x) && HighestSelector(run, s, y)
        ensures x == a && y == b
      {
        LastIsOne(run, s, x, a);
        HighestIsOne(run, s, y, b);
      }
    } else {
      if s in RunRoutes(run) || s in ProposalRoutes(run) {
        SelectorOf(run, s);
        assert false;
      }
    }
  }

  // --- what is matched to what ---------------------------------------------------------------------

  /** A proposed connection whose reference is followed elsewhere. */
  ghost predicate Moved(run: Run, o: Outcome, c: Id)
    requires o.Proposed?
  {
    c in o.connections && exists r :: r in run.relationships && r.id == c && Elsewhere(run, r)
  }

  /** A reference the matching follows to those ends, and does not match as the connection of its own id. */
  ghost predicate Loose(run: Run, o: Outcome, p: Pair, r: Relationship)
    requires o.Proposed?
  {
    r in run.relationships && EndsOf(run.entities, RunRoutes(run), r) == Some(p)
        && (r.id in o.connections ==> Elsewhere(run, r))
  }

  ghost predicate AnyLoose(run: Run, o: Outcome, p: Pair)
    requires o.Proposed?
  {
    exists r :: Loose(run, o, p, r)
  }

  ghost predicate LooseOf(run: Run, o: Outcome, p: Pair, kind: Option<Id>)
    requires o.Proposed?
  {
    exists r :: Loose(run, o, p, r) && r.kind == kind
  }

  /** No other proposed connection between its ends has its reference followed elsewhere. */
  ghost predicate Alone(run: Run, o: Outcome, c: Id)
    requires o.Proposed? && c in o.connections
  {
    forall d :: d in o.connections && Moved(run, o, d) && PairOf(o.connections[d]) == PairOf(o.connections[c]) ==>
        d == c
  }

  lemma MovedExactly(t: Trial, c: Id)
    requires Own(t) && c in t.o.connections
    ensures Moved(t.run, t.o, c) <==> !IsSame(t.g.links, c)
  {
    hide IsProposal, Routes, ById, IsSame, Reached, Comparison.IsReading, ValidRun;
    var r := SameIdExactly(t, c);
    forall q | q in t.run.relationships && q.id == c
      ensures q == r
    {
      SameRelationship(t.run, r, q);
    }
  }

  lemma LooseExactly(t: Trial, p: Pair, r: Relationship)
    requires Own(t) && p.source in t.o.nodes && p.target in t.o.nodes
    requires r in t.run.relationships
    ensures Loose(t.run, t.o, p, r) <==> r.id in Available(t.g.links, p)
    ensures Loose(t.run, t.o, p, r) ==> r.id in t.g.links.refs && t.g.links.refs[r.id].kind == r.kind
  {
    hide IsProposal, Routes, ById, IsSame, Elsewhere, Comparison.IsReading, ValidRun, EndsOf, RunRoutes;
    RefIs(t, r);
    LinksAre(t);
    if r.id in t.o.connections {
      MovedExactly(t, r.id);
      forall q | q in t.run.relationships && q.id == r.id
        ensures q == r
      {
        SameRelationship(t.run, r, q);
      }
    }
  }

  lemma LinksAre(t: Trial)
    requires Own(t)
    ensures t.g.links.connections == t.o.connections && Matched(t.g.links, t.g.connections)
  {
    hide IsProposal, ValidRun, Matched, RefsAre, NodeMatching.Matches;
  }

  /** The available references, as what is loose. */
  lemma AvailableIsLoose(t: Trial, p: Pair, x: Id)
    returns (r: Relationship)
    requires Own(t) && p.source in t.o.nodes && p.target in t.o.nodes
    requires x in Available(t.g.links, p)
    ensures Loose(t.run, t.o, p, r) && r.id == x && x in t.g.links.refs && t.g.links.refs[x].kind == r.kind
  {
    hide Own, Loose;
    OwnIs(t);
    r := RefFrom(t, x);
    LooseExactly(t, p, r);
  }

  lemma AvailableEmpty(t: Trial, p: Pair)
    requires Own(t) && p.source in t.o.nodes && p.target in t.o.nodes
    ensures Available(t.g.links, p) == {} <==> !AnyLoose(t.run, t.o, p)
  {
    hide Own, Loose, Available;
    OwnIs(t);
    if Available(t.g.links, p) != {} {
      var x := AnyOf(Available(t.g.links, p));
      var r := AvailableIsLoose(t, p, x);
    }
    if r :| t.o.Proposed? && Loose(t.run, t.o, p, r) {
      LooseListed(t.run, t.o, p, r);
      LooseExactly(t, p, r);
    }
  }

  lemma LooseListed(run: Run, o: Outcome, p: Pair, r: Relationship)
    requires o.Proposed? && Loose(run, o, p, r)
    ensures r in run.relationships
  {
  }

  lemma StatingEmpty(t: Trial, p: Pair, kind: Option<Id>)
    requires Own(t) && p.source in t.o.nodes && p.target in t.o.nodes
    ensures Stating(t.g.links, p, kind) == {} <==> !LooseOf(t.run, t.o, p, kind)
  {
    hide Own, Loose, Available;
    OwnIs(t);
    if Stating(t.g.links, p, kind) != {} {
      var x := AnyOf(Stating(t.g.links, p, kind));
      var r := AvailableIsLoose(t, p, x);
    }
    if r :| t.o.Proposed? && Loose(t.run, t.o, p, r) && r.kind == kind {
      LooseListed(t.run, t.o, p, r);
      LooseExactly(t, p, r);
      assert r.id in Stating(t.g.links, p, kind);
    }
  }

  lemma Signed(w: Wiring, rs: seq<Relationship>, i: int, j: int)
    requires Proposes(w, rs, i) && Proposes(w, rs, j) && Eligible(w, rs[i]) && Eligible(w, rs[j])
    requires SignatureOf(w, rs[i]) == SignatureOf(w, rs[j])
    ensures i == j
  {
    hide Eligible, SignatureOf;
    assert i < j ==> !Signs(w, rs, i, SignatureOf(w, rs[j]));
    assert j < i ==> !Signs(w, rs, j, SignatureOf(w, rs[i]));
  }

  lemma Proposer(rules: Rules, decisions: map<Id, Decision>, run: Run, o: Outcome, c: Id) returns (j: int)
    requires o.Proposed? && IsProposal(rules, decisions, run, o) && c in o.connections
    ensures var rs, w := ById(run.relationships), WiringOf(run, decisions, o.nodes);
            Proposes(w, rs, j) && 0 <= j < |rs| && Eligible(w, rs[j]) && rs[j].id == c
                && o.connections[c] == ConnectionOf(w, rs[j])
  {
    hide NodesAre, StatusesAre, Eligible, Routes, ById;
    var rs, w := ById(run.relationships), WiringOf(run, decisions, o.nodes);
    ProposesEligible(w, rs);
    assert ProposedBy(w, rs, |rs|, c);
    j :| 0 <= j < |rs| && rs[j].id == c && Proposes(w, rs, j);
  }

  lemma SameSignature(w: Wiring, a: Relationship, b: Relationship)
    requires Eligible(w, a) && Eligible(w, b)
    requires PairOf(ConnectionOf(w, a)) == PairOf(ConnectionOf(w, b))
             && ConnectionOf(w, a).kind == ConnectionOf(w, b).kind
    ensures SignatureOf(w, a) == SignatureOf(w, b)
  {
    hide Reached, ConnectionKindOf;
  }

  /** No two proposed connections have the same ends and kind. */
  lemma OneOfItsKind(rules: Rules, decisions: map<Id, Decision>, run: Run, o: Outcome, c: Id, d: Id)
    requires o.Proposed? && IsProposal(rules, decisions, run, o) && c in o.connections && d in o.connections
    requires PairOf(o.connections[c]) == PairOf(o.connections[d]) && o.connections[c].kind == o.connections[d].kind
    ensures c == d
  {
    hide IsProposal, Proposes, Eligible, Routes, ById, ConnectionOf, SignatureOf;
    var i := Proposer(rules, decisions, run, o, c);
    var j := Proposer(rules, decisions, run, o, d);
    var rs, w := ById(run.relationships), WiringOf(run, decisions, o.nodes);
    SameSignature(w, rs[i], rs[j]);
    Signed(w, rs, i, j);
  }

  lemma EndsProposed(rules: Rules, decisions: map<Id, Decision>, run: Run, o: Outcome, c: Id)
    requires o.Proposed? && ValidRun(run) && IsProposal(rules, decisions, run, o) && c in o.connections
    ensures o.connections[c].source in o.nodes && o.connections[c].target in o.nodes
  {
    hide ValidRun, IsProposal, Eligible, Routes, ById;
    var r := ConnectionFrom(rules, decisions, run, o, c);
    EndsAreNodes(WiringOf(run, decisions, o.nodes), r);
  }

  lemma MovedIsProposed(run: Run, o: Outcome, c: Id)
    requires o.Proposed? && Moved(run, o, c)
    ensures c in o.connections
  {
  }

  lemma AloneExactly(t: Trial, c: Id)
    requires Own(t) && Moved(t.run, t.o, c) && c in t.o.connections
    ensures c in t.g.links.connections && !IsSame(t.g.links, c)
    ensures Siblings(t.g.links, PairOf(t.o.connections[c])) == {c} <==> Alone(t.run, t.o, c)
    ensures IsFirst(t.g.links, c)
  {
    hide IsProposal, Moved, IsSame, ValidRun, Comparison.IsReading;
    LinksAre(t);
    var p := PairOf(t.o.connections[c]);
    forall d | d in t.o.connections
      ensures Moved(t.run, t.o, d) <==> !IsSame(t.g.links, d)
    {
      MovedExactly(t, d);
    }
    forall d | d in Siblings(t.g.links, p) && t.o.connections[d].kind == t.o.connections[c].kind
      ensures d == c
    {
      OneOfItsKind(t.rules, t.decisions, t.run, t.o, c, d);
    }
    assert c in Siblings(t.g.links, p);
    if Alone(t.run, t.o, c) {
      assert forall d :: d in Siblings(t.g.links, p) ==> d == c;
    } else {
      var d :| Moved(t.run, t.o, d) && d in t.o.connections && PairOf(t.o.connections[d]) == p && d != c;
      assert d in Siblings(t.g.links, p);
    }
  }

  // --- what is reported ----------------------------------------------------------------------------

  /**
   * Nothing is left that its connection could be: no reference at all when it is alone, none of its kind or
   * of none else.
   */
  ghost predicate Gone(run: Run, o: Outcome, c: Id)
    requires o.Proposed?
  {
    && Moved(run, o, c)
    && var p := PairOf(o.connections[c]);
       !LooseOf(run, o, p, Some(o.connections[c].kind)) && !LooseOf(run, o, p, None)
       && (Alone(run, o, c) ==> !AnyLoose(run, o, p))
  }

  /** It is alone with references that all state other kinds, or none. */
  ghost predicate OtherKind(run: Run, o: Outcome, c: Id)
    requires o.Proposed?
  {
    && Moved(run, o, c) && Alone(run, o, c)
    && var p := PairOf(o.connections[c]);
       !LooseOf(run, o, p, Some(o.connections[c].kind)) && exists k: Id :: LooseOf(run, o, p, Some(k))
  }

  /** One of several, of which none has its kind stated and some reference states none. */
  ghost predicate Undecided(run: Run, o: Outcome, c: Id)
    requires o.Proposed?
  {
    && Moved(run, o, c) && !Alone(run, o, c)
    && var p := PairOf(o.connections[c]);
       !LooseOf(run, o, p, Some(o.connections[c].kind)) && LooseOf(run, o, p, None)
  }

  /** The connection a reported difference is of, if it is of one that was proposed. */
  function About(d: Difference): Option<Id> {
    match d
    case ConnectionRemoved(c) => Some(c)
    case KindDiffers(c) => Some(c)
    case ConnectionUnclear(c, _) => c
    case _ => None
  }

  ghost predicate FromOwn(run: Run, o: Outcome, g: Reading, d: Difference)
    requires o.Proposed?
  {
    Comparison.FromConnections(o.connections, Comparison.KindsOf(run.relationships), g.connections, |g.connections|, d)
  }

  /** What is said of a proposed connection is said by its own match. */
  lemma OfItsMatch(connections: map<Id, Connection>, kinds: map<Id, Option<Id>>, l: Links, found: seq<ConnectionMatch>,
      c: Id, d: Difference)
    requires Matched(l, found) && c in l.connections && About(d) == Some(c)
    ensures Comparison.FromConnections(connections, kinds, found, |found|, d) <==>
            d in Comparison.OfConnectionMatch(connections, kinds, OfConnection(l, c))
  {
    hide OfLeftover, OfStrays, Leftover, Strays, PairsOf, Chosen, Stating, IsSame, Comparison.KindsStated;
    assert OfConnection(l, c) in found;
    forall i | 0 <= i < |found| && d in Comparison.OfConnectionMatch(connections, kinds, found[i])
      ensures found[i] == OfConnection(l, c)
    {
      assert Right(l, Progress(l.connections.Keys, PairsOf(l, true), PairsOf(l, false)), found[i]);
    }
  }

  /** A difference of a connection names one that was proposed. */
  lemma NamesProposed(connections: map<Id, Connection>, kinds: map<Id, Option<Id>>, l: Links,
      found: seq<ConnectionMatch>, d: Difference)
    requires Matched(l, found) && Comparison.FromConnections(connections, kinds, found, |found|, d)
    requires d.ConnectionRemoved? || d.KindDiffers? || d.ConnectionUnclear?
    ensures About(d).Some? && About(d).value in l.connections
  {
    hide Leftover, Strays, PairsOf, Chosen, Stating, IsSame, Comparison.KindsStated;
    var i :| 0 <= i < |found| && d in Comparison.OfConnectionMatch(connections, kinds, found[i]);
    assert Right(l, Progress(l.connections.Keys, PairsOf(l, true), PairsOf(l, false)), found[i]);
  }

  /** What the match of a connection that is not the same reference says, by what it takes. */
  lemma MovedSays(l: Links, kinds: map<Id, Option<Id>>, c: Id, q: Pair)
    requires c in l.connections && !IsSame(l, c)
    ensures var said := Comparison.OfConnectionMatch(l.connections, kinds, OfConnection(l, c));
            var p, stated := PairOf(l.connections[c]), Comparison.KindsStated(kinds, Chosen(l, c) * kinds.Keys);
            && (Comparison.ConnectionRemoved(c) in said <==> Chosen(l, c) == {} && Stating(l, p, None) == {})
            && (Comparison.ConnectionUnclear(Some(c), q) in said <==>
                q == p && Chosen(l, c) == {} && Stating(l, p, None) != {})
            && (Comparison.KindDiffers(c) in said <==>
                Chosen(l, c) != {} && stated != {} && l.connections[c].kind !in stated)
  {
    hide Chosen, Stating, IsSame, Comparison.KindsStated;
  }

  lemma KindKept(run: Run, r: Relationship)
    requires ValidRun(run) && r in run.relationships
    ensures r.id in Comparison.KindsOf(run.relationships) && Comparison.KindsOf(run.relationships)[r.id] == r.kind
  {
    hide Comparison.KindsOf, ValidRun;
    var q :| q in run.relationships && q.id == r.id && Comparison.KindsOf(run.relationships)[r.id] == q.kind;
    SameRelationship(run, r, q);
  }

  lemma KindsLoose(t: Trial, p: Pair, k: Id)
    requires Own(t) && p.source in t.o.nodes && p.target in t.o.nodes
    ensures var kinds := Comparison.KindsOf(t.run.relationships);
            k in Comparison.KindsStated(kinds, Available(t.g.links, p) * kinds.Keys) <==>
                LooseOf(t.run, t.o, p, Some(k))
  {
    hide Own, Loose, Available, Comparison.KindsOf;
    OwnIs(t);
    OwnRun(t);
    var kinds := Comparison.KindsOf(t.run.relationships);
    var stated := Comparison.KindsStated(kinds, Available(t.g.links, p) * kinds.Keys);
    if k in stated {
      var x :| x in Available(t.g.links, p) * kinds.Keys && x in kinds && kinds[x].Some? && kinds[x].value == k;
      var r := AvailableIsLoose(t, p, x);
      LooseListed(t.run, t.o, p, r);
      KindKept(t.run, r);
    }
    if r :| t.o.Proposed? && Loose(t.run, t.o, p, r) && r.kind == Some(k) {
      LooseListed(t.run, t.o, p, r);
      LooseExactly(t, p, r);
      KindKept(t.run, r);
      assert r.id in Available(t.g.links, p) * kinds.Keys;
    }
  }

  lemma OwnRun(t: Trial)
    requires Own(t)
    ensures ValidRun(t.run)
  {
    hide ValidRun, IsProposal, Comparison.IsReading;
  }

  /** A proposed connection matched as the same reference is said nothing of. */
  lemma SameSaysNothing(t: Trial, c: Id)
    requires Own(t) && c in t.o.connections && c in t.g.links.connections
    requires IsSame(t.g.links, c)
    ensures Comparison.OfConnectionMatch(t.o.connections, Comparison.KindsOf(t.run.relationships),
            OfConnection(t.g.links, c))
            == {}
  {
    hide IsProposal, ValidRun, IsSame, Chosen, Stating, Comparison.KindsOf, Comparison.IsReading;
    OwnKind(t.rules, t.decisions, t.run, t.o, c);
  }

  /** What a moved connection takes, in the run's own terms. */
  lemma TakesLoose(t: Trial, c: Id)
    requires Own(t) && Moved(t.run, t.o, c) && c in t.o.connections
             && c in t.g.links.connections
    ensures var p, k := PairOf(t.o.connections[c]), t.o.connections[c].kind;
            && (Chosen(t.g.links, c) == {} <==> if Alone(t.run, t.o, c) then !AnyLoose(t.run, t.o, p)
                else !LooseOf(t.run, t.o, p, Some(k)))
            && (Stating(t.g.links, p, None) == {} <==> !LooseOf(t.run, t.o, p, None))
            && (Alone(t.run, t.o, c) ==> Chosen(t.g.links, c) == Available(t.g.links, p))
            && (!Alone(t.run, t.o, c) ==> Chosen(t.g.links, c) == Stating(t.g.links, p, Some(k)))
  {
    hide Own, Moved, Alone, AnyLoose, LooseOf, Available, Stating, IsFirst;
    OwnIs(t);
    OwnRun(t);
    OwnLinks(t);
    var p := PairOf(t.o.connections[c]);
    EndsProposed(t.rules, t.decisions, t.run, t.o, c);
    AloneExactly(t, c);
    AvailableEmpty(t, p);
    StatingEmpty(t, p, None);
    StatingEmpty(t, p, Some(t.o.connections[c].kind));
  }

  lemma OwnLinks(t: Trial)
    requires Own(t)
    ensures t.g.links.connections == t.o.connections && Matched(t.g.links, t.g.connections)
            && IsProposal(t.rules, t.decisions, t.run, t.o)
  {
    hide IsProposal, ValidRun, Matched, RefsAre, NodeMatching.Matches;
  }

  /** The references of one kind state that kind. */
  lemma StatingOne(l: Links, kinds: map<Id, Option<Id>>, p: Pair, k: Id)
    requires forall x :: x in l.refs && x in kinds ==> kinds[x] == l.refs[x].kind
    ensures Comparison.KindsStated(kinds, Stating(l, p, Some(k)) * kinds.Keys) <= {k}
  {
    hide Available;
  }

  lemma RefKinds(t: Trial)
    requires Own(t)
    ensures var kinds := Comparison.KindsOf(t.run.relationships);
            forall x :: x in t.g.links.refs && x in kinds ==> kinds[x] == t.g.links.refs[x].kind
  {
    hide Own, Comparison.KindsOf;
    OwnRun(t);
    OwnIs(t);
    forall x | x in t.g.links.refs && x in Comparison.KindsOf(t.run.relationships)
      ensures Comparison.KindsOf(t.run.relationships)[x] == t.g.links.refs[x].kind
    {
      var r := RefFrom(t, x);
      KindKept(t.run, r);
      RefIs(t, r);
    }
  }

  // --- the exact conditions ------------------------------------------------------------------------

  /**
   * A proposed connection is reported as removed exactly when its reference is followed elsewhere and none
   * left could be it.
   */
  lemma RemovedExactly(t: Trial, c: Id)
    requires Own(t) && t.o.Proposed?
    ensures FromOwn(t.run, t.o, t.g, Comparison.ConnectionRemoved(c)) <==> Gone(t.run, t.o, c)
  {
    hide Own, Moved, Alone, LooseOf, Available, Chosen, Stating, Comparison.KindsOf, Comparison.FromConnections,
      Matched;
    Says(t, c, Comparison.ConnectionRemoved(c));
    if Moved(t.run, t.o, c) {
      TakesLoose(t, c);
      LooseIsAny(t.run, t.o, PairOf(t.o.connections[c]));
      MovedSays(t.g.links, Comparison.KindsOf(t.run.relationships), c, PairOf(t.o.connections[c]));
    }
  }

  /** It is reported as unclear exactly when it is one of several and a reference that states no kind could be it. */
  lemma UnclearExactly(t: Trial, c: Id, p: Pair)
    requires Own(t) && t.o.Proposed?
    ensures FromOwn(t.run, t.o, t.g, Comparison.ConnectionUnclear(Some(c), p)) <==>
            Undecided(t.run, t.o, c) && p == PairOf(t.o.connections[c])
  {
    hide Own, Moved, Alone, LooseOf, Available, Chosen, Stating, Comparison.KindsOf, Comparison.FromConnections,
      Matched;
    Says(t, c, Comparison.ConnectionUnclear(Some(c), p));
    if Moved(t.run, t.o, c) {
      TakesLoose(t, c);
      LooseIsAny(t.run, t.o, PairOf(t.o.connections[c]));
      MovedSays(t.g.links, Comparison.KindsOf(t.run.relationships), c, p);
    }
  }

  /**
   * Its kind is reported as differing exactly when it is alone and the references that could be it state
   * other kinds.
   */
  lemma KindDiffersExactly(t: Trial, c: Id)
    requires Own(t) && t.o.Proposed?
    ensures FromOwn(t.run, t.o, t.g, Comparison.KindDiffers(c)) <==> OtherKind(t.run, t.o, c)
  {
    hide Own, Moved, Alone, LooseOf, Available, Chosen, Stating, Comparison.KindsOf, Comparison.FromConnections,
      Matched;
    Says(t, c, Comparison.KindDiffers(c));
    if Moved(t.run, t.o, c) {
      TakesLoose(t, c);
      MovedSays(t.g.links, Comparison.KindsOf(t.run.relationships), c, PairOf(t.o.connections[c]));
      if Alone(t.run, t.o, c) {
        StatedLoose(t, c);
      } else {
        RefKinds(t);
        StatingOne(t.g.links, Comparison.KindsOf(t.run.relationships), PairOf(t.o.connections[c]),
            t.o.connections[c].kind);
        NoOther(Comparison.KindsStated(Comparison.KindsOf(t.run.relationships),
                                       Chosen(t.g.links, c) * Comparison.KindsOf(t.run.relationships).Keys),
                                           t.o.connections[c].kind);
      }
    }
  }

  lemma NoOther(stated: set<Id>, k: Id)
    requires stated <= {k}
    ensures stated == {} || k in stated
  {
    if stated != {} {
      var x := AnyOf(stated);
    }
  }

  lemma StatedLoose(t: Trial, c: Id)
    requires Own(t) && t.o.Proposed? && c in t.o.connections
    ensures var p, kinds := PairOf(t.o.connections[c]), Comparison.KindsOf(t.run.relationships);
            var stated := Comparison.KindsStated(kinds, Available(t.g.links, p) * kinds.Keys);
            && (stated != {} <==> exists k: Id :: LooseOf(t.run, t.o, p, Some(k)))
            && (t.o.connections[c].kind in stated <==> LooseOf(t.run, t.o, p, Some(t.o.connections[c].kind)))
            && (stated != {} ==> Available(t.g.links, p) != {})
  {
    hide Own, LooseOf, Available, Comparison.KindsOf;
    OwnRun(t);
    OwnLinks(t);
    EndsProposed(t.rules, t.decisions, t.run, t.o, c);
    var p, kinds := PairOf(t.o.connections[c]), Comparison.KindsOf(t.run.relationships);
    var stated := Comparison.KindsStated(kinds, Available(t.g.links, p) * kinds.Keys);
    if stated != {} {
      var k := AnyOf(stated);
      KindsLoose(t, p, k);
    }
    if k: Id :| LooseOf(t.run, t.o, p, Some(k)) {
      KindsLoose(t, p, k);
    }
    KindsLoose(t, p, t.o.connections[c].kind);
  }

  lemma LooseIsAny(run: Run, o: Outcome, p: Pair)
    requires o.Proposed?
    ensures forall kind :: LooseOf(run, o, p, kind) ==> AnyLoose(run, o, p)
  {
    hide Loose;
  }

  /** A difference of a connection is said by the match of a moved one. */
  lemma Says(t: Trial, c: Id, d: Difference)
    requires Own(t) && t.o.Proposed? && About(d) == Some(c)
    ensures FromOwn(t.run, t.o, t.g, d) ==> Moved(t.run, t.o, c)
    ensures Moved(t.run, t.o, c) ==>
              c in t.o.connections && c in t.g.links.connections && t.g.links.connections == t.o.connections
                  && !IsSame(t.g.links, c)
    ensures Moved(t.run, t.o, c) && c in t.g.links.connections ==>
              (FromOwn(t.run, t.o, t.g, d) <==>
               d in Comparison.OfConnectionMatch(t.o.connections, Comparison.KindsOf(t.run.relationships),
                   OfConnection(t.g.links, c)))
  {
    hide Own, Moved, OfConnection, Comparison.OfConnectionMatch, Comparison.KindsOf, Comparison.FromConnections,
      Matched, IsSame;
    var kinds := Comparison.KindsOf(t.run.relationships);
    OwnLinks(t);
    if FromOwn(t.run, t.o, t.g, d) {
      NamesProposed(t.o.connections, kinds, t.g.links, t.g.connections, d);
    }
    if Moved(t.run, t.o, c) {
      MovedIsProposed(t.run, t.o, c);
    }
    if c in t.o.connections {
      OfItsMatch(t.o.connections, kinds, t.g.links, t.g.connections, c, d);
      MovedExactly(t, c);
      if IsSame(t.g.links, c) {
        SameSaysNothing(t, c);
      }
    }
  }

  // --- the whole report, wherever the services lead ------------------------------------------------

  /** A reference the proposal withheld, or that the matching follows elsewhere. */
  ghost predicate Unexpected(run: Run, o: Outcome, id: Id)
    requires o.Proposed?
  {
    ReferenceWithheld(o, id) || Moved(run, o, id)
  }

  /** What is reported as added holds no reference of a connection matched as the same. */
  lemma AddedNotSame(l: Links, found: seq<ConnectionMatch>, i: int, r: Id)
    requires Matched(l, found) && 0 <= i < |found| && found[i].baseline.None? && r in found[i].relationships
    ensures r in l.refs && !IsSame(l, r)
  {
    hide Matched, Taken, Listed, IsSame, Takes, Lists, OfConnection;
    F.HolderIs(l, found, i, r);
    F.LeftoverIs(l, found[i].pair, r);
    if IsSame(l, r) {
      TakesItself(l, r);
    }
  }

  lemma TakesItself(l: Links, c: Id)
    requires IsSame(l, c)
    ensures Takes(l, c, c) && c in l.refs && l.refs[c].matched
  {
    hide Chosen, Stating;
  }

  lemma AddedExplained(t: Trial, d: Difference)
    requires Own(t) && t.o.Proposed? && d.ConnectionAdded? && FromOwn(t.run, t.o, t.g, d)
    ensures d.references != {} && forall r :: r in d.references ==> Unexpected(t.run, t.o, r)
  {
    hide Own, Moved, ReferenceWithheld, Comparison.KindsOf, Matched, IsSame, FromOwn;
    OwnLinks(t);
    OwnRun(t);
    var i := AddedFrom(t.run, t.o, t.g, d);
    forall r | r in d.references
      ensures Unexpected(t.run, t.o, r)
    {
      AddedNotSame(t.g.links, t.g.connections, i, r);
      var q := RefFrom(t, r);
      StatusOf(t.rules, t.decisions, t.run, t.o, q);
      if r in t.o.connections {
        MovedExactly(t, r);
      }
    }
  }

  lemma AddedFrom(run: Run, o: Outcome, g: Reading, d: Difference) returns (i: int)
    requires o.Proposed? && d.ConnectionAdded? && FromOwn(run, o, g, d)
    requires Matched(g.links, g.connections) && g.links.connections == o.connections
    ensures 0 <= i < |g.connections| && g.connections[i].baseline.None?
    ensures d.references != {} && forall r :: r in d.references ==> r in g.connections[i].relationships
  {
    hide Comparison.KindsOf, Comparison.KindsStated, Matched;
    var kinds := Comparison.KindsOf(run.relationships);
    i :| 0 <= i < |g.connections| && d in Comparison.OfConnectionMatch(o.connections, kinds, g.connections[i]);
    MatchIsOf(g.links, g.connections, i);
  }

  lemma MatchIsOf(l: Links, found: seq<ConnectionMatch>, i: int)
    requires Matched(l, found) && 0 <= i < |found|
    ensures found[i].baseline.Some? ==> found[i].baseline.value in l.connections
  {
    hide OfConnection, OfLeftover, OfStrays, PairsOf;
    assert Right(l, Progress(l.connections.Keys, PairsOf(l, true), PairsOf(l, false)), found[i]);
  }

  /** Everything a comparison with its own run may say of a proposal, and when. */
  ghost predicate Accounted(rules: Rules, decisions: map<Id, Decision>, run: Run, o: Outcome, d: Difference)
    requires o.Proposed?
  {
    match d
    case NodeAdded(k) => D.Withheld(run, o, k)
    case ConnectionAdded(_, references) => references != {} && forall r :: r in references ==> Unexpected(run, o, r)
    case ConnectionRemoved(c) => Gone(run, o, c)
    case KindDiffers(c) => OtherKind(run, o, c)
    case ConnectionUnclear(c, p) => c.Some? && Undecided(run, o, c.value) && p == PairOf(o.connections[c.value])
    case _ => D.OfProposedNode(rules, decisions, run, o, d)
  }

  /**
   * However the services lead, a comparison of a proposal with its own run is accounted for: no node is removed,
   * and a connection is removed, of another kind or unclear only by a service followed elsewhere.
   */
  lemma OwnDriftAccounted(t: Trial, d: Difference)
    requires Own(t) && t.o.Proposed?
    requires Comparison.Reported(t.rules, t.o.nodes, t.o.connections, t.run, t.g, d)
    ensures Accounted(t.rules, t.decisions, t.run, t.o, d)
  {
    hide IsProposal, Comparison.IsReading, Comparison.FromNodes, Comparison.FromConnections, Gone, OtherKind, Undecided,
      Unexpected, D.OfProposedNode, ValidRun, Comparison.KindsOf;
    if Comparison.FromNodes(t.rules, t.o.nodes, t.run.entities, t.g.nodes, |t.g.nodes|, d) {
      D.OwnNodes(t.rules, t.decisions, t.run, t.o, t.mappings, t.g, d);
      if D.OfProposedNode(t.rules, t.decisions, t.run, t.o, d) {
        OfNodeKinds(t.rules, t.decisions, t.run, t.o, d);
      }
    } else {
      OfConnectionKinds(t.o, t.run, t.g, d);
      match d
      case ConnectionAdded(_, _) => AddedExplained(t, d);
      case ConnectionRemoved(c) => RemovedExactly(t, c);
      case KindDiffers(c) => KindDiffersExactly(t, c);
      case ConnectionUnclear(c, p) =>
        OwnLinks(t);
        NamesProposed(t.o.connections, Comparison.KindsOf(t.run.relationships), t.g.links, t.g.connections, d);
        UnclearExactly(t, c.value, p);
      case _ =>
    }
  }

  lemma OfNodeKinds(rules: Rules, decisions: map<Id, Decision>, run: Run, o: Outcome, d: Difference)
    requires o.Proposed? && D.OfProposedNode(rules, decisions, run, o, d)
    ensures d.Unreadable? || d.Incomparable? || d.FieldDiffers?
  {
  }

  lemma OfConnectionKinds(o: Outcome, run: Run, g: Reading, d: Difference)
    requires o.Proposed? && FromOwn(run, o, g, d)
    ensures d.ConnectionAdded? || d.ConnectionRemoved? || d.KindDiffers? || d.ConnectionUnclear?
  {
    hide Comparison.KindsOf, Comparison.KindsStated;
  }

  // --- what is reported as added, exactly ----------------------------------------------------------

  /** A moved connection between the ends takes the reference, or may be it. */
  ghost predicate Claims(run: Run, o: Outcome, p: Pair, r: Relationship, c: Id)
    requires o.Proposed?
  {
    && c in o.connections && Moved(run, o, c) && PairOf(o.connections[c]) == p
    && var kind := Some(o.connections[c].kind);
       Alone(run, o, c) || r.kind == kind || (r.kind.None? && !LooseOf(run, o, p, kind))
  }

  /** The reference joins components as the matching follows it, and no connection is matched to it or may be. */
  ghost predicate Left(run: Run, o: Outcome, r: Relationship)
    requires o.Proposed?
  {
    var ends := EndsOf(run.entities, RunRoutes(run), r);
    && ends.Some?
    && (ends.value.source in o.nodes && ends.value.target in o.nodes ==>
          Loose(run, o, ends.value, r) && forall c :: !Claims(run, o, ends.value, r, c))
  }

  ghost predicate ReportedAdded(run: Run, o: Outcome, g: Reading, id: Id)
    requires o.Proposed?
  {
    exists d: Difference :: d.ConnectionAdded? && id in d.references && FromOwn(run, o, g, d)
  }

  /** The `i`-th match is of no connection and holds the reference. */
  ghost predicate HoldsLeft(found: seq<ConnectionMatch>, i: int, id: Id) {
    0 <= i < |found| && found[i].baseline.None? && id in found[i].relationships
  }

  lemma HeldApart(l: Links, found: seq<ConnectionMatch>, x: Id)
    requires Matched(l, found) && x in l.refs
    ensures (exists i :: HoldsLeft(found, i, x)) <==>
            !l.refs[x].matched || forall c :: !Takes(l, c, x) && !Lists(l, c, x)
  {
    hide Matched, Taken, Listed, Takes, Lists, OfConnection;
    if i :| HoldsLeft(found, i, x) {
      F.HolderIs(l, found, i, x);
      F.LeftoverIs(l, found[i].pair, x);
    }
    if !l.refs[x].matched || forall c :: !Takes(l, c, x) && !Lists(l, c, x) {
      forall c
        ensures !Takes(l, c, x) && !Lists(l, c, x)
      {
        if Takes(l, c, x) || Lists(l, c, x) {
          F.TakenMatched(l, c, x);
        }
      }
      F.ReferenceKept(l, found, x);
      var i :| 0 <= i < |found| && (x in found[i].relationships || x in found[i].candidates);
      F.HolderIs(l, found, i, x);
      assert HoldsLeft(found, i, x);
    }
  }

  lemma MovedTakes(l: Links, c: Id, x: Id)
    requires c in l.connections && !IsSame(l, c)
    ensures Takes(l, c, x) <==> x in Chosen(l, c)
    ensures Lists(l, c, x) <==> Chosen(l, c) == {} && x in Stating(l, PairOf(l.connections[c]), None)
  {
    hide Chosen, Stating, IsSame;
  }

  lemma StatingIs(l: Links, p: Pair, kind: Option<Id>, x: Id)
    ensures x in Stating(l, p, kind) <==> x in Available(l, p) && x in l.refs && l.refs[x].kind == kind
  {
    hide Available;
  }

  lemma ClaimsExactly(t: Trial, r: Relationship, c: Id)
    requires Own(t) && r in t.run.relationships && Moved(t.run, t.o, c)
    requires c in t.o.connections && c in t.g.links.connections
    ensures Takes(t.g.links, c, r.id) || Lists(t.g.links, c, r.id) <==>
            var p := PairOf(t.o.connections[c]); Loose(t.run, t.o, p, r) && Claims(t.run, t.o, p, r, c)
  {
    hide Own, Moved, Loose, Alone, Available, Chosen, Stating, Takes, Lists, LooseOf, AnyLoose, IsSame;
    OwnIs(t);
    var p := PairOf(t.o.connections[c]);
    OwnRun(t);
    OwnLinks(t);
    EndsProposed(t.rules, t.decisions, t.run, t.o, c);
    MovedExactly(t, c);
    TakesLoose(t, c);
    LooseExactly(t, p, r);
    MovedTakes(t.g.links, c, r.id);
    StatingIs(t.g.links, p, None, r.id);
    StatingIs(t.g.links, p, Some(t.o.connections[c].kind), r.id);
  }

  lemma SameTakesItself(l: Links, c: Id, x: Id)
    requires IsSame(l, c)
    ensures Takes(l, c, x) <==> x == c
    ensures !Lists(l, c, x)
  {
    hide Chosen, Stating;
  }

  /** What takes or may be a reference between matched nodes is the connection of its own id, or a moved one. */
  lemma HeldExactly(t: Trial, r: Relationship, p: Pair)
    requires Own(t) && t.o.Proposed? && r in t.run.relationships
    requires EndsOf(t.run.entities, RunRoutes(t.run), r) == Some(p) && p.source in t.o.nodes && p.target in t.o.nodes
    ensures (forall c :: !Takes(t.g.links, c, r.id) && !Lists(t.g.links, c, r.id)) <==>
            Loose(t.run, t.o, p, r) && forall c :: !Claims(t.run, t.o, p, r, c)
  {
    hide Own, Moved, Loose, Alone, Takes, Lists, IsSame, EndsOf, RunRoutes, LooseOf;
    OwnLinks(t);
    RefIs(t, r);
    if Loose(t.run, t.o, p, r) && forall c :: !Claims(t.run, t.o, p, r, c) {
      forall c
        ensures !Takes(t.g.links, c, r.id) && !Lists(t.g.links, c, r.id)
      {
        if Takes(t.g.links, c, r.id) || Lists(t.g.links, c, r.id) {
          HeldByClaim(t, r, p, c);
        }
      }
    } else if !Loose(t.run, t.o, p, r) {
      SameIsHeld(t, r, p);
    } else {
      var c :| Claims(t.run, t.o, p, r, c);
      ClaimsExactly(t, r, c);
    }
  }

  lemma HeldByClaim(t: Trial, r: Relationship, p: Pair, c: Id)
    requires Own(t) && t.o.Proposed? && r in t.run.relationships
    requires EndsOf(t.run.entities, RunRoutes(t.run), r) == Some(p) && p.source in t.o.nodes && p.target in t.o.nodes
    requires Takes(t.g.links, c, r.id) || Lists(t.g.links, c, r.id)
    ensures !Loose(t.run, t.o, p, r) || Claims(t.run, t.o, p, r, c)
  {
    hide Own, Moved, Alone, Chosen, Stating, IsSame, EndsOf, RunRoutes, LooseOf, OfConnection, Claims;
    OwnLinks(t);
    MovedExactly(t, c);
    if Moved(t.run, t.o, c) {
      ClaimsExactly(t, r, c);
    } else {
      SameTakesItself(t.g.links, c, r.id);
      NotElsewhere(t.run, t.o, r);
    }
  }

  lemma NotElsewhere(run: Run, o: Outcome, r: Relationship)
    requires o.Proposed? && r in run.relationships && r.id in o.connections && !Moved(run, o, r.id)
    ensures !Elsewhere(run, r)
  {
    hide Elsewhere;
  }

  lemma SameIsHeld(t: Trial, r: Relationship, p: Pair)
    requires Own(t) && t.o.Proposed? && r in t.run.relationships
    requires EndsOf(t.run.entities, RunRoutes(t.run), r) == Some(p) && !Loose(t.run, t.o, p, r)
    ensures Takes(t.g.links, r.id, r.id)
  {
    hide Own, Moved, IsSame, EndsOf, RunRoutes, Elsewhere;
    OwnRun(t);
    MovedExactly(t, r.id);
    if Moved(t.run, t.o, r.id) {
      MovedBy(t.run, t.o, r);
    }
    SameTakesItself(t.g.links, r.id, r.id);
  }

  lemma MovedBy(run: Run, o: Outcome, r: Relationship)
    requires o.Proposed? && ValidRun(run) && r in run.relationships && Moved(run, o, r.id)
    ensures Elsewhere(run, r)
  {
    hide ValidRun, Elsewhere;
    var q :| q in run.relationships && q.id == r.id && Elsewhere(run, q);
    SameRelationship(run, r, q);
  }

  /**
   * A reference is reported as added exactly when the matching follows it between components, and no proposed
   * connection is matched to it or may be it: not its own, unless that was followed elsewhere, and no moved one.
   */
  lemma AddedExactly(t: Trial, r: Relationship)
    requires Own(t) && t.o.Proposed? && r in t.run.relationships
    ensures ReportedAdded(t.run, t.o, t.g, r.id) <==> Left(t.run, t.o, r)
  {
    hide Own, Loose, Claims, Takes, Lists, EndsOf, RunRoutes, Matched, FromOwn;
    OwnLinks(t);
    RefIs(t, r);
    AddedByMatch(t, r);
    var ends := EndsOf(t.run.entities, RunRoutes(t.run), r);
    if ends.Some? {
      HeldApart(t.g.links, t.g.connections, r.id);
      if ends.value.source in t.o.nodes && ends.value.target in t.o.nodes {
        HeldExactly(t, r, ends.value);
      }
    }
  }

  /** It is reported as added exactly when a match of no connection holds it. */
  lemma AddedByMatch(t: Trial, r: Relationship)
    requires Own(t) && t.o.Proposed? && r in t.run.relationships
    ensures ReportedAdded(t.run, t.o, t.g, r.id) <==>
            exists i :: HoldsLeft(t.g.connections, i, r.id)
    ensures ReportedAdded(t.run, t.o, t.g, r.id) ==> r.id in t.g.links.refs
  {
    hide Own, Matched, Comparison.KindsOf, Comparison.KindsStated, FromOwn, Taken, Listed;
    OwnLinks(t);
    OwnRun(t);
    if ReportedAdded(t.run, t.o, t.g, r.id) {
      var d: Difference :| d.ConnectionAdded? && r.id in d.references && FromOwn(t.run, t.o, t.g, d);
      var i := AddedFrom(t.run, t.o, t.g, d);
      AddedNotSame(t.g.links, t.g.connections, i, r.id);
      assert HoldsLeft(t.g.connections, i, r.id);
    }
    if i :| HoldsLeft(t.g.connections, i, r.id) {
      LeftUnmatched(t.g.links, t.g.connections, i);
      KindKept(t.run, r);
      HoldsAdded(t.run, t.o, t.g, i, r.id);
    }
  }

  lemma LeftUnmatched(l: Links, found: seq<ConnectionMatch>, i: int)
    requires Matched(l, found) && 0 <= i < |found| && found[i].baseline.None?
    ensures found[i].how.Unmatched?
  {
    hide Leftover, Strays, PairsOf;
    assert Right(l, Progress(l.connections.Keys, PairsOf(l, true), PairsOf(l, false)), found[i]);
  }

  lemma HoldsAdded(run: Run, o: Outcome, g: Reading, i: int, id: Id)
    requires o.Proposed? && 0 <= i < |g.connections| && g.connections[i].baseline.None?
             && g.connections[i].how.Unmatched?
    requires id in g.connections[i].relationships && id in Comparison.KindsOf(run.relationships)
    ensures ReportedAdded(run, o, g, id)
  {
    hide Comparison.KindsOf, Comparison.KindsStated;
    var m, kinds := g.connections[i], Comparison.KindsOf(run.relationships);
    var d := Comparison.ConnectionAdded(m.pair, m.relationships * kinds.Keys);
    assert id in m.relationships * kinds.Keys;
    assert d in Comparison.OfConnectionMatch(o.connections, kinds, m);
  }

  /**
   * A reference the proposal withheld is reported as added exactly when it joins components and nothing moved
   * claims it.
   */
  lemma WithheldReported(t: Trial, r: Relationship)
    requires Own(t) && t.o.Proposed? && r in t.run.relationships
    requires ReferenceWithheld(t.o, r.id)
    ensures var ends := EndsOf(t.run.entities, RunRoutes(t.run), r);
            ReportedAdded(t.run, t.o, t.g, r.id) <==> ends.Some? && forall c :: !Claims(t.run, t.o, ends.value, r, c)
  {
    hide Own, EndsOf, RunRoutes, ReportedAdded, Moved, Alone, LooseOf;
    OwnRun(t);
    OwnLinks(t);
    StatusOf(t.rules, t.decisions, t.run, t.o, r);
    AddedExactly(t, r);
    var ends := EndsOf(t.run.entities, RunRoutes(t.run), r);
    if ends.Some? {
      forall c | Claims(t.run, t.o, ends.value, r, c)
        ensures ends.value.source in t.o.nodes && ends.value.target in t.o.nodes
      {
        EndsProposed(t.rules, t.decisions, t.run, t.o, c);
      }
    }
  }

  /**
   * A reference that repeats a proposed connection: if it is followed where the proposal followed it, it is between
   * the ends that connection joins, and it is reported as added exactly when nothing moved claims it there.
   */
  lemma RepeatReported(t: Trial, j: int)
    returns (c: Id)
    requires Own(t) && t.o.Proposed?
    requires var w := WiringOf(t.run, t.decisions, t.o.nodes); var rs := ById(t.run.relationships);
             0 <= j < |rs| && Eligible(w, rs[j]) && !Proposes(w, rs, j)
    ensures var r := ById(t.run.relationships)[j];
            && r in t.run.relationships && c in t.o.connections && ReferenceWithheld(t.o, r.id)
            && (!Elsewhere(t.run, r) ==>
                EndsOf(t.run.entities, RunRoutes(t.run), r) == Some(PairOf(t.o.connections[c])))
            && (!Elsewhere(t.run, r) ==>
                  (ReportedAdded(t.run, t.o, t.g, r.id) <==>
                      forall d :: !Claims(t.run, t.o, PairOf(t.o.connections[c]), r, d)))
  {
    hide Own, NodesAre, StatusesAre, Routes, Eligible, EndsOf, Reached, ById, ReportedAdded, Claims, ValidRun;
    var w, rs := WiringOf(t.run, t.decisions, t.o.nodes), ById(t.run.relationships);
    var r := rs[j];
    assert r in rs;
    OwnRun(t);
    OwnLinks(t);
    var i := D.FirstSigned(w, rs, j, SignatureOf(w, r));
    c := rs[i].id;
    NotProposed(t.run, w, rs, j, t.o.connections);
    StatusOf(t.rules, t.decisions, t.run, t.o, r);
    if !Elsewhere(t.run, r) {
      RepeatEnds(t.rules, t.decisions, t.run, t.o, w, r);
    }
    WithheldReported(t, r);
  }

  lemma RepeatEnds(rules: Rules, decisions: map<Id, Decision>, run: Run, o: Outcome, w: Wiring, r: Relationship)
    requires o.Proposed? && ValidRun(run) && IsProposal(rules, decisions, run, o) && r in run.relationships
    requires w == WiringOf(run, decisions, o.nodes) && Eligible(w, r) && !Elsewhere(run, r)
    ensures EndsOf(run.entities, RunRoutes(run), r) == Some(PairOf(ConnectionOf(w, r)))
  {
    hide IsProposal, Routes, Eligible, EndsOf, Reached, ById;
    NodesAreComponents(rules, decisions, run, o);
    assert Joins(run.entities, r);
    EndsAreNodes(w, r);
    SameEnds(run.entities, RunRoutes(run), w, r);
  }
}
