/** `match_nodes`: a baseline's nodes and a run's component entities, identified with each other or not. */
module NodeMatching {
  import opened Options
  import opened Reachability
  import opened Ordered

  datatype Method = SameId | ConfirmedMapping | BySignature | Ambiguous | Unmatched

  /** `baseline` is absent for an entity no node matched, `key` for a node no entity matched. */
  datatype NodeMatch = NodeMatch(baseline: Option<Id>, key: Option<Id>, how: Method, candidates: set<Id>)

  predicate IsMatched(m: NodeMatch) {
    m.how.SameId? || m.how.ConfirmedMapping?
  }

  /**
   * The two sides, without what is excluded: the baseline nodes with the place each was discovered at, the
   * component entities with the place each stands at, and the identities a person confirmed.
   */
  datatype Sides = Sides(nodes: map<Id, Option<Id>>, entities: map<Id, Id>, mappings: map<Id, Id>)

  // --- what each element is matched to -------------------------------------------------------------

  /** The entity a node claims: the one with its id, else the one confirmed. */
  function ClaimOf(s: Sides, b: Id): Option<Id> {
    if b in s.entities then Some(b)
    else if b in s.mappings && s.mappings[b] in s.entities then Some(s.mappings[b])
    else None
  }

  function Claimants(s: Sides, k: Id): set<Id> {
    set b | b in s.nodes && ClaimOf(s, b) == Some(k)
  }

  predicate IsFree(s: Sides, k: Id) {
    k in s.entities && Claimants(s, k) == {}
  }

  /** The unclaimed entities that stand where the node was discovered. */
  function Nearby(s: Sides, b: Id): set<Id>
    requires b in s.nodes
  {
    set k | k in s.entities && IsFree(s, k) && s.nodes[b] == Some(s.entities[k])
  }

  predicate IsLost(s: Sides, b: Id) {
    b in s.nodes && ClaimOf(s, b).None?
  }

  /** A node that claims nothing, of which nothing was confirmed, with an entity where it was discovered. */
  predicate IsNear(s: Sides, b: Id) {
    IsLost(s, b) && b !in s.mappings && Nearby(s, b) != {}
  }

  function NodesNear(s: Sides, k: Id): set<Id> {
    set b | b in s.nodes && IsNear(s, b) && k in Nearby(s, b)
  }

  function OfNode(s: Sides, b: Id): NodeMatch
    requires b in s.nodes
  {
    if IsLost(s, b) then
      if IsNear(s, b) then NodeMatch(Some(b), None, Ambiguous, Nearby(s, b))
          else NodeMatch(Some(b), None, Unmatched, {})
    else
      var k := ClaimOf(s, b).value;
      if Claimants(s, k) == {b} then NodeMatch(Some(b), Some(k), if b == k then SameId else ConfirmedMapping, {})
      else NodeMatch(Some(b), None, Ambiguous, {k})
  }

  /** One node claims the entity, and no other. */
  predicate IsTaken(s: Sides, k: Id) {
    exists b :: b in s.nodes && Claimants(s, k) == {b}
  }

  function OfEntity(s: Sides, k: Id): NodeMatch {
    if !IsFree(s, k) then NodeMatch(None, Some(k), Ambiguous, Claimants(s, k))
    else if NodesNear(s, k) != {} then NodeMatch(None, Some(k), Ambiguous, NodesNear(s, k))
    else NodeMatch(None, Some(k), Unmatched, {})
  }

  // --- the matches found ---------------------------------------------------------------------------

  ghost predicate Right(s: Sides, nodes: set<Id>, keys: set<Id>, m: NodeMatch) {
    if m.baseline.Some? then m.baseline.value in nodes && m.baseline.value in s.nodes
        && m == OfNode(s, m.baseline.value)
    else m.key.Some? && m.key.value in keys && m == OfEntity(s, m.key.value)
  }

  /** Exactly the matches of those nodes and of those entities, each once. */
  ghost predicate Tally(s: Sides, found: seq<NodeMatch>, nodes: set<Id>, keys: set<Id>) {
    && (forall i :: 0 <= i < |found| ==> Right(s, nodes, keys, found[i]))
    && (forall b :: b in nodes && b in s.nodes ==> OfNode(s, b) in found)
    && (forall k :: k in keys ==> OfEntity(s, k) in found)
    && (forall i, j :: 0 <= i < j < |found| ==> found[i] != found[j])
  }

  lemma OfNodeIs(s: Sides, b: Id)
    requires b in s.nodes
    ensures OfNode(s, b).baseline == Some(b)
  {
  }

  lemma OfEntityIs(s: Sides, k: Id)
    ensures OfEntity(s, k).baseline == None && OfEntity(s, k).key == Some(k)
  {
  }

  lemma TallyNode(s: Sides, found: seq<NodeMatch>, nodes: set<Id>, keys: set<Id>, b: Id)
    requires Tally(s, found, nodes, keys) && b in s.nodes && b !in nodes
    ensures Tally(s, found + [OfNode(s, b)], nodes + {b}, keys)
  {
    hide OfNode, OfEntity;
    OfNodeIs(s, b);
    var more := found + [OfNode(s, b)];
    assert more[|found|] == OfNode(s, b);
    forall i | 0 <= i < |found|
      ensures found[i] != OfNode(s, b)
    {
      assert Right(s, nodes, keys, found[i]);
    }
    assert forall i :: 0 <= i < |found| ==> Right(s, nodes, keys, found[i]) && more[i] == found[i];
    assert forall x :: x in found ==> x in more;
  }

  lemma TallyEntity(s: Sides, found: seq<NodeMatch>, nodes: set<Id>, keys: set<Id>, k: Id)
    requires Tally(s, found, nodes, keys) && k !in keys
    ensures Tally(s, found + [OfEntity(s, k)], nodes, keys + {k})
  {
    hide OfNode, OfEntity;
    OfEntityIs(s, k);
    var more := found + [OfEntity(s, k)];
    assert more[|found|] == OfEntity(s, k);
    forall i | 0 <= i < |found|
      ensures found[i] != OfEntity(s, k)
    {
      assert Right(s, nodes, keys, found[i]);
    }
    assert forall i :: 0 <= i < |found| ==> Right(s, nodes, keys, found[i]) && more[i] == found[i];
    assert forall x :: x in found ==> x in more;
  }

  // --- claims --------------------------------------------------------------------------------------

  ghost predicate Claimed(s: Sides, done: set<Id>, claims: map<Id, set<Id>>, lost: set<Id>) {
    && (forall k :: k in claims ==> claims[k] == Claimants(s, k) * done && claims[k] != {})
    && (forall b :: b in done && b in s.nodes && ClaimOf(s, b).Some? ==> ClaimOf(s, b).value in claims)
    && (forall b :: b in lost <==> b in done && IsLost(s, b))
  }

  function WithClaim(claims: map<Id, set<Id>>, k: Id, b: Id): map<Id, set<Id>> {
    claims[k := if k in claims then claims[k] + {b} else {b}]
  }

  lemma ClaimedNext(s: Sides, done: set<Id>, claims: map<Id, set<Id>>, lost: set<Id>, b: Id)
    requires Claimed(s, done, claims, lost) && b in s.nodes && b !in done
    ensures ClaimOf(s, b).Some? ==> Claimed(s, done + {b}, WithClaim(claims, ClaimOf(s, b).value, b), lost)
    ensures ClaimOf(s, b).None? ==> Claimed(s, done + {b}, claims, lost + {b})
  {
    hide ClaimOf;
    assert forall k :: b in Claimants(s, k) <==> ClaimOf(s, b) == Some(k);
    if ClaimOf(s, b).Some? {
      var k := ClaimOf(s, b).value;
      assert forall x :: x in done && x in Claimants(s, k) ==> k in claims;
      var after := WithClaim(claims, k, b);
      assert after[k] == Claimants(s, k) * (done + {b});
      assert forall x :: x in claims && x != k ==> Claimants(s, x) * (done + {b}) == Claimants(s, x) * done;
    } else {
      assert forall x :: x in claims ==> Claimants(s, x) * (done + {b}) == Claimants(s, x) * done;
    }
  }

  method Claim(s: Sides, b: Id, claims: map<Id, set<Id>>, lost: set<Id>, ghost done: set<Id>)
    returns (claims': map<Id, set<Id>>, lost': set<Id>)
    requires Claimed(s, done, claims, lost) && b in s.nodes && b !in done
    ensures Claimed(s, done + {b}, claims', lost')
  {
    hide Claimed, ClaimOf, WithClaim;
    claims', lost' := claims, lost;
    ClaimCases(s, b);
    ClaimedNext(s, done, claims, lost, b);
    if b in s.entities {
      claims' := WithClaim(claims, b, b);
    } else if b in s.mappings && s.mappings[b] in s.entities {
      claims' := WithClaim(claims, s.mappings[b], b);
    } else {
      lost' := lost + {b};
    }
  }

  method Claims(s: Sides) returns (claims: map<Id, set<Id>>, lost: set<Id>)
    ensures Claimed(s, s.nodes.Keys, claims, lost)
  {
    hide *;
    claims, lost := map[], {};
    ghost var ids := s.nodes.Keys;
    var order := InOrder(s.nodes.Keys);
    Visited(ids);
    NoClaims(s);
    for i := 0 to |order|
      invariant Claimed(s, Members(order[..i]), claims, lost)
    {
      Visit(ids, i);
      claims, lost := Claim(s, order[i], claims, lost, Members(order[..i]));
    }
  }

  lemma ClaimCases(s: Sides, b: Id)
    ensures b in s.entities ==> ClaimOf(s, b) == Some(b)
    ensures b !in s.entities && b in s.mappings && s.mappings[b] in s.entities ==> ClaimOf(s, b) == Some(s.mappings[b])
    ensures b !in s.entities && !(b in s.mappings && s.mappings[b] in s.entities) ==> ClaimOf(s, b) == None
  {
  }

  lemma NoClaims(s: Sides)
    ensures Claimed(s, {}, map[], {})
  {
  }

  lemma AllClaimed(s: Sides, claims: map<Id, set<Id>>, lost: set<Id>)
    requires Claimed(s, s.nodes.Keys, claims, lost)
    ensures forall k :: k in claims <==> Claimants(s, k) != {}
    ensures forall k :: k in claims ==> claims[k] == Claimants(s, k)
    ensures forall b :: b in lost <==> IsLost(s, b)
  {
    hide ClaimOf;
    forall k
      ensures Claimants(s, k) * s.nodes.Keys == Claimants(s, k)
      ensures Claimants(s, k) != {} ==> k in claims
    {
      if Claimants(s, k) != {} {
        var b := AnyOf(Claimants(s, k));
        assert ClaimOf(s, b) == Some(k);
      }
    }
  }

  // --- matching ------------------------------------------------------------------------------------

  /** The nodes that have one of these claims, and the entities several nodes claim. */
  function ClaimedNodes(s: Sides, done: set<Id>): set<Id> {
    set b | b in s.nodes && ClaimOf(s, b).Some? && ClaimOf(s, b).value in done
  }

  function Contested(s: Sides, done: set<Id>): set<Id> {
    set k | k in done && !IsTaken(s, k)
  }

  lemma OfClaimant(s: Sides, k: Id, b: Id)
    requires b in Claimants(s, k)
    ensures !IsLost(s, b) && ClaimOf(s, b) == Some(k)
    ensures IsTaken(s, k) <==> Claimants(s, k) == {b}
  {
    if IsTaken(s, k) {
      var x :| x in s.nodes && Claimants(s, k) == {x};
    }
  }

  lemma ClaimedNodesNext(s: Sides, done: set<Id>, k: Id)
    requires k !in done
    ensures ClaimedNodes(s, done + {k}) == ClaimedNodes(s, done) + Claimants(s, k)
    ensures ClaimedNodes(s, done) * Claimants(s, k) == {}
    ensures Contested(s, done + {k}) == if IsTaken(s, k) then Contested(s, done) else Contested(s, done) + {k}
    ensures k !in Contested(s, done)
  {
    hide ClaimOf, IsTaken;
  }

  lemma OneClaimant(s: Sides, k: Id)
    requires Claimants(s, k) != {}
    ensures var order := InOrder(Claimants(s, k));
            order != [] && (IsTaken(s, k) <==> |order| == 1) && (|order| == 1 ==> Claimants(s, k) == {order[0]})
  {
    hide Claimants, InOrder;
    var ids := Claimants(s, k);
    var order := InOrder(ids);
    var x := AnyOf(ids);
    assert x in order;
    if |order| == 1 {
      assert forall b :: b in ids <==> b in order;
      assert ids == {order[0]};
      OfClaimant(s, k, order[0]);
    } else {
      assert order[0] in order && order[1] in order && order[0] != order[1];
      OfClaimant(s, k, order[0]);
    }
  }

  lemma TallyClaimant(s: Sides, k: Id, found: seq<NodeMatch>, before: set<Id>, keys: set<Id>, i: nat)
    requires i < |InOrder(Claimants(s, k))| && before * Claimants(s, k) == {}
    requires Tally(s, found, before + Members(InOrder(Claimants(s, k))[..i]), keys)
    ensures var b := InOrder(Claimants(s, k))[i];
            && b in s.nodes && ClaimOf(s, b) == Some(k) && !IsLost(s, b)
            && Tally(s, found + [OfNode(s, b)], before + Members(InOrder(Claimants(s, k))[..i + 1]), keys)
  {
    hide Tally, InOrder, OfNode;
    var ids := Claimants(s, k);
    Visit(ids, i);
    var b, done := InOrder(ids)[i], Members(InOrder(ids)[..i]);
    assert b in ids && b !in before * ids;
    TallyNode(s, found, before + done, keys, b);
    assert before + done + {b} == before + (done + {b});
  }

  /** An entity one node claims: matched by its id, or by the mapping a person confirmed. */
  lemma TakenBy(s: Sides, k: Id, b: Id)
    requires Claimants(s, k) == {b}
    ensures b in s.nodes
    ensures OfNode(s, b) == NodeMatch(Some(b), Some(k), if b == k then SameId else ConfirmedMapping, {})
  {
    assert b in Claimants(s, k);
  }

  lemma ContestedBy(s: Sides, k: Id, b: Id)
    requires b in Claimants(s, k) && !IsTaken(s, k)
    ensures b in s.nodes && OfNode(s, b) == NodeMatch(Some(b), None, Ambiguous, {k})
    ensures OfEntity(s, k) == NodeMatch(None, Some(k), Ambiguous, Claimants(s, k))
  {
    assert Claimants(s, k) != {b};
  }

  /** Several nodes claim one entity: each is ambiguous with it, and it with all of them. */
  method Contest(s: Sides, k: Id, claimants: set<Id>, found: seq<NodeMatch>, ghost before: set<Id>, ghost keys: set<Id>)
    returns (more: seq<NodeMatch>)
    requires Tally(s, found, before, keys) && before * claimants == {} && k !in keys
    requires claimants == Claimants(s, k) && claimants != {} && !IsTaken(s, k)
    ensures Tally(s, more, before + claimants, keys + {k})
  {
    hide Tally, Claimants, IsTaken, OfNode, OfEntity;
    var ids := InOrder(claimants);
    Visited(claimants);
    more := found;
    assert before + {} == before;
    for i := 0 to |ids|
      invariant Tally(s, more, before + Members(ids[..i]), keys)
    {
      TallyClaimant(s, k, more, before, keys, i);
      assert ids[i] in claimants by { Visit(claimants, i); }
      ContestedBy(s, k, ids[i]);
      more := more + [NodeMatch(Some(ids[i]), None, Ambiguous, {k})];
    }
    ghost var any := AnyOf(claimants);
    ContestedBy(s, k, any);
    TallyEntity(s, more, before + claimants, keys, k);
    more := more + [NodeMatch(None, Some(k), Ambiguous, claimants)];
  }

  /** The claimants of an entity, matched to it when there is one, ambiguous with it when there are more. */
  method Resolve(s: Sides, k: Id, claimants: set<Id>, found: seq<NodeMatch>, ghost done: set<Id>)
    returns (more: seq<NodeMatch>)
    requires Tally(s, found, ClaimedNodes(s, done), Contested(s, done)) && k !in done
    requires claimants == Claimants(s, k) && claimants != {}
    ensures Tally(s, more, ClaimedNodes(s, done + {k}), Contested(s, done + {k}))
  {
    hide Tally, ClaimedNodes, Contested, Claimants, IsTaken, OfNode;
    ClaimedNodesNext(s, done, k);
    OneClaimant(s, k);
    var ids := InOrder(claimants);
    if |ids| == 1 {
      TakenBy(s, k, ids[0]);
      TallyNode(s, found, ClaimedNodes(s, done), Contested(s, done), ids[0]);
      more := found + [NodeMatch(Some(ids[0]), Some(k), if ids[0] == k then SameId else ConfirmedMapping, {})];
    } else {
      more := Contest(s, k, claimants, found, ClaimedNodes(s, done), Contested(s, done));
    }
  }

  // --- the nodes and entities left -----------------------------------------------------------------

  lemma NearbyIs(s: Sides, b: Id, free: set<Id>)
    requires b in s.nodes && (forall k :: k in free <==> IsFree(s, k)) && free <= s.entities.Keys
    ensures Nearby(s, b) == set k | k in free && k in s.entities && s.nodes[b] == Some(s.entities[k])
  {
  }

  lemma TallyLost(s: Sides, found: seq<NodeMatch>, before: set<Id>, lost: set<Id>, keys: set<Id>, i: nat)
    requires i < |InOrder(lost)| && before * lost == {} && lost <= s.nodes.Keys
    requires Tally(s, found, before + Members(InOrder(lost)[..i]), keys)
    ensures var b := InOrder(lost)[i];
            b in s.nodes && b in lost && Tally(s, found + [OfNode(s, b)], before + Members(InOrder(lost)[..i + 1]),
                keys)
  {
    hide Tally, InOrder, OfNode;
    Visit(lost, i);
    var b, done := InOrder(lost)[i], Members(InOrder(lost)[..i]);
    assert b !in before * lost;
    TallyNode(s, found, before + done, keys, b);
    assert before + done + {b} == before + (done + {b});
  }

  lemma TallyFree(s: Sides, found: seq<NodeMatch>, nodes: set<Id>, before: set<Id>, free: set<Id>, i: nat)
    requires i < |InOrder(free)| && before * free == {}
    requires Tally(s, found, nodes, before + Members(InOrder(free)[..i]))
    ensures var k := InOrder(free)[i];
            k in free && Tally(s, found + [OfEntity(s, k)], nodes, before + Members(InOrder(free)[..i + 1]))
  {
    hide Tally, InOrder, OfEntity;
    Visit(free, i);
    var k, done := InOrder(free)[i], Members(InOrder(free)[..i]);
    assert k !in before * free;
    TallyEntity(s, found, nodes, before + done, k);
    assert before + done + {k} == before + (done + {k});
  }

  /** The nodes found near each entity, so far. */
  ghost predicate NearSoFar(s: Sides, done: set<Id>, near: map<Id, set<Id>>) {
    && (forall k :: k in near ==> near[k] != {} && near[k] == NodesNear(s, k) * done)
    && (forall k, b :: b in done && b in NodesNear(s, k) ==> k in near)
  }

  function WithNode(near: map<Id, set<Id>>, keys: set<Id>, b: Id): map<Id, set<Id>> {
    map k | k in near.Keys + keys :: (if k in near then near[k] else {}) + (if k in keys then {b} else {})
  }

  lemma NearNext(s: Sides, done: set<Id>, near: map<Id, set<Id>>, b: Id)
    requires NearSoFar(s, done, near) && IsLost(s, b) && b !in done
    ensures IsNear(s, b) ==> NearSoFar(s, done + {b}, WithNode(near, Nearby(s, b), b))
    ensures !IsNear(s, b) ==> NearSoFar(s, done + {b}, near)
  {
    hide ClaimOf, Nearby;
    assert forall k :: b in NodesNear(s, k) <==> IsNear(s, b) && k in Nearby(s, b);
    if IsNear(s, b) {
      var after := WithNode(near, Nearby(s, b), b);
      forall k | k in after
        ensures after[k] != {} && after[k] == NodesNear(s, k) * (done + {b})
      {
        assert k !in near ==> NodesNear(s, k) * done == {};
      }
    } else {
      assert forall k :: k in near ==> NodesNear(s, k) * (done + {b}) == NodesNear(s, k) * done;
    }
  }

  // --- the whole matching --------------------------------------------------------------------------

  /** The matches of a baseline and a run: every node once, and every entity that no node is matched to. */
  ghost predicate Matches(s: Sides, found: seq<NodeMatch>) {
    Tally(s, found, s.nodes.Keys, Unmet(s))
  }

  /** The entities no node is matched to. */
  function Unmet(s: Sides): set<Id> {
    set k | k in s.entities && !IsTaken(s, k)
  }

  lemma AllResolved(s: Sides, claimed: set<Id>, lost: set<Id>, free: set<Id>)
    requires forall k :: k in claimed <==> Claimants(s, k) != {}
    requires forall b :: b in lost <==> IsLost(s, b)
    requires free == s.entities.Keys - claimed
    ensures ClaimedNodes(s, claimed) + lost == s.nodes.Keys && ClaimedNodes(s, claimed) * lost == {}
    ensures lost <= s.nodes.Keys
    ensures Contested(s, claimed) + free == Unmet(s) && Contested(s, claimed) * free == {}
    ensures forall k :: k in free <==> IsFree(s, k)
  {
    forall b | b in s.nodes && !IsLost(s, b)
      ensures b in ClaimedNodes(s, claimed)
    {
      assert b in Claimants(s, ClaimOf(s, b).value);
    }
    assert forall b :: b in s.nodes <==> b in ClaimedNodes(s, claimed) || b in lost;
    assert ClaimedNodes(s, claimed) + lost == s.nodes.Keys;
    forall k | k in claimed
      ensures k in s.entities
    {
      var b := AnyOf(Claimants(s, k));
    }
    forall k | k in free
      ensures IsFree(s, k) && !IsTaken(s, k)
    {
      FreeNotTaken(s, k);
    }
  }

  lemma FreeNotTaken(s: Sides, k: Id)
    requires Claimants(s, k) == {}
    ensures !IsTaken(s, k)
  {
    hide Claimants;
    forall b
      ensures Claimants(s, k) != {b}
    {
      assert b in {b};
    }
  }

  lemma TakenIf(s: Sides, k: Id, b: Id)
    requires b in s.nodes && Claimants(s, k) == {b}
    ensures IsTaken(s, k)
  {
  }

  lemma NothingYet(s: Sides)
    ensures Tally(s, [], ClaimedNodes(s, {}), Contested(s, {})) && NearSoFar(s, {}, map[])
  {
  }

  /** Entities claimed, in key order. */
  method ResolveAll(s: Sides, claims: map<Id, set<Id>>) returns (found: seq<NodeMatch>)
    requires forall k :: k in claims <==> Claimants(s, k) != {}
    requires forall k :: k in claims ==> claims[k] == Claimants(s, k)
    ensures Tally(s, found, ClaimedNodes(s, claims.Keys), Contested(s, claims.Keys))
  {
    hide Tally, ClaimedNodes, Contested, Claimants;
    found := [];
    NothingYet(s);
    ghost var keys := claims.Keys;
    var order := InOrder(claims.Keys);
    Visited(keys);
    for i := 0 to |order|
      invariant Tally(s, found, ClaimedNodes(s, Members(order[..i])), Contested(s, Members(order[..i])))
    {
      Visit(keys, i);
      found := Resolve(s, order[i], claims[order[i]], found, Members(order[..i]));
    }
  }

  /** The nodes that claim nothing: near an entity that may be them, or unmatched. */
  method Locate(s: Sides, lost: set<Id>, free: set<Id>, found: seq<NodeMatch>, ghost before: set<Id>,
      ghost keys: set<Id>)
    returns (more: seq<NodeMatch>, near: map<Id, set<Id>>)
    requires Tally(s, found, before, keys) && before * lost == {} && lost <= s.nodes.Keys
    requires forall b :: b in lost <==> IsLost(s, b)
    requires (forall k :: k in free <==> IsFree(s, k)) && free <= s.entities.Keys
    ensures Tally(s, more, before + lost, keys) && NearSoFar(s, lost, near)
  {
    hide Tally, NearSoFar, IsFree, IsLost, OfNode, ClaimOf, WithNode;
    more, near := found, map[];
    NothingYet(s);
    assert before + {} == before;
    var order := InOrder(lost);
    Visited(lost);
    for i := 0 to |order|
      invariant Tally(s, more, before + Members(order[..i]), keys) && NearSoFar(s, Members(order[..i]), near)
    {
      var b := order[i];
      TallyLost(s, more, before, lost, keys, i);
      Visit(lost, i);
      NearbyIs(s, b, free);
      LostMatch(s, b);
      NearNext(s, Members(order[..i]), near, b);
      var nearby := set k | k in free && k in s.entities && s.nodes[b] == Some(s.entities[k]);
      if nearby != {} && b !in s.mappings {
        more := more + [NodeMatch(Some(b), None, Ambiguous, nearby)];
        near := WithNode(near, nearby, b);
      } else {
        more := more + [NodeMatch(Some(b), None, Unmatched, {})];
      }
    }
  }

  lemma LostMatch(s: Sides, b: Id)
    requires IsLost(s, b)
    ensures b in s.nodes && (IsNear(s, b) <==> Nearby(s, b) != {} && b !in s.mappings)
    ensures OfNode(s, b) == if IsNear(s, b) then NodeMatch(Some(b), None, Ambiguous, Nearby(s, b))
                            else NodeMatch(Some(b), None, Unmatched, {})
  {
  }

  lemma FreeMatch(s: Sides, lost: set<Id>, near: map<Id, set<Id>>, k: Id)
    requires IsFree(s, k) && NearSoFar(s, lost, near) && forall b :: b in lost <==> IsLost(s, b)
    ensures OfEntity(s, k) == if k in near then NodeMatch(None, Some(k), Ambiguous, near[k])
            else NodeMatch(None, Some(k), Unmatched, {})
  {
    hide ClaimOf;
    assert NodesNear(s, k) * lost == NodesNear(s, k);
    if NodesNear(s, k) != {} {
      var b := AnyOf(NodesNear(s, k));
      assert b in lost;
    }
  }

  method MatchNodes(s: Sides) returns (found: seq<NodeMatch>)
    ensures Matches(s, found)
  {
    hide Tally, Claimed, Claimants, ClaimedNodes, Contested, NearSoFar, IsFree, IsLost, Unmet, OfEntity;
    var claims, lost := Claims(s);
    AllClaimed(s, claims, lost);
    found := ResolveAll(s, claims);
    var free := s.entities.Keys - claims.Keys;
    AllResolved(s, claims.Keys, lost, free);
    var near;
    found, near := Locate(s, lost, free, found, ClaimedNodes(s, claims.Keys), Contested(s, claims.Keys));
    ghost var keys := Contested(s, claims.Keys);
    assert keys + {} == keys;
    var order := InOrder(free);
    Visited(free);
    for i := 0 to |order|
      invariant Tally(s, found, s.nodes.Keys, keys + Members(order[..i]))
    {
      TallyFree(s, found, s.nodes.Keys, keys, free, i);
      FreeMatch(s, lost, near, order[i]);
      found := found + [if order[i] in near then NodeMatch(None, Some(order[i]), Ambiguous, near[order[i]])
                        else NodeMatch(None, Some(order[i]), Unmatched, {})];
    }
  }

  // --- what a matching guarantees ------------------------------------------------------------------

  /** Every node is in exactly one match. */
  lemma NodeOnce(s: Sides, found: seq<NodeMatch>, b: Id)
    requires Matches(s, found) && b in s.nodes
    ensures exists i :: 0 <= i < |found| && found[i].baseline == Some(b)
    ensures forall i, j ::
            0 <= i < |found| && 0 <= j < |found| && found[i].baseline == Some(b) && found[j].baseline == Some(b) ==>
            i == j
  {
    hide OfEntity, OfNode, Unmet;
    OfNodeIs(s, b);
    assert OfNode(s, b) in found;
    forall i | 0 <= i < |found| && found[i].baseline == Some(b)
      ensures found[i] == OfNode(s, b)
    {
      assert Right(s, s.nodes.Keys, Unmet(s), found[i]);
    }
  }

  lemma KeyOf(s: Sides, found: seq<NodeMatch>, i: nat, k: Id)
    requires Matches(s, found) && i < |found| && found[i].key == Some(k)
    ensures found[i].baseline.Some? ==>
            found[i].baseline.value in s.nodes && Claimants(s, k) == {found[i].baseline.value}
                                        && IsMatched(found[i])
    ensures found[i].baseline.None? ==> found[i] == OfEntity(s, k)
    ensures found[i].baseline.Some? <==> IsTaken(s, k)
  {
    hide Claimants, IsTaken;
    assert Right(s, s.nodes.Keys, Unmet(s), found[i]);
    if found[i].baseline.None? {
      OfEntityIs(s, found[i].key.value);
    } else {
      TakenIf(s, k, found[i].baseline.value);
    }
  }

  /** Every entity is in exactly one match: the match of the only node that claims it, or one of its own. */
  lemma EntityOnce(s: Sides, found: seq<NodeMatch>, k: Id)
    requires Matches(s, found) && k in s.entities
    ensures exists i :: 0 <= i < |found| && found[i].key == Some(k)
    ensures forall i, j ::
            0 <= i < |found| && 0 <= j < |found| && found[i].key == Some(k) && found[j].key == Some(k) ==> i == j
  {
    hide OfEntity, OfNode, Claimants, Right;
    if IsTaken(s, k) {
      var b :| b in s.nodes && Claimants(s, k) == {b};
      TakenBy(s, k, b);
      assert OfNode(s, b) in found;
    } else {
      OfEntityIs(s, k);
      assert k in Unmet(s);
      assert OfEntity(s, k) in found;
    }
    forall i, j | 0 <= i < |found| && 0 <= j < |found| && found[i].key == Some(k) && found[j].key == Some(k)
      ensures i == j
    {
      KeyOf(s, found, i, k);
      KeyOf(s, found, j, k);
      if found[i].baseline.Some? {
        assert found[j].baseline.value in Claimants(s, k);
        assert found[i].baseline == found[j].baseline;
        NodeOnce(s, found, found[i].baseline.value);
      }
    }
  }

  /** A match pairs a node and an entity exactly when the node alone claims the entity. */
  lemma MatchedExactly(s: Sides, found: seq<NodeMatch>, b: Id, k: Id)
    requires Matches(s, found) && b in s.nodes
    ensures (exists i ::
            0 <= i < |found| && IsMatched(found[i]) && found[i].baseline == Some(b) && found[i].key == Some(k))
            <==> Claimants(s, k) == {b}
  {
    hide OfEntity, OfNode, Claimants, Right;
    if Claimants(s, k) == {b} {
      TakenBy(s, k, b);
      assert OfNode(s, b) in found;
    }
    forall i | 0 <= i < |found| && IsMatched(found[i]) && found[i].baseline == Some(b) && found[i].key == Some(k)
      ensures Claimants(s, k) == {b}
    {
      KeyOf(s, found, i, k);
    }
  }
}
