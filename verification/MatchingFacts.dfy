/** What matching connections guarantees: every connection and every reference is accounted for once. */
module MatchingFacts {
  import opened Options
  import opened Reachability
  import opened Discovery
  import opened ConnectionMatching

  lemma AvailableIs(l: Links, p: Pair, r: Id)
    ensures r in Available(l, p) <==> r in Group(l, p) && r !in Kept(l)
  {
    hide Group, Kept;
  }

  /** No two connections take one reference. */
  lemma TakesOnce(l: Links, c: Id, d: Id, r: Id)
    requires Takes(l, c, r) && Takes(l, d, r)
    ensures c == d
  {
    hide Chosen, IsSame, Group, Available;
    if IsSame(l, c) && IsSame(l, d) {
      SameFirst(l, c);
      SameFirst(l, d);
    } else if IsSame(l, c) {
      KeptNotTaken(l, c, d, r);
    } else if IsSame(l, d) {
      KeptNotTaken(l, d, c, r);
    } else {
      TakesOwn(l, c, r);
      TakesOwn(l, d, r);
      AvailableIs(l, PairOf(l.connections[c]), r);
      GroupOne(l, PairOf(l.connections[c]), PairOf(l.connections[d]), r);
    }
  }

  lemma KeptNotTaken(l: Links, c: Id, d: Id, r: Id)
    requires Takes(l, c, r) && IsSame(l, c)
    ensures !Takes(l, d, r) || IsSame(l, d)
    ensures !Lists(l, d, r)
  {
    hide Chosen, IsSame, Group, Available, Kept;
    SameTakes(l, c, r);
    if Takes(l, d, r) && !IsSame(l, d) {
      TakesOwn(l, d, r);
      AvailableIs(l, PairOf(l.connections[d]), r);
      assert false;
    }
    if Lists(l, d, r) {
      ListsUnstated(l, d, r);
      AvailableIs(l, PairOf(l.connections[d]), r);
      assert false;
    }
  }

  lemma ListsUnstated(l: Links, d: Id, r: Id)
    requires Lists(l, d, r)
    ensures !IsSame(l, d) && Chosen(l, d) == {} && r in Available(l, PairOf(l.connections[d]))
    ensures r in l.refs && l.refs[r].kind.None? && d in Siblings(l, PairOf(l.connections[d]))
  {
    hide Chosen, IsSame, Available;
  }

  /** A reference one connection takes is not listed as what another may be. */
  lemma TakesNotLists(l: Links, c: Id, d: Id, r: Id)
    requires Takes(l, c, r)
    ensures !Lists(l, d, r)
  {
    hide Chosen, IsSame, Group, Available;
    if IsSame(l, c) {
      KeptNotTaken(l, c, d, r);
    } else if Lists(l, d, r) {
      TakesOwn(l, c, r);
      ListsUnstated(l, d, r);
      AvailableIs(l, PairOf(l.connections[c]), r);
      GroupOne(l, PairOf(l.connections[c]), PairOf(l.connections[d]), r);
      assert false;
    }
  }

  /** Every connection is in exactly one match. */
  lemma ConnectionOnce(l: Links, found: seq<ConnectionMatch>, c: Id)
    requires Matched(l, found) && c in l.connections
    ensures exists i :: 0 <= i < |found| && found[i] == OfConnection(l, c)
    ensures forall i, j ::
            0 <= i < |found| && 0 <= j < |found| && found[i].baseline == Some(c) && found[j].baseline == Some(c) ==>
            i == j
  {
    hide OfLeftover, OfStrays, Leftover, Strays, PairsOf, Chosen, Stating;
    assert OfConnection(l, c) in found;
    forall i | 0 <= i < |found| && found[i].baseline == Some(c)
      ensures found[i] == OfConnection(l, c)
    {
      assert Right(l, Progress(l.connections.Keys, PairsOf(l, true), PairsOf(l, false)), found[i]);
    }
  }

  /** What a match that holds the reference is: the match of the connection that takes it, or one of what is left. */
  lemma HolderIs(l: Links, found: seq<ConnectionMatch>, i: int, r: Id)
    requires Matched(l, found) && 0 <= i < |found|
    ensures r in found[i].candidates ==> found[i].baseline.Some? && Lists(l, found[i].baseline.value, r)
    ensures r in found[i].relationships && found[i].baseline.Some? ==>
              Takes(l, found[i].baseline.value, r) && found[i] == OfConnection(l, found[i].baseline.value)
    ensures r in found[i].relationships && found[i].baseline.None? ==>
              found[i] == OfLeftover(l, found[i].pair) || found[i] == OfStrays(l, found[i].pair)
  {
    hide Leftover, Strays, PairsOf, OfConnection;
    assert Right(l, Progress(l.connections.Keys, PairsOf(l, true), PairsOf(l, false)), found[i]);
  }

  lemma LeftoverIs(l: Links, p: Pair, r: Id)
    ensures r in Leftover(l, p) <==>
            r in l.refs && l.refs[r].matched && l.refs[r].pair == p
            && (forall c :: !Takes(l, c, r)) && (forall c :: !Lists(l, c, r))
  {
    hide OfConnection, Taken, Listed;
    TakenBy(l, l.connections.Keys, r);
    forall c
      ensures Takes(l, c, r) || Lists(l, c, r) ==> c in l.connections.Keys
    {
    }
  }

  lemma TakenMatched(l: Links, c: Id, r: Id)
    requires Takes(l, c, r) || Lists(l, c, r)
    ensures r in l.refs && l.refs[r].matched
  {
    hide IsFirst, Kept, Siblings;
  }

  /** Some match holds the reference, or lists it as a candidate. */
  lemma ReferenceKept(l: Links, found: seq<ConnectionMatch>, r: Id)
    requires Matched(l, found) && r in l.refs
    ensures exists i :: 0 <= i < |found| && (r in found[i].relationships || r in found[i].candidates)
  {
    hide OfConnection, Leftover, Taken, Listed, PairsOf;
    var p := l.refs[r].pair;
    if c :| Takes(l, c, r) || Lists(l, c, r) {
      assert OfConnection(l, c) in found;
    } else if l.refs[r].matched {
      LeftoverIs(l, p, r);
      OnlyPairs(l, p);
      assert OfLeftover(l, p) in found;
    } else {
      assert r in Strays(l, p);
      OnlyPairs(l, p);
      assert OfStrays(l, p) in found;
    }
  }

  /**
   * Every reference between components is accounted for once: it is in the match of one connection or among
   * what is left over, or else only listed as what an ambiguous connection may be.
   */
  lemma ReferenceOnce(l: Links, found: seq<ConnectionMatch>, r: Id)
    requires Matched(l, found) && r in l.refs
    ensures (exists i :: 0 <= i < |found| && r in found[i].relationships) <==>
            !(exists i :: 0 <= i < |found| && r in found[i].candidates)
    ensures forall i, j ::
            0 <= i < |found| && 0 <= j < |found| && r in found[i].relationships && r in found[j].relationships ==>
            i == j
  {
    hide Matched, OfConnection, Takes, Lists;
    ReferenceKept(l, found, r);
    forall i, j | 0 <= i < |found| && 0 <= j < |found| && r in found[i].relationships
      ensures r !in found[j].candidates && (r in found[j].relationships ==> found[i] == found[j])
    {
      OneHolder(l, found, i, j, r);
    }
    forall i, j | 0 <= i < |found| && 0 <= j < |found| && found[i] == found[j]
      ensures i == j
    {
      NoRepeats(l, found, i, j);
    }
  }

  lemma NoRepeats(l: Links, found: seq<ConnectionMatch>, i: int, j: int)
    requires Matched(l, found) && 0 <= i < |found| && 0 <= j < |found| && found[i] == found[j]
    ensures i == j
  {
    hide OfConnection, OfLeftover, OfStrays, Leftover, Strays, PairsOf, Right;
  }

  lemma OneHolder(l: Links, found: seq<ConnectionMatch>, i: int, j: int, r: Id)
    requires Matched(l, found) && r in l.refs && 0 <= i < |found| && 0 <= j < |found| && r in found[i].relationships
    ensures r !in found[j].candidates
    ensures r in found[j].relationships ==> found[i] == found[j]
  {
    hide Matched, OfConnection, Takes, Lists, Leftover;
    HolderIs(l, found, i, r);
    HolderIs(l, found, j, r);
    var a, b := found[i].baseline, found[j].baseline;
    LeftoverIs(l, found[i].pair, r);
    LeftoverIs(l, found[j].pair, r);
    if a.Some? {
      TakenMatched(l, a.value, r);
      if b.Some? {
        if r in found[j].relationships {
          TakesOnce(l, a.value, b.value, r);
        }
        TakesNotLists(l, a.value, b.value, r);
      }
    } else if b.Some? && (r in found[j].relationships || r in found[j].candidates) {
      TakenMatched(l, b.value, r);
      assert false;
    }
  }
}
