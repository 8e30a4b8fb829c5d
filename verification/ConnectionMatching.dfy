/** `match_connections`: a baseline's connections and a run's references between matched components. */
module ConnectionMatching {
  import opened Options
  import opened Reachability
  import opened Ordered
  import opened Discovery
  import opened NodeMatching

  // --- references between components ---------------------------------------------------------------

  /** Where a resolved relationship joins two components, a service followed to its workload. */
  function EndsOf(entities: map<Id, Entity>, routes: map<Id, Id>, r: Relationship): Option<Pair> {
    if r.target.None? || r.source !in entities || r.target.value !in entities then None
    else
      var target := r.target.value;
      if entities[target].role.Routing? && target !in routes then None
      else
        var reached := if entities[target].role.Routing? then routes[target] else target;
        if reached in entities && entities[r.source].role.Component? && entities[reached].role.Component?
        then Some(Pair(r.source, reached)) else None
  }

  /** Discovery key to the baseline node it matched. */
  function BaselineOf(found: seq<NodeMatch>): (m: map<Id, Id>)
    ensures forall k :: k in m ==>
              exists i :: 0 <= i < |found| && IsMatched(found[i]) && found[i].key == Some(k)
                  && found[i].baseline == Some(m[k])
    ensures forall i :: 0 <= i < |found| && IsMatched(found[i]) && found[i].key.Some? && found[i].baseline.Some? ==>
              found[i].key.value in m
  {
    if found == [] then map[]
    else
      var z := |found| - 1;
      var m, last := BaselineOf(found[..z]), found[z];
      if IsMatched(last) && last.key.Some? && last.baseline.Some? then m[last.key.value := last.baseline.value] else m
  }

  /** A reference by its ends: baseline nodes where both matched. */
  datatype Ref = Ref(pair: Pair, matched: bool, kind: Option<Id>)

  function RefOf(baselineOf: map<Id, Id>, ends: Pair, kind: Option<Id>): Ref {
    if ends.source in baselineOf && ends.target in baselineOf then
      Ref(Pair(baselineOf[ends.source], baselineOf[ends.target]), true, kind)
    else
      Ref(Pair(if ends.source in baselineOf then baselineOf[ends.source] else ends.source,
               if ends.target in baselineOf then baselineOf[ends.target] else ends.target), false, kind)
  }

  ghost predicate RefsAre(entities: map<Id, Entity>, routes: map<Id, Id>, baselineOf: map<Id, Id>,
      rs: seq<Relationship>, n: int, refs: map<Id, Ref>)
    requires 0 <= n <= |rs|
  {
    && (forall id :: id in refs ==> exists i :: 0 <= i < n && rs[i].id == id)
    && (forall i :: 0 <= i < n ==> (rs[i].id in refs <==> EndsOf(entities, routes, rs[i]).Some?))
    && (forall i :: 0 <= i < n && EndsOf(entities, routes, rs[i]).Some? && rs[i].id in refs ==>
          refs[rs[i].id] == RefOf(baselineOf, EndsOf(entities, routes, rs[i]).value, rs[i].kind))
  }

  lemma NoRefs(entities: map<Id, Entity>, routes: map<Id, Id>, baselineOf: map<Id, Id>, rs: seq<Relationship>)
    ensures RefsAre(entities, routes, baselineOf, rs, 0, map[])
  {
  }

  lemma RefsNext(entities: map<Id, Entity>, routes: map<Id, Id>, baselineOf: map<Id, Id>, rs: seq<Relationship>,
      n: nat, refs: map<Id, Ref>)
    requires n < |rs| && Identified(rs) && RefsAre(entities, routes, baselineOf, rs, n, refs)
    ensures var ends := EndsOf(entities, routes, rs[n]);
            RefsAre(entities, routes, baselineOf, rs, n + 1,
                    if ends.Some? then refs[rs[n].id := RefOf(baselineOf, ends.value, rs[n].kind)] else refs)
  {
    hide EndsOf, RefOf;
    assert forall i :: 0 <= i < n ==> rs[i].id != rs[n].id;
  }

  method Endpoints(entities: map<Id, Entity>, baselineOf: map<Id, Id>, rs: seq<Relationship>)
    returns (refs: map<Id, Ref>)
    requires Identified(rs)
    ensures RefsAre(entities, Routes(rs, entities), baselineOf, rs, |rs|, refs)
  {
    hide EndsOf, RefOf, Routes, RefsAre, Identified;
    var routes := Routes(rs, entities);
    refs := map[];
    NoRefs(entities, routes, baselineOf, rs);
    for n := 0 to |rs|
      invariant RefsAre(entities, routes, baselineOf, rs, n, refs)
    {
      RefsNext(entities, routes, baselineOf, rs, n, refs);
      var ends := EndsOf(entities, routes, rs[n]);
      if ends.Some? {
        refs := refs[rs[n].id := RefOf(baselineOf, ends.value, rs[n].kind)];
      }
    }
  }

  // --- what each connection is matched to ----------------------------------------------------------

  datatype ConnectionMatch = ConnectionMatch(baseline: Option<Id>, relationships: set<Id>, how: Method, pair: Pair,
      candidates: set<Id>)

  /** The two sides: the baseline's connections, and the references between components. */
  datatype Links = Links(connections: map<Id, Connection>, refs: map<Id, Ref>)

  function PairOf(c: Connection): Pair {
    Pair(c.source, c.target)
  }

  /** The references between two matched nodes. */
  function Group(l: Links, p: Pair): set<Id> {
    set r | r in l.refs && l.refs[r].matched && l.refs[r].pair == p
  }

  /** The same reference: its id kept as the connection's, between the same nodes. */
  predicate IsSame(l: Links, c: Id) {
    c in l.connections && c in l.refs && l.refs[c].matched && l.refs[c].pair == PairOf(l.connections[c])
  }

  function Kept(l: Links): set<Id> {
    set c | c in l.connections && IsSame(l, c)
  }

  /** The connections between two nodes that are not the same reference as one found. */
  function Siblings(l: Links, p: Pair): set<Id> {
    set c | c in l.connections && !IsSame(l, c) && PairOf(l.connections[c]) == p
  }

  function Available(l: Links, p: Pair): set<Id> {
    Group(l, p) - Kept(l)
  }

  function Stating(l: Links, p: Pair, kind: Option<Id>): set<Id> {
    set r | r in Available(l, p) && r in l.refs && l.refs[r].kind == kind
  }

  /** No earlier sibling has its kind. */
  predicate IsFirst(l: Links, c: Id)
    requires c in l.connections
  {
    var p, kind := PairOf(l.connections[c]), l.connections[c].kind;
    forall d :: d in Siblings(l, p) && d in l.connections && l.connections[d].kind == kind ==> c <= d
  }

  /** What a connection takes by its ends: everything when alone, else the references of its kind. */
  function Chosen(l: Links, c: Id): set<Id>
    requires c in l.connections
  {
    var p := PairOf(l.connections[c]);
    if Siblings(l, p) == {c} then Available(l, p)
    else if IsFirst(l, c) then Stating(l, p, Some(l.connections[c].kind))
    else {}
  }

  function OfConnection(l: Links, c: Id): ConnectionMatch
    requires c in l.connections
  {
    var p := PairOf(l.connections[c]);
    if IsSame(l, c) then ConnectionMatch(Some(c), {c}, SameId, p, {})
    else if Chosen(l, c) != {} then ConnectionMatch(Some(c), Chosen(l, c), BySignature, p, {})
    else if Stating(l, p, None) != {} then ConnectionMatch(Some(c), {}, Ambiguous, p, Stating(l, p, None))
    else ConnectionMatch(Some(c), {}, Unmatched, p, {})
  }

  /** The references taken by one of these connections. */
  function Taken(l: Links, done: set<Id>): set<Id> {
    set c, r | c in done && c in l.connections && r in OfConnection(l, c).relationships :: r
  }

  /** The references listed as what one of these connections may be. */
  function Listed(l: Links, done: set<Id>): set<Id> {
    set c, r | c in done && c in l.connections && r in OfConnection(l, c).candidates :: r
  }

  /** The references between two matched nodes that nothing took or listed. */
  function Leftover(l: Links, p: Pair): set<Id> {
    Group(l, p) - Taken(l, l.connections.Keys) - Listed(l, l.connections.Keys)
  }

  /** The references between those ends, of which one is not matched. */
  function Strays(l: Links, p: Pair): set<Id> {
    set r | r in l.refs && !l.refs[r].matched && l.refs[r].pair == p
  }

  function OfLeftover(l: Links, p: Pair): ConnectionMatch {
    ConnectionMatch(None, Leftover(l, p), Unmatched, p, {})
  }

  function OfStrays(l: Links, p: Pair): ConnectionMatch {
    ConnectionMatch(None, Strays(l, p), Unmatched, p, {})
  }

  // --- the matches found ---------------------------------------------------------------------------

  /** What was matched so far: connections, pairs whose leftover references were listed, ends whose strays were. */
  datatype Progress = Progress(connections: set<Id>, pairs: set<Pair>, ends: set<Pair>)

  ghost predicate Right(l: Links, done: Progress, m: ConnectionMatch) {
    if m.baseline.Some? then
      m.baseline.value in done.connections && m.baseline.value in l.connections
          && m == OfConnection(l, m.baseline.value)
    else
      (m.pair in done.pairs && m == OfLeftover(l, m.pair) && m.relationships != {})
      || (m.pair in done.ends && m == OfStrays(l, m.pair) && m.relationships != {})
  }

  ghost predicate Tally(l: Links, found: seq<ConnectionMatch>, done: Progress) {
    && (forall i :: 0 <= i < |found| ==> Right(l, done, found[i]))
    && (forall c :: c in done.connections && c in l.connections ==> OfConnection(l, c) in found)
    && (forall p :: p in done.pairs && Leftover(l, p) != {} ==> OfLeftover(l, p) in found)
    && (forall p :: p in done.ends && Strays(l, p) != {} ==> OfStrays(l, p) in found)
    && (forall i, j :: 0 <= i < j < |found| ==> found[i] != found[j])
  }

  lemma TallyMore(l: Links, found: seq<ConnectionMatch>, done: Progress, after: Progress, m: ConnectionMatch)
    requires Tally(l, found, done) && Right(l, after, m) && m !in found
    requires done.connections <= after.connections && done.pairs <= after.pairs && done.ends <= after.ends
    requires forall c :: c in after.connections - done.connections && c in l.connections ==> OfConnection(l, c) == m
    requires forall p :: p in after.pairs - done.pairs && Leftover(l, p) != {} ==> OfLeftover(l, p) == m
    requires forall p :: p in after.ends - done.ends && Strays(l, p) != {} ==> OfStrays(l, p) == m
    ensures Tally(l, found + [m], after)
  {
    hide OfConnection, OfLeftover, OfStrays, Leftover, Strays;
    var more := found + [m];
    assert more[|found|] == m;
    forall i | 0 <= i < |found|
      ensures Right(l, after, more[i])
    {
      assert Right(l, done, found[i]);
    }
    assert forall x :: x in found ==> x in more;
    forall i, j | 0 <= i < j < |more|
      ensures more[i] != more[j]
    {
      assert more[i] in found;
    }
  }

  lemma TallyConnection(l: Links, found: seq<ConnectionMatch>, done: Progress, c: Id)
    requires Tally(l, found, done) && c in l.connections && c !in done.connections
    ensures Tally(l, found + [OfConnection(l, c)], done.(connections := done.connections + {c}))
  {
    hide Chosen, Stating, IsSame, OfLeftover, OfStrays, Leftover, Strays;
    var m := OfConnection(l, c);
    forall i | 0 <= i < |found|
      ensures found[i] != m
    {
      assert Right(l, done, found[i]);
    }
    TallyMore(l, found, done, done.(connections := done.connections + {c}), m);
  }

  lemma TallyPair(l: Links, found: seq<ConnectionMatch>, done: Progress, p: Pair)
    requires Tally(l, found, done) && p !in done.pairs && done.ends == {}
    ensures var after := done.(pairs := done.pairs + {p});
            Tally(l, if Leftover(l, p) != {} then found + [OfLeftover(l, p)] else found, after)
  {
    hide OfConnection, Leftover, Strays;
    var m, after := OfLeftover(l, p), done.(pairs := done.pairs + {p});
    forall i | 0 <= i < |found|
      ensures found[i] != m && Right(l, after, found[i])
    {
      assert Right(l, done, found[i]);
    }
    if Leftover(l, p) != {} {
      TallyMore(l, found, done, after, m);
    }
  }

  lemma LeftoverNotStray(l: Links, p: Pair, q: Pair)
    requires Leftover(l, p) != {}
    ensures OfLeftover(l, p) != OfStrays(l, q)
  {
    hide Taken, Listed;
    var r := AnyOf(Leftover(l, p));
    assert r !in Strays(l, q);
  }

  lemma TallyEnds(l: Links, found: seq<ConnectionMatch>, done: Progress, p: Pair)
    requires Tally(l, found, done) && p !in done.ends
    ensures var after := done.(ends := done.ends + {p});
            Tally(l, if Strays(l, p) != {} then found + [OfStrays(l, p)] else found, after)
  {
    hide OfConnection, Leftover, Strays;
    var m, after := OfStrays(l, p), done.(ends := done.ends + {p});
    forall i | 0 <= i < |found|
      ensures found[i] != m && Right(l, after, found[i])
    {
      assert Right(l, done, found[i]);
      if found[i].baseline.None? && Leftover(l, found[i].pair) != {} {
        LeftoverNotStray(l, found[i].pair, p);
      }
    }
    if Strays(l, p) != {} {
      TallyMore(l, found, done, after, m);
    }
  }

  // --- the baseline's side -------------------------------------------------------------------------

  lemma TakenNext(l: Links, done: set<Id>, c: Id)
    requires c in l.connections
    ensures Taken(l, done + {c}) == Taken(l, done) + OfConnection(l, c).relationships
    ensures Listed(l, done + {c}) == Listed(l, done) + OfConnection(l, c).candidates
  {
    hide OfConnection;
    forall r
      ensures r in Taken(l, done + {c}) <==> r in Taken(l, done) || r in OfConnection(l, c).relationships
      ensures r in Listed(l, done + {c}) <==> r in Listed(l, done) || r in OfConnection(l, c).candidates
    {
      TakenBy(l, done + {c}, r);
      TakenBy(l, done, r);
    }
  }

  ghost predicate Takes(l: Links, c: Id, r: Id) {
    c in l.connections && r in OfConnection(l, c).relationships
  }

  ghost predicate Lists(l: Links, c: Id, r: Id) {
    c in l.connections && r in OfConnection(l, c).candidates
  }

  lemma TakenBy(l: Links, done: set<Id>, r: Id)
    ensures r in Taken(l, done) <==> exists c :: c in done && Takes(l, c, r)
    ensures r in Listed(l, done) <==> exists c :: c in done && Lists(l, c, r)
  {
    hide OfConnection;
  }

  lemma KeptTaken(l: Links)
    ensures Taken(l, Kept(l)) == Kept(l)
  {
    hide Chosen, Stating;
    forall r
      ensures r in Taken(l, Kept(l)) <==> r in Kept(l)
    {
      TakenBy(l, Kept(l), r);
      if r in Kept(l) {
        assert Takes(l, r, r);
      }
    }
  }

  /** Whatever a connection takes that was not the same reference is between its own ends. */
  lemma TakesOwn(l: Links, d: Id, r: Id)
    requires Takes(l, d, r) && !IsSame(l, d)
    ensures r in Chosen(l, d) && r in Available(l, PairOf(l.connections[d]))
    ensures d in Siblings(l, PairOf(l.connections[d]))
    ensures Siblings(l, PairOf(l.connections[d])) == {d}
            || (IsFirst(l, d) && r in l.refs && l.refs[r].kind == Some(l.connections[d].kind))
  {
    hide IsSame, IsFirst;
  }

  /** Connections are taken in order: what one finds free is what it takes in the end. */
  ghost predicate UpTo(l: Links, done: set<Id>, c: Id) {
    && Kept(l) <= done && c in l.connections && !IsSame(l, c) && c !in done
    && forall d :: d in l.connections && !IsSame(l, d) ==> (d in done <==> d < c)
  }

  lemma FreeAlone(l: Links, done: set<Id>, c: Id, r: Id)
    requires UpTo(l, done, c) && Siblings(l, PairOf(l.connections[c])) == {c} && r in Group(l, PairOf(l.connections[c]))
    ensures r in Taken(l, done) <==> r in Kept(l)
  {
    hide Chosen, IsSame, Group;
    TakenBy(l, done, r);
    KeptTaken(l);
    TakenBy(l, Kept(l), r);
    forall d | d in done && Takes(l, d, r)
      ensures r in Kept(l)
    {
      if !IsSame(l, d) {
        TakesOwn(l, d, r);
        GroupOne(l, PairOf(l.connections[c]), PairOf(l.connections[d]), r);
      }
    }
  }

  lemma GroupOne(l: Links, p: Pair, q: Pair, r: Id)
    requires r in Group(l, p) && r in Available(l, q)
    ensures p == q
  {
  }

  lemma FreeOther(l: Links, done: set<Id>, c: Id, r: Id)
    requires UpTo(l, done, c) && Siblings(l, PairOf(l.connections[c])) != {c} && r in Group(l, PairOf(l.connections[c]))
    requires r in Taken(l, done) && r !in Kept(l)
    ensures r in l.refs && l.refs[r].kind.Some? && (l.refs[r].kind == Some(l.connections[c].kind) ==> !IsFirst(l, c))
  {
    hide Chosen, IsSame, Group;
    TakenBy(l, done, r);
    var d :| d in done && Takes(l, d, r);
    if IsSame(l, d) {
      SameTakes(l, d, r);
    }
    TakesOwn(l, d, r);
    GroupOne(l, PairOf(l.connections[c]), PairOf(l.connections[d]), r);
    assert d < c;
    assert c in Siblings(l, PairOf(l.connections[c]));
  }

  lemma SameTakes(l: Links, d: Id, r: Id)
    requires Takes(l, d, r) && IsSame(l, d)
    ensures r in Kept(l)
  {
    hide IsSame;
  }

  lemma FirstOf(l: Links, c: Id, bound: nat) returns (d: Id)
    requires c in l.connections && c in Siblings(l, PairOf(l.connections[c])) && !IsFirst(l, c)
    requires |set x | x in Siblings(l, PairOf(l.connections[c])) && x < c| <= bound
    ensures d in l.connections && d < c && d in Siblings(l, PairOf(l.connections[c])) && IsFirst(l, d)
    ensures l.connections[d].kind == l.connections[c].kind && PairOf(l.connections[d]) == PairOf(l.connections[c])
    decreases bound
  {
    hide IsSame;
    var p := PairOf(l.connections[c]);
    d :| d in Siblings(l, p) && d in l.connections && l.connections[d].kind == l.connections[c].kind && d < c;
    var below, under := set x | x in Siblings(l, p) && x < c, set x | x in Siblings(l, p) && x < d;
    assert under <= below - {d} && d in below;
    FewerIn(under, below, d);
    if !IsFirst(l, d) {
      d := FirstOf(l, d, bound - 1);
    }
  }

  lemma FewerIn(a: set<Id>, b: set<Id>, x: Id)
    requires a <= b - {x} && x in b
    ensures |a| < |b|
  {
    SizeWithin(a, b - {x});
  }

  lemma LaterFindsNone(l: Links, done: set<Id>, c: Id, r: Id)
    requires UpTo(l, done, c) && Siblings(l, PairOf(l.connections[c])) != {c} && !IsFirst(l, c)
    requires r in Stating(l, PairOf(l.connections[c]), Some(l.connections[c].kind))
    ensures r in Taken(l, done)
  {
    hide IsSame, IsFirst, Stating, Taken;
    assert c in Siblings(l, PairOf(l.connections[c]));
    var d := FirstOf(l, c, |set x | x in Siblings(l, PairOf(l.connections[c])) && x < c|);
    assert Siblings(l, PairOf(l.connections[c])) != {d};
    assert r in Chosen(l, d);
    assert Takes(l, d, r);
    TakenBy(l, done, r);
  }

  /** What the connection's ends hold that is not taken yet. */
  function Free(l: Links, used: set<Id>, c: Id): set<Id>
    requires c in l.connections
  {
    Group(l, PairOf(l.connections[c])) - used
  }

  function FreeOf(l: Links, free: set<Id>, kind: Option<Id>): set<Id> {
    set r | r in free && r in l.refs && l.refs[r].kind == kind
  }

  lemma FreeIsChosen(l: Links, done: set<Id>, c: Id)
    requires UpTo(l, done, c)
    ensures var free := Free(l, Taken(l, done), c);
            var alone := Siblings(l, PairOf(l.connections[c])) == {c};
            && (alone ==> free == Chosen(l, c) && (free == {} ==> Stating(l, PairOf(l.connections[c]), None) == {}))
            && (!alone ==> FreeOf(l, free, Some(l.connections[c].kind)) == Chosen(l, c)
                           && FreeOf(l, free, None) == Stating(l, PairOf(l.connections[c]), None))
  {
    hide IsSame, IsFirst, Taken, Siblings, Group;
    var p, free := PairOf(l.connections[c]), Free(l, Taken(l, done), c);
    KeptTaken(l);
    forall r | r in Group(l, p)
      ensures r in Kept(l) ==> r in Taken(l, done)
    {
      TakenBy(l, done, r);
      TakenBy(l, Kept(l), r);
    }
    if Siblings(l, p) == {c} {
      forall r | r in Group(l, p)
        ensures r in Taken(l, done) <==> r in Kept(l)
      {
        FreeAlone(l, done, c, r);
      }
      assert free == Available(l, p);
    } else {
      forall r | r in Group(l, p) && r in Taken(l, done) && r !in Kept(l)
        ensures r in l.refs && l.refs[r].kind.Some?
        ensures (l.refs[r].kind == Some(l.connections[c].kind) ==> !IsFirst(l, c))
      {
        FreeOther(l, done, c, r);
      }
      if !IsFirst(l, c) {
        forall r | r in Stating(l, p, Some(l.connections[c].kind))
          ensures r in Taken(l, done)
        {
          LaterFindsNone(l, done, c, r);
        }
      }
      forall r, kind: Option<Id> | kind == None || kind == Some(l.connections[c].kind)
        ensures kind.None? || IsFirst(l, c) ==> (r in FreeOf(l, free, kind) <==> r in Stating(l, p, kind))
      {
        assert r in Available(l, p) <==> r in Group(l, p) && r !in Kept(l);
      }
      assert FreeOf(l, free, None) == Stating(l, p, None);
      if IsFirst(l, c) {
        assert FreeOf(l, free, Some(l.connections[c].kind)) == Chosen(l, c);
      } else {
        forall r
          ensures r !in FreeOf(l, free, Some(l.connections[c].kind))
        {
          assert r in Available(l, p) <==> r in Group(l, p) && r !in Kept(l);
        }
      }
    }
  }

  lemma NothingTaken(l: Links)
    ensures Tally(l, [], Progress({}, {}, {})) && Taken(l, {}) == {} && Listed(l, {}) == {}
  {
  }

  lemma SameFirst(l: Links, c: Id)
    requires c in l.connections && IsSame(l, c)
    ensures OfConnection(l, c) == ConnectionMatch(Some(c), {c}, SameId, PairOf(l.connections[c]), {})
  {
  }

  lemma OtherMatch(l: Links, c: Id)
    requires c in l.connections && !IsSame(l, c)
    ensures var p := PairOf(l.connections[c]);
            && (Chosen(l, c) != {} ==> OfConnection(l, c) == ConnectionMatch(Some(c), Chosen(l, c), BySignature, p, {}))
            && (Chosen(l, c) == {} && Stating(l, p, None) != {} ==>
                  OfConnection(l, c) == ConnectionMatch(Some(c), {}, Ambiguous, p, Stating(l, p, None)))
            && (Chosen(l, c) == {} && Stating(l, p, None) == {} ==>
                  OfConnection(l, c) == ConnectionMatch(Some(c), {}, Unmatched, p, {}))
  {
  }

  method KeepOne(l: Links, c: Id, found: seq<ConnectionMatch>, used: set<Id>, ghost done: set<Id>)
    returns (more: seq<ConnectionMatch>, used': set<Id>)
    requires c in l.connections && c !in done && used == KeptIn(l, done) && Tally(l, found, Progress(used, {}, {}))
    ensures used' == KeptIn(l, done + {c}) && Tally(l, more, Progress(used', {}, {}))
  {
    hide Tally, IsSame, KeptIn;
    more, used' := found, used;
    KeptNext(l, done, c);
    if IsSame(l, c) {
      SameFirst(l, c);
      TallyConnection(l, found, Progress(used, {}, {}), c);
      more := found + [ConnectionMatch(Some(c), {c}, SameId, PairOf(l.connections[c]), {})];
      used' := used + {c};
    }
  }

  /** The references whose id and ends a connection kept. */
  method KeepSame(l: Links) returns (found: seq<ConnectionMatch>, used: set<Id>)
    ensures Tally(l, found, Progress(Kept(l), {}, {})) && used == Kept(l)
  {
    hide *;
    found, used := [], {};
    NothingTaken(l);
    ghost var ids := l.connections.Keys;
    var order := InOrder(l.connections.Keys);
    Visited(ids);
    KeptUpTo(l, {});
    for i := 0 to |order|
      invariant Tally(l, found, Progress(used, {}, {})) && used == KeptIn(l, Members(order[..i]))
    {
      Visit(ids, i);
      found, used := KeepOne(l, order[i], found, used, Members(order[..i]));
    }
    KeptUpTo(l, l.connections.Keys);
  }

  function KeptIn(l: Links, done: set<Id>): set<Id> {
    set c | c in done && IsSame(l, c)
  }

  lemma KeptUpTo(l: Links, done: set<Id>)
    ensures KeptIn(l, {}) == {} && KeptIn(l, l.connections.Keys) == Kept(l)
  {
  }

  lemma KeptNext(l: Links, done: set<Id>, c: Id)
    requires c !in done
    ensures KeptIn(l, done + {c}) == if IsSame(l, c) then KeptIn(l, done) + {c} else KeptIn(l, done)
    ensures c !in KeptIn(l, done)
  {
    hide IsSame;
  }

  /** One of the other connections: by its ends, alone or by the kind stated, unless nothing tells it apart. */
  method MatchOther(l: Links, c: Id, found: seq<ConnectionMatch>, used: set<Id>, ghost done: set<Id>)
    returns (more: seq<ConnectionMatch>, used': set<Id>)
    requires UpTo(l, done, c) && Tally(l, found, Progress(done, {}, {})) && used == Taken(l, done)
    ensures Tally(l, more, Progress(done + {c}, {}, {})) && used' == Taken(l, done + {c})
  {
    hide Tally, Taken, Chosen, Stating, Siblings, Free, FreeOf, IsSame, OfConnection, Listed;
    FreeIsChosen(l, done, c);
    OtherMatch(l, c);
    TallyConnection(l, found, Progress(done, {}, {}), c);
    TakenNext(l, done, c);
    var p := PairOf(l.connections[c]);
    var free := Free(l, used, c);
    var chosen := if Siblings(l, p) == {c} then free else FreeOf(l, free, Some(l.connections[c].kind));
    assert chosen == Chosen(l, c);
    used' := used + chosen;
    if chosen != {} {
      more := found + [ConnectionMatch(Some(c), chosen, BySignature, p, {})];
      return;
    }
    assert used' == used;
    var unknown := FreeOf(l, free, None);
    NothingOf(l, None);
    assert unknown == Stating(l, p, None);
    if unknown != {} {
      more := found + [ConnectionMatch(Some(c), {}, Ambiguous, p, unknown)];
    } else {
      more := found + [ConnectionMatch(Some(c), {}, Unmatched, p, {})];
    }
  }

  lemma NothingOf(l: Links, kind: Option<Id>)
    ensures FreeOf(l, {}, kind) == {}
  {
  }

  /** Those kept and the first `i`. */
  function Through(l: Links, order: seq<Id>, i: nat): set<Id>
    requires i <= |order|
  {
    Kept(l) + Members(order[..i])
  }

  lemma ThroughEnds(l: Links)
    ensures var order := InOrder(l.connections.Keys);
            Through(l, order, 0) == Kept(l) && Through(l, order, |order|) == l.connections.Keys
  {
    hide Kept;
    Visited(l.connections.Keys);
    KeptAmong(l);
  }

  lemma ThroughNext(l: Links, i: nat)
    requires i < |InOrder(l.connections.Keys)|
    ensures var order := InOrder(l.connections.Keys);
            && order[i] in l.connections && Through(l, order, i + 1) == Through(l, order, i) + {order[i]}
            && (IsSame(l, order[i]) ==> Through(l, order, i + 1) == Through(l, order, i))
  {
    hide InOrder, Kept, IsSame;
    var order := InOrder(l.connections.Keys);
    Visit(l.connections.Keys, i);
    InKept(l, order[i]);
  }

  method BaselineSide(l: Links) returns (found: seq<ConnectionMatch>, used: set<Id>)
    ensures Tally(l, found, Progress(l.connections.Keys, {}, {})) && used == Taken(l, l.connections.Keys)
  {
    hide *;
    found, used := KeepSame(l);
    KeptTaken(l);
    var order := InOrder(l.connections.Keys);
    ThroughEnds(l);
    for i := 0 to |order|
      invariant Tally(l, found, Progress(Through(l, order, i), {}, {})) && used == Taken(l, Through(l, order, i))
    {
      ThroughNext(l, i);
      if !IsSame(l, order[i]) {
        OthersBelow(l, order, i);
        found, used := MatchOther(l, order[i], found, used, Through(l, order, i));
      }
    }
  }

  lemma InKept(l: Links, c: Id)
    requires c in l.connections
    ensures c in Kept(l) <==> IsSame(l, c)
  {
    hide IsSame;
  }

  lemma KeptAmong(l: Links)
    ensures Kept(l) <= l.connections.Keys
  {
    hide IsSame;
  }

  lemma OthersBelow(l: Links, order: seq<Id>, i: nat)
    requires order == InOrder(l.connections.Keys) && i < |order| && !IsSame(l, order[i])
    ensures UpTo(l, Through(l, order, i), order[i])
  {
    hide IsSame, InOrder;
    var c, done := order[i], Kept(l) + Members(order[..i]);
    Visit(l.connections.Keys, i);
    forall d | d in l.connections && !IsSame(l, d)
      ensures d in done <==> d < c
    {
      assert d in order;
      var j :| 0 <= j < |order| && order[j] == d;
      if j < i {
        assert order[..i][j] == d;
      }
    }
  }

  // --- the references left -------------------------------------------------------------------------

  function PairsOf(l: Links, matched: bool): (s: set<Pair>)
  {
    set r | r in l.refs && l.refs[r].matched == matched :: l.refs[r].pair
  }

  lemma OnlyPairs(l: Links, p: Pair)
    ensures p !in PairsOf(l, true) ==> Leftover(l, p) == {}
    ensures p !in PairsOf(l, false) ==> Strays(l, p) == {}
  {
    hide Taken, Listed;
    assert forall r :: r in l.refs ==> l.refs[r].pair in PairsOf(l, l.refs[r].matched);
  }

  method AnyPair<T>(s: set<T>) returns (x: T)
    requires s != {}
    ensures x in s
  {
    x :| x in s;
  }

  method ListLeftovers(l: Links, found: seq<ConnectionMatch>, used: set<Id>, claimed: set<Id>)
    returns (more: seq<ConnectionMatch>)
    requires Tally(l, found, Progress(l.connections.Keys, {}, {}))
    requires used == Taken(l, l.connections.Keys) && claimed == Listed(l, l.connections.Keys)
    ensures Tally(l, more, Progress(l.connections.Keys, PairsOf(l, true), {}))
  {
    hide Tally, Taken, Listed, Group, PairsOf;
    more := found;
    var todo := PairsOf(l, true);
    assert PairsOf(l, true) - todo == {};
    while todo != {}
      invariant todo <= PairsOf(l, true)
      invariant Tally(l, more, Progress(l.connections.Keys, PairsOf(l, true) - todo, {}))
      decreases todo
    {
      var p := AnyPair(todo);
      TallyPair(l, more, Progress(l.connections.Keys, PairsOf(l, true) - todo, {}), p);
      var rest := Group(l, p) - used - claimed;
      if rest != {} {
        more := more + [ConnectionMatch(None, rest, Unmatched, p, {})];
      }
      assert PairsOf(l, true) - todo + {p} == PairsOf(l, true) - (todo - {p});
      todo := todo - {p};
    }
    assert PairsOf(l, true) - todo == PairsOf(l, true);
  }

  method ListStrays(l: Links, found: seq<ConnectionMatch>) returns (more: seq<ConnectionMatch>)
    requires Tally(l, found, Progress(l.connections.Keys, PairsOf(l, true), {}))
    ensures Tally(l, more, Progress(l.connections.Keys, PairsOf(l, true), PairsOf(l, false)))
  {
    hide Tally, Strays, PairsOf;
    more := found;
    var todo := PairsOf(l, false);
    assert PairsOf(l, false) - todo == {};
    while todo != {}
      invariant todo <= PairsOf(l, false)
      invariant Tally(l, more, Progress(l.connections.Keys, PairsOf(l, true), PairsOf(l, false) - todo))
      decreases todo
    {
      var p := AnyPair(todo);
      TallyEnds(l, more, Progress(l.connections.Keys, PairsOf(l, true), PairsOf(l, false) - todo), p);
      if Strays(l, p) != {} {
        more := more + [ConnectionMatch(None, Strays(l, p), Unmatched, p, {})];
      }
      assert PairsOf(l, false) - todo + {p} == PairsOf(l, false) - (todo - {p});
      todo := todo - {p};
    }
    assert PairsOf(l, false) - todo == PairsOf(l, false);
  }

  /** The matches of a baseline's connections and of the references left over. */
  ghost predicate Matched(l: Links, found: seq<ConnectionMatch>) {
    Tally(l, found, Progress(l.connections.Keys, PairsOf(l, true), PairsOf(l, false)))
  }

  method MatchConnections(l: Links) returns (found: seq<ConnectionMatch>)
    ensures Matched(l, found)
  {
    hide Tally, Taken, Listed;
    var used;
    found, used := BaselineSide(l);
    var claimed := CandidatesOf(l, found);
    found := ListLeftovers(l, found, used, claimed);
    found := ListStrays(l, found);
  }

  method CandidatesOf(l: Links, found: seq<ConnectionMatch>) returns (claimed: set<Id>)
    requires Tally(l, found, Progress(l.connections.Keys, {}, {}))
    ensures claimed == Listed(l, l.connections.Keys)
  {
    hide OfConnection, OfLeftover, OfStrays, Leftover, Strays;
    claimed := set m, r | m in found && r in m.candidates :: r;
    forall r
      ensures r in claimed <==> r in Listed(l, l.connections.Keys)
    {
      TakenBy(l, l.connections.Keys, r);
      if r in claimed {
        var m :| m in found && r in m.candidates;
        var i :| 0 <= i < |found| && found[i] == m;
        assert Right(l, Progress(l.connections.Keys, {}, {}), found[i]);
        assert Lists(l, m.baseline.value, r);
      }
      if r in Listed(l, l.connections.Keys) {
        var c :| c in l.connections.Keys && Lists(l, c, r);
        assert OfConnection(l, c) in found;
      }
    }
  }
}
