/** Ordering across elements: the dependencies added between drafted steps, exactly, and what adding them keeps. */
module PlanOrder {
  import opened Reachability
  import opened Ordered
  import opened Plan
  import opened PlanRank

  /** `k` is to wait for `x`, if both are drafted. */
  datatype Link = Link(k: StepKey, x: StepKey)

  /** The drafts with the links added: the same steps, each waiting for what it did and for what is linked to it. */
  ghost predicate Grown(d: Drafts, e: Drafts, links: iset<Link>) {
    && e.Keys == d.Keys
    && forall k, x {:trigger x in e[k]} {:trigger x in d[k]} :: k in d ==>
         (x in e[k] <==> x in d[k] || (x in d && x != k && Link(k, x) in links))
  }

  lemma GrownSelf(d: Drafts)
    ensures Grown(d, d, iset{})
  {
  }

  lemma GrownOn(d: Drafts, e: Drafts, f: Drafts, a: iset<Link>, b: iset<Link>)
    requires Grown(d, e, a) && Grown(e, f, b)
    ensures Grown(d, f, a + b)
  {
  }

  lemma ExtendGrows(d: Drafts, key: StepKey, on: seq<StepKey>)
    ensures Grown(d, Extended(d, key, on), AddedLinks(key, on))
  {
  }

  ghost function AddedLinks(key: StepKey, on: seq<StepKey>): iset<Link> {
    iset l: Link | l.k == key && l.x in on
  }

  /** One extension more. */
  lemma GrownNext(s: Drafts, d: Drafts, links: iset<Link>, key: StepKey, on: seq<StepKey>, more: iset<Link>)
    requires Grown(s, d, links) && forall l: Link :: l in more <==> l in links || (l.k == key && l.x in on)
    ensures Grown(s, Extended(d, key, on), more)
  {
    hide Grown;
    ExtendGrows(d, key, on);
    GrownOn(s, d, Extended(d, key, on), links, AddedLinks(key, on));
    assert links + AddedLinks(key, on) == more;
  }

  // --- the links of each rule ----------------------------------------------------------------------

  predicate Touches(ctx: Context, c: Id, e: Id)
    requires c in ctx.source.connections
  {
    e == ctx.source.connections[c].source || e == ctx.source.connections[c].target
  }

  /** A new connection comes after its verified endpoints. */
  ghost predicate Connects(ctx: Context, c: Id, l: Link) {
    && c in ctx.target.connections && l.k == Provision(c)
    && (l.x == Verify(ctx.target.connections[c].source) || l.x == Verify(ctx.target.connections[c].target))
  }

  ghost predicate ConnectsOne(ctx: Context, done: set<Id>, l: Link) {
    exists c :: c in done && Connects(ctx, c, l)
  }

  ghost function ConnectionLinks(ctx: Context, done: set<Id>): iset<Link> {
    iset l: Link | ConnectsOne(ctx, done, l)
  }

  /** The clients of a replaced store switch once its new connections work; the store is retired after that. */
  ghost predicate Switched(ctx: Context, o: Id, l: Link) {
    o in StatefulReplacements(ctx)
    && var n := StatefulReplacements(ctx)[o];
       || (l.k == Cutover(o) && l.x.Verify? && l.x.e in ctx.target.connections
           && ctx.target.connections[l.x.e].target == n)
       || (l.k == VerifyUnused(o) && (l.x == Cutover(o) || l.x == VerifyTraffic(n)))
  }

  /** So is a connection that touched it. */
  ghost predicate Detached(ctx: Context, o: Id, c: Id, l: Link) {
    c in ctx.source.connections && Touches(ctx, c, o) && l == Link(VerifyUnused(c), Cutover(o))
  }

  ghost predicate SwitchesOver(ctx: Context, o: Id, done: set<Id>, l: Link) {
    Switched(ctx, o, l) || exists c :: c in done && Detached(ctx, o, c, l)
  }

  ghost function SwitchLinks(ctx: Context, o: Id, done: set<Id>): iset<Link> {
    iset l: Link | SwitchesOver(ctx, o, done, l)
  }

  ghost predicate ReplacesOne(ctx: Context, done: set<Id>, l: Link) {
    exists o :: o in done && SwitchesOver(ctx, o, ctx.source.connections.Keys, l)
  }

  ghost function ReplacementLinks(ctx: Context, done: set<Id>): iset<Link> {
    iset l: Link | ReplacesOne(ctx, done, l)
  }

  /** Connections are retired before their components. */
  ghost predicate Retires(ctx: Context, c: Id, l: Link) {
    c in ctx.source.connections && l.k.VerifyUnused? && Touches(ctx, c, l.k.e) && l.x == Decommission(c)
  }

  ghost predicate RetiresOne(ctx: Context, done: set<Id>, l: Link) {
    exists c :: c in done && Retires(ctx, c, l)
  }

  ghost function RetirementLinks(ctx: Context, done: set<Id>): iset<Link> {
    iset l: Link | RetiresOne(ctx, done, l)
  }

  /** The endpoints a changed connection leaves. */
  function Left(ctx: Context, c: Change): seq<Id> {
    if c.kind.Modified? && c.element.ConnectionElement? && c.id in ctx.source.connections
        && c.id in ctx.target.connections then
      var was, now := ctx.source.connections[c.id], ctx.target.connections[c.id];
      (if was.source != now.source then [was.source] else []) + (if was.target != now.target then [was.target] else [])
    else []
  }

  /** A rerouted connection leaves its old endpoints first. */
  ghost predicate Leaves(ctx: Context, c: Change, n: int, l: Link) {
    l.k.VerifyUnused? && l.x == Verify(c.id) && 0 <= n <= |Left(ctx, c)| && l.k.e in Left(ctx, c)[..n]
  }

  ghost function LeftLinks(ctx: Context, c: Change, n: int): iset<Link> {
    iset l: Link | Leaves(ctx, c, n, l)
  }

  ghost predicate LeavesAll(ctx: Context, j: int, l: Link) {
    0 <= j < |ctx.changes| && Leaves(ctx, ctx.changes[j], |Left(ctx, ctx.changes[j])|, l)
  }

  ghost predicate LeavesOne(ctx: Context, n: int, l: Link) {
    exists j :: 0 <= j < n && LeavesAll(ctx, j, l)
  }

  ghost function RerouteLinks(ctx: Context, n: int): iset<Link> {
    iset l: Link | LeavesOne(ctx, n, l)
  }

  /** All of them. */
  ghost function Links(ctx: Context): iset<Link> {
    ConnectionLinks(ctx, ctx.target.connections.Keys) + ReplacementLinks(ctx, StatefulReplacements(ctx).Keys)
    + RetirementLinks(ctx, ctx.source.connections.Keys) + RerouteLinks(ctx, |ctx.changes|)
  }

  // --- each rule, one element more -----------------------------------------------------------------

  lemma ConnectionNext(ctx: Context, s: Drafts, d: Drafts, done: set<Id>, c: Id)
    requires Grown(s, d, ConnectionLinks(ctx, done)) && c in ctx.target.connections
    ensures var ends := ctx.target.connections[c];
            Grown(s, Extended(d, Provision(c), [Verify(ends.source), Verify(ends.target)]),
                ConnectionLinks(ctx, done + {c}))
  {
    hide Grown, Extended;
    var ends := ctx.target.connections[c];
    GrownNext(s, d, ConnectionLinks(ctx, done), Provision(c), [Verify(ends.source), Verify(ends.target)],
      ConnectionLinks(ctx, done + {c}));
  }

  /** The verifications of the connections that end at `n`. */
  function Clients(a: Architecture, order: seq<Id>, n: Id): (r: seq<StepKey>)
    requires forall c :: c in order ==> c in a.connections
    ensures forall x :: x in r <==> x.Verify? && x.e in order && x.e in a.connections && a.connections[x.e].target == n
  {
    if order == [] then []
    else
      assert order == [order[0]] + order[1..];
      var c, rest := order[0], Clients(a, order[1..], n);
      assert c in order;
      if a.connections[c].target == n then [Verify(c)] + rest else rest
  }

  function ClientsOf(ctx: Context, n: Id): (r: seq<StepKey>)
    ensures forall x :: x in r <==>
              x.Verify? && x.e in ctx.target.connections && ctx.target.connections[x.e].target == n
  {
    Clients(ctx.target, InOrder(ctx.target.connections.Keys), n)
  }

  lemma SwitchStarts(ctx: Context, s: Drafts, o: Id)
    requires o in StatefulReplacements(ctx)
    ensures var n := StatefulReplacements(ctx)[o];
            var d := Extended(s, Cutover(o), ClientsOf(ctx, n));
            Grown(s, Extended(d, VerifyUnused(o), [Cutover(o), VerifyTraffic(n)]), SwitchLinks(ctx, o, {}))
  {
    hide Grown, Extended, StatefulReplacements, ClientsOf;
    var n := StatefulReplacements(ctx)[o];
    var d := Extended(s, Cutover(o), ClientsOf(ctx, n));
    ExtendGrows(s, Cutover(o), ClientsOf(ctx, n));
    GrownNext(s, d, AddedLinks(Cutover(o), ClientsOf(ctx, n)), VerifyUnused(o), [Cutover(o), VerifyTraffic(n)],
      SwitchLinks(ctx, o, {}));
  }

  lemma SwitchNext(ctx: Context, s: Drafts, d: Drafts, o: Id, done: set<Id>, c: Id)
    requires Grown(s, d, SwitchLinks(ctx, o, done)) && c in ctx.source.connections
    ensures var e := if Touches(ctx, c, o) then Extended(d, VerifyUnused(c), [Cutover(o)]) else d;
            Grown(s, e, SwitchLinks(ctx, o, done + {c}))
  {
    hide Grown, Extended, StatefulReplacements, Switched, Touches;
    if Touches(ctx, c, o) {
      GrownNext(s, d, SwitchLinks(ctx, o, done), VerifyUnused(c), [Cutover(o)], SwitchLinks(ctx, o, done + {c}));
    } else {
      assert SwitchLinks(ctx, o, done) == SwitchLinks(ctx, o, done + {c});
    }
  }

  lemma ReplacementNext(ctx: Context, s: Drafts, d: Drafts, e: Drafts, done: set<Id>, o: Id)
    requires Grown(s, d, ReplacementLinks(ctx, done)) && Grown(d, e, SwitchLinks(ctx, o, ctx.source.connections.Keys))
    ensures Grown(s, e, ReplacementLinks(ctx, done + {o}))
  {
    hide Grown, SwitchesOver;
    var more := SwitchLinks(ctx, o, ctx.source.connections.Keys);
    GrownOn(s, d, e, ReplacementLinks(ctx, done), more);
    assert ReplacementLinks(ctx, done) + more == ReplacementLinks(ctx, done + {o});
  }

  lemma RetirementNext(ctx: Context, s: Drafts, d: Drafts, done: set<Id>, c: Id)
    requires Grown(s, d, RetirementLinks(ctx, done)) && c in ctx.source.connections
    ensures var ends := ctx.source.connections[c];
            var f := Extended(d, VerifyUnused(ends.source), [Decommission(c)]);
            Grown(s, Extended(f, VerifyUnused(ends.target), [Decommission(c)]), RetirementLinks(ctx, done + {c}))
  {
    hide Grown, Extended;
    var ends := ctx.source.connections[c];
    var f := Extended(d, VerifyUnused(ends.source), [Decommission(c)]);
    var links := RetirementLinks(ctx, done) + AddedLinks(VerifyUnused(ends.source), [Decommission(c)]);
    GrownNext(s, d, RetirementLinks(ctx, done), VerifyUnused(ends.source), [Decommission(c)], links);
    GrownNext(s, f, links, VerifyUnused(ends.target), [Decommission(c)], RetirementLinks(ctx, done + {c}));
  }

  lemma LeftNext(ctx: Context, s: Drafts, d: Drafts, c: Change, i: nat)
    requires Grown(s, d, LeftLinks(ctx, c, i)) && i < |Left(ctx, c)|
    ensures Grown(s, Extended(d, VerifyUnused(Left(ctx, c)[i]), [Verify(c.id)]), LeftLinks(ctx, c, i + 1))
  {
    hide Grown, Extended, Left;
    var left := Left(ctx, c);
    assert left[..i + 1] == left[..i] + [left[i]];
    GrownNext(s, d, LeftLinks(ctx, c, i), VerifyUnused(Left(ctx, c)[i]), [Verify(c.id)], LeftLinks(ctx, c, i + 1));
  }

  lemma RerouteNext(ctx: Context, s: Drafts, d: Drafts, e: Drafts, j: nat)
    requires j < |ctx.changes| && Grown(s, d, RerouteLinks(ctx, j))
    requires Grown(d, e, LeftLinks(ctx, ctx.changes[j], |Left(ctx, ctx.changes[j])|))
    ensures Grown(s, e, RerouteLinks(ctx, j + 1))
  {
    hide Grown, Leaves, Left;
    var more := LeftLinks(ctx, ctx.changes[j], |Left(ctx, ctx.changes[j])|);
    GrownOn(s, d, e, RerouteLinks(ctx, j), more);
    forall l: Link
      ensures l in RerouteLinks(ctx, j) + more <==> l in RerouteLinks(ctx, j + 1)
    {
      assert LeavesAll(ctx, j, l) <==> l in more;
    }
    assert RerouteLinks(ctx, j) + more == RerouteLinks(ctx, j + 1);
  }

  lemma NoneLeft(ctx: Context, d: Drafts, c: Change)
    ensures Grown(d, d, LeftLinks(ctx, c, 0))
  {
    hide Left;
  }

  // --- what the links keep -------------------------------------------------------------------------

  /** A reroute's preparation and switch, and a store's verification under traffic, are never made to wait for more. */
  predicate Fixed(ctx: Context, k: StepKey) {
    k.Prepare? || k.VerifyTraffic? || (k.Cutover? && k.e in ctx.source.connections)
  }

  /** What a link waits for has a lower rank. */
  ghost predicate Falls(ctx: Context, l: Link) {
    Rank(ctx, l.x) < Rank(ctx, l.k)
  }

  lemma SwitchFalls(ctx: Context, o: Id, l: Link)
    requires ValidContext(ctx) && SwitchesOver(ctx, o, ctx.source.connections.Keys, l)
    requires o in StatefulReplacements(ctx)
    ensures Falls(ctx, l) && !Fixed(ctx, l.k)
  {
    hide StatefulReplacements;
    PairNodes(ctx, o);
  }

  lemma LinksFall(ctx: Context, l: Link)
    requires ValidContext(ctx) && l in Links(ctx)
    ensures Falls(ctx, l) && !Fixed(ctx, l.k)
  {
    hide StatefulReplacements, Falls, Fixed, SwitchesOver, Connects, Retires, LeavesAll;
    if c :| c in ctx.target.connections.Keys && Connects(ctx, c, l) {
      ConnectsFalls(ctx, c, l);
    } else if o :| o in StatefulReplacements(ctx).Keys && SwitchesOver(ctx, o, ctx.source.connections.Keys, l) {
      SwitchFalls(ctx, o, l);
    } else if c :| c in ctx.source.connections.Keys && Retires(ctx, c, l) {
      RetiresFalls(ctx, c, l);
    } else {
      var j :| 0 <= j < |ctx.changes| && LeavesAll(ctx, j, l);
      LeavesFalls(ctx, j, l);
    }
  }

  lemma ConnectsFalls(ctx: Context, c: Id, l: Link)
    requires ValidContext(ctx) && Connects(ctx, c, l)
    ensures Falls(ctx, l) && !Fixed(ctx, l.k)
  {
    hide StatefulReplacements;
  }

  lemma RetiresFalls(ctx: Context, c: Id, l: Link)
    requires ValidContext(ctx) && Retires(ctx, c, l)
    ensures Falls(ctx, l) && !Fixed(ctx, l.k)
  {
    hide StatefulReplacements;
  }

  lemma LeavesFalls(ctx: Context, j: int, l: Link)
    requires LeavesAll(ctx, j, l)
    ensures Falls(ctx, l) && !Fixed(ctx, l.k)
  {
    hide StatefulReplacements;
  }

  /** Links added in any number keep the plan good. */
  lemma GrownGood(ctx: Context, d: Drafts, e: Drafts)
    requires ValidContext(ctx) && Good(ctx, d) && Grown(d, e, Links(ctx))
    ensures Good(ctx, e)
  {
    hide Rank, Links, Essential;
    forall k, x | k in e && x in e[k]
      ensures x in e && Rank(ctx, x) < Rank(ctx, k)
    {
      if x !in d[k] {
        LinksFall(ctx, Link(k, x));
      }
    }
    forall k, x | k in e && Essential(ctx, k, x)
      ensures x in e[k]
    {
      assert k in d;
      assert x in d[k];
    }
  }

  lemma GrownFixed(ctx: Context, d: Drafts, e: Drafts, k: StepKey)
    requires ValidContext(ctx) && Grown(d, e, Links(ctx)) && k in d && Fixed(ctx, k)
    ensures k in e && forall x :: x in e[k] <==> x in d[k]
  {
    hide Links, Fixed;
    assert k in e;
    forall x
      ensures x in e[k] <==> x in d[k]
    {
      if x in e[k] && x !in d[k] {
        LinksFall(ctx, Link(k, x));
      }
    }
  }

  ghost predicate Linked(d: Drafts, k: StepKey, x: StepKey) {
    k in d && x in d && k != x ==> x in d[k]
  }

  /** A link between drafted steps is a dependency. */
  lemma GrownLinked(d: Drafts, e: Drafts, links: iset<Link>, k: StepKey, x: StepKey)
    requires Grown(d, e, links) && Link(k, x) in links
    ensures Linked(e, k, x)
  {
  }
}
