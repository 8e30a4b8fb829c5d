/** What every plan the generator makes guarantees, and where its order falls short of its own intent. */
module PlanFacts {
  import opened Reachability
  import opened StepGraph
  import opened Levels
  import opened Plan
  import opened PlanRank
  import opened PlanSteps
  import opened PlanOrder
  import opened Planner

  // --- the plan as a dependency graph --------------------------------------------------------------

  /** Step keys as text, by which ties are broken, and the ids made from them. */
  datatype Naming = Naming(id: StepKey -> Id, key: StepKey -> int)

  ghost predicate Distinct(n: Naming) {
    && (forall k, x {:trigger n.id(k), n.id(x)} :: n.id(k) == n.id(x) ==> k == x)
    && (forall k, x {:trigger n.key(k), n.key(x)} :: n.key(k) == n.key(x) ==> k == x)
  }

  function IdsOf(n: Naming, keys: seq<StepKey>): set<Id> {
    set x | x in keys :: n.id(x)
  }

  /** The steps built from the drafts: each dependency once, by id. */
  function Build(d: Drafts, n: Naming): StepGraph.Steps
    requires Distinct(n)
  {
    map k | k in d :: n.id(k) := Step(n.key(k), IdsOf(n, d[k]))
  }

  lemma Built(d: Drafts, n: Naming, k: StepKey)
    requires Distinct(n)
    ensures n.id(k) in Build(d, n) <==> k in d
    ensures k in d ==> Build(d, n)[n.id(k)] == Step(n.key(k), IdsOf(n, d[k]))
  {
  }

  lemma BuiltFrom(d: Drafts, n: Naming, u: Id) returns (k: StepKey)
    requires Distinct(n) && u in Build(d, n)
    ensures k in d && n.id(k) == u
  {
    k :| k in d && n.id(k) == u;
  }

  /** `x` must be done before `k`. */
  ghost predicate Before(d: Drafts, n: Naming, x: StepKey, k: StepKey)
    requires Distinct(n)
  {
    ReachesProperly(Waits(Build(d, n)), n.id(k), n.id(x))
  }

  lemma BeforeDirect(ctx: Context, d: Drafts, n: Naming, x: StepKey, k: StepKey)
    requires Distinct(n) && Good(ctx, d) && k in d && x in d[k]
    ensures Before(d, n, x, k)
  {
    hide Rank, Keeps, Build;
    var a := Waits(Build(d, n));
    assert x in d;
    Built(d, n, k);
    Built(d, n, x);
    assert n.id(x) in IdsOf(n, d[k]);
    assert Edge(a, n.id(k), n.id(x));
    ReachesSelf(a, n.id(x));
  }

  lemma BeforeOn(d: Drafts, n: Naming, x: StepKey, y: StepKey, k: StepKey)
    requires Distinct(n) && Before(d, n, x, y) && Before(d, n, y, k)
    ensures Before(d, n, x, k)
  {
    hide Build, Waits;
    var a := Waits(Build(d, n));
    var w :| Edge(a, n.id(k), w) && Reaches(a, w, n.id(y));
    var v :| Edge(a, n.id(y), v) && Reaches(a, v, n.id(x));
    ReachesEdge(a, n.id(y), v);
    ReachesTransitive(a, w, n.id(y), v);
    ReachesTransitive(a, w, v, n.id(x));
  }

  // --- no plan waits for itself --------------------------------------------------------------------

  lemma EdgeFalls(ctx: Context, d: Drafts, n: Naming, u: Id, v: Id) returns (k: StepKey, x: StepKey)
    requires Distinct(n) && Good(ctx, d) && Edge(Waits(Build(d, n)), u, v)
    ensures k in d && x in d[k] && n.id(k) == u && n.id(x) == v && Rank(ctx, x) < Rank(ctx, k)
  {
    hide Rank, Keeps;
    k := BuiltFrom(d, n, u);
    Built(d, n, k);
    x :| x in d[k] && n.id(x) == v;
  }

  /** Along a chain of dependencies the rank falls. */
  lemma {:induction false} ChainFalls(ctx: Context, d: Drafts, n: Naming, p: seq<Id>, k: StepKey, x: StepKey)
    requires Distinct(n) && Good(ctx, d) && PathBetween(Waits(Build(d, n)), p, n.id(k), n.id(x))
    ensures Rank(ctx, x) <= Rank(ctx, k) && (Rank(ctx, x) == Rank(ctx, k) ==> x == k)
    decreases |p|
  {
    hide Rank, Build, Good;
    var a := Waits(Build(d, n));
    if |p| > 1 {
      assert Edge(a, p[0], p[1]);
      var k1, x1 := EdgeFalls(ctx, d, n, p[0], p[1]);
      var q := p[1..];
      forall i, j | 0 <= i && j == i + 1 < |q|
        ensures Edge(a, q[i], q[j])
      {
        assert q[i] == p[i + 1] && q[j] == p[j + 1];
      }
      assert q[0] in a by { WaitsProper(Build(d, n)); }
      ChainFalls(ctx, d, n, q, x1, x);
    }
  }

  lemma ReachFalls(ctx: Context, d: Drafts, n: Naming, k: StepKey, x: StepKey)
    requires Distinct(n) && Good(ctx, d) && Reaches(Waits(Build(d, n)), n.id(k), n.id(x))
    ensures Rank(ctx, x) <= Rank(ctx, k) && (Rank(ctx, x) == Rank(ctx, k) ==> x == k)
  {
    hide Rank, Build, Good, Distinct;
    var p :| PathBetween(Waits(Build(d, n)), p, n.id(k), n.id(x));
    ChainFalls(ctx, d, n, p, k, x);
  }

  /** A plan's dependencies are all steps of the plan, and no step is before itself. */
  lemma PlanIsAcyclic(ctx: Context, d: Drafts, n: Naming)
    requires Distinct(n) && Good(ctx, d)
    ensures UniqueKeys(Build(d, n)) && NoSelfDependency(Build(d, n))
    ensures Unknown(Build(d, n)) == map[]
    ensures forall u :: !OnCycle(Waits(Build(d, n)), u)
    ensures forall u, v :: u != v ==> !Mutual(Waits(Build(d, n)), u, v)
  {
    hide Rank, Good, Keeps, Build, Distinct, UniqueKeys;
    var g := Build(d, n);
    KeysUnique(d, n);
    forall u | u in g
      ensures u !in g[u].dependsOn && g[u].dependsOn <= g.Keys
    {
      StepKnown(ctx, d, n, u);
    }
    forall u
      ensures !OnCycle(Waits(g), u)
    {
      if OnCycle(Waits(g), u) {
        NoneOnCycle(ctx, d, n, u);
      }
    }
    forall u, v | u != v
      ensures !Mutual(Waits(g), u, v)
    {
      if Mutual(Waits(g), u, v) {
        MutualOnCycle(g, u, v);
      }
    }
  }

  lemma KeysUnique(d: Drafts, n: Naming)
    requires Distinct(n)
    ensures UniqueKeys(Build(d, n))
  {
    var g := Build(d, n);
    forall u, v | u in g && v in g && g[u].key == g[v].key
      ensures u == v
    {
      var k := BuiltFrom(d, n, u);
      var x := BuiltFrom(d, n, v);
      Built(d, n, k);
      Built(d, n, x);
    }
  }

  lemma StepKnown(ctx: Context, d: Drafts, n: Naming, u: Id)
    requires Distinct(n) && Good(ctx, d) && u in Build(d, n)
    ensures u !in Build(d, n)[u].dependsOn && Build(d, n)[u].dependsOn <= Build(d, n).Keys
  {
    hide Rank, Keeps;
    var g := Build(d, n);
    var k := BuiltFrom(d, n, u);
    Built(d, n, k);
    forall v | v in g[u].dependsOn
      ensures v in g && v != u
    {
      var x :| x in d[k] && n.id(x) == v;
      Built(d, n, x);
    }
    SubsetOf(g[u].dependsOn, g.Keys);
  }

  lemma MutualOnCycle(g: StepGraph.Steps, u: Id, v: Id)
    requires Mutual(Waits(g), u, v) && u != v
    ensures OnCycle(Waits(g), u)
  {
    var a := Waits(g);
    WaitsProper(g);
    FirstEdge(a, u, v);
    var w :| Edge(a, u, w) && Reaches(a, w, v);
    ReachesTransitive(a, w, v, u);
  }

  lemma NoneOnCycle(ctx: Context, d: Drafts, n: Naming, u: Id)
    requires Distinct(n) && Good(ctx, d)
    ensures !OnCycle(Waits(Build(d, n)), u)
  {
    hide Rank, Good, Build, Distinct;
    var a := Waits(Build(d, n));
    if OnCycle(a, u) {
      var w :| Edge(a, u, w) && Reaches(a, w, u);
      var k, x := EdgeFalls(ctx, d, n, u, w);
      ReachFalls(ctx, d, n, x, k);
    }
  }

  /** A generated plan is always put in levels. */
  method PlanLevels(ctx: Context, n: Naming) returns (g: StepGraph.Steps, levels: seq<seq<Id>>, ghost d: Drafts)
    requires ValidContext(ctx) && Distinct(n)
    ensures Generated(ctx, d) && g == Build(d, n)
    ensures AreLevels(g, levels)
  {
    hide *;
    var generator := new Generator(ctx);
    generator.Generate();
    d := generator.steps.drafts;
    GeneratedGood(ctx, d);
    PlanIsAcyclic(ctx, d, n);
    g := Build(generator.steps.drafts, n);
    var r := LevelsOf(g);
    levels := r.levels;
  }

  lemma GeneratedGood(ctx: Context, d: Drafts)
    requires Generated(ctx, d)
    ensures Good(ctx, d)
  {
    hide Orders, Good;
  }

  // --- data moves ----------------------------------------------------------------------------------

  /** What retires a replaced store. */
  function Retire(o: Id, n: Id): StepKey {
    if o == n then DecommissionSource(o) else Decommission(o)
  }

  /** What provisions the store that replaces it. */
  function ProvisionOf(o: Id, n: Id): StepKey {
    if o == n then ProvisionTarget(n) else Provision(n)
  }

  lemma MoveDrafted(ctx: Context, d: Drafts, o: Id)
    requires ValidContext(ctx) && Generated(ctx, d) && o in StatefulReplacements(ctx)
    ensures var n := StatefulReplacements(ctx)[o];
            && Retire(o, n) in d && Cutover(o) in d && VerifyConsistency(o) in d && Backfill(o) in d
            && VerifyTraffic(n) in d
            && Start(ctx, o, n) in d && Ready(o, n) in d && ProvisionOf(o, n) in d
            && (o != n ==> Configure(n) in d && VerifyUnused(o) in d)
  {
    hide Orders, Good, StatefulReplacements, Covered, ValidContext;
    assert PairDone(ctx, d, o);
  }

  lemma RetiredAfterCutover(ctx: Context, d: Drafts, names: Naming, o: Id)
    requires ValidContext(ctx) && Generated(ctx, d) && Distinct(names) && o in StatefulReplacements(ctx)
    ensures Before(d, names, Cutover(o), Retire(o, StatefulReplacements(ctx)[o]))
  {
    hide Orders, Rank, StatefulReplacements, Sound, Before, PairsDone, ConnectsAfterEnds, EndsOutlive, LeavesFirst;
    MoveDrafted(ctx, d, o);
    GeneratedGood(ctx, d);
    var n := StatefulReplacements(ctx)[o];
    if o == n {
      assert Essential(ctx, DecommissionSource(o), VerifyTraffic(o));
      assert Essential(ctx, VerifyTraffic(o), Cutover(o));
      BeforeDirect(ctx, d, names, VerifyTraffic(o), DecommissionSource(o));
      BeforeDirect(ctx, d, names, Cutover(o), VerifyTraffic(o));
      BeforeOn(d, names, Cutover(o), VerifyTraffic(o), DecommissionSource(o));
    } else {
      assert Essential(ctx, Decommission(o), VerifyUnused(o));
      assert SwitchesThenRetires(ctx, d, o);
      BeforeDirect(ctx, d, names, VerifyUnused(o), Decommission(o));
      BeforeDirect(ctx, d, names, Cutover(o), VerifyUnused(o));
      BeforeOn(d, names, Cutover(o), VerifyUnused(o), Decommission(o));
    }
  }

  lemma ReadyAfterProvision(ctx: Context, d: Drafts, names: Naming, o: Id)
    requires ValidContext(ctx) && Generated(ctx, d) && Distinct(names) && o in StatefulReplacements(ctx)
    ensures var n := StatefulReplacements(ctx)[o];
            Ready(o, n) == ProvisionOf(o, n) || Before(d, names, ProvisionOf(o, n), Ready(o, n))
  {
    hide Orders, Rank, StatefulReplacements, Sound, Before;
    MoveDrafted(ctx, d, o);
    GeneratedGood(ctx, d);
    var n := StatefulReplacements(ctx)[o];
    if o != n {
      var c := PairChange(ctx, o);
      assert IsAdded(ctx, n);
      assert Essential(ctx, Configure(n), Provision(n));
      assert Essential(ctx, Verify(n), Configure(n));
      BeforeDirect(ctx, d, names, Provision(n), Configure(n));
      BeforeDirect(ctx, d, names, Configure(n), Verify(n));
      BeforeOn(d, names, Provision(n), Configure(n), Verify(n));
    }
  }

  /**
   * Retiring a replaced store comes after its cutover, which comes after the consistency check, the copy,
   * the replication or the stop of writes, and the replacement's provisioning, in that order.
   */
  lemma DataMovesInOrder(ctx: Context, d: Drafts, names: Naming, o: Id)
    requires ValidContext(ctx) && Generated(ctx, d) && Distinct(names) && o in StatefulReplacements(ctx)
    ensures var n := StatefulReplacements(ctx)[o];
            && Before(d, names, Cutover(o), Retire(o, n))
            && Before(d, names, VerifyConsistency(o), Cutover(o))
            && Before(d, names, Backfill(o), VerifyConsistency(o))
            && Before(d, names, Start(ctx, o, n), Backfill(o))
            && Before(d, names, ProvisionOf(o, n), Start(ctx, o, n))
  {
    hide Rank, StatefulReplacements, Sound, Before, Generated, Covered;
    MoveDrafted(ctx, d, o);
    GeneratedGood(ctx, d);
    RetiredAfterCutover(ctx, d, names, o);
    var n := StatefulReplacements(ctx)[o];
    assert Essential(ctx, Cutover(o), VerifyConsistency(o));
    assert Essential(ctx, VerifyConsistency(o), Backfill(o));
    assert Essential(ctx, Backfill(o), Start(ctx, o, n));
    assert Essential(ctx, Start(ctx, o, n), Ready(o, n));
    BeforeDirect(ctx, d, names, VerifyConsistency(o), Cutover(o));
    BeforeDirect(ctx, d, names, Backfill(o), VerifyConsistency(o));
    BeforeDirect(ctx, d, names, Start(ctx, o, n), Backfill(o));
    BeforeDirect(ctx, d, names, Ready(o, n), Start(ctx, o, n));
    ReadyAfterProvision(ctx, d, names, o);
    if Ready(o, n) != ProvisionOf(o, n) {
      BeforeOn(d, names, ProvisionOf(o, n), Ready(o, n), Start(ctx, o, n));
    }
  }

  /** The clients of a store switch to its replacement after every verified connection to the replacement. */
  lemma ClientsSwitchLast(ctx: Context, d: Drafts, names: Naming, o: Id, c: Id)
    requires ValidContext(ctx) && Generated(ctx, d) && Distinct(names) && o in StatefulReplacements(ctx)
    requires c in ctx.target.connections && ctx.target.connections[c].target == StatefulReplacements(ctx)[o]
    requires Verify(c) in d
    ensures Before(d, names, Verify(c), Cutover(o))
  {
    hide Orders, Rank, StatefulReplacements, Sound, Before, PairsDone, ConnectsAfterEnds, EndsOutlive, LeavesFirst;
    MoveDrafted(ctx, d, o);
    GeneratedGood(ctx, d);
    assert SwitchesThenRetires(ctx, d, o);
    BeforeDirect(ctx, d, names, Verify(c), Cutover(o));
  }

  // --- several stores, one replacement -------------------------------------------------------------

  /**
   * The verification under traffic of a replacement comes after the cutover of one store it replaces: the
   * last by id. Its draft is overwritten for every store, and keeps the last cutover only.
   */
  lemma TrafficVerifiedAfterLast(ctx: Context, d: Drafts, names: Naming, o: Id)
    requires ValidContext(ctx) && Generated(ctx, d) && Distinct(names) && o in StatefulReplacements(ctx)
    ensures Before(d, names, Cutover(o), VerifyTraffic(StatefulReplacements(ctx)[o])) <==>
            forall p ::
                p in StatefulReplacements(ctx) && StatefulReplacements(ctx)[p] == StatefulReplacements(ctx)[o] ==>
                p <= o
  {
    hide StatefulReplacements, Sound, Keeps, Before, Generated;
    var pairs := StatefulReplacements(ctx);
    var n := pairs[o];
    GeneratedGood(ctx, d);
    var last := LastPaired(pairs, o);
    TrafficWaits(ctx, d, last);
    MoveDrafted(ctx, d, last);
    BeforeDirect(ctx, d, names, Cutover(last), VerifyTraffic(n));
    if o != last && Before(d, names, Cutover(o), VerifyTraffic(n)) {
      OnlyThrough(ctx, d, names, VerifyTraffic(n), Cutover(last), Cutover(o));
      assert false;
    }
  }

  /** Two stores of one kind removed, and one added. */
  function StoreRemoved(id: Id): Change {
    Change(NodeElement, id, Removed, 7, true, false, false)
  }

  function StoreAdded(id: Id): Change {
    Change(NodeElement, id, Added, 7, true, false, false)
  }

  function TwoIntoOne(): Context {
    Context(Architecture({1, 2}, map[]), Architecture({3}, map[]), [StoreRemoved(1), StoreRemoved(2), StoreAdded(3)],
            Strategy(InPlace, {}))
  }

  lemma TwoIntoOneIsValid()
    ensures ValidContext(TwoIntoOne())
  {
  }

  lemma OneAdded()
    ensures AddedOfKind(TwoIntoOne().changes, 7) == [3]
  {
    var a, b, c := StoreRemoved(1), StoreRemoved(2), StoreAdded(3);
    assert [a, b, c][1..] == [b, c] && [b, c][1..] == [c] && [c][1..] == [];
    assert AddedOfKind([], 7) == [];
    assert AddedOfKind([c], 7) == [3];
    assert AddedOfKind([b, c], 7) == [3];
  }

  lemma PairsMore(changes: seq<Change>, among: seq<Change>, c: Change)
    ensures var m, r := Pairs(changes, among), Replacement(changes, c);
            Pairs(changes, among + [c]) == if r == [] then m else m[c.id := r[0]]
  {
    hide Replacement;
    assert (among + [c])[..|among|] == among;
  }

  lemma TwoPaired()
    ensures StatefulReplacements(TwoIntoOne()) == map[1 := 3, 2 := 3]
  {
    hide Pairs, AddedOfKind;
    var a, b, c, cs := StoreRemoved(1), StoreRemoved(2), StoreAdded(3), TwoIntoOne().changes;
    OneAdded();
    assert cs == ([] + [a]) + [b] + [c];
    NoPairs(cs);
    PairsMore(cs, [], a);
    PairsMore(cs, [] + [a], b);
    PairsMore(cs, [] + [a] + [b], c);
  }

  lemma NoPairs(changes: seq<Change>)
    ensures Pairs(changes, []) == map[]
  {
  }

  /** In any plan for them, the replacement is verified under traffic without waiting for the first store's cutover. */
  lemma FirstCutoverNotAwaited(names: Naming, d: Drafts)
    requires Distinct(names) && Generated(TwoIntoOne(), d)
    ensures Cutover(1) in d && Cutover(2) in d && VerifyTraffic(3) in d
    ensures !Before(d, names, Cutover(1), VerifyTraffic(3)) && Before(d, names, Cutover(2), VerifyTraffic(3))
  {
    hide Generated, Before, ValidContext, StatefulReplacements;
    var ctx := TwoIntoOne();
    TwoIntoOneIsValid();
    TwoPaired();
    MoveDrafted(ctx, d, 1);
    MoveDrafted(ctx, d, 2);
    TrafficVerifiedAfterLast(ctx, d, names, 1);
    TrafficVerifiedAfterLast(ctx, d, names, 2);
  }

  lemma TrafficWaits(ctx: Context, d: Drafts, o: Id)
    requires Generated(ctx, d) && LastOf(ctx, StatefulReplacements(ctx).Keys, o)
    ensures VerifyTraffic(StatefulReplacements(ctx)[o]) in d
    ensures forall x :: x in d[VerifyTraffic(StatefulReplacements(ctx)[o])] <==> x == Cutover(o)
  {
    hide Orders, StatefulReplacements, Good, LastOf;
  }

  lemma LastPaired(pairs: map<Id, Id>, o: Id) returns (last: Id)
    requires o in pairs
    ensures last in pairs && pairs[last] == pairs[o] && o <= last
    ensures forall p :: p in pairs && pairs[p] == pairs[o] ==> p <= last
    ensures last == o <==> forall p :: p in pairs && pairs[p] == pairs[o] ==> p <= o
  {
    var same := set p | p in pairs && pairs[p] == pairs[o];
    last := Greatest(same, o);
    forall p | p in pairs && pairs[p] == pairs[o]
      ensures p <= last
    {
      assert p in same;
    }
  }

  lemma Greatest(s: set<Id>, o: Id) returns (m: Id)
    requires o in s
    ensures m in s && forall p :: p in s ==> p <= m
    decreases s
  {
    if p :| p in s && p > o {
      m := Greatest(s - {o}, p);
      assert forall q :: q in s ==> q == o || q in s - {o};
    } else {
      m := o;
    }
  }

  /** What a step with a single dependency waits for beyond it has a lower rank. */
  lemma OnlyThrough(ctx: Context, d: Drafts, names: Naming, k: StepKey, y: StepKey, x: StepKey)
    requires Distinct(names) && Good(ctx, d) && k in d && forall z :: z in d[k] <==> z == y
    requires Before(d, names, x, k)
    ensures x == y || Rank(ctx, x) < Rank(ctx, y)
  {
    hide Rank, Good, Build;
    var a := Waits(Build(d, names));
    var w :| Edge(a, names.id(k), w) && Reaches(a, w, names.id(x));
    var k1, y1 := EdgeFalls(ctx, d, names, names.id(k), w);
    ReachFalls(ctx, d, names, y1, x);
  }

  // --- traffic switched ----------------------------------------------------------------------------

  lemma SwitchDrafted(ctx: Context, d: Drafts, c: Change)
    requires ValidContext(ctx) && Generated(ctx, d) && SwitchOf(ctx, c.id, c)
    ensures Prepared(c) in d && Cutover(c.id) in d && Verify(c.id) in d
    ensures !IsReroute(c) ==> ProvisionGreen(c.id) in d && DecommissionBlue(c.id) in d
  {
    hide Orders, Good, StatefulReplacements, PairDone, LastOf;
    var j :| 0 <= j < |ctx.changes| && ctx.changes[j] == c;
    assert ChangeDone(ctx, d, ctx.changes[j]);
  }

  /** Traffic is switched after what it is switched to is prepared or verified, and verified after that. */
  lemma SwitchesInOrder(ctx: Context, d: Drafts, names: Naming, c: Change)
    requires ValidContext(ctx) && Generated(ctx, d) && Distinct(names) && SwitchOf(ctx, c.id, c)
    ensures Before(d, names, Prepared(c), Cutover(c.id)) && Before(d, names, Cutover(c.id), Verify(c.id))
    ensures !IsReroute(c) ==>
              Before(d, names, ProvisionGreen(c.id), VerifyGreen(c.id))
                  && Before(d, names, Verify(c.id), DecommissionBlue(c.id))
  {
    hide Rank, StatefulReplacements, Sound, Before, Generated, Covered, SwitchOf, IsReroute;
    SwitchDrafted(ctx, d, c);
    GeneratedGood(ctx, d);
    assert Essential(ctx, Cutover(c.id), Prepared(c)) && Essential(ctx, Verify(c.id), Cutover(c.id));
    BeforeDirect(ctx, d, names, Prepared(c), Cutover(c.id));
    BeforeDirect(ctx, d, names, Cutover(c.id), Verify(c.id));
    if !IsReroute(c) {
      assert Essential(ctx, VerifyGreen(c.id), ProvisionGreen(c.id));
      assert Essential(ctx, DecommissionBlue(c.id), Verify(c.id));
      BeforeDirect(ctx, d, names, ProvisionGreen(c.id), VerifyGreen(c.id));
      BeforeDirect(ctx, d, names, Verify(c.id), DecommissionBlue(c.id));
    }
  }

  // --- retirement ----------------------------------------------------------------------------------

  /** A removed component is decommissioned after every removed connection that touched it. */
  lemma ConnectionsRetireFirst(ctx: Context, d: Drafts, names: Naming, e: Id, c: Change)
    requires ValidContext(ctx) && Generated(ctx, d) && Distinct(names) && Decommission(e) in d
    requires c in ctx.changes && c.kind.Removed? && c.element.ConnectionElement?
    requires c.id in ctx.source.connections && Touches(ctx, c.id, e)
    ensures Decommission(c.id) in d && Before(d, names, Decommission(c.id), Decommission(e))
  {
    hide Orders, Rank, StatefulReplacements, Before, PairDone, ConnectsAfterEnds, SwitchesThenRetires, LeavesFirst,
      LastOf;
    GeneratedGood(ctx, d);
    var j :| 0 <= j < |ctx.changes| && ctx.changes[j] == c;
    assert ChangeDone(ctx, d, ctx.changes[j]);
    assert Decommission(c.id) in ChangeDrafts(ctx, c);
    assert Essential(ctx, Decommission(e), VerifyUnused(e));
    assert EndsOutlive(ctx, d, c.id);
    BeforeDirect(ctx, d, names, VerifyUnused(e), Decommission(e));
    BeforeDirect(ctx, d, names, Decommission(c.id), VerifyUnused(e));
    BeforeOn(d, names, Decommission(c.id), VerifyUnused(e), Decommission(e));
  }

  /** A component is decommissioned after every changed connection that left it was verified. */
  lemma LeftBeforeRetired(ctx: Context, d: Drafts, names: Naming, e: Id, c: Change)
    requires ValidContext(ctx) && Generated(ctx, d) && Distinct(names) && Decommission(e) in d
    requires c in ctx.changes && e in Left(ctx, c)
    ensures Verify(c.id) in d && Before(d, names, Verify(c.id), Decommission(e))
  {
    hide Orders, Rank, StatefulReplacements, Before, PairDone, ConnectsAfterEnds, SwitchesThenRetires, EndsOutlive,
      LastOf, Covered;
    GeneratedGood(ctx, d);
    var j :| 0 <= j < |ctx.changes| && ctx.changes[j] == c;
    assert ChangeDone(ctx, d, ctx.changes[j]);
    assert Verify(c.id) in ChangeDrafts(ctx, c);
    assert Essential(ctx, Decommission(e), VerifyUnused(e));
    assert LeavesFirst(ctx, d, c);
    BeforeDirect(ctx, d, names, VerifyUnused(e), Decommission(e));
    BeforeDirect(ctx, d, names, Verify(c.id), VerifyUnused(e));
    BeforeOn(d, names, Verify(c.id), VerifyUnused(e), Decommission(e));
  }

  /** A node added is provisioned, configured and verified: with its own change, or with the data moved to it. */
  lemma AddedIsDrafted(ctx: Context, d: Drafts, e: Id)
    requires ValidContext(ctx) && Generated(ctx, d) && IsAdded(ctx, e)
    ensures Provision(e) in d && Configure(e) in d && Verify(e) in d
  {
    hide Orders, Good, StatefulReplacements, LastOf, PreparedAt;
    var c :| c in ctx.changes && c.id == e && c.element.NodeElement? && c.kind.Added?;
    var j :| 0 <= j < |ctx.changes| && ctx.changes[j] == c;
    assert ChangeDone(ctx, d, ctx.changes[j]);
    if Skipped(ctx, c) {
      assert DiffSays(ctx, c);
      var o := ReplacementOf(ctx, e);
      assert PairDone(ctx, d, o);
    }
  }

  lemma ReplacementOf(ctx: Context, e: Id) returns (o: Id)
    requires ValidContext(ctx) && Replaced(ctx, e) && e !in ctx.source.nodes
    ensures o in StatefulReplacements(ctx) && StatefulReplacements(ctx)[o] == e && o != e
  {
    hide StatefulReplacements;
    var pairs := StatefulReplacements(ctx);
    if e in pairs {
      PairNodes(ctx, e);
    }
    o := KeyOf(pairs, e);
    PairNodes(ctx, o);
  }

  ghost predicate IsConnected(ctx: Context, c: Id) {
    c in ctx.target.connections && exists x ::
        x in ctx.changes && x.id == c && x.element.ConnectionElement? && x.kind.Added?
  }

  lemma ConnectedIsDrafted(ctx: Context, d: Drafts, c: Id)
    requires Generated(ctx, d) && IsConnected(ctx, c)
    ensures Provision(c) in d && Verify(c) in d
  {
    hide Orders, Good, StatefulReplacements, LastOf, PreparedAt, PairDone;
    var x :| x in ctx.changes && x.id == c && x.element.ConnectionElement? && x.kind.Added?;
    var j :| 0 <= j < |ctx.changes| && ctx.changes[j] == x;
    assert ChangeDone(ctx, d, ctx.changes[j]);
  }

  /** A new connection is provisioned after each new endpoint is provisioned and verified. */
  lemma ConnectionsComeAfterEnds(ctx: Context, d: Drafts, names: Naming, c: Id, e: Id)
    requires ValidContext(ctx) && Generated(ctx, d) && Distinct(names) && IsConnected(ctx, c) && IsAdded(ctx, e)
    requires e == ctx.target.connections[c].source || e == ctx.target.connections[c].target
    ensures Provision(c) in d && Before(d, names, Verify(e), Provision(c)) && Before(d, names, Provision(e), Verify(e))
  {
    hide Orders, Rank, StatefulReplacements, Before, PairsDone, EndsOutlive, SwitchesThenRetires, LeavesFirst;
    GeneratedGood(ctx, d);
    AddedIsDrafted(ctx, d, e);
    ConnectedIsDrafted(ctx, d, c);
    assert ConnectsAfterEnds(ctx, d, c);
    BeforeDirect(ctx, d, names, Verify(e), Provision(c));
    assert Essential(ctx, Verify(e), Configure(e)) && Essential(ctx, Configure(e), Provision(e));
    BeforeDirect(ctx, d, names, Configure(e), Verify(e));
    BeforeDirect(ctx, d, names, Provision(e), Configure(e));
    BeforeOn(d, names, Provision(e), Configure(e), Verify(e));
  }

  // --- what a reroute waits for --------------------------------------------------------------------

  /** Connections are planned before nodes: the order the generator sorts changes in. */
  ghost predicate ConnectionsFirst(changes: seq<Change>) {
    forall i, j :: 0 <= i < j < |changes| && changes[j].element.ConnectionElement? ==>
        changes[i].element.ConnectionElement?
  }

  /** A rerouted connection's preparation waits exactly for those ends whose verification was drafted before it. */
  lemma PreparationWaits(ctx: Context, d: Drafts, j: nat, x: StepKey)
    requires ValidContext(ctx) && Generated(ctx, d) && j < |ctx.changes| && IsReroute(ctx.changes[j])
    ensures Prepare(ctx.changes[j].id) in d
    ensures x in d[Prepare(ctx.changes[j].id)] <==> x in RouteEnds(ctx, ctx.changes[j]) && VerifiedBefore(ctx, j, x.e)
  {
    hide Orders, StatefulReplacements, Good, ChangeDone, PairDone, LastOf, IsReroute, RouteEnds, VerifiedBefore;
    assert PreparedAt(ctx, d, j);
  }

  /** As the generator sorts the changes, no end's verification is drafted before any reroute. */
  lemma PreparationWaitsForNothing(ctx: Context, d: Drafts, names: Naming, j: nat, x: StepKey)
    requires ValidContext(ctx) && Generated(ctx, d) && Distinct(names) && ConnectionsFirst(ctx.changes)
    requires j < |ctx.changes| && IsReroute(ctx.changes[j])
    ensures Prepare(ctx.changes[j].id) in d && !Before(d, names, x, Prepare(ctx.changes[j].id))
  {
    hide StatefulReplacements, Generated, Skipped, Rank, Good, Before, VerifiedBefore;
    var c := ctx.changes[j];
    assert DiffSays(ctx, c);
    PreparationWaits(ctx, d, j, x);
    forall y
      ensures y !in d[Prepare(c.id)]
    {
      PreparationWaits(ctx, d, j, y);
      if y in RouteEnds(ctx, c) {
        NodesComeLater(ctx, j, y.e);
      }
    }
    GeneratedGood(ctx, d);
    WaitsForNothing(ctx, d, names, Prepare(c.id), x);
  }

  lemma NodesComeLater(ctx: Context, j: nat, e: Id)
    requires ValidContext(ctx) && ConnectionsFirst(ctx.changes) && j < |ctx.changes|
    requires ctx.changes[j].element.ConnectionElement? && e in ctx.target.nodes
    ensures !VerifiedBefore(ctx, j, e)
  {
    hide Skipped;
    forall i | 0 <= i < j && !ctx.changes[i].kind.Removed?
      ensures ctx.changes[i].id != e
    {
      assert DiffSays(ctx, ctx.changes[i]);
    }
  }

  lemma WaitsForNothing(ctx: Context, d: Drafts, names: Naming, k: StepKey, x: StepKey)
    requires Distinct(names) && Good(ctx, d) && k in d && forall y :: y !in d[k]
    ensures !Before(d, names, x, k)
  {
    hide Rank, Good, Build;
    var a := Waits(Build(d, names));
    if Before(d, names, x, k) {
      var w :| Edge(a, names.id(k), w) && Reaches(a, w, names.id(x));
      var k1, y1 := EdgeFalls(ctx, d, names, names.id(k), w);
    }
  }

  /** What is before a step is one of its dependencies, or before one. */
  lemma Through(ctx: Context, d: Drafts, names: Naming, k: StepKey, x: StepKey) returns (y: StepKey)
    requires Distinct(names) && Good(ctx, d) && k in d && Before(d, names, x, k)
    ensures y in d[k] && Reaches(Waits(Build(d, names)), names.id(y), names.id(x))
    ensures y == x || Before(d, names, x, y)
  {
    hide Rank, Good, Build;
    var a := Waits(Build(d, names));
    var w :| Edge(a, names.id(k), w) && Reaches(a, w, names.id(x));
    var k1, y1 := EdgeFalls(ctx, d, names, names.id(k), w);
    y := y1;
    if y != x {
      WaitsProper(Build(d, names));
      FirstEdge(a, names.id(y), names.id(x));
    }
  }

  lemma RerouteDrafted(ctx: Context, d: Drafts, j: nat)
    requires Generated(ctx, d) && j < |ctx.changes| && IsReroute(ctx.changes[j])
    ensures var c := ctx.changes[j].id;
            Prepare(c) in d && Cutover(c) in d && forall x :: x in d[Cutover(c)] <==> x == Prepare(c)
  {
    hide Orders, StatefulReplacements, Good, ChangeDone, PairDone, LastOf, IsReroute, RouteEnds, VerifiedBefore;
    assert PreparedAt(ctx, d, j);
  }

  lemma EndsAreNodes(ctx: Context, j: nat, x: StepKey)
    requires ValidContext(ctx) && j < |ctx.changes| && IsReroute(ctx.changes[j]) && x in RouteEnds(ctx, ctx.changes[j])
    ensures x.Verify? && x.e in ctx.target.nodes && Rank(ctx, x) == 3
  {
    hide StatefulReplacements;
    assert DiffSays(ctx, ctx.changes[j]);
  }

  /**
   * A connection is switched after the verification of an end of its new route exactly when that verification was
   * drafted by a change planned before it.
   */
  lemma SwitchAfterEndExactly(ctx: Context, d: Drafts, names: Naming, j: nat, x: StepKey)
    requires ValidContext(ctx) && Generated(ctx, d) && Distinct(names) && j < |ctx.changes| && IsReroute(ctx.changes[j])
    requires x in RouteEnds(ctx, ctx.changes[j])
    ensures Before(d, names, x, Cutover(ctx.changes[j].id)) <==> VerifiedBefore(ctx, j, x.e)
  {
    hide StatefulReplacements, Generated, IsReroute, RouteEnds, Rank, Good, Before, VerifiedBefore, ValidContext;
    var c := ctx.changes[j].id;
    GeneratedGood(ctx, d);
    RerouteDrafted(ctx, d, j);
    PreparationWaits(ctx, d, j, x);
    EndsAreNodes(ctx, j, x);
    if VerifiedBefore(ctx, j, x.e) {
      BeforeDirect(ctx, d, names, x, Prepare(c));
      BeforeDirect(ctx, d, names, Prepare(c), Cutover(c));
      BeforeOn(d, names, x, Prepare(c), Cutover(c));
    }
    if Before(d, names, x, Cutover(c)) {
      var y := Through(ctx, d, names, Cutover(c), x);
      assert y == Prepare(c);
      var z := Through(ctx, d, names, Prepare(c), x);
      PreparationWaits(ctx, d, j, z);
      EndsAreNodes(ctx, j, z);
      ReachFalls(ctx, d, names, z, x);
    }
  }

  /** As the generator sorts the changes, a connection is switched once it is prepared, and after nothing else. */
  lemma SwitchWaitsForPreparation(ctx: Context, d: Drafts, names: Naming, j: nat, x: StepKey)
    requires ValidContext(ctx) && Generated(ctx, d) && Distinct(names) && ConnectionsFirst(ctx.changes)
    requires j < |ctx.changes| && IsReroute(ctx.changes[j])
    ensures Before(d, names, x, Cutover(ctx.changes[j].id)) <==> x == Prepare(ctx.changes[j].id)
  {
    hide StatefulReplacements, Generated, IsReroute, Rank, Good, Before, VerifiedBefore, ValidContext, ConnectionsFirst;
    var c := ctx.changes[j].id;
    GeneratedGood(ctx, d);
    RerouteDrafted(ctx, d, j);
    BeforeDirect(ctx, d, names, Prepare(c), Cutover(c));
    if Before(d, names, x, Cutover(c)) {
      var y := Through(ctx, d, names, Cutover(c), x);
      PreparationWaitsForNothing(ctx, d, names, j, x);
    }
  }

  /** A connection from 1 to 2, rerouted to the node 3 the target adds. */
  function Rerouted(): Change {
    Change(ConnectionElement, 4, Modified, 0, false, false, true)
  }

  function RerouteToAdded(): Context {
    Context(Architecture({1, 2}, map[4 := Ends(1, 2)]), Architecture({1, 2, 3}, map[4 := Ends(1, 3)]),
            [Rerouted(), Change(NodeElement, 3, Added, 0, false, false, false)], Strategy(InPlace, {}))
  }

  lemma RerouteToAddedIsValid()
    ensures ValidContext(RerouteToAdded()) && ConnectionsFirst(RerouteToAdded().changes)
    ensures Rerouted() in RerouteToAdded().changes && IsReroute(Rerouted())
    ensures RerouteToAdded().changes[0] == Rerouted() && IsAdded(RerouteToAdded(), 3)
  {
    hide StatefulReplacements;
    assert RerouteToAdded().changes[0] == Rerouted();
    assert RerouteToAdded().changes[1].id == 3;
  }

  lemma NothingReplaced()
    ensures !Skipped(RerouteToAdded(), RerouteToAdded().changes[1])
  {
    var ctx := RerouteToAdded();
    forall o | o in StatefulReplacements(ctx)
      ensures false
    {
      var c := PairChange(ctx, o);
    }
  }

  /** A connection rerouted to a node the same plan adds: it is prepared and switched without waiting for the node. */
  lemma RerouteBeforeItsEnd(names: Naming, d: Drafts)
    requires Distinct(names) && Generated(RerouteToAdded(), d)
    ensures Prepare(4) in d && Cutover(4) in d && Verify(3) in d
    ensures !Before(d, names, Verify(3), Prepare(4)) && !Before(d, names, Verify(3), Cutover(4))
  {
    hide Generated, Skipped, Before, ValidContext;
    RerouteToAddedIsValid();
    NothingReplaced();
    PreparationWaitsForNothing(RerouteToAdded(), d, names, 0, Verify(3));
    RerouteDrafted(RerouteToAdded(), d, 0);
    SwitchWaitsForPreparation(RerouteToAdded(), d, names, 0, Verify(3));
    AddedIsVerified(RerouteToAdded(), d, 1);
  }

  lemma AddedIsVerified(ctx: Context, d: Drafts, j: nat)
    requires Generated(ctx, d) && j < |ctx.changes| && ctx.changes[j].kind.Added? && !Skipped(ctx, ctx.changes[j])
    ensures Verify(ctx.changes[j].id) in d
  {
    hide Orders, StatefulReplacements, Good, PairDone, LastOf;
    assert ChangeDone(ctx, d, ctx.changes[j]);
  }
}
