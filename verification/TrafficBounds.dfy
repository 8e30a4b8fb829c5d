/** What incomplete demand still bounds, and how demand, headroom and replicas follow the workload. */
module TrafficBounds {
  import opened Options
  import opened Reachability
  import opened Traffic
  import opened Propagation
  import opened TrafficFacts
  import opened TrafficPaths

  /** A workload within its ranges, over connections within theirs. */
  ghost predicate InRange(t: Setting) {
    && t.total >= 0.0 && (t.read.Some? ==> IsShare(t.read.value))
    && forall i :: 0 <= i < |t.flows| ==> Declared(t.flows[i].connection)
  }

  // --- completions ---------------------------------------------------------------------------------

  /** A choice of what was not declared: a factor for every flow, and a rate for every source outside the workload. */
  datatype Completion = Completion(factor: int -> real, source: Id -> real, work: Id -> real)

  function TrueBase(t: Setting, c: Completion, u: Id): real {
    (if u in t.entries then t.total else 0.0) + (if Unmodeled(t, u) then c.source(u) else 0.0) + c.work(u)
  }

  function TrueInto(t: Setting, c: Completion, v: Id, n: int): real
    requires 0 <= n <= |t.flows|
    decreases n
  {
    if n == 0 then 0.0
    else TrueInto(t, c, v, n - 1) +
         if t.flows[n - 1].downstream == v then TrueBase(t, c, t.flows[n - 1].upstream) * c.factor(n - 1) else 0.0
  }

  /** Declared factors as declared, nothing negative, and every defined node's work the sum of what arrives. */
  ghost predicate Completes(t: Setting, r: Spread, c: Completion) {
    && (forall i :: 0 <= i < |t.flows| ==>
          c.factor(i) >= 0.0 && (FactorAt(t, i).Some? ==> c.factor(i) == FactorAt(t, i).value))
    && (forall u :: c.source(u) >= 0.0)
    && (forall v :: v in r.base ==> c.work(v) == TrueInto(t, c, v, |t.flows|))
  }

  lemma Times(a: real, b: real, f: real)
    requires 0.0 <= a <= b && f >= 0.0
    ensures 0.0 <= a * f <= b * f
  {
  }

  lemma {:induction false} IntoAtMost(t: Setting, r: Spread, c: Completion, v: Id, n: int)
    requires 0 <= n <= |t.flows| && Propagated(t, r) && Completes(t, r, c)
    requires forall i :: 0 <= i < n && t.flows[i].downstream == v ==>
               Bounded(t, r, c, t.flows[i].upstream)
    ensures 0.0 <= Into(t, r.carried, v, n) <= TrueInto(t, c, v, n)
    decreases n
  {
    hide Topological, SendsFrom, Reported, Defined, TrueBase, Delivered, Completes, Bounded;
    if n > 0 {
      IntoAtMost(t, r, c, v, n - 1);
      var i := n - 1;
      if t.flows[i].downstream == v {
        FlowAtMost(t, r, c, i);
      }
    }
  }

  lemma FlowAtMost(t: Setting, r: Spread, c: Completion, i: int)
    requires 0 <= i < |t.flows| && Delivered(t, r) && Completes(t, r, c) && Bounded(t, r, c, t.flows[i].upstream)
    ensures 0.0 <= TrueBase(t, c, t.flows[i].upstream) * c.factor(i)
    ensures i in r.carried ==> 0.0 <= r.carried[i] <= TrueBase(t, c, t.flows[i].upstream) * c.factor(i)
  {
    hide Holds, Factor, TrueBase, TrueInto;
    var u := t.flows[i].upstream;
    if i in r.carried {
      Times(SentFrom(r, u).value, TrueBase(t, c, u), c.factor(i));
    } else {
      Times(0.0, TrueBase(t, c, u), c.factor(i));
    }
  }

  /** What the node is known to send on from is at most what it truly sends on from. */
  ghost predicate Bounded(t: Setting, r: Spread, c: Completion, u: Id) {
    && TrueBase(t, c, u) >= 0.0
    && (SentFrom(r, u).Some? ==> 0.0 <= SentFrom(r, u).value <= TrueBase(t, c, u))
  }

  lemma {:induction false} PlaceBounded(t: Setting, r: Spread, c: Completion, k: nat)
    requires Propagated(t, r) && InRange(t) && Completes(t, r, c) && k < |r.order|
    ensures 0.0 <= Work(t, r.carried, r.order[k]) <= c.work(r.order[k]) && Bounded(t, r, c, r.order[k])
    decreases k
  {
    hide Topological, Reported, Into, TrueInto, Mixed, Delivered, Holds, Factor, Defined;
    var v := r.order[k];
    PlaceDefined(t, r, k);
    forall i | 0 <= i < |t.flows| && t.flows[i].downstream == v
      ensures Bounded(t, r, c, t.flows[i].upstream)
    {
      Earlier(t, r, k, i);
      var j :| 0 <= j < k && r.order[j] == t.flows[i].upstream;
      PlaceBounded(t, r, c, j);
    }
    IntoAtMost(t, r, c, v, |t.flows|);
  }

  /** The recorded work of a defined node, complete or not, is at most its work in every completion. */
  lemma WorkIsLowerBound(t: Setting, r: Spread, c: Completion, v: Id)
    requires Propagated(t, r) && InRange(t) && Completes(t, r, c) && v in r.base
    ensures 0.0 <= Work(t, r.carried, v) <= c.work(v)
  {
    hide Topological, Reported, Into, TrueInto, Mixed, Delivered, SendsFrom, Completes, Fed;
    assert v in r.order;
    var k :| 0 <= k < |r.order| && r.order[k] == v;
    PlaceBounded(t, r, c, k);
  }

  lemma {:induction false} IntoIs(t: Setting, r: Spread, c: Completion, v: Id, n: int)
    requires 0 <= n <= |t.flows| && Completes(t, r, c)
    requires forall i :: 0 <= i < n && t.flows[i].downstream == v ==>
               i in r.carried && FactorAt(t, i).Some?
                   && r.carried[i] == TrueBase(t, c, t.flows[i].upstream) * FactorAt(t, i).value
    ensures Into(t, r.carried, v, n) == TrueInto(t, c, v, n)
    decreases n
  {
    hide TrueBase, Factor;
    if n > 0 {
      IntoIs(t, r, c, v, n - 1);
      assert t.flows[n - 1].downstream == v ==> Arrives(t, r.carried, n - 1, v);
    }
  }

  lemma {:induction false} PlaceExact(t: Setting, r: Spread, c: Completion, k: nat)
    requires Propagated(t, r) && Completes(t, r, c) && k < |r.order| && r.order[k] !in r.incomplete
    ensures Work(t, r.carried, r.order[k]) == c.work(r.order[k])
    ensures r.base[r.order[k]].Some? ==> r.base[r.order[k]].value == TrueBase(t, c, r.order[k])
    decreases k
  {
    hide Topological, Reported, Into, TrueInto, Mixed, Delivered, Holds, Factor, Defined;
    var v := r.order[k];
    PlaceDefined(t, r, k);
    forall i | 0 <= i < |t.flows| && t.flows[i].downstream == v
      ensures i in r.carried && FactorAt(t, i).Some?
      ensures r.carried[i] == TrueBase(t, c, t.flows[i].upstream) * FactorAt(t, i).value
    {
      Earlier(t, r, k, i);
      var j :| 0 <= j < k && r.order[j] == t.flows[i].upstream;
      CompleteFromComplete(t, r, v, i);
      PlaceExact(t, r, c, j);
    }
    IntoIs(t, r, c, v, |t.flows|);
  }

  /** The work of a complete node is its work in every completion: nothing undeclared can change it. */
  lemma CompleteWorkIsExact(t: Setting, r: Spread, c: Completion, v: Id)
    requires Propagated(t, r) && Completes(t, r, c) && v in r.base && v !in r.incomplete
    ensures Work(t, r.carried, v) == c.work(v)
  {
    hide Topological, Reported, Into, TrueInto, Mixed, Delivered, SendsFrom, Completes, Fed;
    assert v in r.order;
    var k :| 0 <= k < |r.order| && r.order[k] == v;
    PlaceExact(t, r, c, k);
  }

  // --- another rate --------------------------------------------------------------------------------

  function AtRate(t: Setting, total: real): Setting {
    t.(total := total)
  }

  lemma {:induction false} SameGain(t: Setting, total: real, v: Id, n: nat)
    ensures Gain(AtRate(t, total), v, n) == Gain(t, v, n)
  {
    if n > 0 {
      SameGain(t, total, v, n - 1);
      SameWalks(t, total, v, n);
      SameProducts(t, total, Walks(t, v, n));
    }
  }

  lemma {:induction false} SameWalks(t: Setting, total: real, v: Id, k: nat)
    ensures Walks(AtRate(t, total), v, k) == Walks(t, v, k)
    decreases k, |t.flows| + 1
  {
    if k > 0 {
      SameOver(t, total, v, k, |t.flows|);
    }
  }

  lemma {:induction false} SameOver(t: Setting, total: real, v: Id, k: nat, n: nat)
    requires k > 0 && n <= |t.flows|
    ensures Over(AtRate(t, total), v, k, n) == Over(t, v, k, n)
    decreases k, n
  {
    if n > 0 {
      SameOver(t, total, v, k, n - 1);
      SameWalks(t, total, t.flows[n - 1].upstream, k - 1);
    }
  }

  lemma {:induction false} SameProducts(t: Setting, total: real, ws: seq<seq<int>>)
    ensures Products(AtRate(t, total), ws) == Products(t, ws)
    decreases |ws|
  {
    if ws != [] {
      SameProducts(t, total, ws[..|ws| - 1]);
      SameProduct(t, total, ws[|ws| - 1]);
    }
  }

  lemma {:induction false} SameProduct(t: Setting, total: real, w: seq<int>)
    ensures Product(AtRate(t, total), w) == Product(t, w)
    decreases |w|
  {
    if w != [] {
      SameProduct(t, total, w[..|w| - 1]);
    }
  }

  lemma GainOfPlace(t: Setting, r: Spread, v: Id, n: nat)
    requires Propagated(t, r) && v in r.base && v !in r.incomplete && n >= |r.order|
    ensures Work(t, r.carried, v) == t.total * Gain(t, v, n)
  {
    hide Delivered, SendsFrom, Reported, Topological, Fed, Gain, Into;
    assert v in r.order;
    var k :| 0 <= k < |r.order| && r.order[k] == v;
    WorkOfPlace(t, r, k, n);
  }

  /** Work is proportional to the workload's rate wherever it is complete at both rates. */
  lemma WorkFollowsRate(t: Setting, total: real, a: Spread, b: Spread, v: Id)
    requires Propagated(t, a) && Propagated(AtRate(t, total), b)
    requires v in a.base && v in b.base && v !in a.incomplete && v !in b.incomplete
    ensures Work(AtRate(t, total), b.carried, v) * t.total == Work(t, a.carried, v) * total
  {
    hide Propagated, Gain, Into;
    var n := |a.order| + |b.order|;
    GainOfPlace(t, a, v, n);
    GainOfPlace(AtRate(t, total), b, v, n);
    SameGain(t, total, v, n);
    Swap(t.total, Gain(t, v, n), total);
  }

  lemma Swap(a: real, g: real, b: real)
    ensures (b * g) * a == (a * g) * b
  {
    assert (b * g) * a == b * (g * a);
    assert (a * g) * b == (g * a) * b;
  }

  lemma {:induction false} IntoShrinks(t: Setting, rate: real, a: Demand, b: Demand, v: Id, n: int)
    requires 0 <= n <= |t.flows|
    requires forall i :: 0 <= i < n && t.flows[i].downstream == v ==> i in a && i in b && 0.0 <= b[i] <= a[i]
    ensures 0.0 <= Into(AtRate(t, rate), b, v, n) <= Into(t, a, v, n)
    decreases n
  {
    if n > 0 {
      IntoShrinks(t, rate, a, b, v, n - 1);
    }
  }

  /** What a node sends on from at the lower rate, against what it sent on from before. */
  ghost predicate Shrunk(a: Spread, b: Spread, u: Id) {
    && u in a.base && u in b.base && u !in b.incomplete
    && (a.base[u].Some? <==> b.base[u].Some?) && (a.base[u].Some? ==> 0.0 <= b.base[u].value <= a.base[u].value)
  }

  lemma FlowShrinks(t: Setting, rate: real, a: Spread, b: Spread, v: Id, i: int)
    requires InRange(t) && Propagated(t, a) && Propagated(AtRate(t, rate), b) && v in a.base && v !in a.incomplete
    requires 0 <= i < |t.flows| && t.flows[i].downstream == v && Shrunk(a, b, t.flows[i].upstream)
    ensures i in a.carried && Delivers(AtRate(t, rate), b.base[t.flows[i].upstream], i)
    ensures 0.0 <= Amount(AtRate(t, rate), b.base[t.flows[i].upstream], i) <= a.carried[i]
  {
    hide Factor, Defined, SendsFrom, Reported, Delivered, Declared;
    var u := t.flows[i].upstream;
    CompleteFromComplete(t, a, v, i);
    FactorNonNegative(t.flows[i].connection, t.read);
    Times(b.base[u].value, a.base[u].value, FactorAt(t, i).value);
  }

  lemma {:induction false} PlaceShrinks(t: Setting, rate: real, a: Spread, b: Spread, k: nat)
    requires InRange(t) && 0.0 <= rate <= t.total && Propagated(t, a) && Propagated(AtRate(t, rate), b)
    requires k < |a.order| && a.order[k] !in a.incomplete
    ensures Shrunk(a, b, a.order[k])
    decreases k
  {
    hide Topological, Into, Mixed, Delivers, Amount, InRange, Fed, Spoiled;
    var v, s := a.order[k], AtRate(t, rate);
    PlaceDefined(t, a, k);
    forall i | 0 <= i < |t.flows| && t.flows[i].downstream == v
      ensures Shrunk(a, b, t.flows[i].upstream) && i in a.carried
      ensures Delivers(s, b.base[t.flows[i].upstream], i)
      ensures 0.0 <= Amount(s, b.base[t.flows[i].upstream], i) <= a.carried[i]
    {
      Earlier(t, a, k, i);
      var j :| 0 <= j < k && a.order[j] == t.flows[i].upstream;
      CompleteFromComplete(t, a, v, i);
      PlaceShrinks(t, rate, a, b, j);
      FlowShrinks(t, rate, a, b, v, i);
    }
    assert v in b.base by { FedDefined(s, b, v); }
    assert forall i :: 0 <= i < |t.flows| && t.flows[i].downstream == v ==> i in b.carried;
    IntoShrinks(t, rate, a.carried, b.carried, v, |t.flows|);
    assert !Mixed(t, a.carried, v);
    assert !Mixed(s, b.carried, v) by { MixedAlike(t, rate, a.carried, b.carried, v); }
    assert !Spoiled(s, b, v) by { NotSpoiled(s, b, v); }
    assert InRange(t) ==> t.total >= 0.0 by { TotalInRange(t); }
    assert Unmodeled(s, v) <==> Unmodeled(t, v);
  }

  lemma TotalInRange(t: Setting)
    ensures InRange(t) ==> t.total >= 0.0
  {
  }

  lemma FedDefined(t: Setting, r: Spread, v: Id)
    requires Defined(t, r) && v in t.nodes
    requires forall i :: 0 <= i < |t.flows| && t.flows[i].downstream == v ==> t.flows[i].upstream in r.base
    ensures v in r.base
  {
    assert Fed(t, r, v);
  }

  lemma NotSpoiled(t: Setting, r: Spread, v: Id)
    requires forall i :: 0 <= i < |t.flows| && t.flows[i].downstream == v ==>
               t.flows[i].upstream in r.base && t.flows[i].upstream !in r.incomplete
                   && Delivers(t, r.base[t.flows[i].upstream], i)
    ensures !Spoiled(t, r, v)
  {
    hide Delivers;
  }

  lemma MixedAlike(t: Setting, rate: real, a: Demand, b: Demand, v: Id)
    requires forall i :: 0 <= i < |t.flows| && t.flows[i].downstream == v ==> i in a && i in b
    ensures Mixed(AtRate(t, rate), b, v) == Mixed(t, a, v)
  {
    var s := AtRate(t, rate);
    assert forall i :: Arrives(s, b, i, v) <==> Arrives(t, a, i, v);
  }

  /** A node complete at one rate is complete at every lower one, with the work in proportion. */
  lemma LowerRateStaysComplete(t: Setting, rate: real, a: Spread, b: Spread, v: Id)
    requires InRange(t) && 0.0 <= rate <= t.total && Propagated(t, a) && Propagated(AtRate(t, rate), b)
    requires v in a.base && v !in a.incomplete
    ensures v in b.base && v !in b.incomplete
    ensures Work(AtRate(t, rate), b.carried, v) * t.total == Work(t, a.carried, v) * rate
  {
    hide Topological, Into, Delivered, SendsFrom, Reported, InRange, Fed;
    assert v in a.order;
    var k :| 0 <= k < |a.order| && a.order[k] == v;
    PlaceShrinks(t, rate, a, b, k);
    WorkFollowsRate(t, rate, a, b, v);
  }

  /**
   * The demand a node's utilization counts: the workload itself where it enters a node that is no client, and
   * its work.
   */
  function DemandOf(t: Setting, r: Spread, clients: set<Id>, v: Id): real {
    (if v in t.entries && v !in clients then t.total else 0.0) + Work(t, r.carried, v)
  }

  /** The multiple of the workload reported as saturating a capacity. */
  function SaturatesAt(demand: real, capacity: real): real
    requires demand > 0.0
  {
    capacity / demand
  }

  /** At the reported multiple of the workload, the demand of a complete node equals its capacity. */
  lemma SaturationMultiple(t: Setting, rate: real, a: Spread, b: Spread, clients: set<Id>, v: Id, capacity: real)
    requires Propagated(t, a) && Propagated(AtRate(t, rate), b) && t.total > 0.0 && DemandOf(t, a, clients, v) > 0.0
    requires rate == t.total * SaturatesAt(DemandOf(t, a, clients, v), capacity)
    requires v in a.base && v in b.base && v !in a.incomplete && v !in b.incomplete
    ensures DemandOf(AtRate(t, rate), b, clients, v) == capacity
  {
    hide Propagated, Into, Work;
    var demand := DemandOf(t, a, clients, v);
    var multiple := SaturatesAt(demand, capacity);
    var own := if v in t.entries && v !in clients then 1.0 else 0.0;
    WorkFollowsRate(t, rate, a, b, v);
    var was, now := Work(t, a.carried, v), Work(AtRate(t, rate), b.carried, v);
    Cancel(now, was, t.total, multiple);
    Distribute(t.total * own, was, multiple);
    assert demand == t.total * own + was;
    assert DemandOf(AtRate(t, rate), b, clients, v) == rate * own + now;
    assert (t.total * multiple) * own == (t.total * own) * multiple by { Regrouped(t.total, multiple, own); }
    assert demand * multiple == capacity;
  }

  lemma Regrouped(a: real, b: real, c: real)
    ensures (a * b) * c == (a * c) * b
  {
    assert (a * b) * c == a * (b * c);
    assert (a * c) * b == a * (c * b);
  }

  lemma Cancel(x: real, w: real, total: real, m: real)
    requires total > 0.0 && x * total == w * (total * m)
    ensures x == w * m
  {
    assert x * total == (w * m) * total;
  }

  /** The rate at the reported multiple is no more than the workload's when the demand is above its capacity. */
  lemma BelowTotal(total: real, demand: real, capacity: real, rate: real)
    requires total > 0.0 && demand > 0.0 && 0.0 <= capacity <= demand
    requires rate == total * SaturatesAt(demand, capacity)
    ensures 0.0 <= rate <= total
  {
    var m := SaturatesAt(demand, capacity);
    Share(capacity, demand);
    Times2(m, 1.0, total);
    Times2(0.0, m, total);
    assert rate == m * total;
  }

  lemma Share(capacity: real, demand: real)
    requires demand > 0.0 && 0.0 <= capacity <= demand
    ensures 0.0 <= capacity / demand <= 1.0
  {
    var m := capacity / demand;
    assert m * demand == capacity;
    Quotient(capacity, demand, 1.0);
    NotBelow(m, demand);
  }

  lemma NotBelow(m: real, p: real)
    requires p > 0.0 && m * p >= 0.0
    ensures m >= 0.0
  {
    if m < 0.0 {
      Times3(m, 0.0, p);
    }
  }

  /** Above its capacity, a complete node is brought exactly to it by the reported multiple. */
  lemma SaturationFromAbove(t: Setting, rate: real, a: Spread, b: Spread, clients: set<Id>, v: Id, capacity: real)
    requires InRange(t) && Propagated(t, a) && Propagated(AtRate(t, rate), b) && t.total > 0.0
    requires 0.0 <= capacity <= DemandOf(t, a, clients, v) && DemandOf(t, a, clients, v) > 0.0
    requires rate == t.total * SaturatesAt(DemandOf(t, a, clients, v), capacity)
    requires v in a.base && v !in a.incomplete
    ensures DemandOf(AtRate(t, rate), b, clients, v) == capacity
  {
    hide Propagated, InRange, DemandOf;
    BelowTotal(t.total, DemandOf(t, a, clients, v), capacity, rate);
    LowerRateStaysComplete(t, rate, a, b, v);
    SaturationMultiple(t, rate, a, b, clients, v, capacity);
  }

  // --- units ---------------------------------------------------------------------------------------

  ghost predicate AllIn(t: Setting, r: Spread, clients: set<Id>, unit: WorkUnit, v: Id, u: WorkUnit) {
    && (v in t.entries && v !in clients ==> unit == u)
    && forall i :: Arrives(t, r.carried, i, v) ==> UnitOf(t.flows[i].connection.kind) == u
  }

  /** Everything a node's demand adds up, the workload entering there included, counts one unit. */
  ghost predicate OneUnit(t: Setting, r: Spread, clients: set<Id>, unit: WorkUnit, v: Id) {
    exists u :: AllIn(t, r, clients, unit, v, u)
  }

  /** A flow into the node. */
  predicate LeadsTo(t: Setting, i: int, v: Id) {
    0 <= i < |t.flows| && t.flows[i].downstream == v
  }

  /** What arrives at a complete node is what every flow into it brings. */
  lemma AllArrive(t: Setting, r: Spread, v: Id, i: int)
    requires Propagated(t, r) && v in r.base && v !in r.incomplete
    ensures Arrives(t, r.carried, i, v) <==> LeadsTo(t, i, v)
  {
    hide Propagated;
    if LeadsTo(t, i, v) {
      CompleteFromComplete(t, r, v, i);
    }
  }

  /**
   * The demand of a complete node adds up one unit, unless the workload enters there, it is no client, and some
   * flow into it counts another unit than the workload's. That case is not looked for, as the workload is added
   * after the units were compared.
   */
  lemma UnitsOfComplete(t: Setting, r: Spread, clients: set<Id>, unit: WorkUnit, v: Id)
    requires Propagated(t, r) && v in r.base && v !in r.incomplete
    ensures !OneUnit(t, r, clients, unit, v) <==>
            v in t.entries && v !in clients && exists i ::
                LeadsTo(t, i, v) && UnitOf(t.flows[i].connection.kind) != unit
  {
    hide Defined, Delivered, SendsFrom, Spoiled;
    forall i
      ensures Arrives(t, r.carried, i, v) <==> LeadsTo(t, i, v)
    {
      AllArrive(t, r, v, i);
    }
    assert !Mixed(t, r.carried, v);
    if i :| Arrives(t, r.carried, i, v) {
      var u := UnitOf(t.flows[i].connection.kind);
      assert forall j :: Arrives(t, r.carried, j, v) ==> UnitOf(t.flows[j].connection.kind) == u;
      assert (v in t.entries && v !in clients ==> unit == u) ==> AllIn(t, r, clients, unit, v, u);
    } else {
      assert AllIn(t, r, clients, unit, v, unit);
    }
  }

  /** A workload of events entering at 1 and 2, and a request per event from 1 to 2. */
  function TwoEntries(): Setting {
    Setting({1, 2}, [Flow(Connection(3, Request, 1, 2, Some(1.0), None, None, Undivided), 1, 2)], {1, 2}, 1.0, None)
  }

  lemma FirstEntry(r: Spread)
    requires Propagated(TwoEntries(), r)
    ensures 1 in r.base && 1 !in r.incomplete && r.base[1] == Some(1.0)
  {
    hide Topological, Delivered;
    var t := TwoEntries();
    assert Fed(t, r, 1);
    assert Work(t, r.carried, 1) == 0.0;
    assert !Spoiled(t, r, 1) && !Mixed(t, r.carried, 1);
  }

  /** Requests and events are added up at 2, and its demand is called complete. */
  lemma UnitsAddedUp(r: Spread)
    requires Propagated(TwoEntries(), r)
    ensures 2 in r.base && 2 !in r.incomplete && !OneUnit(TwoEntries(), r, {}, Events, 2)
    ensures DemandOf(TwoEntries(), r, {}, 2) == 2.0
  {
    hide Topological, SendsFrom, OneUnit;
    var t := TwoEntries();
    FirstEntry(r);
    assert Fed(t, r, 2) && FactorAt(t, 0) == Some(1.0);
    assert Arrives(t, r.carried, 0, 2) && r.carried[0] == 1.0;
    assert Into(t, r.carried, 2, 1) == Into(t, r.carried, 2, 0) + 1.0;
    assert !Spoiled(t, r, 2) && !Mixed(t, r.carried, 2);
    UnitsOfComplete(t, r, {}, Events, 2);
  }

  // --- replicas ------------------------------------------------------------------------------------

  /** The least whole number not below `x`. */
  function Ceil(x: real): int {
    -((-x).Floor)
  }

  /** The replicas that bring the demand within the goal, one replica's throughput being `per`. */
  function ReplicasNeeded(demand: real, per: real, goal: real): int
    requires per > 0.0 && goal > 0.0
  {
    Ceil(demand / (per * goal))
  }

  lemma Quotient(d: real, p: real, n: real)
    requires p > 0.0
    ensures d / p <= n <==> d <= n * p
  {
    assert (d / p) * p == d;
    if d / p <= n {
      Times2(d / p, n, p);
    }
    if d / p > n {
      Times3(n, d / p, p);
    }
  }

  lemma Times2(a: real, b: real, p: real)
    requires a <= b && p > 0.0
    ensures a * p <= b * p
  {
  }

  lemma Times3(a: real, b: real, p: real)
    requires a < b && p > 0.0
    ensures a * p < b * p
  {
  }

  /** A replica-limited node above its goal needs more replicas than it has, and no fewer than stated. */
  lemma ReplicasAreLeast(demand: real, per: real, goal: real, current: int, n: int)
    requires per > 0.0 && goal > 0.0 && current > 0
    requires demand / (per * current as real) > goal
    ensures n >= ReplicasNeeded(demand, per, goal) <==> demand <= n as real * (per * goal)
    ensures ReplicasNeeded(demand, per, goal) > current
  {
    NonNegativeProduct(per, goal);
    assert per * goal > 0.0 by { Times3(0.0, per, goal); }
    Quotient(demand, per * goal, n as real);
    var c := current as real;
    assert per * c > 0.0 by { Times3(0.0, per, c); }
    Quotient(demand, per * c, goal);
    Quotient(demand, per * goal, c);
    assert goal * (per * c) == c * (per * goal);
  }
}
