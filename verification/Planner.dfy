/** The generator of a plan's steps, as it mutates its drafts. */
module Planner {
  import opened Options
  import opened Reachability
  import opened Plan
  import opened PlanRank
  import opened PlanSteps
  import opened Ordered
  import opened PlanOrder

  // --- what has been drafted so far ----------------------------------------------------------------

  /** Some change before the `i`-th drafted the verification of `e`. */
  ghost predicate VerifiedBefore(ctx: Context, i: nat, e: Id) {
    exists j :: 0 <= j < i && j < |ctx.changes| && ctx.changes[j].id == e
      && !Skipped(ctx, ctx.changes[j]) && !ctx.changes[j].kind.Removed?
  }

  /** A preparation waits for the verifications its reroute found, and nothing else; the switch for the preparation. */
  ghost predicate PreparedAt(ctx: Context, d: Drafts, j: nat)
    requires j < |ctx.changes|
  {
    var c := ctx.changes[j];
    IsReroute(c) ==>
      && Prepare(c.id) in d && Cutover(c.id) in d && (forall x :: x in d[Cutover(c.id)] <==> x == Prepare(c.id))
      && forall x :: x in d[Prepare(c.id)] <==> x in RouteEnds(ctx, c) && VerifiedBefore(ctx, j, x.e)
  }

  ghost predicate ChangeDone(ctx: Context, d: Drafts, c: Change) {
    ChangeDrafts(ctx, c).Keys <= d.Keys
  }

  ghost predicate ChangesDone(ctx: Context, d: Drafts, n: nat) {
    && n <= |ctx.changes| && Good(ctx, d)
    && (forall j :: 0 <= j < n ==> ChangeDone(ctx, d, ctx.changes[j]) && PreparedAt(ctx, d, j))
    && (forall e :: Verify(e) in d <==> VerifiedBefore(ctx, n, e))
  }

  ghost predicate PairDone(ctx: Context, d: Drafts, o: Id)
    requires o in StatefulReplacements(ctx)
  {
    var n := StatefulReplacements(ctx)[o];
    && ReplaceDrafts(ctx, o, n).Keys <= d.Keys
    && (o != n ==>
        Provision(n) in d && Configure(n) in d && Verify(n) in d && VerifyUnused(o) in d && Decommission(o) in d)
  }

  /** Of the stores one node replaces, the last one whose data is moved. */
  ghost predicate LastOf(ctx: Context, done: set<Id>, o: Id) {
    var pairs := StatefulReplacements(ctx);
    o in done && o in pairs && forall p :: p in done && p in pairs && pairs[p] == pairs[o] ==> p <= o
  }

  ghost predicate PairsDone(ctx: Context, d: Drafts, done: set<Id>) {
    && Good(ctx, d) && done <= StatefulReplacements(ctx).Keys
    && (forall j :: 0 <= j < |ctx.changes| ==> ChangeDone(ctx, d, ctx.changes[j]) && PreparedAt(ctx, d, j))
    && (forall o :: o in done ==> PairDone(ctx, d, o))
    && (forall o :: LastOf(ctx, done, o) ==>
          VerifyTraffic(StatefulReplacements(ctx)[o]) in d
              && forall x :: x in d[VerifyTraffic(StatefulReplacements(ctx)[o])] <==> x == Cutover(o))
  }

  // --- exactly what has been drafted ---------------------------------------------------------------

  /** Some change before the `n`-th drafts the step. */
  ghost predicate FromChange(ctx: Context, n: int, k: StepKey) {
    exists j :: 0 <= j < n && j < |ctx.changes| && k in ChangeDrafts(ctx, ctx.changes[j])
  }

  /** The drafts are held as they were made, a preparation and a verification under traffic apart. */
  ghost predicate Carries(d: Drafts, m: Drafts) {
    forall k :: k in m ==> k in d && (!k.Prepare? && !k.VerifyTraffic? ==> d[k] == m[k])
  }

  ghost predicate ChangesExact(ctx: Context, d: Drafts, n: nat) {
    && (forall k :: k in d ==> FromChange(ctx, n, k))
    && forall j :: 0 <= j < n && j < |ctx.changes| ==> Carries(d, ChangeDrafts(ctx, ctx.changes[j]))
  }

  /** A change drafts steps about its own element, and retires it exactly when it removes it. */
  lemma ChangeKeys(ctx: Context, c: Change, k: StepKey)
    requires k in ChangeDrafts(ctx, c)
    ensures k.e == c.id && ((k.VerifyUnused? || k.Decommission?) <==> c.kind.Removed?)
    ensures !Skipped(ctx, c) && !k.VerifyTraffic?
  {
    hide Skipped, IsReroute, Covered;
  }

  lemma ConnectionKeys(ctx: Context, c: Change, k: StepKey)
    requires k in ChangeDrafts(ctx, c) && c.element.ConnectionElement? && c.kind.Added?
    ensures k.Provision? || k.Verify?
  {
  }

  /** No two changes draft the same step. */
  lemma ChangesApart(ctx: Context, i: int, j: int, k: StepKey)
    requires ValidContext(ctx) && 0 <= i < |ctx.changes| && 0 <= j < |ctx.changes| && i != j
    requires k in ChangeDrafts(ctx, ctx.changes[i])
    ensures k !in ChangeDrafts(ctx, ctx.changes[j])
  {
    hide ChangeDrafts, Skipped;
    assert DiffSays(ctx, ctx.changes[i]) && DiffSays(ctx, ctx.changes[j]);
    ChangeKeys(ctx, ctx.changes[i], k);
    if k in ChangeDrafts(ctx, ctx.changes[j]) {
      ChangeKeys(ctx, ctx.changes[j], k);
    }
  }

  lemma AfterChangeIs(ctx: Context, d: Drafts, c: Change, k: StepKey)
    ensures k in AfterChange(ctx, d, c) <==> k in d || k in ChangeDrafts(ctx, c)
    ensures k in AfterChange(ctx, d, c) && !k.Prepare? ==>
              (k in ChangeDrafts(ctx, c) ==> AfterChange(ctx, d, c)[k] == ChangeDrafts(ctx, c)[k])
              && (k in d && k !in ChangeDrafts(ctx, c) ==> AfterChange(ctx, d, c)[k] == d[k])
  {
    hide Replaced, Covered;
  }

  lemma ExactNext(ctx: Context, d: Drafts, i: nat)
    requires ValidContext(ctx) && ChangesExact(ctx, d, i) && i < |ctx.changes|
    ensures ChangesExact(ctx, AfterChange(ctx, d, ctx.changes[i]), i + 1)
  {
    hide ChangeDrafts, AfterChange, ValidContext;
    var c := ctx.changes[i];
    var f := AfterChange(ctx, d, c);
    forall k | k in f
      ensures FromChange(ctx, i + 1, k)
    {
      AfterChangeIs(ctx, d, c, k);
    }
    forall j | 0 <= j <= i
      ensures Carries(f, ChangeDrafts(ctx, ctx.changes[j]))
    {
      forall k | k in ChangeDrafts(ctx, ctx.changes[j])
        ensures k in f && (!k.Prepare? && !k.VerifyTraffic? ==> f[k] == ChangeDrafts(ctx, ctx.changes[j])[k])
      {
        AfterChangeIs(ctx, d, c, k);
        if j < i {
          ChangesApart(ctx, j, i, k);
          assert Carries(d, ChangeDrafts(ctx, ctx.changes[j]));
        }
      }
    }
  }

  // --- changes -------------------------------------------------------------------------------------

  lemma ChangeVerifies(ctx: Context, d: Drafts, c: Change, e: Id)
    ensures Verify(e) in AfterChange(ctx, d, c) <==>
            Verify(e) in d || (c.id == e && !Skipped(ctx, c) && !c.kind.Removed?)
  {
    hide Replaced, Covered;
  }

  lemma VerifiedNext(ctx: Context, i: nat, e: Id)
    requires i < |ctx.changes|
    ensures VerifiedBefore(ctx, i + 1, e) <==>
            (VerifiedBefore(ctx, i, e)
                || (ctx.changes[i].id == e && !Skipped(ctx, ctx.changes[i]) && !ctx.changes[i].kind.Removed?))
  {
    hide Skipped;
  }

  /** A change of another element leaves a preparation and a switch as they are. */
  lemma PreparesOthers(ctx: Context, d: Drafts, c: Change, k: StepKey)
    requires k in d && (k.Prepare? || k.Cutover?) && c.id != k.e
    ensures k in AfterChange(ctx, d, c) && AfterChange(ctx, d, c)[k] == d[k]
  {
    hide Replaced, Covered;
  }

  lemma PreparesNow(ctx: Context, d: Drafts, i: nat)
    requires ValidContext(ctx) && ChangesDone(ctx, d, i) && i < |ctx.changes|
    ensures PreparedAt(ctx, AfterChange(ctx, d, ctx.changes[i]), i)
  {
    hide Replaced, Covered, Good, ChangeDone, StatefulReplacements;
    var c := ctx.changes[i];
    if IsReroute(c) {
      var f := d + RerouteDrafts(c);
      assert DiffSays(ctx, c);
      forall x | x in RouteEnds(ctx, c)
        ensures x in f <==> VerifiedBefore(ctx, i, x.e)
      {
        assert x in f <==> x in d;
      }
    }
  }

  lemma ChangesNext(ctx: Context, d: Drafts, i: nat)
    requires ValidContext(ctx) && ChangesDone(ctx, d, i) && i < |ctx.changes|
    ensures ChangesDone(ctx, AfterChange(ctx, d, ctx.changes[i]), i + 1)
  {
    hide Good, Skipped, AfterChange, ChangeDrafts, IsReroute, RouteEnds, VerifiedBefore;
    var c := ctx.changes[i];
    var f := AfterChange(ctx, d, c);
    AfterChangeGood(ctx, d, c);
    PreparesNow(ctx, d, i);
    assert ChangeDone(ctx, f, c) by { ChangeDrafted(ctx, d, c); }
    forall j | 0 <= j < i
      ensures PreparedAt(ctx, f, j)
    {
      assert PreparedAt(ctx, d, j);
      if IsReroute(ctx.changes[j]) {
        ReroutedOnce(ctx, j, i);
        PreparesOthers(ctx, d, c, Prepare(ctx.changes[j].id));
        PreparesOthers(ctx, d, c, Cutover(ctx.changes[j].id));
      }
    }
    forall e
      ensures Verify(e) in f <==> VerifiedBefore(ctx, i + 1, e)
    {
      ChangeVerifies(ctx, d, c, e);
      VerifiedNext(ctx, i, e);
    }
  }

  lemma ReroutedOnce(ctx: Context, j: nat, i: nat)
    requires ValidContext(ctx) && j < i < |ctx.changes| && IsReroute(ctx.changes[j])
    ensures ctx.changes[i].id != ctx.changes[j].id
  {
    assert DiffSays(ctx, ctx.changes[i]) && DiffSays(ctx, ctx.changes[j]);
  }

  lemma ChangeDrafted(ctx: Context, d: Drafts, c: Change)
    ensures ChangeDone(ctx, AfterChange(ctx, d, c), c)
  {
    hide Skipped, Covered;
  }

  // --- stateful replacements -----------------------------------------------------------------------

  /** The plannable change of a node, if there is one of that kind. */
  function NodeChange(changes: seq<Change>, id: Id, kind: ChangeKind): (r: Option<Change>)
    ensures r.Some? ==> r.value in changes && r.value.element.NodeElement? && r.value.id == id && r.value.kind == kind
    ensures r.None? ==> forall c :: c in changes ==> !(c.element.NodeElement? && c.id == id && c.kind == kind)
  {
    if changes == [] then None
    else
      assert changes == [changes[0]] + changes[1..];
      var c := changes[0];
      if c.element.NodeElement? && c.id == id && c.kind == kind then Some(c) else NodeChange(changes[1..], id, kind)
  }

  function WithProvision(ctx: Context, d: Drafts, n: Id): Drafts {
    var added := NodeChange(ctx.changes, n, Added);
    if added.Some? then d + ProvisionDrafts(added.value) else d
  }

  function WithDecommission(ctx: Context, d: Drafts, o: Id): Drafts {
    var removed := NodeChange(ctx.changes, o, Removed);
    if removed.Some? then d + DecommissionDrafts(removed.value) else d
  }

  function AfterPair(ctx: Context, d: Drafts, o: Id): Drafts
    requires o in StatefulReplacements(ctx)
  {
    var n := StatefulReplacements(ctx)[o];
    WithDecommission(ctx, WithProvision(ctx, d, n) + ReplaceDrafts(ctx, o, n), o)
  }

  /** What carrying out a pair drafts. */
  function PairDrafts(ctx: Context, o: Id): Drafts
    requires o in StatefulReplacements(ctx)
  {
    AfterPair(ctx, map[], o)
  }

  /** Carrying out a pair adds what it drafts to what was drafted. */
  lemma AfterPairIs(ctx: Context, d: Drafts, o: Id)
    requires o in StatefulReplacements(ctx)
    ensures AfterPair(ctx, d, o) == d + PairDrafts(ctx, o)
  {
    hide StatefulReplacements, ReplaceDrafts, NodeChange, ProvisionDrafts, DecommissionDrafts;
  }

  /** Some pair carried out drafts the step. */
  ghost predicate FromPair(ctx: Context, done: set<Id>, k: StepKey) {
    exists o :: o in done && o in StatefulReplacements(ctx) && k in PairDrafts(ctx, o)
  }

  ghost predicate PairCarried(ctx: Context, d: Drafts, o: Id) {
    o in StatefulReplacements(ctx) && Carries(d, PairDrafts(ctx, o))
  }

  ghost predicate PairsExact(ctx: Context, d: Drafts, done: set<Id>) {
    && (forall k :: k in d ==> FromChange(ctx, |ctx.changes|, k) || FromPair(ctx, done, k))
    && (forall j :: 0 <= j < |ctx.changes| ==> Carries(d, ChangeDrafts(ctx, ctx.changes[j])))
    && forall o :: o in done ==> PairCarried(ctx, d, o)
  }

  /** What a pair drafts, by the shape of the step. */
  lemma PairKeys(ctx: Context, o: Id, k: StepKey)
    requires ValidContext(ctx) && o in StatefulReplacements(ctx)
    ensures var n := StatefulReplacements(ctx)[o];
            k in PairDrafts(ctx, o) <==>
            match k
            case Provision(e) => e == n && o != n
            case Configure(e) => e == n && o != n
            case Verify(e) => e == n && o != n
            case ProvisionTarget(e) => e == n && o == n
            case Replicate(e) => e == o && Replicated(ctx, n)
            case Freeze(e) => e == o && !Replicated(ctx, n)
            case Backfill(e) => e == o
            case VerifyConsistency(e) => e == o
            case Cutover(e) => e == o
            case VerifyTraffic(e) => e == n
            case DecommissionSource(e) => e == o && o == n
            case VerifyUnused(e) => e == o && o != n
            case Decommission(e) => e == o && o != n
            case _ => false
    ensures k in PairDrafts(ctx, o) && (k.Provision? || k.Configure? || k.Verify?) ==>
              PairDrafts(ctx, o)[k] ==
              if k.Provision? then [] else if k.Configure? then [Provision(StatefulReplacements(ctx)[o])]
                  else [Configure(StatefulReplacements(ctx)[o])]
  {
    hide StatefulReplacements, NodeChange, ValidContext, Covered, PairDrafts, ReplaceDrafts;
    PairIs(ctx, o);
    ReplaceKeys(ctx, o, StatefulReplacements(ctx)[o], k);
  }

  /** What a replacement that was added is drafted, and what the store it replaces is. */
  function Arrival(o: Id, n: Id): Drafts {
    if o == n then map[]
    else map[Provision(n) := [], Configure(n) := [Provision(n)], Verify(n) := [Configure(n)]]
  }

  function Leaving(o: Id, n: Id): Drafts {
    if o == n then map[] else map[VerifyUnused(o) := [], Decommission(o) := [VerifyUnused(o)]]
  }

  lemma PairIs(ctx: Context, o: Id)
    requires ValidContext(ctx) && o in StatefulReplacements(ctx)
    ensures var n := StatefulReplacements(ctx)[o];
            PairDrafts(ctx, o) == Arrival(o, n) + ReplaceDrafts(ctx, o, n) + Leaving(o, n)
  {
    hide StatefulReplacements, NodeChange, ValidContext, ReplaceDrafts;
    PairChanges(ctx, o);
    var n := StatefulReplacements(ctx)[o];
    var none: Drafts := map[];
    if o == n {
      assert none + ReplaceDrafts(ctx, o, n) + none == none + ReplaceDrafts(ctx, o, n);
    } else {
      assert none + Arrival(o, n) == Arrival(o, n);
    }
  }

  lemma ReplaceKeys(ctx: Context, o: Id, n: Id, k: StepKey)
    ensures k in ReplaceDrafts(ctx, o, n) <==>
            match k
            case ProvisionTarget(e) => e == n && o == n
            case Replicate(e) => e == o && Replicated(ctx, n)
            case Freeze(e) => e == o && !Replicated(ctx, n)
            case Backfill(e) => e == o
            case VerifyConsistency(e) => e == o
            case Cutover(e) => e == o
            case VerifyTraffic(e) => e == n
            case DecommissionSource(e) => e == o && o == n
            case _ => false
  {
    hide Replicated;
  }

  /** A pair whose ends differ comes from a removal and an addition; one whose ends are the same from neither. */
  lemma PairChanges(ctx: Context, o: Id)
    requires ValidContext(ctx) && o in StatefulReplacements(ctx)
    ensures var n := StatefulReplacements(ctx)[o];
            (o != n <==> NodeChange(ctx.changes, n, Added).Some?)
                && (o != n <==> NodeChange(ctx.changes, o, Removed).Some?)
  {
    hide NodeChange;
    var n := StatefulReplacements(ctx)[o];
    var c := PairChange(ctx, o);
    assert DiffSays(ctx, c);
    PairNodes(ctx, o);
    var added, removed := NodeChange(ctx.changes, n, Added), NodeChange(ctx.changes, o, Removed);
    assert added.Some? ==> DiffSays(ctx, added.value);
    assert removed.Some? ==> DiffSays(ctx, removed.value);
  }

  lemma AfterPairGood(ctx: Context, d: Drafts, o: Id)
    requires ValidContext(ctx) && Good(ctx, d) && o in StatefulReplacements(ctx)
    ensures Good(ctx, AfterPair(ctx, d, o)) && d.Keys <= AfterPair(ctx, d, o).Keys
    ensures PairDone(ctx, AfterPair(ctx, d, o), o)
  {
    hide Good, StatefulReplacements, ReplaceDrafts;
    var n := StatefulReplacements(ctx)[o];
    PairChanges(ctx, o);
    var d1 := WithProvision(ctx, d, n);
    if o != n {
      ProvisionGood(ctx, d, NodeChange(ctx.changes, n, Added).value);
    }
    ReplaceGood(ctx, d1, o);
    var d2 := d1 + ReplaceDrafts(ctx, o, n);
    if o != n {
      DecommissionGood(ctx, d2, NodeChange(ctx.changes, o, Removed).value);
    }
  }

  /**
   * Carrying out a pair leaves alone preparations, the switches of others, and verifications under traffic
   * but its own.
   */
  lemma AfterPairFixed(ctx: Context, d: Drafts, o: Id, k: StepKey)
    requires ValidContext(ctx) && o in StatefulReplacements(ctx)
    requires k in d
    requires k.Prepare? || (k.Cutover? && k.e != o) || (k.VerifyTraffic? && k.e != StatefulReplacements(ctx)[o])
    ensures k in AfterPair(ctx, d, o) && AfterPair(ctx, d, o)[k] == d[k]
  {
    hide StatefulReplacements, Covered, NodeChange, ValidContext;
  }

  /** A change and a pair draft no step in common: a node replaced is not carried out with its own change. */
  lemma PairApart(ctx: Context, o: Id, c: Change, k: StepKey)
    requires ValidContext(ctx) && o in StatefulReplacements(ctx) && c in ctx.changes && k in PairDrafts(ctx, o)
    ensures k !in ChangeDrafts(ctx, c)
  {
    hide StatefulReplacements, PairDrafts, ChangeDrafts;
    if k in ChangeDrafts(ctx, c) {
      ChangeKeys(ctx, c, k);
      PairKeys(ctx, o, k);
      PairNodes(ctx, o);
      var n := StatefulReplacements(ctx)[o];
      assert n in StatefulReplacements(ctx).Values;
      assert c.element.ConnectionElement? && DiffSays(ctx, c);
      if c.kind.Added? {
        ConnectionKeys(ctx, c, k);
      }
    }
  }

  /** Two pairs draft what they have in common alike, verification under traffic apart. */
  lemma PairsAgree(ctx: Context, o: Id, p: Id, k: StepKey)
    requires ValidContext(ctx) && o in StatefulReplacements(ctx) && p in StatefulReplacements(ctx) && o != p
    requires k in PairDrafts(ctx, o) && k in PairDrafts(ctx, p) && !k.VerifyTraffic?
    ensures PairDrafts(ctx, o)[k] == PairDrafts(ctx, p)[k]
  {
    hide StatefulReplacements, PairDrafts;
    PairKeys(ctx, o, k);
    PairKeys(ctx, p, k);
  }

  lemma PairExactNext(ctx: Context, d: Drafts, done: set<Id>, o: Id)
    requires ValidContext(ctx) && PairsExact(ctx, d, done) && o in StatefulReplacements(ctx) && o !in done
    ensures PairsExact(ctx, AfterPair(ctx, d, o), done + {o})
  {
    hide StatefulReplacements, AfterPair, PairDrafts, ChangeDrafts, ValidContext, FromChange;
    var f, more := AfterPair(ctx, d, o), PairDrafts(ctx, o);
    AfterPairIs(ctx, d, o);
    forall k | k in f
      ensures FromChange(ctx, |ctx.changes|, k) || FromPair(ctx, done + {o}, k)
    {
      if k in d && FromPair(ctx, done, k) {
        var p :| p in done && p in StatefulReplacements(ctx) && k in PairDrafts(ctx, p);
        assert p in done + {o};
      }
    }
    forall j | 0 <= j < |ctx.changes|
      ensures Carries(f, ChangeDrafts(ctx, ctx.changes[j]))
    {
      assert Carries(d, ChangeDrafts(ctx, ctx.changes[j]));
      forall k | k in ChangeDrafts(ctx, ctx.changes[j]) && k in more
        ensures false
      {
        PairApart(ctx, o, ctx.changes[j], k);
      }
    }
    forall p | p in done + {o}
      ensures PairCarried(ctx, f, p)
    {
      if p != o {
        assert PairCarried(ctx, d, p);
        forall k | k in PairDrafts(ctx, p) && k in more && !k.VerifyTraffic?
          ensures more[k] == PairDrafts(ctx, p)[k]
        {
          PairsAgree(ctx, o, p, k);
        }
      }
    }
  }

  lemma PairsExactStart(ctx: Context, d: Drafts)
    requires ChangesExact(ctx, d, |ctx.changes|)
    ensures PairsExact(ctx, d, {})
  {
    hide ChangeDrafts, StatefulReplacements;
  }

  /** The verification under traffic is drafted anew for every store a node replaces. */
  lemma AfterPairTraffic(ctx: Context, d: Drafts, o: Id)
    requires ValidContext(ctx) && o in StatefulReplacements(ctx)
    ensures var k := VerifyTraffic(StatefulReplacements(ctx)[o]);
            k in AfterPair(ctx, d, o) && AfterPair(ctx, d, o)[k] == [Cutover(o)]
  {
    hide StatefulReplacements, Covered, NodeChange, ValidContext;
  }

  lemma PairsNext(ctx: Context, d: Drafts, done: set<Id>, o: Id)
    requires ValidContext(ctx) && PairsDone(ctx, d, done) && o in StatefulReplacements(ctx)
    requires forall p :: p in done ==> p < o
    ensures PairsDone(ctx, AfterPair(ctx, d, o), done + {o})
  {
    hide Good, StatefulReplacements, AfterPair, ChangeDrafts, IsReroute, RouteEnds, VerifiedBefore, ReplaceDrafts;
    var f := AfterPair(ctx, d, o);
    AfterPairGood(ctx, d, o);
    AfterPairTraffic(ctx, d, o);
    forall j | 0 <= j < |ctx.changes|
      ensures ChangeDone(ctx, f, ctx.changes[j]) && PreparedAt(ctx, f, j)
    {
      assert ChangeDone(ctx, d, ctx.changes[j]) && PreparedAt(ctx, d, j);
      if IsReroute(ctx.changes[j]) {
        AfterPairFixed(ctx, d, o, Prepare(ctx.changes[j].id));
        RerouteChange(ctx, ctx.changes[j]);
        AfterPairFixed(ctx, d, o, Cutover(ctx.changes[j].id));
      }
    }
    forall p | p in done + {o}
      ensures PairDone(ctx, f, p)
    {
      if p != o {
        assert PairDone(ctx, d, p);
      }
    }
    forall p | LastOf(ctx, done + {o}, p)
      ensures VerifyTraffic(StatefulReplacements(ctx)[p]) in f
      ensures forall x :: x in f[VerifyTraffic(StatefulReplacements(ctx)[p])] <==> x == Cutover(p)
    {
      if p != o {
        assert LastOf(ctx, done, p);
        AfterPairFixed(ctx, d, o, VerifyTraffic(StatefulReplacements(ctx)[p]));
      }
    }
  }

  lemma PairsStart(ctx: Context, d: Drafts)
    requires ChangesDone(ctx, d, |ctx.changes|)
    ensures PairsDone(ctx, d, {})
  {
    hide Good, StatefulReplacements, ChangeDone, PreparedAt, VerifiedBefore;
  }

  // --- the whole plan ------------------------------------------------------------------------------

  /** Everything drafted, before anything is ordered across elements. */
  ghost predicate Based(ctx: Context, b: Drafts) {
    var all := StatefulReplacements(ctx).Keys;
    PairsDone(ctx, b, all) && PairsExact(ctx, b, all)
  }

  ghost predicate Orders(ctx: Context, b: Drafts, d: Drafts) {
    Based(ctx, b) && Grown(b, d, Links(ctx))
  }

  /** A new connection comes after its verified endpoints. */
  ghost predicate ConnectsAfterEnds(ctx: Context, d: Drafts, c: Id)
    requires c in ctx.target.connections
  {
    Linked(d, Provision(c), Verify(ctx.target.connections[c].source))
    && Linked(d, Provision(c), Verify(ctx.target.connections[c].target))
  }

  /** The clients of a replaced store switch once its new connections work; what they leave is retired after. */
  ghost predicate SwitchesThenRetires(ctx: Context, d: Drafts, o: Id)
    requires o in StatefulReplacements(ctx)
  {
    var n := StatefulReplacements(ctx)[o];
    && (forall c :: c in ctx.target.connections && ctx.target.connections[c].target == n ==>
        Linked(d, Cutover(o), Verify(c)))
    && Linked(d, VerifyUnused(o), Cutover(o)) && Linked(d, VerifyUnused(o), VerifyTraffic(n))
    && (forall c :: c in ctx.source.connections && Touches(ctx, c, o) ==> Linked(d, VerifyUnused(c), Cutover(o)))
  }

  /** Connections are retired before their components. */
  ghost predicate EndsOutlive(ctx: Context, d: Drafts, c: Id)
    requires c in ctx.source.connections
  {
    Linked(d, VerifyUnused(ctx.source.connections[c].source), Decommission(c))
    && Linked(d, VerifyUnused(ctx.source.connections[c].target), Decommission(c))
  }

  /** A rerouted connection leaves its old endpoint first. */
  ghost predicate LeavesFirst(ctx: Context, d: Drafts, c: Change) {
    forall e :: e in Left(ctx, c) ==> Linked(d, VerifyUnused(e), Verify(c.id))
  }

  /** A plan as the generator leaves it: everything drafted, the links between what is drafted, and what they order. */
  ghost predicate Generated(ctx: Context, d: Drafts) {
    && PairsDone(ctx, d, StatefulReplacements(ctx).Keys)
    && (exists b :: Orders(ctx, b, d))
    && (forall c :: c in ctx.target.connections ==> ConnectsAfterEnds(ctx, d, c))
    && (forall o :: o in StatefulReplacements(ctx) ==> SwitchesThenRetires(ctx, d, o))
    && (forall c :: c in ctx.source.connections ==> EndsOutlive(ctx, d, c))
    && (forall c :: c in ctx.changes ==> LeavesFirst(ctx, d, c))
  }

  lemma RerouteFromSource(ctx: Context, c: Change)
    requires DiffSays(ctx, c) && IsReroute(c)
    ensures c.id in ctx.source.connections
  {
  }

  lemma OrderKeepsPairs(ctx: Context, d: Drafts, e: Drafts, done: set<Id>)
    requires ValidContext(ctx) && PairsDone(ctx, d, done) && Grown(d, e, Links(ctx))
    ensures PairsDone(ctx, e, done)
  {
    hide Good, StatefulReplacements, ChangeDrafts, IsReroute, RouteEnds, VerifiedBefore, ReplaceDrafts, Links;
    GrownGood(ctx, d, e);
    forall j | 0 <= j < |ctx.changes|
      ensures ChangeDone(ctx, e, ctx.changes[j]) && PreparedAt(ctx, e, j)
    {
      assert ChangeDone(ctx, d, ctx.changes[j]) && PreparedAt(ctx, d, j);
      if IsReroute(ctx.changes[j]) {
        assert DiffSays(ctx, ctx.changes[j]);
        RerouteFromSource(ctx, ctx.changes[j]);
        GrownFixed(ctx, d, e, Cutover(ctx.changes[j].id));
        GrownFixed(ctx, d, e, Prepare(ctx.changes[j].id));
      }
    }
    forall o | o in done
      ensures PairDone(ctx, e, o)
    {
      assert PairDone(ctx, d, o);
    }
    forall o | LastOf(ctx, done, o)
      ensures VerifyTraffic(StatefulReplacements(ctx)[o]) in e
      ensures forall x :: x in e[VerifyTraffic(StatefulReplacements(ctx)[o])] <==> x == Cutover(o)
    {
      GrownFixed(ctx, d, e, VerifyTraffic(StatefulReplacements(ctx)[o]));
    }
  }

  lemma ConnectionsLinked(ctx: Context, b: Drafts, d: Drafts, c: Id)
    requires Grown(b, d, Links(ctx)) && c in ctx.target.connections
    ensures ConnectsAfterEnds(ctx, d, c)
  {
    hide Grown, Linked, SwitchesOver, Retires, Leaves, StatefulReplacements;
    var ends := ctx.target.connections[c];
    assert Connects(ctx, c, Link(Provision(c), Verify(ends.source)));
    assert Connects(ctx, c, Link(Provision(c), Verify(ends.target)));
    GrownLinked(b, d, Links(ctx), Provision(c), Verify(ends.source));
    GrownLinked(b, d, Links(ctx), Provision(c), Verify(ends.target));
  }

  lemma SwitchLinked(ctx: Context, b: Drafts, d: Drafts, o: Id, k: StepKey, x: StepKey)
    requires Grown(b, d, Links(ctx)) && o in StatefulReplacements(ctx)
    requires SwitchesOver(ctx, o, ctx.source.connections.Keys, Link(k, x))
    ensures Linked(d, k, x)
  {
    hide Grown, Linked, SwitchesOver, Retires, Leaves, Connects, StatefulReplacements;
    assert Link(k, x) in ReplacementLinks(ctx, StatefulReplacements(ctx).Keys);
    GrownLinked(b, d, Links(ctx), k, x);
  }

  lemma SwitchesLinked(ctx: Context, b: Drafts, d: Drafts, o: Id)
    requires Grown(b, d, Links(ctx)) && o in StatefulReplacements(ctx)
    ensures SwitchesThenRetires(ctx, d, o)
  {
    hide Grown, Linked, StatefulReplacements, Links, Touches;
    var n := StatefulReplacements(ctx)[o];
    forall c | c in ctx.target.connections && ctx.target.connections[c].target == n
      ensures Linked(d, Cutover(o), Verify(c))
    {
      SwitchLinked(ctx, b, d, o, Cutover(o), Verify(c));
    }
    SwitchLinked(ctx, b, d, o, VerifyUnused(o), Cutover(o));
    SwitchLinked(ctx, b, d, o, VerifyUnused(o), VerifyTraffic(n));
    forall c | c in ctx.source.connections && Touches(ctx, c, o)
      ensures Linked(d, VerifyUnused(c), Cutover(o))
    {
      assert Detached(ctx, o, c, Link(VerifyUnused(c), Cutover(o)));
      SwitchLinked(ctx, b, d, o, VerifyUnused(c), Cutover(o));
    }
  }

  lemma RetirementsLinked(ctx: Context, b: Drafts, d: Drafts, c: Id)
    requires Grown(b, d, Links(ctx)) && c in ctx.source.connections
    ensures EndsOutlive(ctx, d, c)
  {
    hide Grown, Linked, SwitchesOver, Connects, Leaves, StatefulReplacements;
    var ends := ctx.source.connections[c];
    assert Retires(ctx, c, Link(VerifyUnused(ends.source), Decommission(c)));
    assert Retires(ctx, c, Link(VerifyUnused(ends.target), Decommission(c)));
    GrownLinked(b, d, Links(ctx), VerifyUnused(ends.source), Decommission(c));
    GrownLinked(b, d, Links(ctx), VerifyUnused(ends.target), Decommission(c));
  }

  lemma ReroutesLinked(ctx: Context, b: Drafts, d: Drafts, j: int)
    requires Grown(b, d, Links(ctx)) && 0 <= j < |ctx.changes|
    ensures LeavesFirst(ctx, d, ctx.changes[j])
  {
    hide Grown, Linked, SwitchesOver, Connects, Retires, Left, StatefulReplacements;
    var c := ctx.changes[j];
    var left := Left(ctx, c);
    assert left[..|left|] == left;
    forall e | e in left
      ensures Linked(d, VerifyUnused(e), Verify(c.id))
    {
      assert LeavesAll(ctx, j, Link(VerifyUnused(e), Verify(c.id)));
      GrownLinked(b, d, Links(ctx), VerifyUnused(e), Verify(c.id));
    }
  }

  lemma RulesHold(ctx: Context, b: Drafts, d: Drafts)
    requires ValidContext(ctx) && Orders(ctx, b, d)
    ensures Generated(ctx, d)
  {
    hide PairsDone, PairsExact, Grown, ConnectsAfterEnds, SwitchesThenRetires, EndsOutlive, LeavesFirst,
      StatefulReplacements, Links;
    OrderKeepsPairs(ctx, b, d, StatefulReplacements(ctx).Keys);
    forall c | c in ctx.target.connections
      ensures ConnectsAfterEnds(ctx, d, c)
    {
      ConnectionsLinked(ctx, b, d, c);
    }
    forall o | o in StatefulReplacements(ctx)
      ensures SwitchesThenRetires(ctx, d, o)
    {
      SwitchesLinked(ctx, b, d, o);
    }
    forall c | c in ctx.source.connections
      ensures EndsOutlive(ctx, d, c)
    {
      RetirementsLinked(ctx, b, d, c);
    }
    forall c | c in ctx.changes
      ensures LeavesFirst(ctx, d, c)
    {
      var j :| 0 <= j < |ctx.changes| && ctx.changes[j] == c;
      ReroutesLinked(ctx, b, d, j);
    }
  }

  class Generator {
    const ctx: Context
    const steps: Steps

    constructor (ctx: Context)
      ensures this.ctx == ctx && fresh(steps) && steps.drafts == map[]
    {
      this.ctx := ctx;
      this.steps := new Steps();
    }

    /** A draft added on top of those `m` already added to `d`. */
    method Draft(ghost d: Drafts, ghost m: Drafts, key: StepKey, after: seq<StepKey>) returns (ghost more: Drafts)
      requires steps.drafts == d + m
      modifies steps
      ensures more == m[key := after] && steps.drafts == d + more
    {
      steps.Add(key, after);
      more := m[key := after];
    }

    // --- nodes and connections added, modified and removed -----------------------------------------

    method ProvisionElement(c: Change)
      modifies steps
      ensures steps.drafts == old(steps.drafts) + ProvisionDrafts(c)
    {
      var e := c.id;
      ghost var d := steps.drafts;
      assert d + map[] == d;
      ghost var m := Draft(d, map[], Provision(e), []);
      if c.element.ConnectionElement? {
        m := Draft(d, m, Verify(e), [Provision(e)]);
        return;
      }
      m := Draft(d, m, Configure(e), [Provision(e)]);
      m := Draft(d, m, Verify(e), [Configure(e)]);
    }

    method Reconfigure(c: Change)
      modifies steps
      ensures steps.drafts == old(steps.drafts) + ReconfigureDrafts(ctx, c)
    {
      if Covered(ctx, BlueGreen, c.id) {
        SwitchBlueGreen(c);
        return;
      }
      // rolled out one instance at a time, or applied in place: the same step
      ghost var d := steps.drafts;
      assert d + map[] == d;
      ghost var m := Draft(d, map[], Configure(c.id), []);
      m := Draft(d, m, Verify(c.id), [Configure(c.id)]);
    }

    method SwitchBlueGreen(c: Change)
      modifies steps
      ensures steps.drafts == old(steps.drafts) + BlueGreenDrafts(c)
    {
      var e := c.id;
      ghost var d := steps.drafts;
      assert d + map[] == d;
      ghost var m := Draft(d, map[], ProvisionGreen(e), []);
      m := Draft(d, m, VerifyGreen(e), [ProvisionGreen(e)]);
      m := Draft(d, m, Cutover(e), [VerifyGreen(e)]);
      m := Draft(d, m, Verify(e), [Cutover(e)]);
      m := Draft(d, m, DecommissionBlue(e), [Verify(e)]);
    }

    method Reroute(c: Change)
      modifies steps
      ensures steps.drafts == Extended(old(steps.drafts) + RerouteDrafts(c), Prepare(c.id), RouteEnds(ctx, c))
    {
      var e := c.id;
      ghost var d := steps.drafts;
      assert d + map[] == d;
      ghost var m := Draft(d, map[], Prepare(e), []);
      m := Draft(d, m, Cutover(e), [Prepare(e)]);
      m := Draft(d, m, Verify(e), [Cutover(e)]);
      steps.Depend(Prepare(e), RouteEnds(ctx, c));
    }

    method DecommissionElement(c: Change)
      modifies steps
      ensures steps.drafts == old(steps.drafts) + DecommissionDrafts(c)
    {
      ghost var d := steps.drafts;
      assert d + map[] == d;
      ghost var m := Draft(d, map[], VerifyUnused(c.id), []);
      m := Draft(d, m, Decommission(c.id), [VerifyUnused(c.id)]);
    }

    /** A store's data moved to its replacement, by replication or offline. */
    method Replace(o: Id, n: Id)
      modifies steps
      ensures steps.drafts == old(steps.drafts) + ReplaceDrafts(ctx, o, n)
    {
      ghost var d := steps.drafts;
      ghost var m: Drafts := map[];
      assert d + m == d;
      if o == n {
        m := Draft(d, m, ProvisionTarget(n), []);
      }
      if Replicated(ctx, n) {
        m := Draft(d, m, Replicate(o), [Ready(o, n)]);
        m := Draft(d, m, Backfill(o), [Replicate(o)]);
      } else {
        m := Draft(d, m, Freeze(o), [Ready(o, n)]);
        m := Draft(d, m, Backfill(o), [Freeze(o)]);
      }
      CutOver(o, n, d, m);
    }

    method CutOver(o: Id, n: Id, ghost d: Drafts, ghost m: Drafts)
      requires steps.drafts == d + m
      modifies steps
      ensures steps.drafts == d + CutOverDrafts(m, o, n)
    {
      ghost var more := Draft(d, m, VerifyConsistency(o), [Backfill(o)]);
      more := Draft(d, more, Cutover(o), [VerifyConsistency(o)]);
      more := Draft(d, more, VerifyTraffic(n), [Cutover(o)]);
      if o == n {
        more := Draft(d, more, DecommissionSource(o), [VerifyTraffic(n)]);
      }
    }

    // --- every change, then every replacement ------------------------------------------------------

    method PlanChange(c: Change)
      modifies steps
      ensures steps.drafts == AfterChange(ctx, old(steps.drafts), c)
    {
      if Skipped(ctx, c) {
        return;
      }
      if c.kind.Added? {
        ProvisionElement(c);
      } else if c.kind.Removed? {
        DecommissionElement(c);
      } else if IsReroute(c) {
        Reroute(c);
      } else {
        Reconfigure(c);
      }
    }

    method PlanChanges()
      requires ValidContext(ctx) && steps.drafts == map[]
      modifies steps
      ensures ChangesDone(ctx, steps.drafts, |ctx.changes|) && ChangesExact(ctx, steps.drafts, |ctx.changes|)
    {
      hide *;
      NoneDrafted(ctx, steps.drafts);
      for i := 0 to |ctx.changes|
        invariant ChangesDone(ctx, steps.drafts, i) && ChangesExact(ctx, steps.drafts, i)
      {
        ChangesNext(ctx, steps.drafts, i);
        ExactNext(ctx, steps.drafts, i);
        PlanChange(ctx.changes[i]);
      }
    }

    method PlanPair(o: Id)
      requires o in StatefulReplacements(ctx)
      modifies steps
      ensures steps.drafts == AfterPair(ctx, old(steps.drafts), o)
    {
      var n := StatefulReplacements(ctx)[o];
      var added := NodeChange(ctx.changes, n, Added);
      if added.Some? {
        ProvisionElement(added.value);
      }
      Replace(o, n);
      var removed := NodeChange(ctx.changes, o, Removed);
      if removed.Some? {
        DecommissionElement(removed.value);
      }
    }

    method PlanPairs()
      requires ValidContext(ctx) && ChangesDone(ctx, steps.drafts, |ctx.changes|)
      requires ChangesExact(ctx, steps.drafts, |ctx.changes|)
      modifies steps
      ensures Based(ctx, steps.drafts)
    {
      hide *;
      ghost var pairs := StatefulReplacements(ctx).Keys;
      var order := InOrder(StatefulReplacements(ctx).Keys);
      PairsStart(ctx, steps.drafts);
      PairsExactStart(ctx, steps.drafts);
      Visited(pairs);
      for i := 0 to |order|
        invariant PairsDone(ctx, steps.drafts, Members(order[..i]))
        invariant PairsExact(ctx, steps.drafts, Members(order[..i]))
      {
        Visit(pairs, i);
        PairsNext(ctx, steps.drafts, Members(order[..i]), order[i]);
        PairExactNext(ctx, steps.drafts, Members(order[..i]), order[i]);
        PlanPair(order[i]);
      }
      EverythingBased(ctx, steps.drafts);
    }

    // --- ordering across elements ------------------------------------------------------------------

    method OrderConnections()
      modifies steps
      ensures Grown(old(steps.drafts), steps.drafts, ConnectionLinks(ctx, ctx.target.connections.Keys))
    {
      hide *;
      ghost var ids := ctx.target.connections.Keys;
      var order := InOrder(ctx.target.connections.Keys);
      NoneLinked(ctx, steps.drafts);
      Visited(ids);
      for i := 0 to |order|
        invariant Grown(old(steps.drafts), steps.drafts, ConnectionLinks(ctx, Members(order[..i])))
      {
        Visit(ids, i);
        ConnectionNext(ctx, old(steps.drafts), steps.drafts, Members(order[..i]), order[i]);
        var ends := ctx.target.connections[order[i]];
        steps.Depend(Provision(order[i]), [Verify(ends.source), Verify(ends.target)]);
      }
    }

    /** A replaced store's clients switch once its new connections work; what they leave is retired after. */
    method OrderReplacement(o: Id)
      requires o in StatefulReplacements(ctx)
      modifies steps
      ensures Grown(old(steps.drafts), steps.drafts, SwitchLinks(ctx, o, ctx.source.connections.Keys))
    {
      hide *;
      var n := StatefulReplacements(ctx)[o];
      SwitchStarts(ctx, steps.drafts, o);
      steps.Depend(Cutover(o), ClientsOf(ctx, n));
      steps.Depend(VerifyUnused(o), [Cutover(o), VerifyTraffic(n)]);
      ghost var ids := ctx.source.connections.Keys;
      var order := InOrder(ctx.source.connections.Keys);
      Visited(ids);
      for i := 0 to |order|
        invariant Grown(old(steps.drafts), steps.drafts, SwitchLinks(ctx, o, Members(order[..i])))
      {
        Visit(ids, i);
        SwitchNext(ctx, old(steps.drafts), steps.drafts, o, Members(order[..i]), order[i]);
        if Touches(ctx, order[i], o) {
          steps.Depend(VerifyUnused(order[i]), [Cutover(o)]);
        }
      }
    }

    method OrderReplacements()
      modifies steps
      ensures Grown(old(steps.drafts), steps.drafts, ReplacementLinks(ctx, StatefulReplacements(ctx).Keys))
    {
      hide *;
      ghost var ids := StatefulReplacements(ctx).Keys;
      var order := InOrder(StatefulReplacements(ctx).Keys);
      NoneLinked(ctx, steps.drafts);
      Visited(ids);
      for i := 0 to |order|
        invariant Grown(old(steps.drafts), steps.drafts, ReplacementLinks(ctx, Members(order[..i])))
      {
        Visit(ids, i);
        ghost var before := steps.drafts;
        OrderReplacement(order[i]);
        ReplacementNext(ctx, old(steps.drafts), before, steps.drafts, Members(order[..i]), order[i]);
      }
    }

    /** Connections are retired before their components. */
    method OrderRetirements()
      modifies steps
      ensures Grown(old(steps.drafts), steps.drafts, RetirementLinks(ctx, ctx.source.connections.Keys))
    {
      hide *;
      ghost var ids := ctx.source.connections.Keys;
      var order := InOrder(ctx.source.connections.Keys);
      NoneLinked(ctx, steps.drafts);
      Visited(ids);
      for i := 0 to |order|
        invariant Grown(old(steps.drafts), steps.drafts, RetirementLinks(ctx, Members(order[..i])))
      {
        Visit(ids, i);
        RetirementNext(ctx, old(steps.drafts), steps.drafts, Members(order[..i]), order[i]);
        var ends := ctx.source.connections[order[i]];
        steps.Depend(VerifyUnused(ends.source), [Decommission(order[i])]);
        steps.Depend(VerifyUnused(ends.target), [Decommission(order[i])]);
      }
    }

    /** A rerouted connection leaves its old endpoints first. */
    method OrderLeft(c: Change)
      modifies steps
      ensures Grown(old(steps.drafts), steps.drafts, LeftLinks(ctx, c, |Left(ctx, c)|))
    {
      hide *;
      var left := Left(ctx, c);
      NoneLeft(ctx, steps.drafts, c);
      for i := 0 to |left|
        invariant Grown(old(steps.drafts), steps.drafts, LeftLinks(ctx, c, i))
      {
        LeftNext(ctx, old(steps.drafts), steps.drafts, c, i);
        steps.Depend(VerifyUnused(left[i]), [Verify(c.id)]);
      }
    }

    method OrderReroutes()
      modifies steps
      ensures Grown(old(steps.drafts), steps.drafts, RerouteLinks(ctx, |ctx.changes|))
    {
      hide *;
      NoneLinked(ctx, steps.drafts);
      for i := 0 to |ctx.changes|
        invariant Grown(old(steps.drafts), steps.drafts, RerouteLinks(ctx, i))
      {
        ghost var before := steps.drafts;
        OrderLeft(ctx.changes[i]);
        RerouteNext(ctx, old(steps.drafts), before, steps.drafts, i);
      }
    }

    /** The dependencies across elements, and no others. */
    method Order()
      requires ValidContext(ctx) && Based(ctx, steps.drafts)
      modifies steps
      ensures Orders(ctx, old(steps.drafts), steps.drafts) && Generated(ctx, steps.drafts)
    {
      hide *;
      ghost var d := steps.drafts;
      OrderConnections();
      ghost var d1 := steps.drafts;
      OrderReplacements();
      ghost var d2 := steps.drafts;
      OrderRetirements();
      ghost var d3 := steps.drafts;
      OrderReroutes();
      AllLinked(ctx, d, d1, d2, d3, steps.drafts);
      RulesHold(ctx, d, steps.drafts);
    }

    /** Every change, then every data move, then the order across elements. */
    method Generate()
      requires ValidContext(ctx) && steps.drafts == map[]
      modifies steps
      ensures Generated(ctx, steps.drafts)
    {
      PlanChanges();
      PlanPairs();
      Order();
    }
  }

  lemma NoneDrafted(ctx: Context, d: Drafts)
    requires d == map[]
    ensures ChangesDone(ctx, d, 0) && ChangesExact(ctx, d, 0)
  {
  }

  lemma NoneLinked(ctx: Context, d: Drafts)
    ensures Grown(d, d, ConnectionLinks(ctx, {})) && Grown(d, d, ReplacementLinks(ctx, {}))
    ensures Grown(d, d, RetirementLinks(ctx, {})) && Grown(d, d, RerouteLinks(ctx, 0))
  {
    hide StatefulReplacements, SwitchesOver, Left;
  }

  lemma EverythingBased(ctx: Context, b: Drafts)
    requires PairsDone(ctx, b, StatefulReplacements(ctx).Keys) && PairsExact(ctx, b, StatefulReplacements(ctx).Keys)
    ensures Based(ctx, b)
  {
    hide PairsDone, PairsExact, StatefulReplacements;
  }

  lemma AllLinked(ctx: Context, d: Drafts, d1: Drafts, d2: Drafts, d3: Drafts, e: Drafts)
    requires Based(ctx, d) && Grown(d, d1, ConnectionLinks(ctx, ctx.target.connections.Keys))
    requires Grown(d1, d2, ReplacementLinks(ctx, StatefulReplacements(ctx).Keys))
    requires Grown(d2, d3, RetirementLinks(ctx, ctx.source.connections.Keys))
    requires Grown(d3, e, RerouteLinks(ctx, |ctx.changes|))
    ensures Orders(ctx, d, e)
  {
    hide Based, Grown, StatefulReplacements, ConnectionLinks, ReplacementLinks, RetirementLinks, RerouteLinks;
    var a, b := ConnectionLinks(ctx, ctx.target.connections.Keys),
      ReplacementLinks(ctx, StatefulReplacements(ctx).Keys);
    var c := RetirementLinks(ctx, ctx.source.connections.Keys);
    GrownOn(d, d1, d2, a, b);
    GrownOn(d, d2, d3, a + b, c);
    GrownOn(d, d3, e, a + b + c, RerouteLinks(ctx, |ctx.changes|));
  }
}
