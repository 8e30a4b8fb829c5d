/** The plan a context leads to, step by step and dependency by dependency, from what the context itself says. */
module PlanMeanings {
  import opened Options
  import opened Reachability
  import opened Plan
  import opened PlanRank
  import opened PlanSteps
  import opened PlanOrder
  import opened Planner
  import opened PlanFacts

  // --- data moves ----------------------------------------------------------------------------------

  ghost predicate IsStore(ctx: Context, c: Change, kind: ChangeKind, id: Id) {
    c in ctx.changes && c.element.NodeElement? && c.stateful && c.kind == kind && c.id == id
  }

  /** The only store of that kind of node added. */
  ghost predicate IsOnly(ctx: Context, a: Change) {
    forall b: Change :: IsStore(ctx, b, Added, b.id) && b.nodeKind == a.nodeKind ==> b == a
  }

  /** The store changes technology in place. */
  ghost predicate MovesInPlace(ctx: Context, o: Id) {
    exists c :: IsStore(ctx, c, Modified, o) && c.moves
  }

  /** The store is removed, and the only one of its kind added is the other. */
  ghost predicate MovesTo(ctx: Context, o: Id, n: Id) {
    exists c, a :: IsStore(ctx, c, Removed, o) && IsStore(ctx, a, Added, n) && c.nodeKind == a.nodeKind
        && IsOnly(ctx, a)
  }

  /** The data of a store has to move to another, or to itself. */
  ghost predicate MovesData(ctx: Context, o: Id, n: Id) {
    (o == n && MovesInPlace(ctx, o)) || MovesTo(ctx, o, n)
  }

  lemma {:induction false} PairsHave(changes: seq<Change>, among: seq<Change>, c: Change)
    requires c in among && Replacement(changes, c) != []
    requires forall b :: b in among && b.id == c.id && Replacement(changes, b) != [] ==> b == c
    ensures c.id in Pairs(changes, among) && Replacement(changes, c) == [Pairs(changes, among)[c.id]]
    decreases |among|
  {
    hide Replacement;
    var last := among[|among| - 1];
    assert among == among[..|among| - 1] + [last];
    if last.id != c.id || Replacement(changes, last) == [] {
      PairsHave(changes, among[..|among| - 1], c);
    }
  }

  lemma {:induction false} AddedOnce(changes: seq<Change>, nodeKind: int)
    requires forall i, j :: 0 <= i < j < |changes| ==>
               !(changes[i].element == changes[j].element && changes[i].id == changes[j].id)
    ensures forall i, j :: 0 <= i < j < |AddedOfKind(changes, nodeKind)| ==>
              AddedOfKind(changes, nodeKind)[i] != AddedOfKind(changes, nodeKind)[j]
  {
    if changes != [] {
      var rest := AddedOfKind(changes[1..], nodeKind);
      AddedOnce(changes[1..], nodeKind);
      assert forall c :: c in changes[1..] ==> !(c.element == changes[0].element && c.id == changes[0].id);
      assert StatefulNode(changes[0], Added) ==> changes[0].id !in rest;
    }
  }

  /** Changes of one element are one change. */
  lemma OneOfElement(ctx: Context, c: Change, b: Change)
    requires ValidContext(ctx) && c in ctx.changes && b in ctx.changes && c.element == b.element && c.id == b.id
    ensures c == b
  {
    var i :| 0 <= i < |ctx.changes| && ctx.changes[i] == c;
    var j :| 0 <= j < |ctx.changes| && ctx.changes[j] == b;
  }

  lemma OnlyOne(ids: seq<Id>, i: Id)
    requires i in ids && forall x :: x in ids ==> x == i
    ensures |ids| == 1 || ids[0] == ids[1]
  {
    if |ids| > 1 {
      assert ids[0] in ids && ids[1] in ids;
    }
  }

  /** One id is listed as added exactly when one store is. */
  lemma AddedIsOnly(ctx: Context, a: Change)
    requires ValidContext(ctx) && IsStore(ctx, a, Added, a.id)
    ensures |AddedOfKind(ctx.changes, a.nodeKind)| == 1 <==> IsOnly(ctx, a)
    ensures a.id in AddedOfKind(ctx.changes, a.nodeKind)
  {
    var ids := AddedOfKind(ctx.changes, a.nodeKind);
    AddedOnce(ctx.changes, a.nodeKind);
    if |ids| == 1 {
      forall b: Change | IsStore(ctx, b, Added, b.id) && b.nodeKind == a.nodeKind
        ensures b == a
      {
        assert b.id in ids && a.id in ids;
        OneOfElement(ctx, a, b);
      }
    }
    assert a.id in ids;
    if IsOnly(ctx, a) {
      forall i | i in ids
        ensures i == a.id
      {
        var c :| c in ctx.changes && StatefulNode(c, Added) && c.nodeKind == a.nodeKind && c.id == i;
        assert IsStore(ctx, c, Added, c.id);
      }
      OnlyOne(ids, a.id);
    }
  }

  lemma ReplacementIs(ctx: Context, c: Change, n: Id)
    requires ValidContext(ctx) && c in ctx.changes
    ensures Replacement(ctx.changes, c) == [n] <==>
            (IsStore(ctx, c, Modified, n) && c.moves)
            || (IsStore(ctx, c, Removed, c.id)
                && exists a :: IsStore(ctx, a, Added, n) && c.nodeKind == a.nodeKind && IsOnly(ctx, a))
  {
    var ids := AddedOfKind(ctx.changes, c.nodeKind);
    if a :| IsStore(ctx, a, Added, n) && c.nodeKind == a.nodeKind && IsOnly(ctx, a) {
      AddedIsOnly(ctx, a);
      assert ids == [n];
    }
    if ids == [n] {
      assert n in ids;
      var a :| a in ctx.changes && StatefulNode(a, Added) && a.nodeKind == c.nodeKind && a.id == n;
      AddedIsOnly(ctx, a);
    }
  }

  /** The pairs the generator carries out are the data moves. */
  lemma MovesExactly(ctx: Context, o: Id, n: Id)
    requires ValidContext(ctx)
    ensures o in StatefulReplacements(ctx) && StatefulReplacements(ctx)[o] == n <==> MovesData(ctx, o, n)
  {
    hide Replacement, IsOnly;
    if o in StatefulReplacements(ctx) && StatefulReplacements(ctx)[o] == n {
      var c := PairChange(ctx, o);
      ReplacementIs(ctx, c, n);
    }
    if MovesData(ctx, o, n) {
      var c := MovingChange(ctx, o, n);
      forall b | b in ctx.changes && b.id == c.id && Replacement(ctx.changes, b) != []
        ensures b == c
      {
        ReplacementIs(ctx, b, Replacement(ctx.changes, b)[0]);
        OneOfElement(ctx, b, c);
      }
      PairsHave(ctx.changes, ctx.changes, c);
    }
  }

  lemma MovingChange(ctx: Context, o: Id, n: Id) returns (c: Change)
    requires ValidContext(ctx) && MovesData(ctx, o, n)
    ensures c in ctx.changes && c.id == o && c.element.NodeElement? && Replacement(ctx.changes, c) == [n]
  {
    hide Replacement, IsOnly;
    if o == n && MovesInPlace(ctx, o) {
      c :| IsStore(ctx, c, Modified, o) && c.moves;
    } else {
      var a;
      c, a :| IsStore(ctx, c, Removed, o) && IsStore(ctx, a, Added, n) && c.nodeKind == a.nodeKind && IsOnly(ctx, a);
    }
    ReplacementIs(ctx, c, n);
  }

  // --- the steps -----------------------------------------------------------------------------------

  ghost predicate Changes(ctx: Context, c: Change, element: ElementType, kind: ChangeKind, id: Id) {
    c in ctx.changes && c.element == element && c.kind == kind && c.id == id
  }

  ghost predicate Adds(ctx: Context, element: ElementType, id: Id) {
    exists c :: Changes(ctx, c, element, Added, id)
  }

  ghost predicate Removes(ctx: Context, id: Id) {
    exists c, element :: Changes(ctx, c, element, Removed, id)
  }

  /** The element stays, with something about it changed, and is not a store whose data moves. */
  ghost predicate Stays(ctx: Context, c: Change, id: Id) {
    c in ctx.changes && c.kind.Modified? && c.id == id && !(c.element.NodeElement? && c.stateful && c.moves)
  }

  ghost predicate TakesAnotherRoute(c: Change) {
    c.element.ConnectionElement? && c.reroutes
  }

  ghost predicate IsGreen(ctx: Context, id: Id) {
    ctx.strategy.pattern == BlueGreen && id in ctx.strategy.subjects
  }

  /** The connection takes another route. */
  ghost predicate Reroutes(ctx: Context, id: Id) {
    exists c :: Stays(ctx, c, id) && TakesAnotherRoute(c)
  }

  /** The element is rolled out beside itself: the strategy is blue/green, and covers it. */
  ghost predicate TurnsGreen(ctx: Context, id: Id) {
    IsGreen(ctx, id) && exists c :: Stays(ctx, c, id) && !TakesAnotherRoute(c)
  }

  /** The element is changed where it is. */
  ghost predicate Adjusts(ctx: Context, id: Id) {
    !IsGreen(ctx, id) && exists c :: Stays(ctx, c, id) && !TakesAnotherRoute(c)
  }

  /** The data are replicated to the replacement, rather than copied after writes stop. */
  ghost predicate Replicates(ctx: Context, n: Id) {
    ctx.strategy.pattern == ReplicationCutover && n in ctx.strategy.subjects
  }

  /** The step is in the plan. */
  ghost predicate Planned(ctx: Context, k: StepKey) {
    match k
    case Provision(e) => Adds(ctx, NodeElement, e) || Adds(ctx, ConnectionElement, e)
    case Configure(e) => Adds(ctx, NodeElement, e) || Adjusts(ctx, e)
    case Verify(e) =>
      Adds(ctx, NodeElement, e) || Adds(ctx, ConnectionElement, e) || Reroutes(ctx, e) || TurnsGreen(ctx, e)
      || Adjusts(ctx, e)
    case ProvisionGreen(e) => TurnsGreen(ctx, e)
    case VerifyGreen(e) => TurnsGreen(ctx, e)
    case DecommissionBlue(e) => TurnsGreen(ctx, e)
    case Cutover(e) => Reroutes(ctx, e) || TurnsGreen(ctx, e) || exists n :: MovesData(ctx, e, n)
    case Prepare(e) => Reroutes(ctx, e)
    case ProvisionTarget(e) => MovesData(ctx, e, e)
    case DecommissionSource(e) => MovesData(ctx, e, e)
    case Replicate(e) => exists n :: MovesData(ctx, e, n) && Replicates(ctx, n)
    case Freeze(e) => exists n :: MovesData(ctx, e, n) && !Replicates(ctx, n)
    case Backfill(e) => exists n :: MovesData(ctx, e, n)
    case VerifyConsistency(e) => exists n :: MovesData(ctx, e, n)
    case VerifyTraffic(e) => exists o :: MovesData(ctx, o, e)
    case VerifyUnused(e) => Removes(ctx, e)
    case Decommission(e) => Removes(ctx, e)
  }

  lemma MoveIs(ctx: Context, o: Id)
    requires ValidContext(ctx)
    ensures o in StatefulReplacements(ctx) <==> exists n :: MovesData(ctx, o, n)
    ensures o in StatefulReplacements(ctx) ==> forall n :: MovesData(ctx, o, n) <==> n == StatefulReplacements(ctx)[o]
  {
    hide StatefulReplacements, MovesData;
    forall n
      ensures MovesData(ctx, o, n) <==> o in StatefulReplacements(ctx) && StatefulReplacements(ctx)[o] == n
    {
      MovesExactly(ctx, o, n);
    }
    if o in StatefulReplacements(ctx) {
      assert MovesData(ctx, o, StatefulReplacements(ctx)[o]);
    }
  }

  /** A change that stays is carried out with a data move exactly when it is a store that changes technology. */
  lemma StaysExactly(ctx: Context, c: Change)
    requires ValidContext(ctx) && c in ctx.changes && c.kind.Modified?
    ensures Skipped(ctx, c) <==> c.element.NodeElement? && c.stateful && c.moves
  {
    hide StatefulReplacements, IsOnly;
    assert DiffSays(ctx, c);
    if c.element.NodeElement? && c.stateful && c.moves {
      assert IsStore(ctx, c, Modified, c.id);
      MovesExactly(ctx, c.id, c.id);
    }
    if Skipped(ctx, c) {
      var o := MoverOf(ctx, c.id);
      var b := PairChange(ctx, o);
      PairNodes(ctx, o);
      assert DiffSays(ctx, b);
      OneOfElement(ctx, b, c);
      ReplacementIs(ctx, c, o);
    }
  }

  lemma MoverOf(ctx: Context, e: Id) returns (o: Id)
    requires ValidContext(ctx) && Replaced(ctx, e) && e in ctx.source.nodes && e in ctx.target.nodes
    ensures o in StatefulReplacements(ctx) && o == e && StatefulReplacements(ctx)[o] == o
  {
    hide StatefulReplacements;
    if e in StatefulReplacements(ctx) {
      o := e;
    } else {
      o := KeyOf(StatefulReplacements(ctx), e);
      PairNodes(ctx, o);
    }
    PairNodes(ctx, o);
  }

  /** What the change of a connection or of a node that is not replaced drafts. */
  lemma DraftsOfChange(ctx: Context, c: Change, k: StepKey)
    requires ValidContext(ctx) && c in ctx.changes
    ensures !Skipped(ctx, c) ==> (k in ChangeDrafts(ctx, c) <==>
              k.e == c.id && match k
              case Provision(_) => c.kind.Added?
              case Configure(_) =>
                (c.kind.Added? && c.element.NodeElement?)
                || (c.kind.Modified? && !TakesAnotherRoute(c) && !IsGreen(ctx, c.id))
              case Verify(_) => !c.kind.Removed?
              case ProvisionGreen(_) => c.kind.Modified? && !TakesAnotherRoute(c) && IsGreen(ctx, c.id)
              case VerifyGreen(_) => c.kind.Modified? && !TakesAnotherRoute(c) && IsGreen(ctx, c.id)
              case DecommissionBlue(_) => c.kind.Modified? && !TakesAnotherRoute(c) && IsGreen(ctx, c.id)
              case Cutover(_) => c.kind.Modified? && (TakesAnotherRoute(c) || IsGreen(ctx, c.id))
              case Prepare(_) => c.kind.Modified? && TakesAnotherRoute(c)
              case VerifyUnused(_) => c.kind.Removed?
              case Decommission(_) => c.kind.Removed?
              case _ => false)
    ensures Skipped(ctx, c) ==> k !in ChangeDrafts(ctx, c)
  {
    hide Skipped, ValidContext;
  }

  lemma ChangePlans(ctx: Context, c: Change, k: StepKey)
    requires ValidContext(ctx) && c in ctx.changes && k in ChangeDrafts(ctx, c)
    ensures Planned(ctx, k)
  {
    hide Skipped, ChangeDrafts, ValidContext, MovesData;
    DraftsOfChange(ctx, c, k);
    assert Changes(ctx, c, c.element, c.kind, k.e);
    if c.kind.Modified? {
      StaysExactly(ctx, c);
      assert Stays(ctx, c, k.e);
    }
  }

  lemma PairPlans(ctx: Context, o: Id, k: StepKey)
    requires ValidContext(ctx) && o in StatefulReplacements(ctx) && k in PairDrafts(ctx, o)
    ensures Planned(ctx, k)
  {
    hide Skipped, PairDrafts, ValidContext, MovesData, StatefulReplacements, Replacement;
    var n := StatefulReplacements(ctx)[o];
    PairKeys(ctx, o, k);
    MoveIs(ctx, o);
    assert MovesData(ctx, o, n);
    if o != n {
      var c := PairChange(ctx, o);
      assert Changes(ctx, c, NodeElement, Removed, o);
      var a :| a in ctx.changes && StatefulNode(a, Added) && a.id == n;
      assert Changes(ctx, a, NodeElement, Added, n);
    }
  }

  /** The pair that a node added or removed is carried out with. */
  lemma Mover(ctx: Context, c: Change) returns (o: Id)
    requires ValidContext(ctx) && c in ctx.changes && c.element.NodeElement? && !c.kind.Modified? && Skipped(ctx, c)
    ensures o in StatefulReplacements(ctx) && o != StatefulReplacements(ctx)[o]
    ensures c.id == if c.kind.Added? then StatefulReplacements(ctx)[o] else o
  {
    hide StatefulReplacements;
    assert DiffSays(ctx, c);
    if c.kind.Added? {
      o := ReplacementOf(ctx, c.id);
    } else {
      if c.id !in StatefulReplacements(ctx) {
        o := KeyOf(StatefulReplacements(ctx), c.id);
        PairNodes(ctx, o);
      }
      o := c.id;
      PairNodes(ctx, o);
    }
  }

  /** A node added or removed is provisioned or retired: with its own change, or with the data moved. */
  lemma NodePlanned(ctx: Context, c: Change, k: StepKey)
    requires ValidContext(ctx) && c in ctx.changes && c.element.NodeElement? && !c.kind.Modified? && k.e == c.id
    requires if c.kind.Added? then k.Provision? || k.Configure? || k.Verify? else k.VerifyUnused? || k.Decommission?
    ensures k in ChangeDrafts(ctx, c) || FromPair(ctx, StatefulReplacements(ctx).Keys, k)
  {
    hide Skipped, PairDrafts, ChangeDrafts, StatefulReplacements;
    DraftsOfChange(ctx, c, k);
    assert DiffSays(ctx, c);
    if Skipped(ctx, c) {
      var o := Mover(ctx, c);
      PairKeys(ctx, o, k);
    }
  }

  ghost predicate IsDrafted(ctx: Context, k: StepKey) {
    FromChange(ctx, |ctx.changes|, k) || FromPair(ctx, StatefulReplacements(ctx).Keys, k)
  }

  lemma DraftedBy(ctx: Context, c: Change, k: StepKey)
    requires c in ctx.changes && k in ChangeDrafts(ctx, c)
    ensures IsDrafted(ctx, k)
  {
    hide ChangeDrafts, StatefulReplacements;
    var j :| 0 <= j < |ctx.changes| && ctx.changes[j] == c;
  }

  lemma StaysDrafted(ctx: Context, c: Change, k: StepKey)
    requires ValidContext(ctx) && Stays(ctx, c, k.e)
    requires match k
             case Verify(_) => true
             case Prepare(_) => TakesAnotherRoute(c)
             case Cutover(_) => TakesAnotherRoute(c) || IsGreen(ctx, c.id)
             case Configure(_) => !TakesAnotherRoute(c) && !IsGreen(ctx, c.id)
             case ProvisionGreen(_) => !TakesAnotherRoute(c) && IsGreen(ctx, c.id)
             case VerifyGreen(_) => !TakesAnotherRoute(c) && IsGreen(ctx, c.id)
             case DecommissionBlue(_) => !TakesAnotherRoute(c) && IsGreen(ctx, c.id)
             case _ => false
    ensures IsDrafted(ctx, k)
  {
    hide Skipped, ChangeDrafts, ValidContext, IsDrafted, IsGreen;
    StaysExactly(ctx, c);
    DraftsOfChange(ctx, c, k);
    DraftedBy(ctx, c, k);
  }

  lemma AddsDrafted(ctx: Context, c: Change, k: StepKey)
    requires ValidContext(ctx) && Changes(ctx, c, c.element, Added, k.e)
    requires k.Provision? || k.Verify? || (k.Configure? && c.element.NodeElement?)
    ensures IsDrafted(ctx, k)
  {
    hide Skipped, ChangeDrafts, ValidContext, StatefulReplacements;
    if c.element.NodeElement? {
      NodePlanned(ctx, c, k);
    } else {
      DraftsOfChange(ctx, c, k);
      ConnectionNotSkipped(ctx, c);
    }
    if k in ChangeDrafts(ctx, c) {
      DraftedBy(ctx, c, k);
    }
  }

  lemma ConnectionNotSkipped(ctx: Context, c: Change)
    requires c.element.ConnectionElement?
    ensures !Skipped(ctx, c)
  {
  }

  lemma RemovesDrafted(ctx: Context, c: Change, k: StepKey)
    requires ValidContext(ctx) && Changes(ctx, c, c.element, Removed, k.e) && (k.VerifyUnused? || k.Decommission?)
    ensures IsDrafted(ctx, k)
  {
    hide Skipped, ChangeDrafts, ValidContext, StatefulReplacements;
    if c.element.NodeElement? {
      NodePlanned(ctx, c, k);
    } else {
      DraftsOfChange(ctx, c, k);
      ConnectionNotSkipped(ctx, c);
    }
    if k in ChangeDrafts(ctx, c) {
      DraftedBy(ctx, c, k);
    }
  }

  lemma MoveDraftsIt(ctx: Context, o: Id, n: Id, k: StepKey)
    requires ValidContext(ctx) && MovesData(ctx, o, n)
    requires match k
             case ProvisionTarget(e) => e == o && o == n
             case Replicate(e) => e == o && Replicates(ctx, n)
             case Freeze(e) => e == o && !Replicates(ctx, n)
             case VerifyTraffic(e) => e == n
             case DecommissionSource(e) => e == o && o == n
             case Cutover(e) => e == o
             case Backfill(e) => e == o
             case VerifyConsistency(e) => e == o
             case _ => false
    ensures IsDrafted(ctx, k)
  {
    hide PairDrafts, ValidContext, StatefulReplacements, MovesData;
    MovesExactly(ctx, o, n);
    PairKeys(ctx, o, k);
  }

  lemma PlannedDrafted(ctx: Context, k: StepKey)
    requires ValidContext(ctx) && Planned(ctx, k)
    ensures IsDrafted(ctx, k)
  {
    hide ValidContext, MovesData, IsDrafted, Replicates;
    match k {
      case Replicate(e) =>
        var n :| MovesData(ctx, e, n) && Replicates(ctx, n);
        MoveDraftsIt(ctx, e, n, k);
      case Freeze(e) =>
        var n :| MovesData(ctx, e, n) && !Replicates(ctx, n);
        MoveDraftsIt(ctx, e, n, k);
      case VerifyTraffic(e) =>
        var o :| MovesData(ctx, o, e);
        MoveDraftsIt(ctx, o, e, k);
      case ProvisionTarget(e) => MoveDraftsIt(ctx, e, e, k);
      case DecommissionSource(e) => MoveDraftsIt(ctx, e, e, k);
      case _ => PlannedDraftedToo(ctx, k);
    }
  }

  lemma PlannedDraftedToo(ctx: Context, k: StepKey)
    requires ValidContext(ctx) && Planned(ctx, k) && !k.Replicate? && !k.Freeze? && !k.VerifyTraffic?
    requires !k.ProvisionTarget? && !k.DecommissionSource?
    ensures IsDrafted(ctx, k)
  {
    hide ValidContext, MovesData, IsDrafted, Stays, Changes;
    if n :| (k.Cutover? || k.Backfill? || k.VerifyConsistency?) && MovesData(ctx, k.e, n) {
      MoveDraftsIt(ctx, k.e, n, k);
    } else if k.VerifyUnused? || k.Decommission? {
      var c, element :| Changes(ctx, c, element, Removed, k.e);
      assert c.element == element by { ChangesElement(ctx, c, element, Removed, k.e); }
      RemovesDrafted(ctx, c, k);
    } else if c :| Changes(ctx, c, NodeElement, Added, k.e) && (k.Provision? || k.Configure? || k.Verify?) {
      ChangesElement(ctx, c, NodeElement, Added, k.e);
      AddsDrafted(ctx, c, k);
    } else if c :| Changes(ctx, c, ConnectionElement, Added, k.e) && (k.Provision? || k.Verify?) {
      ChangesElement(ctx, c, ConnectionElement, Added, k.e);
      AddsDrafted(ctx, c, k);
    } else if c :| Stays(ctx, c, k.e) && TakesAnotherRoute(c) && (k.Verify? || k.Cutover? || k.Prepare?) {
      StaysId(ctx, c, k.e);
      StaysDrafted(ctx, c, k);
    } else {
      var c :| Stays(ctx, c, k.e) && !TakesAnotherRoute(c);
      StaysId(ctx, c, k.e);
      StaysDrafted(ctx, c, k);
    }
  }

  lemma ChangesElement(ctx: Context, c: Change, element: ElementType, kind: ChangeKind, id: Id)
    requires Changes(ctx, c, element, kind, id)
    ensures c.element == element
  {
  }

  lemma StaysId(ctx: Context, c: Change, id: Id)
    requires Stays(ctx, c, id)
    ensures c.id == id
  {
  }

  /** What is drafted is what is planned. */
  lemma StepsExactly(ctx: Context, b: Drafts, k: StepKey)
    requires ValidContext(ctx) && Based(ctx, b)
    ensures k in b <==> Planned(ctx, k)
  {
    hide ValidContext, Planned, ChangeDrafts, PairDrafts, StatefulReplacements, PairsDone;
    if k in b {
      if FromChange(ctx, |ctx.changes|, k) {
        var j :| 0 <= j < |ctx.changes| && k in ChangeDrafts(ctx, ctx.changes[j]);
        ChangePlans(ctx, ctx.changes[j], k);
      } else {
        var o :| o in StatefulReplacements(ctx) && k in PairDrafts(ctx, o);
        PairPlans(ctx, o, k);
      }
    }
    if Planned(ctx, k) {
      PlannedDrafted(ctx, k);
      if j :| 0 <= j < |ctx.changes| && k in ChangeDrafts(ctx, ctx.changes[j]) {
        assert Carries(b, ChangeDrafts(ctx, ctx.changes[j]));
      } else {
        var o :| o in StatefulReplacements(ctx) && k in PairDrafts(ctx, o);
        assert PairCarried(ctx, b, o);
      }
    }
  }

  // --- the dependencies ----------------------------------------------------------------------------

  /** The end's verification is drafted, with its own change, before the `j`-th change. */
  ghost predicate VerifiedEarlier(ctx: Context, j: int, e: Id) {
    exists i :: 0 <= i < j && i < |ctx.changes| && ctx.changes[i].id == e && VerifiesItself(ctx, ctx.changes[i])
  }

  ghost predicate VerifiesItself(ctx: Context, c: Change) {
    !c.kind.Removed? && !(c.element.NodeElement? && exists o :: MovesData(ctx, o, c.id))
  }

  /** The preparation of a route waits for those of its ends that were verified by an earlier change. */
  ghost predicate PreparesAfter(ctx: Context, id: Id, x: StepKey) {
    && x.Verify? && id in ctx.target.connections
    && (x.e == ctx.target.connections[id].source || x.e == ctx.target.connections[id].target)
    && exists j :: 0 <= j < |ctx.changes| && Stays(ctx, ctx.changes[j], id) && TakesAnotherRoute(ctx.changes[j])
         && VerifiedEarlier(ctx, j, x.e)
  }

  /** What a step waits for within the change or the data move it is part of. */
  ghost predicate Follows(ctx: Context, k: StepKey, x: StepKey) {
    match k
    case Configure(e) => Adds(ctx, NodeElement, e) && x == Provision(e)
    case Verify(e) =>
      || ((Adds(ctx, NodeElement, e) || Adjusts(ctx, e)) && x == Configure(e))
      || (Adds(ctx, ConnectionElement, e) && x == Provision(e))
      || ((Reroutes(ctx, e) || TurnsGreen(ctx, e)) && x == Cutover(e))
    case VerifyGreen(e) => x == ProvisionGreen(e)
    case DecommissionBlue(e) => x == Verify(e)
    case Cutover(e) =>
      || (Reroutes(ctx, e) && x == Prepare(e)) || (TurnsGreen(ctx, e) && x == VerifyGreen(e))
      || ((exists n :: MovesData(ctx, e, n)) && x == VerifyConsistency(e))
    case Prepare(e) => PreparesAfter(ctx, e, x)
    case Replicate(e) => exists n :: MovesData(ctx, e, n) && x == if e == n then ProvisionTarget(n) else Verify(n)
    case Freeze(e) => exists n :: MovesData(ctx, e, n) && x == if e == n then ProvisionTarget(n) else Verify(n)
    case Backfill(e) => exists n :: MovesData(ctx, e, n) && x == if Replicates(ctx, n) then Replicate(e) else Freeze(e)
    case VerifyConsistency(e) => x == Backfill(e)
    case VerifyTraffic(e) => x.Cutover? && MovesData(ctx, x.e, e) && forall o :: MovesData(ctx, o, e) ==> o <= x.e
    case DecommissionSource(e) => x == VerifyTraffic(e)
    case Decommission(e) => x == VerifyUnused(e)
    case _ => false
  }

  ghost predicate IsEnd(a: Architecture, c: Id, e: Id) {
    c in a.connections && (a.connections[c].source == e || a.connections[c].target == e)
  }

  /** The connection has an end in the source that it no longer has there in the target. */
  ghost predicate LeavesEnd(ctx: Context, c: Id, e: Id) {
    && c in ctx.source.connections && c in ctx.target.connections
    && (exists b :: Changes(ctx, b, ConnectionElement, Modified, c))
    && var was, now := ctx.source.connections[c], ctx.target.connections[c];
       (was.source == e && now.source != e) || (was.target == e && now.target != e)
  }

  /** What a step waits for across elements. */
  ghost predicate ComesAfter(ctx: Context, k: StepKey, x: StepKey) {
    match k
    case Provision(e) => x.Verify? && IsEnd(ctx.target, e, x.e)
    case Cutover(e) =>
      x.Verify? && x.e in ctx.target.connections && MovesData(ctx, e, ctx.target.connections[x.e].target)
    case VerifyUnused(e) =>
      || (x == Cutover(e) && exists n :: MovesData(ctx, e, n))
      || (x.VerifyTraffic? && MovesData(ctx, e, x.e))
      || (x.Cutover? && (exists n :: MovesData(ctx, x.e, n)) && IsEnd(ctx.source, e, x.e))
      || (x.Decommission? && IsEnd(ctx.source, x.e, e))
      || (x.Verify? && LeavesEnd(ctx, x.e, e))
    case _ => false
  }

  lemma SwitchLink(ctx: Context, k: StepKey, x: StepKey)
    requires ValidContext(ctx)
    ensures Link(k, x) in ReplacementLinks(ctx, StatefulReplacements(ctx).Keys) <==>
            match k
            case Cutover(e) =>
              x.Verify? && x.e in ctx.target.connections && MovesData(ctx, e, ctx.target.connections[x.e].target)
            case VerifyUnused(e) =>
              || (x == Cutover(e) && exists n :: MovesData(ctx, e, n))
              || (x.VerifyTraffic? && MovesData(ctx, e, x.e))
              || (x.Cutover? && (exists n :: MovesData(ctx, x.e, n)) && IsEnd(ctx.source, e, x.e))
            case _ => false
  {
    hide StatefulReplacements, ValidContext, MovesData;
    forall o
      ensures o in StatefulReplacements(ctx) <==> exists n :: MovesData(ctx, o, n)
      ensures o in StatefulReplacements(ctx) ==>
                forall n :: MovesData(ctx, o, n) <==> n == StatefulReplacements(ctx)[o]
    {
      MoveIs(ctx, o);
    }
    var all := ctx.source.connections.Keys;
    var l := Link(k, x);
    if k.Cutover? && k.e in StatefulReplacements(ctx) && Switched(ctx, k.e, l) {
      assert SwitchesOver(ctx, k.e, all, l);
    }
    if k.VerifyUnused? && k.e in StatefulReplacements(ctx) && Switched(ctx, k.e, l) {
      assert SwitchesOver(ctx, k.e, all, l);
    }
    if k.VerifyUnused? && x.Cutover? && x.e in StatefulReplacements(ctx) && IsEnd(ctx.source, k.e, x.e) {
      assert Detached(ctx, x.e, k.e, l);
      assert SwitchesOver(ctx, x.e, all, l);
    }
  }

  lemma LeftLink(ctx: Context, k: StepKey, x: StepKey)
    requires ValidContext(ctx)
    ensures Link(k, x) in RerouteLinks(ctx, |ctx.changes|) <==> k.VerifyUnused? && x.Verify? && LeavesEnd(ctx, x.e, k.e)
  {
    var l := Link(k, x);
    if j :| 0 <= j < |ctx.changes| && LeavesAll(ctx, j, l) {
      LeavesIt(ctx, ctx.changes[j], k.e);
      assert Changes(ctx, ctx.changes[j], ConnectionElement, Modified, x.e);
    }
    if k.VerifyUnused? && x.Verify? && LeavesEnd(ctx, x.e, k.e) {
      var b :| Changes(ctx, b, ConnectionElement, Modified, x.e);
      var j :| 0 <= j < |ctx.changes| && ctx.changes[j] == b;
      LeavesIt(ctx, b, k.e);
      assert LeavesAll(ctx, j, l);
    }
  }

  lemma LeavesIt(ctx: Context, c: Change, e: Id)
    requires ValidContext(ctx) && c in ctx.changes
    ensures e in Left(ctx, c)[..|Left(ctx, c)|] <==>
            Changes(ctx, c, ConnectionElement, Modified, c.id) && LeavesEnd(ctx, c.id, e)
  {
    var left := Left(ctx, c);
    assert left[..|left|] == left;
    assert DiffSays(ctx, c);
  }

  /** The links across elements. */
  lemma LinksExactly(ctx: Context, k: StepKey, x: StepKey)
    requires ValidContext(ctx)
    ensures Link(k, x) in Links(ctx) <==> ComesAfter(ctx, k, x)
  {
    hide StatefulReplacements, ReplacementLinks, RerouteLinks, MovesData, LeavesEnd;
    var l := Link(k, x);
    SwitchLink(ctx, k, x);
    LeftLink(ctx, k, x);
    assert l in ConnectionLinks(ctx, ctx.target.connections.Keys) <==> ConnectsIt(ctx, l);
    assert l in RetirementLinks(ctx, ctx.source.connections.Keys) <==> RetiresIt(ctx, l);
  }

  ghost predicate ConnectsIt(ctx: Context, l: Link) {
    l.k.Provision? && Connects(ctx, l.k.e, l)
  }

  ghost predicate RetiresIt(ctx: Context, l: Link) {
    l.x.Decommission? && Retires(ctx, l.x.e, l)
  }

  /** What a change that leaves something in the target says of its id; no other such change has that id. */
  lemma ChangeTold(ctx: Context, c: Change)
    requires ValidContext(ctx) && c in ctx.changes && !c.kind.Removed?
    ensures Adds(ctx, NodeElement, c.id) <==> c.kind.Added? && c.element.NodeElement?
    ensures Adds(ctx, ConnectionElement, c.id) <==> c.kind.Added? && c.element.ConnectionElement?
    ensures Reroutes(ctx, c.id) <==> Stays(ctx, c, c.id) && TakesAnotherRoute(c)
    ensures TurnsGreen(ctx, c.id) <==> Stays(ctx, c, c.id) && !TakesAnotherRoute(c) && IsGreen(ctx, c.id)
    ensures Adjusts(ctx, c.id) <==> Stays(ctx, c, c.id) && !TakesAnotherRoute(c) && !IsGreen(ctx, c.id)
  {
    hide ValidContext, IsGreen, TakesAnotherRoute;
    forall b | b in ctx.changes && b.id == c.id && !b.kind.Removed?
      ensures b == c
    {
      OneChange(ctx, c, b);
    }
    assert c.kind.Added? ==> Changes(ctx, c, c.element, Added, c.id);
  }

  /** What a step waits for within the drafts of a change. */
  lemma ChangeFollows(ctx: Context, c: Change, k: StepKey, x: StepKey)
    requires k in ChangeDrafts(ctx, c) && !k.Prepare?
    ensures x in ChangeDrafts(ctx, c)[k] <==>
            match k
            case Configure(e) => c.kind.Added? && x == Provision(e)
            case Verify(e) =>
              x == if c.kind.Added? then (if c.element.NodeElement? then Configure(e) else Provision(e))
                   else if TakesAnotherRoute(c) || IsGreen(ctx, c.id) then Cutover(e) else Configure(e)
            case VerifyGreen(e) => x == ProvisionGreen(e)
            case DecommissionBlue(e) => x == Verify(e)
            case Cutover(e) => x == if TakesAnotherRoute(c) then Prepare(e) else VerifyGreen(e)
            case Decommission(e) => x == VerifyUnused(e)
            case _ => false
  {
    hide Skipped;
  }

  /** What a step waits for within the drafts of a data move. */
  lemma PairFollows(ctx: Context, o: Id, k: StepKey, x: StepKey)
    requires ValidContext(ctx) && o in StatefulReplacements(ctx) && k in PairDrafts(ctx, o) && !k.VerifyTraffic?
    ensures var n := StatefulReplacements(ctx)[o];
            x in PairDrafts(ctx, o)[k] <==>
            match k
            case Configure(e) => x == Provision(e)
            case Verify(e) => x == Configure(e)
            case Replicate(_) => x == if o == n then ProvisionTarget(n) else Verify(n)
            case Freeze(_) => x == if o == n then ProvisionTarget(n) else Verify(n)
            case Backfill(_) => x == if Replicates(ctx, n) then Replicate(o) else Freeze(o)
            case VerifyConsistency(_) => x == Backfill(o)
            case Cutover(_) => x == VerifyConsistency(o)
            case DecommissionSource(_) => x == VerifyTraffic(o)
            case Decommission(e) => x == VerifyUnused(e)
            case _ => false
  {
    hide StatefulReplacements, NodeChange, ValidContext, PairDrafts;
    PairIs(ctx, o);
  }

  /** A store whose data move is not what traffic is switched to otherwise. */
  lemma MovesOnly(ctx: Context, o: Id)
    requires ValidContext(ctx) && o in StatefulReplacements(ctx)
    ensures forall c :: !Stays(ctx, c, o)
  {
    hide StatefulReplacements;
    PairNodes(ctx, o);
    forall c | c in ctx.changes && c.kind.Modified? && c.id == o
      ensures !Stays(ctx, c, o)
    {
      assert DiffSays(ctx, c);
      StaysExactly(ctx, c);
    }
  }

  lemma OfChange(ctx: Context, c: Change, k: StepKey, x: StepKey)
    requires ValidContext(ctx) && c in ctx.changes && k in ChangeDrafts(ctx, c) && !k.Prepare?
    ensures x in ChangeDrafts(ctx, c)[k] <==> Follows(ctx, k, x)
  {
    hide Skipped, ChangeDrafts, ValidContext, StatefulReplacements, IsGreen, TakesAnotherRoute, Adds, Reroutes,
      TurnsGreen, Adjusts, MovesData, PreparesAfter;
    ChangeKeys(ctx, c, k);
    ChangeFollows(ctx, c, k, x);
    DraftsOfChange(ctx, c, k);
    if !c.kind.Removed? {
      ChangeTold(ctx, c);
    }
    if c.kind.Modified? {
      StaysExactly(ctx, c);
      MoveIs(ctx, k.e);
      if k.e in StatefulReplacements(ctx) {
        MovesOnly(ctx, k.e);
      }
    }
  }

  lemma OfPair(ctx: Context, o: Id, k: StepKey, x: StepKey)
    requires ValidContext(ctx) && o in StatefulReplacements(ctx) && k in PairDrafts(ctx, o) && !k.VerifyTraffic?
    ensures x in PairDrafts(ctx, o)[k] <==> Follows(ctx, k, x)
  {
    hide Skipped, PairDrafts, ValidContext, StatefulReplacements, IsGreen, TakesAnotherRoute, MovesData, PreparesAfter,
      Replicates, Replacement;
    var n := StatefulReplacements(ctx)[o];
    PairKeys(ctx, o, k);
    PairFollows(ctx, o, k, x);
    MoveIs(ctx, o);
    MovesOnly(ctx, o);
    if o != n {
      var c := PairChange(ctx, o);
      var a :| a in ctx.changes && StatefulNode(a, Added) && a.id == n;
      ChangeTold(ctx, a);
    }
  }

  lemma ReplacedExactly(ctx: Context, c: Change)
    requires ValidContext(ctx) && c in ctx.changes && c.element.NodeElement? && !c.kind.Removed?
    ensures Replaced(ctx, c.id) <==> exists o :: MovesData(ctx, o, c.id)
  {
    hide StatefulReplacements, MovesData;
    assert DiffSays(ctx, c);
    if Replaced(ctx, c.id) {
      var o := c.id;
      if c.id !in StatefulReplacements(ctx) {
        o := KeyOf(StatefulReplacements(ctx), c.id);
      }
      PairNodes(ctx, o);
      MovesExactly(ctx, o, c.id);
    }
    if o :| MovesData(ctx, o, c.id) {
      MovesExactly(ctx, o, c.id);
    }
  }

  lemma EarlierExactly(ctx: Context, j: int, e: Id)
    requires ValidContext(ctx) && 0 <= j < |ctx.changes|
    ensures VerifiedBefore(ctx, j, e) <==> VerifiedEarlier(ctx, j, e)
  {
    hide Replaced, MovesData, ValidContext;
    forall i | 0 <= i < j
      ensures !Skipped(ctx, ctx.changes[i]) && !ctx.changes[i].kind.Removed? <==> VerifiesItself(ctx, ctx.changes[i])
    {
      var c := ctx.changes[i];
      if c.element.NodeElement? && !c.kind.Removed? {
        ReplacedExactly(ctx, c);
      }
    }
  }

  lemma OfPreparation(ctx: Context, b: Drafts, id: Id, x: StepKey)
    requires ValidContext(ctx) && Based(ctx, b) && Prepare(id) in b
    ensures x in b[Prepare(id)] <==> PreparesAfter(ctx, id, x)
  {
    hide StatefulReplacements, Good, ChangeDone, PairDone, LastOf, ChangeDrafts, PairDrafts, VerifiedBefore,
      VerifiedEarlier;
    var j := ReroutedBy(ctx, b, id);
    var c := ctx.changes[j];
    assert PreparedAt(ctx, b, j);
    RerouteChange(ctx, c);
    StaysExactly(ctx, c);
    EarlierExactly(ctx, j, x.e);
    forall i | 0 <= i < |ctx.changes| && Stays(ctx, ctx.changes[i], id)
      ensures i == j
    {
      OneChange(ctx, c, ctx.changes[i]);
    }
  }

  lemma ReroutedBy(ctx: Context, b: Drafts, id: Id) returns (j: nat)
    requires ValidContext(ctx) && Based(ctx, b) && Prepare(id) in b
    ensures j < |ctx.changes| && IsReroute(ctx.changes[j]) && ctx.changes[j].id == id
  {
    hide StatefulReplacements, PairsDone, ChangeDrafts, PairDrafts;
    if FromChange(ctx, |ctx.changes|, Prepare(id)) {
      j :| 0 <= j < |ctx.changes| && Prepare(id) in ChangeDrafts(ctx, ctx.changes[j]);
      ChangeKeys(ctx, ctx.changes[j], Prepare(id));
      DraftsOfChange(ctx, ctx.changes[j], Prepare(id));
    } else {
      var o :| o in StatefulReplacements(ctx) && Prepare(id) in PairDrafts(ctx, o);
      PairKeys(ctx, o, Prepare(id));
    }
  }

  lemma OfTraffic(ctx: Context, b: Drafts, n: Id, x: StepKey)
    requires ValidContext(ctx) && Based(ctx, b) && VerifyTraffic(n) in b
    ensures x in b[VerifyTraffic(n)] <==>
            x.Cutover? && MovesData(ctx, x.e, n) && forall o :: MovesData(ctx, o, n) ==> o <= x.e
  {
    hide StatefulReplacements, Good, ChangeDone, PairDone, ChangeDrafts, PairDrafts, MovesData, PairsExact;
    StepsExactly(ctx, b, VerifyTraffic(n));
    var p :| MovesData(ctx, p, n);
    forall o
      ensures MovesData(ctx, o, n) <==> o in StatefulReplacements(ctx) && StatefulReplacements(ctx)[o] == n
    {
      MovesExactly(ctx, o, n);
    }
    var last := LastPaired(StatefulReplacements(ctx), p);
    assert LastOf(ctx, StatefulReplacements(ctx).Keys, last);
  }

  /** Within a change or a data move, a step waits for exactly what it follows. */
  lemma FollowsExactly(ctx: Context, b: Drafts, k: StepKey, x: StepKey)
    requires ValidContext(ctx) && Based(ctx, b) && k in b
    ensures x in b[k] <==> Follows(ctx, k, x)
  {
    hide ValidContext, Follows, ChangeDrafts, PairDrafts, StatefulReplacements, PairsDone;
    if k.Prepare? {
      OfPreparation(ctx, b, k.e, x);
      PreparationFollows(ctx, k.e, x);
    } else if k.VerifyTraffic? {
      OfTraffic(ctx, b, k.e, x);
      TrafficFollows(ctx, k.e, x);
    } else if j :| 0 <= j < |ctx.changes| && k in ChangeDrafts(ctx, ctx.changes[j]) {
      assert Carries(b, ChangeDrafts(ctx, ctx.changes[j]));
      OfChange(ctx, ctx.changes[j], k, x);
    } else {
      assert FromPair(ctx, StatefulReplacements(ctx).Keys, k);
      var o :| o in StatefulReplacements(ctx) && k in PairDrafts(ctx, o);
      assert PairCarried(ctx, b, o);
      OfPair(ctx, o, k, x);
    }
  }

  lemma PreparationFollows(ctx: Context, id: Id, x: StepKey)
    ensures Follows(ctx, Prepare(id), x) <==> PreparesAfter(ctx, id, x)
  {
  }

  lemma TrafficFollows(ctx: Context, n: Id, x: StepKey)
    ensures Follows(ctx, VerifyTraffic(n), x) <==>
            x.Cutover? && MovesData(ctx, x.e, n) && forall o :: MovesData(ctx, o, n) ==> o <= x.e
  {
  }

  /**
   * The generated plan, exactly: which steps it holds, and which of them each waits for. Nothing but the order in
   * which reroutes find their ends verified depends on the order of the changes.
   */
  lemma PlanExactly(ctx: Context, d: Drafts, k: StepKey, x: StepKey)
    requires ValidContext(ctx) && Generated(ctx, d)
    ensures k in d <==> Planned(ctx, k)
    ensures k in d ==> (x in d[k] <==> Planned(ctx, x) && (Follows(ctx, k, x) || ComesAfter(ctx, k, x)))
  {
    hide PairsDone, ConnectsAfterEnds, SwitchesThenRetires, EndsOutlive, LeavesFirst, ValidContext, Links, Planned,
      Follows, ComesAfter;
    var b :| Orders(ctx, b, d);
    StepsExactly(ctx, b, k);
    StepsExactly(ctx, b, x);
    LinksExactly(ctx, k, x);
    if k in b {
      FollowsExactly(ctx, b, k, x);
      if x in b[k] {
        BaseSound(ctx, b, k, x);
      }
      NotItself(ctx, k);
    }
  }

  lemma BaseSound(ctx: Context, b: Drafts, k: StepKey, x: StepKey)
    requires Based(ctx, b) && k in b && x in b[k]
    ensures x in b
  {
    hide Rank, StatefulReplacements, PairsExact;
  }

  lemma NotItself(ctx: Context, k: StepKey)
    ensures !ComesAfter(ctx, k, k)
  {
  }

  // --- what that means for one change --------------------------------------------------------------

  lemma ComesBefore(ctx: Context, d: Drafts, names: Naming, k: StepKey, x: StepKey)
    requires ValidContext(ctx) && Generated(ctx, d) && Distinct(names)
    requires Planned(ctx, k) && Planned(ctx, x) && (Follows(ctx, k, x) || ComesAfter(ctx, k, x))
    ensures k in d && x in d && Before(d, names, x, k)
  {
    hide Planned, Follows, ComesAfter, Generated, Before, Good, ValidContext;
    PlanExactly(ctx, d, k, x);
    PlanExactly(ctx, d, x, k);
    GeneratedGood(ctx, d);
    BeforeDirect(ctx, d, names, x, k);
  }

  /**
   * An element changed where it is, because blue/green does not cover it, is configured and then verified: a node
   * whose data stay, or a connection that keeps its route.
   */
  lemma AdjustedThenVerified(ctx: Context, d: Drafts, names: Naming, c: Change)
    requires ValidContext(ctx) && Generated(ctx, d) && Distinct(names) && c in ctx.changes && c.kind.Modified?
    requires !(c.element.ConnectionElement? && c.reroutes) && !(c.element.NodeElement? && c.stateful && c.moves)
    requires !(ctx.strategy.pattern == BlueGreen && c.id in ctx.strategy.subjects)
    ensures Configure(c.id) in d && Verify(c.id) in d && Before(d, names, Configure(c.id), Verify(c.id))
  {
    hide Generated, Before, ValidContext, MovesData;
    assert Stays(ctx, c, c.id) && !TakesAnotherRoute(c);
    ComesBefore(ctx, d, names, Verify(c.id), Configure(c.id));
  }

  /** A connection added is provisioned and then verified; it is not configured. */
  lemma ConnectedThenVerified(ctx: Context, d: Drafts, names: Naming, c: Change)
    requires ValidContext(ctx) && Generated(ctx, d) && Distinct(names)
    requires c in ctx.changes && c.kind.Added? && c.element.ConnectionElement?
    ensures Provision(c.id) in d && Verify(c.id) in d && Before(d, names, Provision(c.id), Verify(c.id))
    ensures Configure(c.id) !in d
  {
    hide Generated, Before, ValidContext, MovesData;
    assert Changes(ctx, c, ConnectionElement, Added, c.id);
    ComesBefore(ctx, d, names, Verify(c.id), Provision(c.id));
    PlanExactly(ctx, d, Configure(c.id), Configure(c.id));
    ChangeTold(ctx, c);
  }

  /** Such an element is rolled out beside itself exactly when the strategy is blue/green and covers it. */
  lemma GreenExactly(ctx: Context, d: Drafts, c: Change)
    requires ValidContext(ctx) && Generated(ctx, d) && c in ctx.changes && c.kind.Modified?
    requires !(c.element.ConnectionElement? && c.reroutes) && !(c.element.NodeElement? && c.stateful && c.moves)
    ensures var green := ctx.strategy.pattern == BlueGreen && c.id in ctx.strategy.subjects;
            && (ProvisionGreen(c.id) in d <==> green) && (VerifyGreen(c.id) in d <==> green)
            && (Cutover(c.id) in d <==> green) && (DecommissionBlue(c.id) in d <==> green)
            && (Configure(c.id) in d <==> !green)
  {
    hide Generated, ValidContext, MovesData, StatefulReplacements;
    ChangeTold(ctx, c);
    StaysExactly(ctx, c);
    MoveIs(ctx, c.id);
    assert Stays(ctx, c, c.id);
    if c.id in StatefulReplacements(ctx) {
      MovesOnly(ctx, c.id);
    }
    var e := c.id;
    PlanExactly(ctx, d, ProvisionGreen(e), Verify(e));
    PlanExactly(ctx, d, VerifyGreen(e), Verify(e));
    PlanExactly(ctx, d, Cutover(e), Verify(e));
    PlanExactly(ctx, d, DecommissionBlue(e), Verify(e));
    PlanExactly(ctx, d, Configure(e), Verify(e));
  }

  /** A store's data are replicated exactly when the strategy is replication and covers its replacement, else copied. */
  lemma ReplicatesExactly(ctx: Context, d: Drafts, o: Id, n: Id)
    requires ValidContext(ctx) && Generated(ctx, d) && MovesData(ctx, o, n)
    ensures var replicated := ctx.strategy.pattern == ReplicationCutover && n in ctx.strategy.subjects;
            && (Replicate(o) in d <==> replicated) && (Freeze(o) in d <==> !replicated)
            && Backfill(o) in d && forall x :: x in d[Backfill(o)] <==> x == if replicated then Replicate(o)
                else Freeze(o)
  {
    hide Generated, ValidContext, MovesData, StatefulReplacements;
    MovesExactly(ctx, o, n);
    MoveIs(ctx, o);
    PlanExactly(ctx, d, Replicate(o), Backfill(o));
    PlanExactly(ctx, d, Freeze(o), Backfill(o));
    PlanExactly(ctx, d, Backfill(o), Backfill(o));
    forall x
      ensures x in d[Backfill(o)] <==> x == if Replicates(ctx, n) then Replicate(o) else Freeze(o)
    {
      PlanExactly(ctx, d, Backfill(o), x);
    }
  }

  /** The data of a store that stays are moved exactly when it changes technology, and then to itself. */
  lemma MovesInPlaceExactly(ctx: Context, d: Drafts, c: Change)
    requires ValidContext(ctx) && Generated(ctx, d)
    requires c in ctx.changes && c.kind.Modified? && c.element.NodeElement? && c.stateful
    ensures (Backfill(c.id) in d <==> c.moves) && (ProvisionTarget(c.id) in d <==> c.moves)
    ensures (DecommissionSource(c.id) in d <==> c.moves) && (Configure(c.id) in d ==> !c.moves)
  {
    hide Generated, ValidContext, MovesData, StatefulReplacements;
    var e := c.id;
    ChangeTold(ctx, c);
    StaysExactly(ctx, c);
    MoveIs(ctx, e);
    if e in StatefulReplacements(ctx) {
      MovesOnly(ctx, e);
      assert !Stays(ctx, c, e);
    }
    if c.moves {
      assert IsStore(ctx, c, Modified, e);
      MovedToItself(ctx, c);
    }
    PlanExactly(ctx, d, Backfill(e), Verify(e));
    PlanExactly(ctx, d, ProvisionTarget(e), Verify(e));
    PlanExactly(ctx, d, DecommissionSource(e), Verify(e));
    PlanExactly(ctx, d, Configure(e), Verify(e));
  }

  lemma MovedToItself(ctx: Context, c: Change)
    requires IsStore(ctx, c, Modified, c.id) && c.moves
    ensures MovesData(ctx, c.id, c.id)
  {
  }
}
