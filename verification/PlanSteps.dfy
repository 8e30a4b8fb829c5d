/** The steps each rule of the generator drafts, and that each keeps the plan sound. */
module PlanSteps {
  import opened Reachability
  import opened Plan
  import opened PlanRank

  // --- the drafts of each rule ---------------------------------------------------------------------

  function ProvisionDrafts(c: Change): Drafts {
    if c.element.ConnectionElement? then map[Provision(c.id) := [], Verify(c.id) := [Provision(c.id)]]
    else map[Provision(c.id) := [], Configure(c.id) := [Provision(c.id)], Verify(c.id) := [Configure(c.id)]]
  }

  function BlueGreenDrafts(c: Change): Drafts {
    map[ProvisionGreen(c.id) := [], VerifyGreen(c.id) := [ProvisionGreen(c.id)],
        Cutover(c.id) := [VerifyGreen(c.id)], Verify(c.id) := [Cutover(c.id)],
        DecommissionBlue(c.id) := [Verify(c.id)]]
  }

  function ReconfigureDrafts(ctx: Context, c: Change): Drafts {
    if Covered(ctx, BlueGreen, c.id) then BlueGreenDrafts(c)
    else map[Configure(c.id) := [], Verify(c.id) := [Configure(c.id)]]
  }

  function RerouteDrafts(c: Change): Drafts {
    map[Prepare(c.id) := [], Cutover(c.id) := [Prepare(c.id)], Verify(c.id) := [Cutover(c.id)]]
  }

  function DecommissionDrafts(c: Change): Drafts {
    map[VerifyUnused(c.id) := [], Decommission(c.id) := [VerifyUnused(c.id)]]
  }

  function ReplaceDrafts(ctx: Context, o: Id, n: Id): Drafts {
    var started := (if o == n then map[ProvisionTarget(n) := []] else map[])[Start(ctx, o, n) := [Ready(o, n)]];
    CutOverDrafts(started[Backfill(o) := [Start(ctx, o, n)]], o, n)
  }

  function CutOverDrafts(m: Drafts, o: Id, n: Id): Drafts {
    var switched :=
      m[VerifyConsistency(o) := [Backfill(o)]][Cutover(o) := [VerifyConsistency(o)]][VerifyTraffic(n) := [Cutover(o)]];
    if o == n then switched[DecommissionSource(o) := [VerifyTraffic(n)]] else switched
  }

  // --- what a change drafts ------------------------------------------------------------------------

  function ChangeDrafts(ctx: Context, c: Change): Drafts {
    if Skipped(ctx, c) then map[]
    else if c.kind.Added? then ProvisionDrafts(c)
    else if c.kind.Removed? then DecommissionDrafts(c)
    else if IsReroute(c) then RerouteDrafts(c)
    else ReconfigureDrafts(ctx, c)
  }

  /** The verifications a rerouted connection's preparation asks for. */
  function RouteEnds(ctx: Context, c: Change): seq<StepKey> {
    if c.id in ctx.target.connections then
      [Verify(ctx.target.connections[c.id].target), Verify(ctx.target.connections[c.id].source)]
    else []
  }

  function AfterChange(ctx: Context, d: Drafts, c: Change): Drafts {
    if !Skipped(ctx, c) && IsReroute(c) then Extended(d + RerouteDrafts(c), Prepare(c.id), RouteEnds(ctx, c))
    else d + ChangeDrafts(ctx, c)
  }

  /** The id of a change that stays is not a node added, and not a store replaced unless the change is skipped. */
  lemma ModifiedApart(ctx: Context, c: Change)
    requires ValidContext(ctx) && c in ctx.changes && c.kind.Modified?
    ensures !IsAdded(ctx, c.id)
    ensures c.id in StatefulReplacements(ctx) ==> Skipped(ctx, c)
  {
    assert DiffSays(ctx, c);
    if c.id in StatefulReplacements(ctx) {
      PairNodes(ctx, c.id);
    }
  }

  /** Two changes of one id that both leave something in the target are one change. */
  lemma OneChange(ctx: Context, c: Change, b: Change)
    requires ValidContext(ctx) && c in ctx.changes && b in ctx.changes && c.id == b.id && !c.kind.Removed?
    requires !b.kind.Removed?
    ensures c == b
  {
    assert DiffSays(ctx, c) && DiffSays(ctx, b);
    var i :| 0 <= i < |ctx.changes| && ctx.changes[i] == c;
    var j :| 0 <= j < |ctx.changes| && ctx.changes[j] == b;
  }

  lemma SwitchIs(ctx: Context, c: Change)
    requires ValidContext(ctx) && c in ctx.changes && !c.kind.Removed?
    ensures forall b :: SwitchOf(ctx, c.id, b) ==> b == c
  {
    hide Skipped, IsReroute, Covered;
    forall b | SwitchOf(ctx, c.id, b)
      ensures b == c
    {
      OneChange(ctx, c, b);
    }
  }

  lemma ProvisionGood(ctx: Context, d: Drafts, c: Change)
    requires ValidContext(ctx) && c in ctx.changes && c.kind.Added? && Good(ctx, d)
    ensures Good(ctx, d + ProvisionDrafts(c))
  {
    hide StatefulReplacements, Skipped, Covered;
    assert DiffSays(ctx, c);
    SwitchIs(ctx, c);
    assert c.element.ConnectionElement? ==> !IsAdded(ctx, c.id);
    Merge(ctx, d, ProvisionDrafts(c));
  }

  lemma ReconfigureGood(ctx: Context, d: Drafts, c: Change)
    requires ValidContext(ctx) && c in ctx.changes && c.kind.Modified? && !Skipped(ctx, c) && !IsReroute(c)
    requires Good(ctx, d)
    ensures Good(ctx, d + ReconfigureDrafts(ctx, c))
  {
    hide StatefulReplacements, IsAdded, Skipped, IsReroute;
    ModifiedApart(ctx, c);
    SwitchIs(ctx, c);
    Merge(ctx, d, ReconfigureDrafts(ctx, c));
  }

  lemma RerouteChange(ctx: Context, c: Change)
    requires ValidContext(ctx) && c in ctx.changes && IsReroute(c)
    ensures c.id in ctx.target.connections && c.id !in StatefulReplacements(ctx) && !Skipped(ctx, c)
    ensures ctx.target.connections[c.id].source in ctx.target.nodes
    ensures ctx.target.connections[c.id].target in ctx.target.nodes
    ensures ctx.target.connections.Keys !! ctx.target.nodes
  {
    hide StatefulReplacements;
    assert DiffSays(ctx, c);
    ModifiedApart(ctx, c);
  }

  lemma RerouteKeeps(ctx: Context, c: Change, k: StepKey, x: StepKey)
    requires ValidContext(ctx) && c in ctx.changes && IsReroute(c) && k in RerouteDrafts(c) && Essential(ctx, k, x)
    ensures x in RerouteDrafts(c)[k]
  {
    hide StatefulReplacements, IsAdded, Skipped, ValidContext, SwitchOf;
    ModifiedApart(ctx, c);
    RerouteChange(ctx, c);
    SwitchIs(ctx, c);
  }

  lemma RerouteGood(ctx: Context, d: Drafts, c: Change)
    requires ValidContext(ctx) && c in ctx.changes && IsReroute(c) && Good(ctx, d)
    ensures Good(ctx, AfterChange(ctx, d, c))
  {
    hide StatefulReplacements, IsAdded, Skipped, Essential, Good, ValidContext, IsReroute;
    RerouteChange(ctx, c);
    forall k, x | k in RerouteDrafts(c) && Essential(ctx, k, x)
      ensures x in RerouteDrafts(c)[k]
    {
      RerouteKeeps(ctx, c, k, x);
    }
    Merge(ctx, d, RerouteDrafts(c));
    ExtendGood(ctx, d + RerouteDrafts(c), Prepare(c.id), RouteEnds(ctx, c));
  }

  lemma DecommissionGood(ctx: Context, d: Drafts, c: Change)
    requires Good(ctx, d)
    ensures Good(ctx, d + DecommissionDrafts(c))
  {
    Merge(ctx, d, DecommissionDrafts(c));
  }

  lemma AfterChangeGood(ctx: Context, d: Drafts, c: Change)
    requires ValidContext(ctx) && c in ctx.changes && Good(ctx, d)
    ensures Good(ctx, AfterChange(ctx, d, c)) && d.Keys <= AfterChange(ctx, d, c).Keys
  {
    hide Good, Replaced;
    if Skipped(ctx, c) {
      assert d + map[] == d;
    } else if c.kind.Added? {
      ProvisionGood(ctx, d, c);
    } else if c.kind.Removed? {
      DecommissionGood(ctx, d, c);
    } else if IsReroute(c) {
      RerouteGood(ctx, d, c);
    } else {
      ReconfigureGood(ctx, d, c);
    }
  }

  lemma ReplaceSound(ctx: Context, o: Id, n: Id, k: StepKey, x: StepKey)
    requires o in StatefulReplacements(ctx) && n !in ctx.target.connections
    requires k in ReplaceDrafts(ctx, o, n) && x in ReplaceDrafts(ctx, o, n)[k]
    ensures x == Verify(n) || x in ReplaceDrafts(ctx, o, n)
    ensures x == Verify(n) ==> o != n
    ensures Rank(ctx, x) < Rank(ctx, k)
  {
    hide StatefulReplacements, Covered;
  }

  /** A store replaced is not what traffic is switched to by another change. */
  lemma NotSwitched(ctx: Context, o: Id)
    requires ValidContext(ctx) && o in StatefulReplacements(ctx)
    ensures forall c :: !SwitchOf(ctx, o, c)
  {
    hide StatefulReplacements, Covered, IsReroute;
    PairNodes(ctx, o);
    forall c | c in ctx.changes && c.id == o
      ensures !Switches(ctx, c)
    {
      assert DiffSays(ctx, c);
    }
  }

  lemma ReplaceKeeps(ctx: Context, o: Id, n: Id, k: StepKey, x: StepKey)
    requires o in StatefulReplacements(ctx) && StatefulReplacements(ctx)[o] == n && forall c :: !SwitchOf(ctx, o, c)
    requires o != n ==> n !in StatefulReplacements(ctx)
    requires k in ReplaceDrafts(ctx, o, n) && Essential(ctx, k, x)
    ensures x in ReplaceDrafts(ctx, o, n)[k]
  {
    hide StatefulReplacements, Covered, IsAdded, SwitchOf;
  }

  lemma ReplaceGood(ctx: Context, d: Drafts, o: Id)
    requires ValidContext(ctx) && o in StatefulReplacements(ctx) && Good(ctx, d)
    requires var n := StatefulReplacements(ctx)[o]; o != n ==> Verify(n) in d
    ensures Good(ctx, d + ReplaceDrafts(ctx, o, StatefulReplacements(ctx)[o]))
  {
    hide StatefulReplacements, ReplaceDrafts, Rank, Essential, ValidContext;
    PairNodes(ctx, o);
    NotSwitched(ctx, o);
    var n := StatefulReplacements(ctx)[o];
    if n in StatefulReplacements(ctx) {
      PairNodes(ctx, n);
    }
    var more := ReplaceDrafts(ctx, o, n);
    forall k, x | k in more && x in more[k]
      ensures (x in d || x in more) && Rank(ctx, x) < Rank(ctx, k)
    {
      ReplaceSound(ctx, o, n, k, x);
    }
    forall k, x | k in more && Essential(ctx, k, x)
      ensures x in more[k]
    {
      ReplaceKeeps(ctx, o, n, k, x);
    }
    Merge(ctx, d, more);
  }
}
