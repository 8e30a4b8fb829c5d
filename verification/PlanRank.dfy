/** What keeps a plan's dependencies acyclic: every step has a rank above the ranks of the steps it waits for. */
module PlanRank {
  import opened Reachability
  import opened Plan

  // --- pairs ---------------------------------------------------------------------------------------

  /** The change a pair comes from: a technology changed in place, or a removal with its replacement added. */
  lemma PairChange(ctx: Context, o: Id) returns (c: Change)
    requires o in StatefulReplacements(ctx)
    ensures c in ctx.changes && c.id == o && c.element.NodeElement? && !c.kind.Added?
    ensures Replacement(ctx.changes, c) == [StatefulReplacements(ctx)[o]]
    ensures c.kind.Modified? ==> StatefulReplacements(ctx)[o] == o
    ensures c.kind.Removed? ==>
              exists a :: a in ctx.changes && StatefulNode(a, Added) && a.id == StatefulReplacements(ctx)[o]
  {
    c :| c in ctx.changes && Replacement(ctx.changes, c) == [StatefulReplacements(ctx)[o]] && c.id == o;
    assert Replacement(ctx.changes, c)[0] == StatefulReplacements(ctx)[o];
    if c.kind.Removed? {
      assert AddedOfKind(ctx.changes, c.nodeKind)[0] in AddedOfKind(ctx.changes, c.nodeKind);
    }
  }

  /** A pair joins a node of the source to one of the target; it is the same node exactly when it stays. */
  lemma PairNodes(ctx: Context, o: Id)
    requires ValidContext(ctx) && o in StatefulReplacements(ctx)
    ensures o in ctx.source.nodes && StatefulReplacements(ctx)[o] in ctx.target.nodes
    ensures StatefulReplacements(ctx)[o] == o <==> o in ctx.target.nodes
    ensures StatefulReplacements(ctx)[o] != o ==> StatefulReplacements(ctx)[o] !in ctx.source.nodes
    ensures o !in ctx.source.connections && StatefulReplacements(ctx)[o] !in ctx.target.connections
  {
    var c := PairChange(ctx, o);
    if c.kind.Removed? {
      var a :| a in ctx.changes && StatefulNode(a, Added) && a.id == StatefulReplacements(ctx)[o];
    }
  }

  // --- ranks ---------------------------------------------------------------------------------------

  /**
   * Where a step of each shape stands. A step about a connection stands after the verification of nodes,
   * a store's data moves after both, and what is retired comes last: connections, then nodes.
   */
  function Rank(ctx: Context, k: StepKey): nat {
    match k
    case ProvisionGreen(_) => 0
    case ProvisionTarget(_) => 0
    case Provision(e) => if e in ctx.target.connections then 5 else 0
    case Configure(_) => 1
    case VerifyGreen(_) => 1
    case Prepare(_) => 5
    case Cutover(e) => if e in StatefulReplacements(ctx) then 12 else if e in ctx.target.connections then 6 else 2
    case Verify(e) => if e in ctx.target.connections then 7 else 3
    case DecommissionBlue(_) => 8
    case Replicate(_) => 9
    case Freeze(_) => 9
    case Backfill(_) => 10
    case VerifyConsistency(_) => 11
    case VerifyTraffic(_) => 13
    case DecommissionSource(_) => 14
    case VerifyUnused(e) => if e in ctx.source.connections then 13 else 15
    case Decommission(e) => if e in ctx.source.connections then 14 else 16
  }

  /** Every step waits for drafted steps of lower rank only. */
  ghost predicate Sound(ctx: Context, d: Drafts) {
    forall k, x :: k in d && x in d[k] ==> x in d && Rank(ctx, x) < Rank(ctx, k)
  }

  // --- what every draft keeps ----------------------------------------------------------------------

  predicate Replicated(ctx: Context, new_: Id) {
    Covered(ctx, ReplicationCutover, new_)
  }

  /** What the data move from `o` waits for: its replacement ready. */
  function Ready(o: Id, new_: Id): StepKey {
    if o == new_ then ProvisionTarget(new_) else Verify(new_)
  }

  /** The step that starts the data move from `o`. */
  function Start(ctx: Context, o: Id, new_: Id): StepKey {
    if Replicated(ctx, new_) then Replicate(o) else Freeze(o)
  }

  /** A replaced node is carried out with its data move, not with its own change. */
  predicate Skipped(ctx: Context, c: Change) {
    c.element.NodeElement? && Replaced(ctx, c.id)
  }

  predicate IsReroute(c: Change) {
    c.kind.Modified? && c.element.ConnectionElement? && c.reroutes
  }

  /** Traffic is switched to the change: a reroute, or a blue/green rollout. */
  predicate Switches(ctx: Context, c: Change) {
    c.kind.Modified? && !Skipped(ctx, c) && (IsReroute(c) || Covered(ctx, BlueGreen, c.id))
  }

  /** The step traffic waits for before it is switched. */
  function Prepared(c: Change): StepKey {
    if IsReroute(c) then Prepare(c.id) else VerifyGreen(c.id)
  }

  ghost predicate SwitchOf(ctx: Context, id: Id, c: Change) {
    c in ctx.changes && c.id == id && Switches(ctx, c)
  }

  ghost predicate IsAdded(ctx: Context, id: Id) {
    exists c :: c in ctx.changes && c.id == id && c.element.NodeElement? && c.kind.Added?
  }

  /** A dependency that any draft under the key has, whichever rule drafts it and however often. */
  ghost predicate Essential(ctx: Context, k: StepKey, x: StepKey) {
    match k
    case Backfill(o) => o in StatefulReplacements(ctx) && x == Start(ctx, o, StatefulReplacements(ctx)[o])
    case Replicate(o) => o in StatefulReplacements(ctx) && x == Ready(o, StatefulReplacements(ctx)[o])
    case Freeze(o) => o in StatefulReplacements(ctx) && x == Ready(o, StatefulReplacements(ctx)[o])
    case VerifyConsistency(o) => x == Backfill(o)
    case Cutover(o) => (o in StatefulReplacements(ctx) && x == VerifyConsistency(o)) || exists c ::
        SwitchOf(ctx, o, c) && x == Prepared(c)
    case VerifyTraffic(n) => n in StatefulReplacements(ctx) && StatefulReplacements(ctx)[n] == n && x == Cutover(n)
    case DecommissionSource(o) => x == VerifyTraffic(o)
    case Decommission(e) => x == VerifyUnused(e)
    case Configure(e) => IsAdded(ctx, e) && x == Provision(e)
    case Verify(e) => (IsAdded(ctx, e) && x == Configure(e)) || ((exists c :: SwitchOf(ctx, e, c)) && x == Cutover(e))
    case VerifyGreen(e) => x == ProvisionGreen(e)
    case DecommissionBlue(e) => x == Verify(e)
    case _ => false
  }

  ghost predicate Keeps(ctx: Context, d: Drafts) {
    forall k, x :: k in d && Essential(ctx, k, x) ==> x in d[k]
  }

  ghost predicate Good(ctx: Context, d: Drafts) {
    Sound(ctx, d) && Keeps(ctx, d)
  }

  /** `d` with the drafts of `more` in place of its own under the same keys. */
  lemma Merge(ctx: Context, d: Drafts, more: Drafts)
    requires Good(ctx, d) && Keeps(ctx, more)
    requires forall k, x :: k in more && x in more[k] ==> (x in d || x in more) && Rank(ctx, x) < Rank(ctx, k)
    ensures Good(ctx, d + more)
  {
  }

  /** Extending a draft with steps of lower rank keeps everything. */
  lemma ExtendGood(ctx: Context, d: Drafts, key: StepKey, on: seq<StepKey>)
    requires Good(ctx, d)
    requires key in d ==> forall x :: x in on && x in d ==> Rank(ctx, x) < Rank(ctx, key)
    ensures Good(ctx, Extended(d, key, on)) && Extended(d, key, on).Keys == d.Keys
    ensures forall k, x :: k in d && x in d[k] ==> x in Extended(d, key, on)[k]
    ensures forall x :: key in d && x in d && x in on && x != key ==> x in Extended(d, key, on)[key]
  {
    var e := Extended(d, key, on);
    if key in d {
      assert forall x :: x in e[key] <==> x in d[key] || x in Existing(d, key, on);
    }
  }
}
