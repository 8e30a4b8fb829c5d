/** The steps of a migration plan: what a plan is made from, and the drafts its generator keeps by key. */
module Plan {
  import opened Reachability

  // --- what a plan is made from --------------------------------------------------------------------

  datatype Ends = Ends(source: Id, target: Id)

  datatype Architecture = Architecture(nodes: set<Id>, connections: map<Id, Ends>)

  /** Ids are unique across nodes and connections; a connection joins two different nodes. */
  ghost predicate ValidArchitecture(a: Architecture) {
    && a.nodes !! a.connections.Keys
    && forall c :: c in a.connections ==>
         a.connections[c].source in a.nodes && a.connections[c].target in a.nodes
         && a.connections[c].source != a.connections[c].target
  }

  datatype ElementType = NodeElement | ConnectionElement

  datatype ChangeKind = Added | Removed | Modified

  /**
   * A change a pattern can plan. `moves` is the technology aspect, `reroutes` the routing or protocol
   * aspect; `nodeKind` and `stateful` are a node's.
   */
  datatype Change = Change(
    element: ElementType, id: Id, kind: ChangeKind, nodeKind: int, stateful: bool, moves: bool, reroutes: bool)

  datatype Pattern = InPlace | Rolling | BlueGreen | ReplicationCutover

  /** The strategy the plan follows, with the elements it covers; `InPlace` covers none specially. */
  datatype Strategy = Strategy(pattern: Pattern, subjects: set<Id>)

  datatype Context = Context(source: Architecture, target: Architecture, changes: seq<Change>, strategy: Strategy)

  ghost predicate Has(a: Architecture, element: ElementType, id: Id) {
    if element.NodeElement? then id in a.nodes else id in a.connections
  }

  /** The plannable changes as the diff of two valid architectures gives them, in any order. */
  ghost predicate ValidContext(ctx: Context) {
    && ValidArchitecture(ctx.source) && ValidArchitecture(ctx.target)
    && (forall c :: c in ctx.changes ==> DiffSays(ctx, c))
    && forall i, j :: 0 <= i < j < |ctx.changes| ==>
         !(ctx.changes[i].element == ctx.changes[j].element && ctx.changes[i].id == ctx.changes[j].id)
  }

  ghost predicate DiffSays(ctx: Context, c: Change) {
    && (Has(ctx.source, c.element, c.id) <==> !c.kind.Added?)
    && (Has(ctx.target, c.element, c.id) <==> !c.kind.Removed?)
    && (c.stateful ==> c.element.NodeElement?)
  }

  predicate Covered(ctx: Context, pattern: Pattern, id: Id) {
    ctx.strategy.pattern == pattern && id in ctx.strategy.subjects
  }

  // --- stateful replacements -----------------------------------------------------------------------

  predicate StatefulNode(c: Change, kind: ChangeKind) {
    c.element.NodeElement? && c.stateful && c.kind == kind
  }

  /** The stateful nodes of one kind added, as the changes list them. */
  function AddedOfKind(changes: seq<Change>, nodeKind: int): (ids: seq<Id>)
    ensures forall i :: i in ids ==>
            exists c :: c in changes && StatefulNode(c, Added) && c.nodeKind == nodeKind && c.id == i
    ensures forall c :: c in changes && StatefulNode(c, Added) && c.nodeKind == nodeKind ==> c.id in ids
  {
    if changes == [] then []
    else
      var c := changes[0];
      var rest := AddedOfKind(changes[1..], nodeKind);
      assert changes == [c] + changes[1..];
      if StatefulNode(c, Added) && c.nodeKind == nodeKind then [c.id] + rest else rest
  }

  /** What one change has its data moved to, if its data must move. */
  function Replacement(changes: seq<Change>, c: Change): (r: seq<Id>)
    ensures |r| <= 1
  {
    if StatefulNode(c, Modified) && c.moves then [c.id]
    else if StatefulNode(c, Removed) && |AddedOfKind(changes, c.nodeKind)| == 1 then AddedOfKind(changes, c.nodeKind)
    else []
  }

  /**
   * (source node, target node) pairs whose data must move, by source node: a stateful node changing
   * technology, or one removed while exactly one of its kind is added.
   */
  function Pairs(changes: seq<Change>, among: seq<Change>): (m: map<Id, Id>)
    ensures forall o :: o in m ==> exists c :: c in among && Replacement(changes, c) == [m[o]] && c.id == o
  {
    if among == [] then map[]
    else
      var last := |among| - 1;
      var m := Pairs(changes, among[..last]);
      var r := Replacement(changes, among[last]);
      assert among == among[..last] + [among[last]];
      if r == [] then m else m[among[last].id := r[0]]
  }

  function StatefulReplacements(ctx: Context): map<Id, Id> {
    Pairs(ctx.changes, ctx.changes)
  }

  predicate Replaced(ctx: Context, id: Id) {
    id in StatefulReplacements(ctx) || id in StatefulReplacements(ctx).Values
  }

  // --- steps ---------------------------------------------------------------------------------------

  /** A step's key: which rule gives it, and the element it concerns. */
  datatype StepKey =
    | Provision(e: Id) | Configure(e: Id) | Verify(e: Id)
    | ProvisionGreen(e: Id) | VerifyGreen(e: Id) | Cutover(e: Id) | DecommissionBlue(e: Id)
    | Prepare(e: Id)
    | ProvisionTarget(e: Id) | Replicate(e: Id) | Freeze(e: Id) | Backfill(e: Id)
    | VerifyConsistency(e: Id) | VerifyTraffic(e: Id) | DecommissionSource(e: Id)
    | VerifyUnused(e: Id) | Decommission(e: Id)

  /** The drafts by key, each with the keys it comes after. */
  type Drafts = map<StepKey, seq<StepKey>>

  /** `on` without the keys that are not drafted and `key` itself. */
  function Existing(d: Drafts, key: StepKey, on: seq<StepKey>): (r: seq<StepKey>)
    ensures forall k :: k in r <==> k in on && k in d && k != key
  {
    if on == [] then []
    else
      assert on == [on[0]] + on[1..];
      var rest := Existing(d, key, on[1..]);
      if on[0] in d && on[0] != key then [on[0]] + rest else rest
  }

  function Extended(d: Drafts, key: StepKey, on: seq<StepKey>): Drafts {
    if key in d then d[key := d[key] + Existing(d, key, on)] else d
  }

  /** The steps of one plan, by key. */
  class Steps {
    var drafts: Drafts

    constructor ()
      ensures drafts == map[]
    {
      drafts := map[];
    }

    /** A draft under the key, in place of any drafted under it before. */
    method Add(key: StepKey, after: seq<StepKey>)
      modifies this
      ensures drafts == old(drafts)[key := after]
    {
      drafts := drafts[key := after];
    }

    /** `key` waits for every step of `on` that exists. */
    method Depend(key: StepKey, on: seq<StepKey>)
      modifies this
      ensures drafts == Extended(old(drafts), key, on)
    {
      if key in drafts {
        drafts := drafts[key := drafts[key] + Existing(drafts, key, on)];
      }
    }
  }
}
