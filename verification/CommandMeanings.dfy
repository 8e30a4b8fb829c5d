/** What each command does to the architecture it reaches, field by field, and when it is refused instead. */
module CommandMeanings {
  import opened Options
  import opened Reachability
  import opened Commands
  import opened CommandFacts

  /** Nothing but the nodes differs, and of those only the one with that id. */
  ghost predicate OnlyNode(s: State, e: State, id: Id) {
    && e.header == s.header && e.connections == s.connections
    && e.assumptions == s.assumptions && e.decisions == s.decisions
    && forall n :: n != id ==>
         (n in e.nodes <==> n in s.nodes) && (n in s.nodes && n in e.nodes ==> e.nodes[n] == s.nodes[n])
  }

  /** Nothing but the connections differs, and of those only the one with that id. */
  ghost predicate OnlyConnection(s: State, e: State, id: Id) {
    && e.header == s.header && e.nodes == s.nodes
    && e.assumptions == s.assumptions && e.decisions == s.decisions
    && forall c :: c != id ==>
         (c in e.connections <==> c in s.connections)
         && (c in s.connections && c in e.connections ==> e.connections[c] == s.connections[c])
  }

  ghost predicate IsUsed(s: State, id: Id) {
    id in s.nodes || id in s.connections || id in s.assumptions
  }

  /** Where a run is after one command more. */
  lemma RunNext(s: State, front: seq<Command>, c: Command, stamp: Option<Id>)
    requires Run(s, front, stamp).Applied?
    ensures Run(s, front + [c], stamp) == Apply(Run(s, front, stamp).state, c, stamp)
  {
    hide Apply;
    assert (front + [c])[..|front|] == front;
  }

  // --- adding --------------------------------------------------------------------------------------

  /** A node added is held as given, from where it says it comes, or from the edit if it does not say. */
  lemma AddNodeMeans(s: State, front: seq<Command>, stamp: Option<Id>, b: State, id: Id, node: Node)
    requires Run(s, front, stamp) == Applied(b)
    ensures var o := Run(s, front + [AddNode(id, node)], stamp);
            && (o == Refused(DuplicateId) <==> IsUsed(b, id)) && (o.Applied? <==> !IsUsed(b, id))
            && (o.Applied? ==>
                  && OnlyNode(b, o.state, id) && id in o.state.nodes
                  && var n := o.state.nodes[id];
                     && n.name == node.name && n.parent == node.parent && n.settings == node.settings
                     && (node.provenance.Some? ==> n.provenance == node.provenance)
                     && (node.provenance.None? ==> n.provenance == stamp))
  {
    RunNext(s, front, AddNode(id, node), stamp);
  }

  /** So is a connection, between nodes that are there. */
  lemma AddConnectionMeans(s: State, front: seq<Command>, stamp: Option<Id>, b: State, id: Id, connection: Connection)
    requires Run(s, front, stamp) == Applied(b)
    ensures var o := Run(s, front + [AddConnection(id, connection)], stamp);
            var joined := connection.source in b.nodes && connection.target in b.nodes;
            && (o == Refused(DuplicateId) <==> IsUsed(b, id))
            && (o == Refused(UnknownNode) <==> !IsUsed(b, id) && !joined)
            && (o.Applied? <==> !IsUsed(b, id) && joined)
            && (o.Applied? ==>
                  && OnlyConnection(b, o.state, id) && id in o.state.connections
                  && var c := o.state.connections[id];
                     && c.source == connection.source && c.target == connection.target && c.kind == connection.kind
                     && c.settings == connection.settings
                     && (connection.provenance.Some? ==> c.provenance == connection.provenance)
                     && (connection.provenance.None? ==> c.provenance == stamp))
  {
    RunNext(s, front, AddConnection(id, connection), stamp);
  }

  // --- removing ------------------------------------------------------------------------------------

  /** A connection that ends at one of the ids. */
  ghost predicate Ends(s: State, c: Id, ids: seq<Id>) {
    c in s.connections && (s.connections[c].source in ids || s.connections[c].target in ids)
  }

  /** A node left behind under one of the ids. */
  ghost predicate LeftUnder(s: State, n: Id, ids: seq<Id>) {
    n in s.nodes && n !in ids && s.nodes[n].parent.Some? && s.nodes[n].parent.value in ids
  }

  /** Removed nodes are gone with every connection that ended at one; everything else is as it was. */
  lemma RemoveNodesMeans(s: State, front: seq<Command>, stamp: Option<Id>, b: State, ids: seq<Id>)
    requires Run(s, front, stamp) == Applied(b)
    ensures var o := Run(s, front + [RemoveNodes(ids)], stamp);
            var known, inUse := forall i :: i in ids ==> i in b.nodes, exists n :: LeftUnder(b, n, ids);
            && (o == Refused(UnknownNode) <==> !known) && (o == Refused(BoundaryNotEmpty) <==> known && inUse)
            && (o.Applied? <==> known && !inUse)
            && (o.Applied? ==> RemovesNodes(b, o.state, ids))
  {
    hide Run, Apply, LeftUnder, HoldsOthers, WithoutNodes, RemovesNodes;
    RunNext(s, front, RemoveNodes(ids), stamp);
    ApplyRemoveNodes(b, ids, stamp);
    RemovedNodes(b, ids);
    UnderAny(b, ids);
    AllKnown(ids, b.nodes.Keys);
  }

  lemma ApplyRemoveNodes(s: State, ids: seq<Id>, stamp: Option<Id>)
    ensures Apply(s, RemoveNodes(ids), stamp) ==
            if !(Members(ids) <= s.nodes.Keys) then Refused(UnknownNode)
            else if HoldsOthers(s, Members(ids)) then Refused(BoundaryNotEmpty)
            else Applied(WithoutNodes(s, Members(ids)))
  {
  }

  lemma AllKnown(ids: seq<Id>, known: set<Id>)
    ensures Members(ids) <= known <==> forall i :: i in ids ==> i in known
  {
    if forall i :: i in ids ==> i in known {
      SubsetOf(Members(ids), known);
    } else {
      var i :| i in ids && i !in known;
      assert i in Members(ids);
    }
  }

  lemma UnderAny(s: State, ids: seq<Id>)
    ensures HoldsOthers(s, Members(ids)) <==> exists n :: LeftUnder(s, n, ids)
  {
    assert forall i :: i in ids <==> i in Members(ids);
    if HoldsOthers(s, Members(ids)) {
      var n :| n in s.nodes && s.nodes[n].parent.Some? && s.nodes[n].parent.value in Members(ids) && n !in Members(ids);
      assert LeftUnder(s, n, ids);
    }
  }

  lemma RemovedNodes(s: State, ids: seq<Id>)
    ensures RemovesNodes(s, WithoutNodes(s, Members(ids)), ids)
  {
    assert forall i :: i in ids <==> i in Members(ids);
    assert forall c :: c in Attached(s, Members(ids)) <==> Ends(s, c, ids);
  }

  ghost predicate RemovesNodes(s: State, e: State, ids: seq<Id>) {
    && e.header == s.header
    && (forall n :: n in e.nodes <==> n in s.nodes && n !in ids)
    && (forall n :: n in s.nodes && n in e.nodes ==> e.nodes[n] == s.nodes[n])
    && (forall c :: c in e.connections <==> c in s.connections && !Ends(s, c, ids))
    && (forall c :: c in s.connections && c in e.connections ==> e.connections[c] == s.connections[c])
    && (forall a :: a in e.assumptions <==> a in s.assumptions)
    && (forall a, x :: a in s.assumptions && a in e.assumptions ==>
          (x in e.assumptions[a] <==> x in s.assumptions[a] && x !in ids && !Ends(s, x, ids)))
    && (forall d :: d in e.decisions <==> d in s.decisions)
    && (forall d, x :: d in s.decisions && d in e.decisions ==>
          (x in e.decisions[d] <==> x in s.decisions[d] && x !in ids && !Ends(s, x, ids)))
  }

  ghost predicate RemovesConnections(s: State, e: State, ids: seq<Id>) {
    && e.header == s.header && e.nodes == s.nodes
    && (forall c :: c in e.connections <==> c in s.connections && c !in ids)
    && (forall c :: c in s.connections && c in e.connections ==> e.connections[c] == s.connections[c])
    && (forall a :: a in e.assumptions <==> a in s.assumptions)
    && (forall a, x :: a in s.assumptions && a in e.assumptions ==>
          (x in e.assumptions[a] <==> x in s.assumptions[a] && x !in ids))
    && (forall d :: d in e.decisions <==> d in s.decisions)
    && (forall d, x :: d in s.decisions && d in e.decisions ==>
          (x in e.decisions[d] <==> x in s.decisions[d] && x !in ids))
  }

  /** Removed connections are gone, and nothing else; one named twice fails the run. */
  lemma RemoveConnectionsMeans(s: State, front: seq<Command>, stamp: Option<Id>, b: State, ids: seq<Id>)
    requires Run(s, front, stamp) == Applied(b)
    ensures var o := Run(s, front + [RemoveConnections(ids)], stamp);
            var known, once := forall i :: i in ids ==> i in b.connections,
                forall i, j :: 0 <= i < j < |ids| ==> ids[i] != ids[j];
            && (o == Refused(UnknownConnection) <==> !known) && (o == Failed <==> known && !once)
            && (o.Applied? <==> known && once)
            && (o.Applied? ==> RemovesConnections(b, o.state, ids))
  {
    RunNext(s, front, RemoveConnections(ids), stamp);
    AllKnown(ids, b.connections.Keys);
    assert forall i :: i in ids <==> i in Members(ids);
  }

  // --- renaming and configuring --------------------------------------------------------------------

  /** A renamed node has the name, attributed to the edit exactly when it is another name; the rest is as it was. */
  lemma RenameMeans(s: State, front: seq<Command>, stamp: Option<Id>, b: State, id: Id, name: Id)
    requires Run(s, front, stamp) == Applied(b)
    ensures var o := Run(s, front + [RenameNode(id, name)], stamp);
            && (o == Refused(UnknownNode) <==> id !in b.nodes) && (o.Applied? <==> id in b.nodes)
            && (o.Applied? ==>
                  && OnlyNode(b, o.state, id) && id in o.state.nodes
                  && var was, now := b.nodes[id], o.state.nodes[id];
                     && now.name == name && now.parent == was.parent && now.provenance == was.provenance
                     && now.settings.values == was.settings.values && now.settings.unknown == was.settings.unknown
                     && forall f :: StampAt(now.settings, f) ==
                          if f == Own(NAME) && was.name != name && stamp.Some? then stamp else StampAt(was.settings, f))
  {
    RunNext(s, front, RenameNode(id, name), stamp);
  }

  function StampAt(s: Settings, f: Field): Option<Id> {
    if f in s.stamps then Some(s.stamps[f]) else None
  }

  function ValueAt(s: Settings, k: Id): Option<int> {
    if k in s.values then Some(s.values[k]) else None
  }

  /** Setting the property gives it another value, or a value where it was unknown. */
  ghost predicate Sets(s: Settings, values: map<Id, Option<int>>, k: Id) {
    k in values && values[k].Some? && (ValueAt(s, k) != values[k] || k in s.unknown)
  }

  /**
   * The values named are set or cleared, and no longer unknown; a property that really changed is attributed to the
   * edit, what is cleared loses its provenance, and every other field keeps its own.
   */
  ghost predicate Configures(was: Settings, now: Settings, values: map<Id, Option<int>>, stamp: Option<Id>) {
    && (forall k :: ValueAt(now, k) == if k in values then values[k] else ValueAt(was, k))
    && (forall k :: k in now.unknown <==> k in was.unknown && k !in values)
    && (forall f :: StampAt(now, f) ==
          if f.name in values && values[f.name].None? then None
          else if f.Configured? && Sets(was, values, f.name) && stamp.Some? then stamp
          else StampAt(was, f))
  }

  /** Configuring a node does that to its settings, and nothing else. */
  lemma UpdateConfigurationMeans(s: State, front: seq<Command>, stamp: Option<Id>, b: State, id: Id,
      values: map<Id, Option<int>>)
    requires Run(s, front, stamp) == Applied(b)
    ensures var o := Run(s, front + [UpdateConfiguration(id, values)], stamp);
            && (o == Refused(UnknownNode) <==> id !in b.nodes) && (o.Applied? <==> id in b.nodes)
            && (o.Applied? ==>
                  && OnlyNode(b, o.state, id) && id in o.state.nodes
                  && var was, now := b.nodes[id], o.state.nodes[id];
                     && now.name == was.name && now.parent == was.parent && now.provenance == was.provenance
                     && Configures(was.settings, now.settings, values, stamp))
  {
    RunNext(s, front, UpdateConfiguration(id, values), stamp);
    if id in b.nodes {
      ConfiguredSo(b.nodes[id].settings, values, stamp);
    }
  }

  /** Configuring a connection does the same to its settings. */
  lemma UpdateConnectionMeans(s: State, front: seq<Command>, stamp: Option<Id>, b: State, id: Id,
      values: map<Id, Option<int>>)
    requires Run(s, front, stamp) == Applied(b)
    ensures var o := Run(s, front + [UpdateConnectionConfiguration(id, values)], stamp);
            && (o == Refused(UnknownConnection) <==> id !in b.connections) && (o.Applied? <==> id in b.connections)
            && (o.Applied? ==>
                  && OnlyConnection(b, o.state, id) && id in o.state.connections
                  && var was, now := b.connections[id], o.state.connections[id];
                     && now.source == was.source && now.target == was.target && now.kind == was.kind
                     && now.provenance == was.provenance
                     && Configures(was.settings, now.settings, values, stamp))
  {
    RunNext(s, front, UpdateConnectionConfiguration(id, values), stamp);
    if id in b.connections {
      ConfiguredSo(b.connections[id].settings, values, stamp);
    }
  }

  lemma ConfiguredSo(s: Settings, values: map<Id, Option<int>>, stamp: Option<Id>)
    ensures Configures(s, Configure(s, values, stamp), values, stamp)
  {
    var e := Configure(s, values, stamp);
    forall k
      ensures ValueAt(e, k) == if k in values then values[k] else ValueAt(s, k)
    {
      ConfigureMeans(s, values, stamp, k);
    }
    forall f
      ensures StampAt(e, f) ==
              if f.name in values && values[f.name].None? then None
              else if f.Configured? && Sets(s, values, f.name) && stamp.Some? then stamp
              else StampAt(s, f)
    {
      assert ValueAt(s, f.name) == Value(s.values, f.name);
      assert f.name in Changed(s, values) <==> Sets(s, values, f.name);
    }
  }
}
