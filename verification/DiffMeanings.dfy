/** What each entry of a diff says of the two architectures, and what the edits of a run are reported as. */
module DiffMeanings {
  import opened Options
  import opened Reachability
  import opened Serialization
  import opened FieldPaths
  import opened Diff
  import Commands
  import Facts = CommandFacts
  import Meanings = CommandMeanings

  /** The values a record holds at a path before and after, and whether they are different. */
  ghost predicate DiffersAt(l: Listing, was: Record, now: Record, path: string) {
    !Matches(Get(Leaves(l, was, "", false), path), Get(Leaves(l, now, "", false), path))
  }

  /** The fields are the paths with different values, the one of the id apart, each with the old and the new value. */
  ghost predicate TellsFields(l: Listing, was: Record, now: Record, own: set<string>,
      fields: map<string, FieldChange>) {
    && (forall p :: p in fields <==> p !in own && DiffersAt(l, was, now, p))
    && forall p :: p in fields ==>
         fields[p].before == Get(Leaves(l, was, "", false), p) && fields[p].after == Get(Leaves(l, now, "", false), p)
  }

  /** What one list of a diff says of the elements `a` had and `b` has. */
  ghost predicate Tells(l: Listing, a: map<Id, Record>, b: map<Id, Record>, own: string, changes: seq<ElementChange>) {
    && (forall id :: Added(id) in changes <==> id in b && id !in a)
    && (forall id :: Removed(id) in changes <==> id in a && id !in b)
    && (forall id :: (exists fields :: Modified(id, fields) in changes) <==>
          id in a && id in b && exists p :: p != own && DiffersAt(l, a[id], b[id], p))
    && (forall id, fields :: Modified(id, fields) in changes ==>
          id in a && id in b && TellsFields(l, a[id], b[id], {own}, fields))
    && forall i, j :: 0 <= i < j < |changes| ==> changes[i].id < changes[j].id
  }

  lemma FieldsTold(l: Listing, was: Record, now: Record, own: set<string>)
    ensures TellsFields(l, was, now, own,
                FieldChanges(Leaves(l, was, "", false), Leaves(l, now, "", false), own))
  {
    hide Leaves;
    var a, b := Leaves(l, was, "", false), Leaves(l, now, "", false);
    forall p
      ensures p in FieldChanges(a, b, own) <==> p !in own && DiffersAt(l, was, now, p)
    {
    }
  }

  /** One id of one list. */
  lemma ElementTold(l: Listing, a: map<Id, Record>, b: map<Id, Record>, own: string, changes: seq<ElementChange>,
      id: Id)
    requires Reports(l, a, b, {own}, a.Keys + b.Keys, changes)
    ensures Added(id) in changes <==> id in b && id !in a
    ensures Removed(id) in changes <==> id in a && id !in b
    ensures (exists fields :: Modified(id, fields) in changes) <==>
            id in a && id in b && exists p :: p != own && DiffersAt(l, a[id], b[id], p)
    ensures forall fields :: Modified(id, fields) in changes ==>
              id in a && id in b && TellsFields(l, a[id], b[id], {own}, fields)
  {
    hide Leaves, FieldChanges, TellsFields, DiffersAt;
    Listed(l, a, b, own, changes, id);
    if id in a && id in b {
      FieldsTold(l, a[id], b[id], {own});
      var fields := FieldChanges(Leaves(l, a[id], "", false), Leaves(l, b[id], "", false), {own});
      Changed(l, a[id], b[id], own, fields);
      assert fields != map[] ==> Modified(id, fields) in changes;
    }
  }

  /** An entry about the id is what is reported of it. */
  lemma Listed(l: Listing, a: map<Id, Record>, b: map<Id, Record>, own: string, changes: seq<ElementChange>, id: Id)
    requires Reports(l, a, b, {own}, a.Keys + b.Keys, changes)
    ensures forall c: ElementChange :: c.id == id ==> (c in changes <==> ChangeOf(l, a, b, {own}, id) == Some(c))
  {
    hide Leaves, FieldChanges;
  }

  lemma Changed(l: Listing, was: Record, now: Record, own: string, fields: map<string, FieldChange>)
    requires TellsFields(l, was, now, {own}, fields)
    ensures fields != map[] <==> exists p :: p != own && DiffersAt(l, was, now, p)
  {
    hide Leaves, DiffersAt;
    if fields != map[] {
      var p :| p in fields;
    }
  }

  /**
   * An element is reported added exactly when only the second architecture has it, removed exactly when only the
   * first has, and modified exactly when both do and a field other than its id differs; the fields reported are those
   * that differ, with both values. So is every field of the architecture itself.
   */
  lemma DiffMeans(l: Listing, a: Document, b: Document, d: ArchitectureDiff)
    requires IsDiff(l, a, b, d)
    ensures Tells(l, a.nodes, b.nodes, "id", d.nodes)
    ensures Tells(l, a.connections, b.connections, "id", d.connections)
    ensures Tells(l, a.assumptions, b.assumptions, "id", d.assumptions)
    ensures Tells(l, a.decisions, b.decisions, "decision_id", d.decisions)
    ensures TellsFields(l, a.header, b.header, {}, d.architecture)
  {
    hide Reports, Leaves, FieldChanges, Tells, TellsFields;
    ListTold(l, a.nodes, b.nodes, "id", d.nodes);
    ListTold(l, a.connections, b.connections, "id", d.connections);
    ListTold(l, a.assumptions, b.assumptions, "id", d.assumptions);
    ListTold(l, a.decisions, b.decisions, "decision_id", d.decisions);
    FieldsTold(l, a.header, b.header, {});
  }

  lemma ListTold(l: Listing, a: map<Id, Record>, b: map<Id, Record>, own: string, changes: seq<ElementChange>)
    requires Reports(l, a, b, {own}, a.Keys + b.Keys, changes)
    ensures Tells(l, a, b, own, changes)
  {
    hide Leaves, ChangeOf, TellsFields, DiffersAt;
    forall id
      ensures Added(id) in changes <==> id in b && id !in a
      ensures Removed(id) in changes <==> id in a && id !in b
      ensures (exists fields :: Modified(id, fields) in changes) <==>
              id in a && id in b && exists p :: p != own && DiffersAt(l, a[id], b[id], p)
    {
      ElementTold(l, a, b, own, changes, id);
    }
    forall id, fields | Modified(id, fields) in changes
      ensures id in a && id in b && TellsFields(l, a[id], b[id], {own}, fields)
    {
      ElementTold(l, a, b, own, changes, id);
    }
  }

  // --- the edits of a run --------------------------------------------------------------------------

  function DocumentOf(s: Commands.State, w: Writer): Document {
    Document(w.header(s.header), Written(s.nodes, w.node), Written(s.connections, w.connection),
      Written(s.assumptions, w.assumption), Written(s.decisions, w.decision))
  }

  /** The diff of an architecture and what a run of commands makes of it. */
  ghost predicate DiffOfRun(l: Listing, s: Commands.State, commands: seq<Commands.Command>, stamp: Option<Id>,
      w: Writer, d: ArchitectureDiff) {
    && Facts.Run(s, commands, stamp).Applied?
    && IsDiff(l, DocumentOf(s, w), DocumentOf(Facts.Run(s, commands, stamp).state, w), d)
  }

  lemma LastCommand(s: Commands.State, front: seq<Commands.Command>, c: Commands.Command, stamp: Option<Id>)
    requires Facts.Run(s, front + [c], stamp).Applied?
    ensures Facts.Run(s, front, stamp).Applied?
  {
    hide Commands.Apply;
    assert (front + [c])[..|front|] == front;
  }

  /** A node a run ends by adding is reported added, unless the architecture had a node of that id to begin with. */
  lemma AddedNodeReported(l: Listing, s: Commands.State, front: seq<Commands.Command>, stamp: Option<Id>, w: Writer,
      d: ArchitectureDiff, id: Id, node: Commands.Node)
    requires DiffOfRun(l, s, front + [Commands.AddNode(id, node)], stamp, w, d)
    ensures (Added(id) in d.nodes <==> id !in s.nodes) && Removed(id) !in d.nodes
  {
    hide Facts.Run, Leaves, Reports, IsDiff;
    LastCommand(s, front, Commands.AddNode(id, node), stamp);
    var b := Facts.Run(s, front, stamp).state;
    Meanings.AddNodeMeans(s, front, stamp, b, id, node);
    DiffMeans(l, DocumentOf(s, w), DocumentOf(Facts.Run(s, front + [Commands.AddNode(id, node)], stamp).state, w), d);
  }

  lemma AddedConnectionReported(l: Listing, s: Commands.State, front: seq<Commands.Command>, stamp: Option<Id>,
      w: Writer, d: ArchitectureDiff, id: Id, connection: Commands.Connection)
    requires DiffOfRun(l, s, front + [Commands.AddConnection(id, connection)], stamp, w, d)
    ensures (Added(id) in d.connections <==> id !in s.connections) && Removed(id) !in d.connections
  {
    hide Facts.Run, Leaves, Reports, IsDiff;
    var c := Commands.AddConnection(id, connection);
    LastCommand(s, front, c, stamp);
    var b := Facts.Run(s, front, stamp).state;
    Meanings.AddConnectionMeans(s, front, stamp, b, id, connection);
    DiffMeans(l, DocumentOf(s, w), DocumentOf(Facts.Run(s, front + [c], stamp).state, w), d);
  }

  /**
   * Nodes a run ends by removing are reported removed, if the architecture had them, and so are the connections it
   * had that end at one of them now.
   */
  lemma RemovedNodesReported(l: Listing, s: Commands.State, front: seq<Commands.Command>, stamp: Option<Id>, w: Writer,
      d: ArchitectureDiff, ids: seq<Id>)
    requires DiffOfRun(l, s, front + [Commands.RemoveNodes(ids)], stamp, w, d)
    ensures forall i :: i in ids ==> (Removed(i) in d.nodes <==> i in s.nodes) && Added(i) !in d.nodes
    ensures forall c :: Meanings.Ends(Facts.Run(s, front, stamp).state, c, ids) ==>
              (Removed(c) in d.connections <==> c in s.connections) && Added(c) !in d.connections
  {
    hide Facts.Run, Leaves, Reports, IsDiff;
    var c := Commands.RemoveNodes(ids);
    LastCommand(s, front, c, stamp);
    var b := Facts.Run(s, front, stamp).state;
    Meanings.RemoveNodesMeans(s, front, stamp, b, ids);
    DiffMeans(l, DocumentOf(s, w), DocumentOf(Facts.Run(s, front + [c], stamp).state, w), d);
  }

  lemma RemovedConnectionsReported(l: Listing, s: Commands.State, front: seq<Commands.Command>, stamp: Option<Id>,
      w: Writer, d: ArchitectureDiff, ids: seq<Id>)
    requires DiffOfRun(l, s, front + [Commands.RemoveConnections(ids)], stamp, w, d)
    ensures forall i :: i in ids ==> (Removed(i) in d.connections <==> i in s.connections) && Added(i) !in d.connections
  {
    hide Facts.Run, Leaves, Reports, IsDiff;
    var c := Commands.RemoveConnections(ids);
    LastCommand(s, front, c, stamp);
    var b := Facts.Run(s, front, stamp).state;
    Meanings.RemoveConnectionsMeans(s, front, stamp, b, ids);
    DiffMeans(l, DocumentOf(s, w), DocumentOf(Facts.Run(s, front + [c], stamp).state, w), d);
  }
}
