/** Edits of an architecture, applied in order to a draft, all or nothing. */
module Commands {
  import opened Options
  import opened Reachability

  // --- what is edited ------------------------------------------------------------------------------

  /** A field of the element itself, or a property of its configuration. */
  datatype Field = Own(name: Id) | Configured(name: Id)

  /** The field that holds an element's name. */
  const NAME: Id := 0

  /** Configuration values, the properties declared unknown, and where each field comes from. */
  datatype Settings = Settings(values: map<Id, int>, unknown: set<Id>, stamps: map<Field, Id>)

  datatype Node = Node(name: Id, parent: Option<Id>, settings: Settings, provenance: Option<Id>)

  datatype Connection = Connection(source: Id, target: Id, kind: Id, settings: Settings, provenance: Option<Id>)

  /** What an architecture says of itself. */
  datatype Header = Header(
    name: Id, description: Option<Id>, metadata: map<Id, Id>, provenance: Option<Id>, references: seq<Id>, version: int)

  /** An architecture: its own fields, its nodes and connections, and what each assumption and decision is about. */
  datatype State = State(header: Header,
    nodes: map<Id, Node>, connections: map<Id, Connection>, assumptions: map<Id, set<Id>>, decisions: map<Id, set<Id>>)

  datatype Command =
    | AddNode(id: Id, node: Node)
    | RemoveNodes(ids: seq<Id>)
    | AddConnection(id: Id, connection: Connection)
    | RemoveConnections(ids: seq<Id>)
    | RenameNode(id: Id, name: Id)
    | UpdateConfiguration(id: Id, values: map<Id, Option<int>>)
    | UpdateConnectionConfiguration(id: Id, values: map<Id, Option<int>>)

  datatype Reason = DuplicateId | UnknownNode | UnknownConnection | BoundaryNotEmpty

  /** A command is applied, refused with a reason, or fails on a key no longer there. */
  datatype Outcome = Applied(state: State) | Refused(reason: Reason) | Failed

  function Ids(s: State): set<Id> {
    s.nodes.Keys + s.connections.Keys + s.assumptions.Keys
  }

  function Elements(s: State): set<Id> {
    s.nodes.Keys + s.connections.Keys
  }

  // --- configuring ---------------------------------------------------------------------------------

  function Cleared(values: map<Id, Option<int>>): set<Id> {
    set k | k in values && values[k].None?
  }

  function Value(values: map<Id, int>, k: Id): Option<int> {
    if k in values then Some(values[k]) else None
  }

  /** The properties whose value really changes, or was unknown. */
  function Changed(s: Settings, values: map<Id, Option<int>>): set<Id> {
    set k | k in values && values[k].Some? && (values[k] != Value(s.values, k) || k in s.unknown)
  }

  function Stamped(stamps: map<Field, Id>, names: set<Id>, stamp: Option<Id>): map<Field, Id> {
    if stamp.None? then stamps
    else map f | f in stamps.Keys + (set n | n in names :: Configured(n))
           :: if f.Configured? && f.name in names then stamp.value else if f in stamps then stamps[f] else stamp.value
  }

  /**
   * Values set or cleared; a value that was unknown becomes known; only what really changed is attributed.
   * Clearing a property also drops the provenance of the element's own field of that name, if it has one.
   */
  function Configure(s: Settings, values: map<Id, Option<int>>, stamp: Option<Id>): Settings {
    Settings(
      map k | k in s.values.Keys + values.Keys && k !in Cleared(values)
        :: if k in values && values[k].Some? then values[k].value else if k in s.values then s.values[k] else 0,
      s.unknown - values.Keys,
      Stamped(map f | f in s.stamps && f.name !in Cleared(values) :: s.stamps[f], Changed(s, values), stamp))
  }

  // --- what each command does ----------------------------------------------------------------------

  function Attached(s: State, removed: set<Id>): set<Id> {
    set c | c in s.connections && (s.connections[c].source in removed || s.connections[c].target in removed)
  }

  function Forgotten(about: map<Id, set<Id>>, removed: set<Id>): map<Id, set<Id>> {
    map a | a in about :: about[a] - removed
  }

  predicate HoldsOthers(s: State, removed: set<Id>) {
    exists n :: n in s.nodes && s.nodes[n].parent.Some? && s.nodes[n].parent.value in removed && n !in removed
  }

  function WithoutNodes(s: State, removed: set<Id>): State {
    var attached := Attached(s, removed);
    State(s.header, s.nodes - removed, s.connections - attached,
          Forgotten(s.assumptions, removed + attached), Forgotten(s.decisions, removed + attached))
  }

  function WithoutConnections(s: State, removed: set<Id>): State {
    State(s.header, s.nodes, s.connections - removed, Forgotten(s.assumptions, removed),
        Forgotten(s.decisions, removed))
  }

  predicate Repeats(ids: seq<Id>) {
    exists i, j :: 0 <= i < j < |ids| && ids[i] == ids[j]
  }

  function Named(n: Node, name: Id, stamp: Option<Id>): Node {
    n.(name := name,
       settings := if stamp.Some? && n.name != name then
           n.settings.(stamps := n.settings.stamps[Own(NAME) := stamp.value]) else n.settings)
  }

  function OrStamp(provenance: Option<Id>, stamp: Option<Id>): Option<Id> {
    if provenance.Some? then provenance else stamp
  }

  function Apply(s: State, c: Command, stamp: Option<Id>): Outcome {
    match c
    case AddNode(id, node) =>
      if id in Ids(s) then Refused(DuplicateId)
      else Applied(s.(nodes := s.nodes[id := node.(provenance := OrStamp(node.provenance, stamp))]))
    case RemoveNodes(ids) =>
      if !(Members(ids) <= s.nodes.Keys) then Refused(UnknownNode)
      else if HoldsOthers(s, Members(ids)) then Refused(BoundaryNotEmpty)
      else Applied(WithoutNodes(s, Members(ids)))
    case AddConnection(id, connection) =>
      if id in Ids(s) then Refused(DuplicateId)
      else if connection.source !in s.nodes || connection.target !in s.nodes then Refused(UnknownNode)
      else Applied(s.(connections :=
          s.connections[id := connection.(provenance := OrStamp(connection.provenance, stamp))]))
    case RemoveConnections(ids) =>
      if !(Members(ids) <= s.connections.Keys) then Refused(UnknownConnection)
      else if Repeats(ids) then Failed
      else Applied(WithoutConnections(s, Members(ids)))
    case RenameNode(id, name) =>
      if id !in s.nodes then Refused(UnknownNode)
      else Applied(s.(nodes := s.nodes[id := Named(s.nodes[id], name, stamp)]))
    case UpdateConfiguration(id, values) =>
      if id !in s.nodes then Refused(UnknownNode)
      else Applied(s.(nodes := s.nodes[id := s.nodes[id].(settings := Configure(s.nodes[id].settings, values, stamp))]))
    case UpdateConnectionConfiguration(id, values) =>
      if id !in s.connections then Refused(UnknownConnection)
      else Applied(s.(connections :=
          s.connections[id := s.connections[id].(settings := Configure(s.connections[id].settings, values, stamp))]))
  }

  // --- the draft -----------------------------------------------------------------------------------

  datatype Done = Ok | No(reason: Reason) | KeyError

  /** The architecture being edited, its elements as collections that change. */
  class Draft {
    const edited: State
    var nodes: map<Id, Node>
    var connections: map<Id, Connection>
    var assumptions: map<Id, set<Id>>
    var decisions: map<Id, set<Id>>

    /** The architecture edited, with the draft's elements for its own. */
    function Contents(): State
      reads this
    {
      edited.(nodes := nodes, connections := connections, assumptions := assumptions, decisions := decisions)
    }

    constructor (s: State)
      ensures Contents() == s
    {
      edited := s;
      nodes, connections, assumptions, decisions := s.nodes, s.connections, s.assumptions, s.decisions;
    }

    /** Removed elements dropped from what the assumptions and decisions are about. */
    method Forget(removed: set<Id>)
      modifies this
      ensures nodes == old(nodes) && connections == old(connections)
      ensures assumptions == Forgotten(old(assumptions), removed) && decisions == Forgotten(old(decisions), removed)
    {
      assumptions := map a | a in assumptions :: assumptions[a] - removed;
      decisions := map d | d in decisions :: decisions[d] - removed;
    }

    method RemoveNodeSet(ids: seq<Id>) returns (r: Done)
      modifies this
      ensures Agrees(r, Contents(), old(Contents()), RemoveNodes(ids), None)
    {
      var removed := Members(ids);
      for i := 0 to |ids|
        invariant forall j :: 0 <= j < i ==> ids[j] in nodes
      {
        if ids[i] !in nodes {
          assert ids[i] in Members(ids);
          return No(UnknownNode);
        }
      }
      assert Members(ids) <= nodes.Keys by { AllIn(ids, nodes.Keys); }
      if HoldsOthers(Contents(), removed) {
        return No(BoundaryNotEmpty);
      }
      var attached := Attached(Contents(), removed);
      nodes := nodes - removed;
      connections := connections - attached;
      Forget(removed + attached);
      r := Ok;
    }

    method RemoveConnectionList(ids: seq<Id>) returns (r: Done)
      modifies this
      ensures Agrees(r, Contents(), old(Contents()), RemoveConnections(ids), None)
    {
      ghost var before := connections;
      for i := 0 to |ids|
        invariant forall j :: 0 <= j < i ==> ids[j] in connections
      {
        if ids[i] !in connections {
          assert ids[i] in Members(ids);
          return No(UnknownConnection);
        }
      }
      AllIn(ids, connections.Keys);
      assert before - Members(ids[..0]) == before;
      for i := 0 to |ids|
        invariant nodes == old(nodes) && assumptions == old(assumptions) && decisions == old(decisions)
        invariant connections == before - Members(ids[..i])
        invariant forall j, k :: 0 <= j < k < i ==> ids[j] != ids[k]
      {
        if ids[i] !in connections {
          assert ids[i] in Members(ids[..i]) by { assert ids[i] in Members(ids); }
          var j :| 0 <= j < i && ids[..i][j] == ids[i];
          return KeyError;
        }
        assert forall j :: 0 <= j < i ==> ids[j] in Members(ids[..i]);
        connections := connections - {ids[i]};
        MembersNext(ids, i);
      }
      assert ids[..|ids|] == ids;
      Forget(Members(ids));
      r := Ok;
    }

    /** One command; a refusal or failure leaves a draft that is never used again. */
    method Perform(c: Command, stamp: Option<Id>) returns (r: Done)
      modifies this
      ensures Agrees(r, Contents(), old(Contents()), c, stamp)
    {
      match c
      case AddNode(id, node) =>
        if id in Ids(Contents()) {
          return No(DuplicateId);
        }
        nodes := nodes[id := node.(provenance := OrStamp(node.provenance, stamp))];
        r := Ok;
      case RemoveNodes(ids) =>
        r := RemoveNodeSet(ids);
      case AddConnection(id, connection) =>
        if id in Ids(Contents()) {
          return No(DuplicateId);
        }
        if connection.source !in nodes || connection.target !in nodes {
          return No(UnknownNode);
        }
        connections := connections[id := connection.(provenance := OrStamp(connection.provenance, stamp))];
        r := Ok;
      case RemoveConnections(ids) =>
        r := RemoveConnectionList(ids);
      case RenameNode(id, name) =>
        if id !in nodes {
          return No(UnknownNode);
        }
        nodes := nodes[id := Named(nodes[id], name, stamp)];
        r := Ok;
      case UpdateConfiguration(id, values) =>
        if id !in nodes {
          return No(UnknownNode);
        }
        nodes := nodes[id := nodes[id].(settings := Configure(nodes[id].settings, values, stamp))];
        r := Ok;
      case UpdateConnectionConfiguration(id, values) =>
        if id !in connections {
          return No(UnknownConnection);
        }
        connections := connections[id :=
            connections[id].(settings := Configure(connections[id].settings, values, stamp))];
        r := Ok;
    }
  }

  /** What a method answers and leaves is what the command does. */
  ghost predicate Agrees(r: Done, after: State, before: State, c: Command, stamp: Option<Id>) {
    match Apply(before, c, stamp)
    case Applied(s) => r == Ok && after == s
    case Refused(reason) => r == No(reason)
    case Failed => r == KeyError
  }

  lemma AllIn(ids: seq<Id>, known: set<Id>)
    requires forall j :: 0 <= j < |ids| ==> ids[j] in known
    ensures Members(ids) <= known
  {
  }

  lemma MembersNext(ids: seq<Id>, i: nat)
    requires i < |ids|
    ensures Members(ids[..i + 1]) == Members(ids[..i]) + {ids[i]}
  {
    assert ids[..i + 1] == ids[..i] + [ids[i]];
  }
}
