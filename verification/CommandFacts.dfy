/** What every run of commands keeps, and what it leaves alone. */
module CommandFacts {
  import opened Options
  import opened Reachability
  import opened Commands

  // --- runs ----------------------------------------------------------------------------------------

  /** The commands applied in order; the first that does not apply ends the run. */
  function Run(s: State, commands: seq<Command>, stamp: Option<Id>): Outcome
    decreases |commands|
  {
    if commands == [] then Applied(s)
    else
      var front := Run(s, commands[..|commands| - 1], stamp);
      if front.Applied? then Apply(front.state, commands[|commands| - 1], stamp) else front
  }

  datatype Edit = Edited(state: State) | Empty | TooMany | Stopped(index: int, reason: Reason) | Crashed

  const MAX_COMMANDS := 200

  /** The commands before the `i`-th apply. */
  ghost predicate RunsTo(s: State, commands: seq<Command>, stamp: Option<Id>, i: int) {
    0 <= i < |commands| && Run(s, commands[..i], stamp).Applied?
  }

  /** What the `i`-th command comes to, after those before it. */
  function Fate(s: State, commands: seq<Command>, stamp: Option<Id>, i: int): Outcome
    requires RunsTo(s, commands, stamp, i)
  {
    Apply(Run(s, commands[..i], stamp).state, commands[i], stamp)
  }

  /** The `i`-th command, reached, removes connections that are all there and names one of them twice. */
  ghost predicate RemovesTwice(s: State, commands: seq<Command>, stamp: Option<Id>, i: int) {
    && RunsTo(s, commands, stamp, i) && commands[i].RemoveConnections?
    && Members(commands[i].ids) <= Run(s, commands[..i], stamp).state.connections.Keys && Repeats(commands[i].ids)
  }

  lemma {:induction false} PrefixApplied(s: State, commands: seq<Command>, stamp: Option<Id>, i: int)
    requires Run(s, commands, stamp).Applied? && 0 <= i <= |commands|
    ensures Run(s, commands[..i], stamp).Applied?
    decreases |commands|
  {
    hide Apply;
    if i == |commands| {
      assert commands[..i] == commands;
    } else {
      PrefixApplied(s, commands[..|commands| - 1], stamp, i);
      assert commands[..|commands| - 1][..i] == commands[..i];
    }
  }

  /** A run ends with the fate of the one reached command that does not apply, if any. */
  lemma {:induction false} RunIsFate(s: State, commands: seq<Command>, stamp: Option<Id>, i: int)
    requires RunsTo(s, commands, stamp, i) && !Fate(s, commands, stamp, i).Applied?
    ensures Run(s, commands, stamp) == Fate(s, commands, stamp, i)
    decreases |commands|
  {
    hide Apply;
    var front := commands[..|commands| - 1];
    if i < |commands| - 1 {
      assert front[..i] == commands[..i];
      RunIsFate(s, front, stamp, i);
    }
  }

  lemma {:induction false} FateOfRun(s: State, commands: seq<Command>, stamp: Option<Id>) returns (i: int)
    requires !Run(s, commands, stamp).Applied?
    ensures RunsTo(s, commands, stamp, i) && Run(s, commands, stamp) == Fate(s, commands, stamp, i)
    decreases |commands|
  {
    hide Apply;
    var front := commands[..|commands| - 1];
    if Run(s, front, stamp).Applied? {
      i := |commands| - 1;
    } else {
      i := FateOfRun(s, front, stamp);
      assert front[..i] == commands[..i];
    }
  }

  lemma CommandFails(s: State, c: Command, stamp: Option<Id>)
    ensures Apply(s, c, stamp).Failed? <==>
            c.RemoveConnections? && Members(c.ids) <= s.connections.Keys && Repeats(c.ids)
  {
  }

  /**
   * A run fails, rather than being refused, exactly when some command it reaches removes connections that are
   * all there and names one of them twice.
   */
  lemma RunFailsExactly(s: State, commands: seq<Command>, stamp: Option<Id>)
    ensures Run(s, commands, stamp).Failed? <==> exists i :: RemovesTwice(s, commands, stamp, i)
  {
    hide Apply, Run;
    if Run(s, commands, stamp).Failed? {
      var i := FateOfRun(s, commands, stamp);
      CommandFails(Run(s, commands[..i], stamp).state, commands[i], stamp);
      assert RemovesTwice(s, commands, stamp, i);
    }
    if i :| RemovesTwice(s, commands, stamp, i) {
      CommandFails(Run(s, commands[..i], stamp).state, commands[i], stamp);
      RunIsFate(s, commands, stamp, i);
    }
  }

  method ApplyCommands(s: State, commands: seq<Command>, stamp: Option<Id>) returns (e: Edit)
    ensures e.Empty? <==> commands == []
    ensures e.TooMany? <==> |commands| > MAX_COMMANDS
    ensures e.Edited? <==> 0 < |commands| <= MAX_COMMANDS && Run(s, commands, stamp).Applied?
    ensures e.Edited? ==> Run(s, commands, stamp) == Applied(e.state)
    ensures e.Stopped? ==> RunsTo(s, commands, stamp, e.index) && Fate(s, commands, stamp, e.index) == Refused(e.reason)
    ensures e.Crashed? <==> 0 < |commands| <= MAX_COMMANDS && exists i :: RemovesTwice(s, commands, stamp, i)
  {
    hide Apply, RemovesTwice;
    if commands == [] {
      return Empty;
    }
    if |commands| > MAX_COMMANDS {
      return TooMany;
    }
    RunFailsExactly(s, commands, stamp);
    var draft := new Draft(s);
    assert commands[..0] == [];
    for i := 0 to |commands|
      invariant Run(s, commands[..i], stamp) == Applied(draft.Contents())
    {
      assert commands[..i + 1][..i] == commands[..i];
      var r := draft.Perform(commands[i], stamp);
      if !r.Ok? {
        RunIsFate(s, commands, stamp, i);
      }
      if r.No? {
        return Stopped(i, r.reason);
      }
      if r.KeyError? {
        return Crashed;
      }
    }
    assert commands[..|commands|] == commands;
    e := Edited(draft.Contents());
  }

  /** A connection named twice in one removal is there to remove, and the whole run fails on it. */
  lemma RemovedTwice(s: State, c: Id, stamp: Option<Id>)
    requires c in s.connections
    ensures Run(s, [RemoveConnections([c, c])], stamp) == Failed
    ensures Run(s, [RemoveConnections([c])], stamp).Applied?
  {
    var twice, once := [RemoveConnections([c, c])], [RemoveConnections([c])];
    assert twice[..0] == [] && once[..0] == [];
    assert Repeats([c, c]) by { assert [c, c][0] == [c, c][1]; }
    assert Members([c, c]) <= s.connections.Keys && Members([c]) <= s.connections.Keys;
  }

  /** A node whose one connection is named twice. */
  lemma FailingInput() returns (s: State, commands: seq<Command>)
    ensures Kept(s) && ParentsPresent(s) && Run(s, commands, None) == Failed
  {
    var settings := Settings(map[], {}, map[]);
    s := State(Header(1, None, map[], None, [], 1),
        map[2 := Node(1, None, settings, None), 3 := Node(1, None, settings, None)],
               map[4 := Connection(2, 3, 1, settings, None)], map[], map[]);
    commands := [RemoveConnections([4, 4])];
    RemovedTwice(s, 4, None);
  }

  // --- what a draft keeps --------------------------------------------------------------------------

  /** Ids are unique across nodes, connections and assumptions. */
  ghost predicate IdsUnique(s: State) {
    s.nodes.Keys !! s.connections.Keys && s.nodes.Keys !! s.assumptions.Keys && s.connections.Keys !! s.assumptions.Keys
  }

  ghost predicate EndsPresent(s: State) {
    forall c :: c in s.connections ==> s.connections[c].source in s.nodes && s.connections[c].target in s.nodes
  }

  ghost predicate SubjectsPresent(s: State) {
    && (forall a :: a in s.assumptions ==> s.assumptions[a] <= Elements(s))
    && (forall d :: d in s.decisions ==> s.decisions[d] <= Elements(s))
  }

  ghost predicate Kept(s: State) {
    IdsUnique(s) && EndsPresent(s) && SubjectsPresent(s)
  }

  ghost predicate ParentsPresent(s: State) {
    forall n :: n in s.nodes && s.nodes[n].parent.Some? ==> s.nodes[n].parent.value in s.nodes
  }

  lemma RemovingKeeps(s: State, removed: set<Id>)
    requires Kept(s)
    ensures Kept(WithoutNodes(s, removed)) && Kept(WithoutConnections(s, removed - s.nodes.Keys))
  {
  }

  /** Every command that applies keeps the ids unique, the endpoints present and the subjects present. */
  lemma ApplyKeeps(s: State, c: Command, stamp: Option<Id>)
    requires Kept(s) && Apply(s, c, stamp).Applied?
    ensures Kept(Apply(s, c, stamp).state)
  {
    hide Configure, Named, Repeats, HoldsOthers;
    match c
    case RemoveNodes(ids) => RemovingKeeps(s, Members(ids));
    case RemoveConnections(ids) =>
      RemovingKeeps(s, Members(ids));
      assert Members(ids) - s.nodes.Keys == Members(ids);
    case _ =>
  }

  /** Whatever commands were applied. */
  lemma {:induction false} RunKeeps(s: State, commands: seq<Command>, stamp: Option<Id>)
    requires Kept(s) && Run(s, commands, stamp).Applied?
    ensures Kept(Run(s, commands, stamp).state)
    decreases |commands|
  {
    hide Kept, Apply;
    if commands != [] {
      RunKeeps(s, commands[..|commands| - 1], stamp);
      ApplyKeeps(Run(s, commands[..|commands| - 1], stamp).state, commands[|commands| - 1], stamp);
    }
  }

  /** Parents stay present exactly when no node is added under an absent one: removing a boundary in use is refused. */
  lemma ParentsKept(s: State, c: Command, stamp: Option<Id>)
    requires ParentsPresent(s) && Apply(s, c, stamp).Applied?
    ensures ParentsPresent(Apply(s, c, stamp).state) <==>
            !(c.AddNode? && c.node.parent.Some? && c.node.parent.value !in s.nodes && c.node.parent.value != c.id)
  {
    hide Configure, Attached, Repeats, Forgotten;
    var e := Apply(s, c, stamp).state;
    match c
    case AddNode(id, node) =>
      assert e.nodes[id].parent == node.parent;
    case RemoveNodes(ids) =>
      forall n | n in e.nodes && e.nodes[n].parent.Some?
        ensures e.nodes[n].parent.value in e.nodes
      {
        assert n !in Members(ids);
      }
    case RenameNode(id, name) =>
      assert e.nodes[id].parent == s.nodes[id].parent;
    case UpdateConfiguration(id, values) =>
      assert e.nodes[id].parent == s.nodes[id].parent;
    case _ =>
  }

  /** The `i`-th command, reached, adds a node under one that is not there, nor itself. */
  ghost predicate Orphans(s: State, commands: seq<Command>, stamp: Option<Id>, i: int) {
    && RunsTo(s, commands, stamp, i) && commands[i].AddNode? && commands[i].node.parent.Some?
    && commands[i].node.parent.value != commands[i].id
    && commands[i].node.parent.value !in Run(s, commands[..i], stamp).state.nodes
  }

  /** The parents are present once the first `i` commands are applied. */
  ghost predicate ParentsAfter(s: State, commands: seq<Command>, stamp: Option<Id>, i: int) {
    0 <= i <= |commands| && Run(s, commands[..i], stamp).Applied? && ParentsPresent(Run(s, commands[..i], stamp).state)
  }

  lemma ParentsStep(s: State, commands: seq<Command>, stamp: Option<Id>, i: int)
    requires 0 <= i < |commands| && Run(s, commands[..i + 1], stamp).Applied? && ParentsAfter(s, commands, stamp, i)
    ensures ParentsAfter(s, commands, stamp, i + 1) <==> !Orphans(s, commands, stamp, i)
  {
    hide Apply, ParentsPresent;
    assert commands[..i + 1][..i] == commands[..i];
    ParentsKept(Run(s, commands[..i], stamp).state, commands[i], stamp);
  }

  /** As long as no command adds a node under an absent one, parents are present after each. */
  lemma {:induction false} ParentsTo(s: State, commands: seq<Command>, stamp: Option<Id>, i: nat)
    requires ParentsPresent(s) && Run(s, commands, stamp).Applied? && i <= |commands|
    requires forall j :: 0 <= j < i ==> !Orphans(s, commands, stamp, j)
    ensures ParentsAfter(s, commands, stamp, i)
  {
    hide Run, Orphans, ParentsPresent;
    PrefixApplied(s, commands, stamp, i);
    if i == 0 {
      assert Run(s, commands[..0], stamp) == Applied(s) by { NothingRun(s, commands[..0], stamp); }
    } else {
      ParentsTo(s, commands, stamp, i - 1);
      ParentsStep(s, commands, stamp, i - 1);
    }
  }

  lemma NothingRun(s: State, commands: seq<Command>, stamp: Option<Id>)
    requires commands == []
    ensures Run(s, commands, stamp) == Applied(s)
  {
  }

  /**
   * Parents are present all through a run that starts with them present exactly when it adds no node under an
   * absent one; and then they are present at its end.
   */
  lemma RunKeepsParents(s: State, commands: seq<Command>, stamp: Option<Id>)
    requires ParentsPresent(s) && Run(s, commands, stamp).Applied?
    ensures (forall i :: 0 <= i <= |commands| ==> ParentsAfter(s, commands, stamp, i)) <==>
            forall i :: !Orphans(s, commands, stamp, i)
    ensures (forall i :: !Orphans(s, commands, stamp, i)) ==> ParentsPresent(Run(s, commands, stamp).state)
  {
    hide Run, Orphans, ParentsPresent, ParentsAfter;
    if forall i :: !Orphans(s, commands, stamp, i) {
      forall i | 0 <= i <= |commands|
        ensures ParentsAfter(s, commands, stamp, i)
      {
        ParentsTo(s, commands, stamp, i);
      }
      AtTheEnd(s, commands, stamp);
    } else {
      var i :| Orphans(s, commands, stamp, i);
      OrphansReached(s, commands, stamp, i);
      PrefixApplied(s, commands, stamp, i + 1);
      if ParentsAfter(s, commands, stamp, i) {
        ParentsStep(s, commands, stamp, i);
      }
    }
  }

  lemma AtTheEnd(s: State, commands: seq<Command>, stamp: Option<Id>)
    requires Run(s, commands, stamp).Applied? && ParentsAfter(s, commands, stamp, |commands|)
    ensures ParentsPresent(Run(s, commands, stamp).state)
  {
    hide Run, ParentsPresent;
    assert commands[..|commands|] == commands;
  }

  lemma OrphansReached(s: State, commands: seq<Command>, stamp: Option<Id>, i: int)
    requires Orphans(s, commands, stamp, i)
    ensures 0 <= i < |commands|
  {
    hide Run;
  }

  // --- configuring ---------------------------------------------------------------------------------

  /**
   * What configuring means for one property: set, cleared or left; known once it is named; and attributed
   * to the edit exactly when its value changed or was unknown.
   */
  lemma ConfigureMeans(s: Settings, values: map<Id, Option<int>>, stamp: Option<Id>, k: Id)
    ensures var e := Configure(s, values, stamp);
            && Value(e.values, k) == (if k in values then values[k] else Value(s.values, k))
            && (k in e.unknown <==> k in s.unknown && k !in values)
            && (stamp.Some? && k in values && values[k].Some? && (values[k] != Value(s.values, k) || k in s.unknown) ==>
                  Configured(k) in e.stamps && e.stamps[Configured(k)] == stamp.value)
            && (k in values && values[k].None? ==> Configured(k) !in e.stamps)
            && (k !in values || (values[k].Some? && values[k] == Value(s.values, k) && k !in s.unknown) ==>
                  (Configured(k) in e.stamps <==> Configured(k) in s.stamps)
                  && (Configured(k) in s.stamps ==> e.stamps[Configured(k)] == s.stamps[Configured(k)]))
  {
  }

  lemma NothingStamped(stamps: map<Field, Id>, stamp: Option<Id>)
    ensures Stamped(stamps, {}, stamp) == stamps
  {
  }

  /** Setting values to what they already are changes nothing, whoever does it. */
  lemma ConfiguringAgain(s: Settings, values: map<Id, Option<int>>, stamp: Option<Id>, other: Option<Id>)
    ensures Configure(Configure(s, values, stamp), values, other) == Configure(s, values, stamp)
  {
    hide Stamped;
    var e := Configure(s, values, stamp);
    assert forall k :: k in values && values[k].Some? ==> Value(e.values, k) == values[k];
    assert Changed(e, values) == {};
    assert Configure(e, values, other).values == e.values && Configure(e, values, other).unknown == e.unknown;
    assert (map f | f in e.stamps && f.name !in Cleared(values) :: e.stamps[f])
        == e.stamps by { ClearedUnstamped(s, values, stamp); }
    NothingStamped(e.stamps, other);
  }

  lemma ClearedUnstamped(s: Settings, values: map<Id, Option<int>>, stamp: Option<Id>)
    ensures forall f :: f in Configure(s, values, stamp).stamps ==> f.name !in Cleared(values)
  {
  }

  // --- what a run leaves alone ---------------------------------------------------------------------

  /** The nodes and connections a command names. */
  function NamedBy(c: Command): set<Id> {
    match c
    case RemoveNodes(ids) => Members(ids)
    case RemoveConnections(ids) => Members(ids)
    case AddNode(id, _) => {id}
    case AddConnection(id, _) => {id}
    case RenameNode(id, _) => {id}
    case UpdateConfiguration(id, _) => {id}
    case UpdateConnectionConfiguration(id, _) => {id}
  }

  function Removals(c: Command): set<Id> {
    match c
    case RemoveNodes(ids) => Members(ids)
    case RemoveConnections(ids) => Members(ids)
    case _ => {}
  }

  function NamedIn(commands: seq<Command>): set<Id> {
    if commands == [] then {} else NamedIn(commands[..|commands| - 1]) + NamedBy(commands[|commands| - 1])
  }

  function RemovedIn(commands: seq<Command>): set<Id> {
    if commands == [] then {} else RemovedIn(commands[..|commands| - 1]) + Removals(commands[|commands| - 1])
  }

  /** What a run removes: what its commands name to be removed, and the connections attached to it. */
  function Gone(s: State, commands: seq<Command>): set<Id> {
    RemovedIn(commands) + Attached(s, RemovedIn(commands))
  }

  ghost predicate SameNodes(s: State, e: State, named: set<Id>) {
    forall id :: id !in named ==>
      (id in s.nodes <==> id in e.nodes) && (id in s.nodes && id in e.nodes ==> s.nodes[id] == e.nodes[id])
  }

  /** Connections not named are as they were, or gone. */
  ghost predicate SameConnections(s: State, e: State, named: set<Id>, gone: set<Id>) {
    forall id :: id !in named ==>
      (id in e.connections ==> id in s.connections && e.connections[id] == s.connections[id])
      && (id in s.connections && id !in gone ==> id in e.connections)
  }

  /** What was there is there still, between the same ends, or gone at some point. */
  ghost predicate Survives(s: State, e: State, gone: set<Id>) {
    && (forall x :: x in Elements(s) ==> x in Elements(e) || x in gone)
    && (forall x :: x in e.connections && x in Elements(s) && x !in gone ==>
          x in s.connections && e.connections[x].source == s.connections[x].source
              && e.connections[x].target == s.connections[x].target)
  }

  /** Assumptions and decisions are about what they were about, without what is gone. */
  ghost predicate SameSubjects(about: map<Id, set<Id>>, after: map<Id, set<Id>>, gone: set<Id>) {
    about.Keys == after.Keys && forall a :: a in about ==> LeftOf(about[a], after[a], gone)
  }

  predicate LeftOf(was: set<Id>, now: set<Id>, gone: set<Id>) {
    now <= was && was - now <= gone
  }

  ghost predicate IsLocal(s: State, e: State, commands: seq<Command>) {
    && e.header == s.header
    && SameNodes(s, e, NamedIn(commands)) && SameConnections(s, e, NamedIn(commands), Gone(s, commands))
    && Survives(s, e, Gone(s, commands))
    && SameSubjects(s.assumptions, e.assumptions, Gone(s, commands))
    && SameSubjects(s.decisions, e.decisions, Gone(s, commands))
  }

  /** What a command takes away from a state. */
  function Taken(e: State, c: Command): set<Id> {
    match c
    case RemoveNodes(ids) => Members(ids) + Attached(e, Members(ids))
    case RemoveConnections(ids) => Members(ids)
    case _ => {}
  }

  lemma NextNamed(front: seq<Command>, c: Command)
    ensures NamedIn(front + [c]) == NamedIn(front) + NamedBy(c)
    ensures RemovedIn(front + [c]) == RemovedIn(front) + Removals(c)
  {
    assert (front + [c])[..|front|] == front;
  }

  lemma GoneGrows(s: State, front: seq<Command>, c: Command)
    ensures Gone(s, front) <= Gone(s, front + [c])
    ensures Attached(s, Removals(c)) <= Gone(s, front + [c]) && Removals(c) <= Gone(s, front + [c])
  {
    hide RemovedIn;
    NextNamed(front, c);
  }

  /** What a command takes away that was there at the start is gone. */
  lemma TakenGone(s: State, e: State, front: seq<Command>, c: Command, x: Id)
    requires Survives(s, e, Gone(s, front)) && x in Taken(e, c) && x in Elements(s)
    ensures x in Gone(s, front + [c])
  {
    hide Gone, RemovedIn;
    GoneGrows(s, front, c);
  }

  lemma StepNodes(s: State, e: State, c: Command, stamp: Option<Id>, named: set<Id>)
    requires SameNodes(s, e, named) && Apply(e, c, stamp).Applied?
    ensures SameNodes(s, Apply(e, c, stamp).state, named + NamedBy(c))
  {
    hide Configure, Named, Repeats, HoldsOthers, Ids, Attached, Forgotten;
  }

  lemma ApplyConnections(e: State, c: Command, stamp: Option<Id>, id: Id)
    requires Apply(e, c, stamp).Applied? && id !in NamedBy(c)
    ensures var f := Apply(e, c, stamp).state;
            && (id in f.connections ==> id in e.connections && f.connections[id] == e.connections[id])
            && (id in e.connections && id !in Taken(e, c) ==> id in f.connections)
  {
    hide Configure, Named, Repeats, HoldsOthers, Ids, Attached, Forgotten;
  }

  lemma StepConnections(s: State, e: State, front: seq<Command>, c: Command, stamp: Option<Id>)
    requires SameConnections(s, e, NamedIn(front), Gone(s, front)) && Survives(s, e, Gone(s, front))
    requires Apply(e, c, stamp).Applied?
    ensures SameConnections(s, Apply(e, c, stamp).state, NamedIn(front + [c]), Gone(s, front + [c]))
  {
    hide Apply, Gone, Taken, NamedIn, NamedBy;
    NextNamed(front, c);
    GoneGrows(s, front, c);
    forall id | id !in NamedIn(front + [c])
      ensures var f := Apply(e, c, stamp).state;
              (id in f.connections ==> id in s.connections && f.connections[id] == s.connections[id])
              && (id in s.connections && id !in Gone(s, front + [c]) ==> id in f.connections)
    {
      ApplyConnections(e, c, stamp, id);
      if id in s.connections && id in Taken(e, c) {
        TakenGone(s, e, front, c, id);
      }
    }
  }

  lemma ApplyElements(e: State, c: Command, stamp: Option<Id>, x: Id)
    requires Apply(e, c, stamp).Applied?
    ensures var f := Apply(e, c, stamp).state;
            && (x in Elements(e) && x !in Taken(e, c) ==> x in Elements(f))
            && (x in f.connections && x in e.connections ==>
                  f.connections[x].source == e.connections[x].source
                      && f.connections[x].target == e.connections[x].target)
            && (x in f.connections && x !in e.connections ==> x !in Elements(e))
  {
    hide Configure, Named, Repeats, HoldsOthers, Attached, Forgotten;
  }

  lemma StepSurvives(s: State, e: State, front: seq<Command>, c: Command, stamp: Option<Id>)
    requires Survives(s, e, Gone(s, front)) && Apply(e, c, stamp).Applied?
    ensures Survives(s, Apply(e, c, stamp).state, Gone(s, front + [c]))
  {
    hide Apply, Gone, Taken;
    GoneGrows(s, front, c);
    forall x | x in Elements(s)
      ensures var f := Apply(e, c, stamp).state;
              (x in Elements(f) || x in Gone(s, front + [c]))
              && (x in f.connections && x !in Gone(s, front + [c]) ==>
                    x in s.connections && f.connections[x].source == s.connections[x].source
                        && f.connections[x].target == s.connections[x].target)
    {
      ApplyElements(e, c, stamp, x);
      if x in Taken(e, c) {
        TakenGone(s, e, front, c, x);
      }
    }
  }

  lemma ForgotNothing(about: map<Id, set<Id>>)
    ensures Forgotten(about, {}) == about
  {
    assert forall a :: a in about ==> about[a] - {} == about[a];
  }

  lemma ApplySubjects(e: State, c: Command, stamp: Option<Id>)
    requires Apply(e, c, stamp).Applied?
    ensures var f := Apply(e, c, stamp).state;
            f.assumptions == Forgotten(e.assumptions, Taken(e, c)) && f.decisions == Forgotten(e.decisions, Taken(e, c))
  {
    hide Configure, Named, Repeats, HoldsOthers, Attached, Ids;
    ForgotNothing(e.assumptions);
    ForgotNothing(e.decisions);
  }

  lemma StepSubjects(s: State, e: State, front: seq<Command>, c: Command, about: map<Id, set<Id>>, after: map<Id,
      set<Id>>)
    requires Survives(s, e, Gone(s, front)) && SameSubjects(about, after, Gone(s, front))
    requires forall a :: a in about ==> about[a] <= Elements(s)
    ensures SameSubjects(about, Forgotten(after, Taken(e, c)), Gone(s, front + [c]))
  {
    hide Gone, Taken, Survives;
    GoneGrows(s, front, c);
    var left := Forgotten(after, Taken(e, c));
    forall a | a in about
      ensures LeftOf(about[a], left[a], Gone(s, front + [c]))
    {
      assert left[a] == after[a] - Taken(e, c);
      forall x | x in about[a] - left[a]
        ensures x in Gone(s, front + [c])
      {
        assert LeftOf(about[a], after[a], Gone(s, front));
        if x in after[a] {
          TakenGone(s, e, front, c, x);
        } else {
          assert x in about[a] - after[a];
        }
      }
      SubsetOf(about[a] - left[a], Gone(s, front + [c]));
    }
  }

  /** No command reaches the architecture's own fields. */
  lemma HeaderKept(e: State, c: Command, stamp: Option<Id>)
    requires Apply(e, c, stamp).Applied?
    ensures Apply(e, c, stamp).state.header == e.header
  {
    hide Configure, Named, Repeats, HoldsOthers, Attached, Ids, Forgotten;
  }

  lemma StepLocal(s: State, e: State, front: seq<Command>, c: Command, stamp: Option<Id>)
    requires SubjectsPresent(s) && IsLocal(s, e, front) && Apply(e, c, stamp).Applied?
    ensures IsLocal(s, Apply(e, c, stamp).state, front + [c])
  {
    hide Apply, Gone, Taken, Survives, SameNodes, SameConnections, SameSubjects, Forgotten;
    NextNamed(front, c);
    HeaderKept(e, c, stamp);
    StepNodes(s, e, c, stamp, NamedIn(front));
    StepConnections(s, e, front, c, stamp);
    StepSurvives(s, e, front, c, stamp);
    ApplySubjects(e, c, stamp);
    StepSubjects(s, e, front, c, s.assumptions, e.assumptions);
    StepSubjects(s, e, front, c, s.decisions, e.decisions);
  }

  lemma NothingDone(s: State)
    ensures IsLocal(s, s, [])
  {
  }

  /**
   * A run never changes what the architecture says of itself. It changes only the nodes its commands name,
   * the connections they name or that were attached to a
   * node they remove, and the assumptions and decisions about what they remove or what was attached to it.
   */
  lemma {:induction false} RunIsLocal(s: State, commands: seq<Command>, stamp: Option<Id>)
    requires SubjectsPresent(s) && Run(s, commands, stamp).Applied?
    ensures IsLocal(s, Run(s, commands, stamp).state, commands)
    decreases |commands|
  {
    hide Apply, IsLocal, SubjectsPresent;
    if commands == [] {
      NothingDone(s);
    } else {
      var front, c := commands[..|commands| - 1], commands[|commands| - 1];
      RunIsLocal(s, front, stamp);
      StepLocal(s, Run(s, front, stamp).state, front, c, stamp);
      assert front + [c] == commands;
    }
  }

  /** An assumption stays as it was when nothing it is about, and nothing such a thing joined, is removed. */
  lemma AssumptionUntouched(s: State, commands: seq<Command>, stamp: Option<Id>, a: Id)
    requires SubjectsPresent(s) && Run(s, commands, stamp).Applied? && a in s.assumptions
    requires forall x :: x in s.assumptions[a] ==> x !in Gone(s, commands)
    ensures a in Run(s, commands, stamp).state.assumptions
    ensures Run(s, commands, stamp).state.assumptions[a] == s.assumptions[a]
  {
    hide Run, Gone, NamedIn, SameNodes, SameConnections, Survives, SubjectsPresent;
    RunIsLocal(s, commands, stamp);
    var e := Run(s, commands, stamp).state;
    assert LeftOf(s.assumptions[a], e.assumptions[a], Gone(s, commands));
    NothingLeftOut(s.assumptions[a], e.assumptions[a], Gone(s, commands));
  }

  /** So does a decision. */
  lemma DecisionUntouched(s: State, commands: seq<Command>, stamp: Option<Id>, d: Id)
    requires SubjectsPresent(s) && Run(s, commands, stamp).Applied? && d in s.decisions
    requires forall x :: x in s.decisions[d] ==> x !in Gone(s, commands)
    ensures d in Run(s, commands, stamp).state.decisions
    ensures Run(s, commands, stamp).state.decisions[d] == s.decisions[d]
  {
    hide Run, Gone, NamedIn, SameNodes, SameConnections, Survives, SubjectsPresent;
    RunIsLocal(s, commands, stamp);
    var e := Run(s, commands, stamp).state;
    assert LeftOf(s.decisions[d], e.decisions[d], Gone(s, commands));
    NothingLeftOut(s.decisions[d], e.decisions[d], Gone(s, commands));
  }

  lemma NothingLeftOut(was: set<Id>, now: set<Id>, gone: set<Id>)
    requires LeftOf(was, now, gone) && forall x :: x in was ==> x !in gone
    ensures was == now
  {
    assert forall x :: x in was ==> x in was - now || x in now;
    SubsetOf(was, now);
  }
}
