/** What changed between two architectures, element by element and field by field. */
module Diff {
  import opened Options
  import opened Reachability
  import opened Ordered
  import opened Serialization
  import opened FieldPaths
  import Commands
  import Facts = CommandFacts

  // --- field changes -------------------------------------------------------------------------------

  datatype FieldChange = FieldChange(before: Json, after: Json)

  function FieldChanges(old_: map<string, Json>, new_: map<string, Json>, skip: set<string>): map<string, FieldChange> {
    map p | p in old_.Keys + new_.Keys && p !in skip && !Matches(Get(old_, p), Get(new_, p)) ::
        FieldChange(Get(old_, p), Get(new_, p))
  }

  /** The changes written over the old leaves; a field changed to nothing is dropped. */
  function Patched(leaves: map<string, Json>, changes: map<string, FieldChange>): map<string, Json> {
    map p | p in leaves.Keys + changes.Keys && !(p in changes && changes[p].after.Null?)
      :: if p in changes then changes[p].after else if p in leaves then leaves[p] else Null
  }

  /** Nothing changed exactly when every path holds the same value. */
  lemma NoChanges(a: map<string, Json>, b: map<string, Json>, skip: set<string>)
    ensures FieldChanges(a, b, skip) == map[] <==> forall p :: p !in skip ==> Matches(Get(a, p), Get(b, p))
  {
    if FieldChanges(a, b, skip) == map[] {
      forall p | p !in skip
        ensures Matches(Get(a, p), Get(b, p))
      {
        assert p !in FieldChanges(a, b, skip);
      }
    }
  }

  /** The changes back are the changes turned around. */
  lemma ChangesMirror(a: map<string, Json>, b: map<string, Json>, skip: set<string>)
    ensures FieldChanges(b, a, skip).Keys == FieldChanges(a, b, skip).Keys
    ensures forall p :: p in FieldChanges(a, b, skip) ==>
              FieldChanges(b, a, skip)[p]
                  == FieldChange(FieldChanges(a, b, skip)[p].after, FieldChanges(a, b, skip)[p].before)
  {
  }

  /** Written over the old leaves, the changes give the new ones. */
  lemma ChangesPatch(a: map<string, Json>, b: map<string, Json>, p: string)
    ensures Matches(Get(Patched(a, FieldChanges(a, b, {})), p), Get(b, p))
  {
  }

  // --- elements ------------------------------------------------------------------------------------

  datatype ElementChange = Added(id: Id) | Removed(id: Id) | Modified(id: Id, fields: map<string, FieldChange>)

  /** What is reported of one id. */
  function ChangeOf(l: Listing, before: map<Id, Record>, after: map<Id, Record>, skip: set<string>,
      id: Id): Option<ElementChange> {
    if id !in before && id !in after then None
    else if id !in before then Some(Added(id))
    else if id !in after then Some(Removed(id))
    else
      var fields := FieldChanges(Leaves(l, before[id], "", false), Leaves(l, after[id], "", false), skip);
      if fields == map[] then None else Some(Modified(id, fields))
  }

  ghost predicate Reports(l: Listing, before: map<Id, Record>, after: map<Id, Record>, skip: set<string>, done: set<Id>,
      changes: seq<ElementChange>) {
    && (forall i :: 0 <= i < |changes| ==>
        changes[i].id in done && ChangeOf(l, before, after, skip, changes[i].id) == Some(changes[i]))
    && (forall id :: id in done && ChangeOf(l, before, after, skip, id).Some? ==>
        ChangeOf(l, before, after, skip, id).value in changes)
    && (forall i, j :: 0 <= i < j < |changes| ==> changes[i].id < changes[j].id)
  }

  lemma ReportNext(l: Listing, before: map<Id, Record>, after: map<Id, Record>, skip: set<string>, done: set<Id>,
      changes: seq<ElementChange>, id: Id)
    requires Reports(l, before, after, skip, done, changes) && forall x :: x in done ==> x < id
    ensures var change := ChangeOf(l, before, after, skip, id);
            Reports(l, before, after, skip, done + {id}, if change.Some? then changes + [change.value] else changes)
  {
    ChangeNames(l, before, after, skip, id);
    hide ChangeOf;
    var change := ChangeOf(l, before, after, skip, id);
    if change.Some? {
      assert forall x :: x in changes ==> x in changes + [change.value];
      assert (changes + [change.value])[|changes|] == change.value;
    }
  }

  lemma ChangeNames(l: Listing, before: map<Id, Record>, after: map<Id, Record>, skip: set<string>, id: Id)
    ensures ChangeOf(l, before, after, skip, id).Some? ==> ChangeOf(l, before, after, skip, id).value.id == id
  {
    hide FieldChanges, Leaves;
  }

  /** The changes of every element, by id. */
  method DiffElements(l: Listing, before: map<Id, Record>, after: map<Id, Record>, skip: set<string>)
    returns (changes: seq<ElementChange>)
    ensures Reports(l, before, after, skip, before.Keys + after.Keys, changes)
  {
    hide Reports, Leaves, FieldChanges, InOrder;
    changes := [];
    ghost var ids := before.Keys + after.Keys;
    var order := InOrder(before.Keys + after.Keys);
    Visited(ids);
    assert Reports(l, before, after, skip, {}, []) by { NothingReported(l, before, after, skip); }
    for i := 0 to |order|
      invariant Reports(l, before, after, skip, Members(order[..i]), changes)
    {
      Visit(ids, i);
      var id := order[i];
      ReportNext(l, before, after, skip, Members(order[..i]), changes, id);
      if id !in before {
        changes := changes + [Added(id)];
      } else if id !in after {
        changes := changes + [Removed(id)];
      } else {
        var was := WalkLeaves(l, before[id], "", false);
        var now := WalkLeaves(l, after[id], "", false);
        var fields := FieldChanges(was, now, skip);
        if fields != map[] {
          changes := changes + [Modified(id, fields)];
        }
      }
    }
  }

  lemma NothingReported(l: Listing, before: map<Id, Record>, after: map<Id, Record>, skip: set<string>)
    ensures Reports(l, before, after, skip, {}, [])
  {
  }

  // --- whole architectures -------------------------------------------------------------------------

  /** What is written of an architecture: its own fields, and its elements by id. */
  datatype Document = Document(header: Record, nodes: map<Id, Record>, connections: map<Id, Record>,
    assumptions: map<Id, Record>, decisions: map<Id, Record>)

  datatype ArchitectureDiff = ArchitectureDiff(architecture: map<string, FieldChange>, nodes: seq<ElementChange>,
    connections: seq<ElementChange>, assumptions: seq<ElementChange>, decisions: seq<ElementChange>)

  function Skipped(k: Key): set<string> {
    {KeyText(k)}
  }

  ghost predicate IsDiff(l: Listing, a: Document, b: Document, d: ArchitectureDiff) {
    && d.architecture == FieldChanges(Leaves(l, a.header, "", false), Leaves(l, b.header, "", false), {})
    && Reports(l, a.nodes, b.nodes, Skipped(IdKey), a.nodes.Keys + b.nodes.Keys, d.nodes)
    && Reports(l, a.connections, b.connections, Skipped(IdKey), a.connections.Keys + b.connections.Keys, d.connections)
    && Reports(l, a.assumptions, b.assumptions, Skipped(IdKey), a.assumptions.Keys + b.assumptions.Keys, d.assumptions)
    && Reports(l, a.decisions, b.decisions, Skipped(DecisionIdKey), a.decisions.Keys + b.decisions.Keys, d.decisions)
  }

  method Compare(l: Listing, a: Document, b: Document) returns (d: ArchitectureDiff)
    ensures IsDiff(l, a, b, d)
  {
    hide Leaves, FieldChanges, Reports, KeyText;
    var was := WalkLeaves(l, a.header, "", false);
    var now := WalkLeaves(l, b.header, "", false);
    var nodes := DiffElements(l, a.nodes, b.nodes, Skipped(IdKey));
    var connections := DiffElements(l, a.connections, b.connections, Skipped(IdKey));
    var assumptions := DiffElements(l, a.assumptions, b.assumptions, Skipped(IdKey));
    var decisions := DiffElements(l, a.decisions, b.decisions, Skipped(DecisionIdKey));
    d := ArchitectureDiff(FieldChanges(was, now, {}), nodes, connections, assumptions, decisions);
  }

  predicate IsEmpty(d: ArchitectureDiff) {
    d.architecture == map[] && d.nodes == [] && d.connections == [] && d.assumptions == [] && d.decisions == []
  }

  /** An element on both sides or on neither, with the same value at every path but that of its id. */
  ghost predicate SameElement(l: Listing, a: map<Id, Record>, b: map<Id, Record>, skip: set<string>, id: Id) {
    && (id in a <==> id in b)
    && (id in a && id in b ==>
          forall path :: path !in skip ==>
              Matches(Get(Leaves(l, a[id], "", false), path), Get(Leaves(l, b[id], "", false), path)))
  }

  ghost predicate SameElements(l: Listing, a: map<Id, Record>, b: map<Id, Record>, skip: set<string>) {
    forall id :: SameElement(l, a, b, skip, id)
  }

  lemma NothingOfElement(l: Listing, a: map<Id, Record>, b: map<Id, Record>, skip: set<string>, id: Id)
    ensures ChangeOf(l, a, b, skip, id).None? <==> SameElement(l, a, b, skip, id)
  {
    hide Leaves, FieldChanges, Get;
    if id in a && id in b {
      NoChanges(Leaves(l, a[id], "", false), Leaves(l, b[id], "", false), skip);
    }
  }

  lemma NothingOfElements(l: Listing, a: map<Id, Record>, b: map<Id, Record>, skip: set<string>,
      changes: seq<ElementChange>)
    requires Reports(l, a, b, skip, a.Keys + b.Keys, changes)
    ensures changes == [] <==> SameElements(l, a, b, skip)
  {
    hide ChangeOf, SameElement;
    forall id
      ensures ChangeOf(l, a, b, skip, id).None? <==> SameElement(l, a, b, skip, id)
    {
      NothingOfElement(l, a, b, skip, id);
    }
    forall id | id !in a.Keys + b.Keys
      ensures ChangeOf(l, a, b, skip, id).None?
    {
      Nowhere(l, a, b, skip, id);
    }
    if changes != [] {
      assert ChangeOf(l, a, b, skip, changes[0].id).Some?;
    }
  }

  lemma Nowhere(l: Listing, a: map<Id, Record>, b: map<Id, Record>, skip: set<string>, id: Id)
    requires id !in a && id !in b
    ensures ChangeOf(l, a, b, skip, id).None?
  {
    hide Leaves, FieldChanges;
  }

  /** A diff is empty exactly when both architectures hold the same elements, with the same value at every path. */
  lemma EmptyExactly(l: Listing, a: Document, b: Document, d: ArchitectureDiff)
    requires IsDiff(l, a, b, d)
    ensures IsEmpty(d) <==>
            && Alike(Leaves(l, a.header, "", false), Leaves(l, b.header, "", false))
            && SameElements(l, a.nodes, b.nodes, Skipped(IdKey))
            && SameElements(l, a.connections, b.connections, Skipped(IdKey))
            && SameElements(l, a.assumptions, b.assumptions, Skipped(IdKey))
            && SameElements(l, a.decisions, b.decisions, Skipped(DecisionIdKey))
  {
    hide Leaves, FieldChanges, Reports, SameElements, Skipped, Get;
    NoChanges(Leaves(l, a.header, "", false), Leaves(l, b.header, "", false), {});
    NothingOfElements(l, a.nodes, b.nodes, Skipped(IdKey), d.nodes);
    NothingOfElements(l, a.connections, b.connections, Skipped(IdKey), d.connections);
    NothingOfElements(l, a.assumptions, b.assumptions, Skipped(IdKey), d.assumptions);
    NothingOfElements(l, a.decisions, b.decisions, Skipped(DecisionIdKey), d.decisions);
  }

  // --- what a diff guarantees ----------------------------------------------------------------------

  function Mirrored(c: ElementChange): ElementChange {
    match c
    case Added(id) => Removed(id)
    case Removed(id) => Added(id)
    case Modified(id, fields) => Modified(id, map p | p in fields :: FieldChange(fields[p].after, fields[p].before))
  }

  /** The diff back is the mirror of the diff. */
  lemma DiffMirrors(l: Listing, a: map<Id, Record>, b: map<Id, Record>, skip: set<string>, id: Id)
    ensures ChangeOf(l, a, b, skip, id).Some? <==> ChangeOf(l, b, a, skip, id).Some?
    ensures ChangeOf(l, a, b, skip, id).Some? ==>
            ChangeOf(l, b, a, skip, id).value == Mirrored(ChangeOf(l, a, b, skip, id).value)
  {
    hide Leaves;
    if id in a && id in b {
      var x := FieldChanges(Leaves(l, a[id], "", false), Leaves(l, b[id], "", false), skip);
      var y := FieldChanges(Leaves(l, b[id], "", false), Leaves(l, a[id], "", false), skip);
      ChangesMirror(Leaves(l, a[id], "", false), Leaves(l, b[id], "", false), skip);
      assert x == map[] <==> y == map[] by { EmptyTogether(x, y); }
    }
  }

  lemma EmptyTogether(x: map<string, FieldChange>, y: map<string, FieldChange>)
    requires x.Keys == y.Keys
    ensures x == map[] <==> y == map[]
  {
    if x == map[] {
      assert y.Keys == {};
    } else {
      assert y == map[] ==> x.Keys == {};
    }
  }

  function MirroredFields(fields: map<string, FieldChange>): map<string, FieldChange> {
    map p | p in fields :: FieldChange(fields[p].after, fields[p].before)
  }

  function MirroredAll(changes: seq<ElementChange>): seq<ElementChange> {
    seq(|changes|, i requires 0 <= i < |changes| => Mirrored(changes[i]))
  }

  function MirroredDiff(d: ArchitectureDiff): ArchitectureDiff {
    ArchitectureDiff(MirroredFields(d.architecture), MirroredAll(d.nodes), MirroredAll(d.connections),
      MirroredAll(d.assumptions), MirroredAll(d.decisions))
  }

  ghost predicate ByIds(changes: seq<ElementChange>) {
    forall i, j :: 0 <= i < j < |changes| ==> changes[i].id < changes[j].id
  }

  /** In id order, the changes that are listed determine the list. */
  lemma {:induction false} ListedOnce(x: seq<ElementChange>, y: seq<ElementChange>)
    requires ByIds(x) && ByIds(y) && forall c :: c in x <==> c in y
    ensures x == y
    decreases |x|
  {
    if x == [] {
      if y != [] {
        SomeListed(y);
      }
    } else {
      var m, n := |x| - 1, |y| - 1;
      assert x[m] in y;
      SameLast(x, y);
      forall c
        ensures c in x[..m] <==> c in y[..n]
      {
        NotLast(x, c);
        NotLast(y, c);
      }
      ListedOnce(x[..m], y[..n]);
      assert x == x[..m] + [x[m]] && y == y[..n] + [y[n]];
    }
  }

  lemma SomeListed(y: seq<ElementChange>)
    requires y != []
    ensures exists c :: c in y
  {
    assert y[0] in y;
  }

  lemma SameLast(x: seq<ElementChange>, y: seq<ElementChange>)
    requires ByIds(x) && ByIds(y) && x != [] && y != [] && forall c :: c in x <==> c in y
    ensures x[|x| - 1] == y[|y| - 1]
  {
    var a, b := x[|x| - 1], y[|y| - 1];
    assert a in x && b in y;
    var i :| 0 <= i < |y| && y[i] == a;
    var j :| 0 <= j < |x| && x[j] == b;
  }

  lemma NotLast(x: seq<ElementChange>, c: ElementChange)
    requires ByIds(x) && x != []
    ensures c in x[..|x| - 1] <==> c in x && c != x[|x| - 1]
  {
    if c in x {
      var i :| 0 <= i < |x| && x[i] == c;
      if i < |x| - 1 {
        assert x[..|x| - 1][i] == c;
      }
    }
    if c in x[..|x| - 1] {
      var i :| 0 <= i < |x| - 1 && x[..|x| - 1][i] == c;
      assert x[i] == c;
    }
  }

  /** The changes of every element back are the changes turned around, in the same order. */
  lemma ElementsMirror(l: Listing, a: map<Id, Record>, b: map<Id, Record>, skip: set<string>,
      there: seq<ElementChange>, back: seq<ElementChange>)
    requires Reports(l, a, b, skip, a.Keys + b.Keys, there) && Reports(l, b, a, skip, b.Keys + a.Keys, back)
    ensures back == MirroredAll(there)
  {
    hide ChangeOf;
    var turned := MirroredAll(there);
    forall i | 0 <= i < |there|
      ensures turned[i] in back && turned[i].id == there[i].id
    {
      DiffMirrors(l, a, b, skip, there[i].id);
      MirrorKeepsId(there[i]);
      assert ChangeOf(l, b, a, skip, there[i].id).value == turned[i];
    }
    forall i | 0 <= i < |back|
      ensures back[i] in turned
    {
      var id := back[i].id;
      DiffMirrors(l, a, b, skip, id);
      var there' := ChangeOf(l, a, b, skip, id).value;
      assert there' in there;
      var j :| 0 <= j < |there| && there[j] == there';
      assert turned[j] == back[i];
    }
    ListedOnce(back, turned);
  }

  lemma MirrorKeepsId(c: ElementChange)
    ensures Mirrored(c).id == c.id
  {
  }

  /** The diff back is the diff turned around, as a whole. */
  lemma WholeDiffMirrors(l: Listing, a: Document, b: Document, there: ArchitectureDiff, back: ArchitectureDiff)
    requires IsDiff(l, a, b, there) && IsDiff(l, b, a, back)
    ensures back == MirroredDiff(there)
  {
    hide Reports, Leaves, FieldChanges;
    ChangesMirror(Leaves(l, a.header, "", false), Leaves(l, b.header, "", false), {});
    assert back.architecture == MirroredFields(there.architecture);
    ElementsMirror(l, a.nodes, b.nodes, Skipped(IdKey), there.nodes, back.nodes);
    ElementsMirror(l, a.connections, b.connections, Skipped(IdKey), there.connections, back.connections);
    ElementsMirror(l, a.assumptions, b.assumptions, Skipped(IdKey), there.assumptions, back.assumptions);
    ElementsMirror(l, a.decisions, b.decisions, Skipped(DecisionIdKey), there.decisions, back.decisions);
  }

  /** An element written the same on both sides is not reported. */
  lemma SameNotReported(l: Listing, a: map<Id, Record>, b: map<Id, Record>, skip: set<string>, id: Id)
    requires (id in a <==> id in b) && (id in a && id in b ==> a[id] == b[id])
    ensures ChangeOf(l, a, b, skip, id).None?
  {
    hide Leaves;
  }

  function Written<T>(elements: map<Id, T>, write: (Id, T) -> Record): map<Id, Record> {
    map id | id in elements :: write(id, elements[id])
  }

  /**
   * How the architecture's own fields, a node, a connection, and what an assumption or a decision is about
   * are written.
   */
  datatype Writer = Writer(header: Commands.Header -> Record,
    node: (Id, Commands.Node) -> Record, connection: (Id, Commands.Connection) -> Record,
    assumption: (Id, set<Id>) -> Record, decision: (Id, set<Id>) -> Record)

  ghost predicate AboutGone(about: map<Id, set<Id>>, id: Id, gone: set<Id>) {
    id in about && exists x :: x in about[id] && x in gone
  }

  /**
   * The diff a run of commands leads to reports no change of the architecture's own fields; and of elements only
   * the nodes its commands name, the connections they name or that were attached to a node they remove, and the
   * assumptions and decisions about something they remove.
   */
  lemma DiffOfRunIsLocal(l: Listing, s: Commands.State, commands: seq<Commands.Command>, stamp: Option<Id>, w: Writer,
      skip: set<string>, id: Id)
    requires Facts.SubjectsPresent(s) && Facts.Run(s, commands, stamp).Applied?
    ensures var e, gone := Facts.Run(s, commands, stamp).state, Facts.Gone(s, commands);
            && FieldChanges(Leaves(l, w.header(s.header), "", false), Leaves(l, w.header(e.header), "", false), {})
                == map[]
            && (ChangeOf(l, Written(s.nodes, w.node), Written(e.nodes, w.node), skip, id).Some? ==>
                id in Facts.NamedIn(commands))
            && (ChangeOf(l, Written(s.connections, w.connection), Written(e.connections, w.connection), skip,
                id).Some? ==>
                  id in Facts.NamedIn(commands) || id in gone)
            && (ChangeOf(l, Written(s.assumptions, w.assumption), Written(e.assumptions, w.assumption), skip,
                id).Some? ==>
                  AboutGone(s.assumptions, id, gone))
            && (ChangeOf(l, Written(s.decisions, w.decision), Written(e.decisions, w.decision), skip, id).Some? ==>
                  AboutGone(s.decisions, id, gone))
  {
    hide Facts.Run, Facts.NamedIn, Facts.Gone, Facts.SubjectsPresent, Facts.Survives, ChangeOf, Leaves;
    var e := Facts.Run(s, commands, stamp).state;
    Facts.RunIsLocal(s, commands, stamp);
    if id !in Facts.NamedIn(commands) {
      SameNotReported(l, Written(s.nodes, w.node), Written(e.nodes, w.node), skip, id);
      if id !in Facts.Gone(s, commands) {
        SameNotReported(l, Written(s.connections, w.connection), Written(e.connections, w.connection), skip, id);
      }
    }
    if !AboutGone(s.assumptions, id, Facts.Gone(s, commands)) {
      if id in s.assumptions {
        Facts.AssumptionUntouched(s, commands, stamp, id);
      }
      SameNotReported(l, Written(s.assumptions, w.assumption), Written(e.assumptions, w.assumption), skip, id);
    }
    if !AboutGone(s.decisions, id, Facts.Gone(s, commands)) {
      if id in s.decisions {
        Facts.DecisionUntouched(s, commands, stamp, id);
      }
      SameNotReported(l, Written(s.decisions, w.decision), Written(e.decisions, w.decision), skip, id);
    }
  }
}
