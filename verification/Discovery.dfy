/** What a discovery run holds: candidate entities and the references between them. */
module Discovery {
  import opened Options
  import opened Reachability

  /** What a declared resource is to the architecture: only a component can become a node. */
  datatype Role = Component | Routing | Supporting

  /** Container sources (Kubernetes, Compose), Terraform, and the architecture's own JSON form. */
  datatype Source = Image | Terraform | ArchitectureJson

  /** A source property mapped to a configuration property, or why its value cannot be used. */
  datatype PropertyMapping = PropertyMapping(property: Id, value: Option<int>, valid: bool)

  datatype Technology = Technology(name: Id, version: Option<Id>)

  /** `kind` is established by the source or not; `mapped` is the component of a confident mapping;
      `place` is where it stands in the sources. */
  datatype Entity = Entity(key: Id, role: Role, kind: Option<Id>, mapped: Option<Id>, technology: Option<Id>,
    version: Option<Id>, source: Source, configuration: seq<PropertyMapping>, place: Id)

  /** A reference from one entity; `target` is the entity it resolves to. */
  datatype Relationship = Relationship(id: Id, source: Id, reference: Id, selector: bool, target: Option<Id>,
      kind: Option<Id>)

  /** `unknown` are the properties declared unknown, `extra` the fields of unrecognised settings by path. */
  datatype Node = Node(id: Id, kind: Id, technology: Option<Technology>, component: Option<Id>,
    configuration: map<Id, int>, unknown: set<Id>, extra: map<Id, int>, place: Option<Id>)

  datatype Connection = Connection(id: Id, source: Id, target: Id, kind: Id)

  datatype Pair = Pair(source: Id, target: Id)

  /** A run: its entities by key, its relationships by (source, reference, id). */
  datatype Run = Run(entities: map<Id, Entity>, relationships: seq<Relationship>)

  predicate Before(a: Relationship, b: Relationship) {
    a.source < b.source || (a.source == b.source
        && (a.reference < b.reference || (a.reference == b.reference && a.id < b.id)))
  }

  ghost predicate Identified(rs: seq<Relationship>) {
    forall i, j :: 0 <= i < j < |rs| ==> rs[i].id != rs[j].id
  }

  /** Relationships join different entities of the run. */
  ghost predicate Joins(entities: map<Id, Entity>, r: Relationship) {
    r.source in entities && (r.target.Some? ==> r.target.value in entities && r.target.value != r.source)
  }

  ghost predicate ValidRun(run: Run) {
    && (forall k :: k in run.entities ==> run.entities[k].key == k)
    && Identified(run.relationships)
    && (forall i, j :: 0 <= i < j < |run.relationships| ==> Before(run.relationships[i], run.relationships[j]))
    && forall r :: r in run.relationships ==> Joins(run.entities, r)
  }

  // --- references to a service ---------------------------------------------------------------------

  /** The selector of a routing entity, resolved. */
  predicate Selects(entities: map<Id, Entity>, r: Relationship) {
    r.target.Some? && r.selector && r.source in entities && entities[r.source].role.Routing?
  }

  /** Each routing entity with the workload its selector resolves to: the last one listed. */
  function Routes(rs: seq<Relationship>, entities: map<Id, Entity>): (m: map<Id, Id>)
    ensures forall s :: s in m ==>
            exists r :: r in rs && Selects(entities, r) && r.source == s && r.target == Some(m[s])
    ensures forall r :: r in rs && Selects(entities, r) ==> r.source in m
  {
    if rs == [] then map[]
    else
      var last := rs[|rs| - 1];
      assert rs == rs[..|rs| - 1] + [last];
      var m := Routes(rs[..|rs| - 1], entities);
      if Selects(entities, last) then m[last.source := last.target.value] else m
  }

  /** A routing entity has one resolved selector at most. */
  ghost predicate OneSelector(rs: seq<Relationship>, entities: map<Id, Entity>) {
    forall a, b :: a in rs && b in rs && Selects(entities, a) && Selects(entities, b) && a.source == b.source ==> a == b
  }

  lemma RouteKept(a: seq<Relationship>, b: seq<Relationship>, entities: map<Id, Entity>, s: Id)
    requires OneSelector(a, entities) && (forall r :: r in a <==> r in b) && s in Routes(a, entities)
    ensures s in Routes(b, entities) && Routes(b, entities)[s] == Routes(a, entities)[s]
  {
    hide Routes, Selects;
    var m, n := Routes(a, entities), Routes(b, entities);
    var r :| r in a && Selects(entities, r) && r.source == s && r.target == Some(m[s]);
    assert s in n;
    var q :| q in b && Selects(entities, q) && q.source == s && q.target == Some(n[s]);
  }

  /** With one selector each, the routes do not depend on the order the relationships are listed in. */
  lemma RoutesOrderFree(a: seq<Relationship>, b: seq<Relationship>, entities: map<Id, Entity>)
    requires OneSelector(a, entities) && forall r :: r in a <==> r in b
    ensures Routes(a, entities) == Routes(b, entities)
  {
    hide Routes, Selects;
    forall s | s in Routes(a, entities)
      ensures s in Routes(b, entities) && Routes(b, entities)[s] == Routes(a, entities)[s]
    {
      RouteKept(a, b, entities, s);
    }
    forall s | s in Routes(b, entities)
      ensures s in Routes(a, entities)
    {
      RouteKept(b, a, entities, s);
    }
  }

  // --- relationships by id -------------------------------------------------------------------------

  ghost predicate AscendingIds(rs: seq<Relationship>) {
    forall i, j :: 0 <= i < j < |rs| ==> rs[i].id < rs[j].id
  }

  function Insert(r: Relationship, rs: seq<Relationship>): (s: seq<Relationship>)
    ensures forall x :: x in s <==> x == r || x in rs
  {
    if rs == [] then [r]
    else if r.id < rs[0].id then [r] + rs
    else
      assert rs == [rs[0]] + rs[1..];
      [rs[0]] + Insert(r, rs[1..])
  }

  function ById(rs: seq<Relationship>): (s: seq<Relationship>)
    ensures forall x :: x in s <==> x in rs
  {
    if rs == [] then []
    else
      assert rs == [rs[0]] + rs[1..];
      Insert(rs[0], ById(rs[1..]))
  }

  lemma Prepend(r: Relationship, rs: seq<Relationship>)
    requires AscendingIds(rs) && forall x :: x in rs ==> r.id < x.id
    ensures AscendingIds([r] + rs)
  {
    var s := [r] + rs;
    forall j | 0 < j < |s|
      ensures r.id < s[j].id
    {
      assert s[j] == rs[j - 1] && rs[j - 1] in rs;
    }
  }

  lemma HeadLeast(rs: seq<Relationship>, x: Relationship)
    requires AscendingIds(rs) && rs != [] && x in rs[1..]
    ensures rs[0].id < x.id
  {
    var j :| 0 <= j < |rs[1..]| && rs[1..][j] == x;
    assert rs[j + 1] == x;
  }

  lemma InsertAscending(r: Relationship, rs: seq<Relationship>)
    requires AscendingIds(rs) && forall x :: x in rs ==> x.id != r.id
    ensures AscendingIds(Insert(r, rs))
  {
    hide AscendingIds;
    if rs == [] {
      Prepend(r, rs);
      assert [r] + rs == [r];
    } else {
      assert rs == [rs[0]] + rs[1..] && rs[0] in rs;
      forall x | x in rs[1..]
        ensures rs[0].id < x.id
      {
        HeadLeast(rs, x);
      }
      if r.id < rs[0].id {
        Prepend(r, rs);
      } else {
        TailAscending(rs);
        InsertAscending(r, rs[1..]);
        Prepend(rs[0], Insert(r, rs[1..]));
      }
    }
  }

  lemma TailAscending(rs: seq<Relationship>)
    requires AscendingIds(rs) && rs != []
    ensures AscendingIds(rs[1..])
  {
  }

  lemma ByIdAscending(rs: seq<Relationship>)
    requires Identified(rs)
    ensures AscendingIds(ById(rs))
  {
    if rs != [] {
      ByIdAscending(rs[1..]);
      forall x | x in ById(rs[1..])
        ensures x.id != rs[0].id
      {
        assert x in rs[1..];
        var i :| 0 <= i < |rs[1..]| && rs[1..][i] == x;
        assert rs[i + 1] == x;
      }
      InsertAscending(rs[0], ById(rs[1..]));
    }
  }
}
