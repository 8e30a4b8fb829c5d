/** What reading a written architecture gives back. */
module RoundTrip {
  import opened Options
  import opened Decimals
  import opened Serialization

  // --- reading what was written --------------------------------------------------------------------

  lemma {:induction false} ItemsRead<T>(items: seq<Json>, read: Json -> Read<T>, values: seq<T>)
    requires |items| == |values| && forall i :: 0 <= i < |items| ==> read(items[i]) == Got(values[i])
    ensures ReadItems(items, read) == Got(values)
    decreases |items|
  {
    if items != [] {
      var z := |items| - 1;
      ItemsRead(items[..z], read, values[..z]);
      assert values[..z] + [values[z]] == values;
    } else {
      assert values == [];
    }
  }

  lemma MembersRead<T>(m: map<Key, Json>, read: (string, Json) -> Read<T>, values: map<string, T>)
    requires forall k :: k in m <==> k.Property? && k.text in values
    requires forall t :: t in values ==> Property(t) in m && read(t, m[Property(t)]) == Got(values[t])
    ensures ReadMembers(m, read) == Got(values)
  {
    forall k | k in m
      ensures k.Property? && read(k.text, m[k]).Got?
    {
      assert k == Property(k.text);
    }
    var got := map t | t in Labels(m) && Property(t) in m && read(t, m[Property(t)]).Got? ::
        read(t, m[Property(t)]).value;
    forall t
      ensures t in got <==> t in values
    {
      if t in values {
        assert Property(t).text in Labels(m);
      }
    }
    assert got == values;
  }

  lemma TextsRead(s: seq<string>)
    ensures ReadList(Texts(s), ReadText) == Got(s)
  {
    ItemsRead(Texts(s).items, ReadText, s);
  }

  lemma TextMapRead(m: map<string, string>)
    ensures ReadObject(TextMap(m), TextReader()) == Got(m)
  {
    MembersRead(TextMap(m).members, TextReader(), m);
  }

  lemma CodeRead(c: Codec, x: Code)
    requires Inverse(c)
    ensures ReadCode(c, Text(c.write(x))) == Got(x)
  {
    assert c.read(c.write(x)) == Some(x);
  }

  lemma CodeOrRead(c: Codec, x: Option<Code>)
    requires Inverse(c)
    ensures ReadCodeOr(c, CodeOr(c, x)) == Got(x)
  {
    if x.Some? {
      CodeRead(c, x.value);
    }
  }

  lemma ConfidenceRead(d: Decimal)
    requires Fits(d) && Canonical(d) == d
    ensures ReadConfidence(Text(Written(d))) == Got(Some(d))
  {
    hide Fits, Canonical, Written, Decimals.Read;
    PropertyRoundTrip(Exact(d));
  }

  lemma ProvenanceRead(r: Rules, p: Provenance)
    requires Faithful(r) && Plain(p)
    ensures ReadProvenance(r, ProvenanceJson(r, p)) == Got(p) && !ProvenanceJson(r, p).Null?
  {
    hide Fits, Canonical, Written, Decimals.Read, ReadConfidence, ReadCode, ReadCodeOr, CodeOr, Inverse;
    CodeRead(r.source, p.source);
    CodeOrRead(r.time, p.recordedAt);
    if p.confidence.Some? {
      ConfidenceRead(p.confidence.value);
    } else {
      NoConfidence();
    }
  }

  lemma NoConfidence()
    ensures ReadConfidence(Null) == Got(None)
  {
  }

  lemma ProvenanceOrRead(r: Rules, p: Option<Provenance>)
    requires Faithful(r) && (p.Some? ==> Plain(p.value))
    ensures ReadProvenanceOr(r, ProvenanceOr(r, p)) == Got(p)
  {
    hide ReadProvenance, ProvenanceJson, Plain, Faithful;
    if p.Some? {
      ProvenanceRead(r, p.value);
    }
  }

  lemma ReferencesRead(r: Rules, s: seq<Reference>)
    requires Faithful(r)
    ensures ReadList(ReferencesJson(r, s), ReferenceReader(r)) == Got(s)
  {
    forall i | 0 <= i < |s|
      ensures ReadReference(r, ReferenceJson(r, s[i])) == Got(s[i])
    {
      CodeRead(r.uuid, s[i].requirement);
    }
    ItemsRead(ReferencesJson(r, s).items, ReferenceReader(r), s);
  }

  lemma ValueRead(r: Rules, type_: Option<ValueType>, v: Value)
    requires Conforms(r, type_, v)
    ensures ReadValue(r, type_, ValueJson(v)) == Got(AsRead(type_, v))
  {
    hide Fits, Canonical, Written, Decimals.Read;
    match v
    case Number(held) =>
      if type_ == Some(DecimalType) {
        PropertyRoundTrip(held);
      }
    case Words(words) =>
      TextsRead(words);
    case _ =>
  }

  lemma ValuesRead(r: Rules, types: string -> Option<ValueType>, held: map<string, Value>, values: map<string, Value>)
    requires forall k :: k in held ==> Conforms(r, types(k), held[k])
    requires values == map k | k in held :: AsRead(types(k), held[k])
    ensures ReadObject(Object(Properties(held, ValueJson)), ValueReader(r, types)) == Got(values)
  {
    hide ReadValue, ValueJson, Conforms, AsRead;
    var written := Properties(held, ValueJson);
    forall t | t in held
      ensures ReadValue(r, types(t), written[Property(t)]) == Got(values[t])
    {
      ValueRead(r, types(t), held[t]);
    }
    MembersRead(written, ValueReader(r, types), values);
  }

  lemma ConfigurationIs(r: Rules, c: Configuration)
    ensures ConfigurationJson(r, c).Object?
  {
  }

  lemma ConfigurationAt(r: Rules, c: Configuration)
    ensures var m := ConfigurationJson(r, c).members;
            && Shaped(m, {ValuesKey, UnknownKey, ExtraKey}, {})
            && At(m, ValuesKey) == Object(Properties(c.values, ValueJson))
            && At(m, UnknownKey) == Texts(r.sorted(c.unknown)) && At(m, ExtraKey) == Object(c.extra)
  {
    hide Texts, ValueJson, Properties;
  }

  lemma ConfigurationRead(r: Rules, types: string -> Option<ValueType>, c: Configuration, values: map<string, Value>)
    requires Faithful(r) && (forall k :: k in c.values ==> Conforms(r, types(k), c.values[k]))
    requires values == map k | k in c.values :: AsRead(types(k), c.values[k])
    ensures ReadConfiguration(r, types, ConfigurationJson(r, c)) == Got(c.(values := values))
  {
    hide ReadValue, ValueJson, Conforms, AsRead, ReadObject, ReadList, Texts, At, Shaped, ValueReader, Properties,
      ConfigurationJson;
    ConfigurationIs(r, c);
    ConfigurationAt(r, c);
    ValuesRead(r, types, c.values, values);
    TextsRead(r.sorted(c.unknown));
    assert SetOf(r.sorted(c.unknown)) == c.unknown;
  }

  lemma ProvenancesRead(r: Rules, fields: map<string, Provenance>)
    requires Faithful(r) && forall k :: k in fields ==> Plain(fields[k])
    ensures ReadObject(Object(Properties(fields, ProvenanceWriter(r))), ProvenanceReader(r)) == Got(fields)
  {
    hide ReadProvenance, ProvenanceJson, Plain, Faithful;
    var written := Properties(fields, ProvenanceWriter(r));
    forall t | t in fields
      ensures ReadProvenance(r, written[Property(t)]) == Got(fields[t])
    {
      ProvenanceRead(r, fields[t]);
    }
    MembersRead(written, ProvenanceReader(r), fields);
  }

  lemma NotesFieldsAt(r: Rules, n: Notes)
    ensures var m := NotesFields(r, n);
            && At(m, ConfigurationKey) == ConfigurationJson(r, n.configuration)
            && At(m, RequirementRefsKey) == ReferencesJson(r, n.references)
            && At(m, MetadataKey) == TextMap(n.metadata) && At(m, ProvenanceKey) == ProvenanceOr(r, n.provenance)
            && At(m, FieldProvenanceKey) == Object(Properties(n.fields, ProvenanceWriter(r)))
  {
    hide ConfigurationJson, ReferencesJson, TextMap, ProvenanceOr, ProvenanceJson, Properties;
  }

  lemma NotesRead(r: Rules, types: string -> Option<ValueType>, n: Notes, m: map<Key, Json>)
    requires Faithful(r) && ValidNotes(r, types, n)
    requires forall k :: k in NOTES_FIELDS ==> At(m, k) == At(NotesFields(r, n), k)
    ensures ReadNotes(r, types, m) == Got(NotesAsRead(types, n))
  {
    hide ReadConfiguration, ConfigurationJson, ReadProvenance, ProvenanceJson, Faithful, ReadReference,
      ReferencesJson, AsRead, Plain,
      Conforms, ReadList, ReadObject, TextMap, ReadProvenanceOr, ProvenanceOr, NotesFields, At, TextReader,
      ReferenceReader, ProvenanceReader;
    ConfigurationRead(r, types, n.configuration, NotesAsRead(types, n).configuration.values);
    ReferencesRead(r, n.references);
    TextMapRead(n.metadata);
    ProvenanceOrRead(r, n.provenance);
    ProvenancesRead(r, n.fields);
    NotesFieldsAt(r, n);
    var f := NotesFields(r, n);
    assert At(m, ConfigurationKey) == At(f, ConfigurationKey) && At(m, RequirementRefsKey) == At(f, RequirementRefsKey);
    assert At(m, MetadataKey) == At(f, MetadataKey) && At(m, ProvenanceKey) == At(f, ProvenanceKey);
    assert At(m, FieldProvenanceKey) == At(f, FieldProvenanceKey);
  }

  lemma TechnologyRead(t: Option<Technology>)
    ensures ReadTechnology(TechnologyJson(t)) == Got(t)
  {
  }

  /** What a joined object holds of its own fields, and of the fields its notes are written in. */
  lemma JoinedAt(own: map<Key, Json>, notes: map<Key, Json>, k: Key)
    requires own.Keys * notes.Keys == {}
    ensures k in own ==> At(own + notes, k) == own[k]
    ensures k in notes ==> At(own + notes, k) == notes[k]
  {
    assert k in own && k in notes ==> k in own.Keys * notes.Keys;
  }

  lemma NotesKeys(r: Rules, n: Notes)
    ensures NotesFields(r, n).Keys == NOTES_FIELDS
  {
    hide ConfigurationJson, ReferencesJson, TextMap, ProvenanceOr, ProvenanceJson, Properties;
  }

  lemma NotesAt(r: Rules, own: map<Key, Json>, n: Notes)
    requires own.Keys * NOTES_FIELDS == {}
    ensures forall k :: k in NOTES_FIELDS ==> At(own + NotesFields(r, n), k) == At(NotesFields(r, n), k)
  {
    hide NotesFields, NOTES_FIELDS;
    NotesKeys(r, n);
    forall k | k in NOTES_FIELDS
      ensures At(own + NotesFields(r, n), k) == At(NotesFields(r, n), k)
    {
      JoinedAt(own, NotesFields(r, n), k);
    }
  }

  const NODE_OWN := {IdKey, KindKey, NameKey, DescriptionKey, TechnologyKey, ComponentKey, ParentIdKey, LifecycleKey}

  lemma NodeKeys(r: Rules, n: Node)
    ensures NodeFields(r, n).Keys == NODE_OWN && NODE_OWN * NOTES_FIELDS == {} && NODE_OWN + NOTES_FIELDS == NODE_FIELDS
  {
    hide TechnologyJson, CodeOr, TextOr;
    OwnApart(NODE_OWN);
  }

  predicate OfNotes(k: Key) {
    k.ConfigurationKey? || k.RequirementRefsKey? || k.MetadataKey? || k.ProvenanceKey? || k.FieldProvenanceKey?
  }

  lemma OwnApart(own: set<Key>)
    requires forall k :: k in own ==> !OfNotes(k)
    ensures own * NOTES_FIELDS == {}
  {
    assert forall k :: k in NOTES_FIELDS ==> OfNotes(k);
  }

  lemma NodeAt(r: Rules, n: Node)
    ensures var m := NodeFields(r, n);
            && At(m, IdKey) == Text(n.id) && At(m, KindKey) == Text(r.kind.write(n.kind))
            && At(m, NameKey) == Text(n.name)
            && At(m, DescriptionKey) == TextOr(n.description) && At(m, TechnologyKey) == TechnologyJson(n.technology)
            && At(m, ComponentKey) == TextOr(n.component) && At(m, ParentIdKey) == TextOr(n.parent)
            && At(m, LifecycleKey) == CodeOr(r.lifecycle, n.lifecycle)
  {
    hide TechnologyJson, CodeOr, TextOr;
  }

  /** The fields of its own that an object joined with its notes still holds. */
  lemma OwnAt(r: Rules, own: map<Key, Json>, n: Notes, k: Key)
    requires own.Keys * NOTES_FIELDS == {} && k in own
    ensures At(own + NotesFields(r, n), k) == At(own, k)
  {
    hide NotesFields, NOTES_FIELDS;
    NotesKeys(r, n);
    JoinedAt(own, NotesFields(r, n), k);
  }

  lemma JoinedKeys(r: Rules, own: map<Key, Json>, n: Notes)
    ensures (own + NotesFields(r, n)).Keys == own.Keys + NOTES_FIELDS
  {
    hide NotesFields, NOTES_FIELDS;
    NotesKeys(r, n);
  }

  lemma NodeJoined(r: Rules, n: Node, k: Key)
    requires k in NODE_OWN
    ensures At(NodeFields(r, n) + NotesFields(r, n.notes), k) == At(NodeFields(r, n), k)
  {
    hide NodeFields, NotesFields, NOTES_FIELDS, NODE_OWN;
    NodeKeys(r, n);
    OwnAt(r, NodeFields(r, n), n.notes, k);
  }

  lemma NodeShaped(r: Rules, n: Node)
    ensures Shaped(NodeFields(r, n) + NotesFields(r, n.notes), NODE_FIELDS, {IdKey, KindKey, NameKey})
  {
    hide NodeFields, NotesFields, NOTES_FIELDS, NODE_FIELDS;
    NodeKeys(r, n);
    JoinedKeys(r, NodeFields(r, n), n.notes);
    NodeAt(r, n);
    NodeJoined(r, n, IdKey);
    NodeJoined(r, n, KindKey);
    NodeJoined(r, n, NameKey);
  }

  lemma NodeFieldsRead(r: Rules, n: Node, m: map<Key, Json>)
    requires Faithful(r) && m == NodeFields(r, n) + NotesFields(r, n.notes)
    ensures Shaped(m, NODE_FIELDS, {IdKey, KindKey, NameKey})
    ensures ReadText(At(m, IdKey)) == Got(n.id) && ReadCode(r.kind, At(m, KindKey)) == Got(n.kind)
    ensures ReadText(At(m, NameKey)) == Got(n.name)
    ensures ReadTextOr(At(m, DescriptionKey)) == Got(n.description)
    ensures ReadTechnology(At(m, TechnologyKey)) == Got(n.technology)
    ensures ReadTextOr(At(m, ComponentKey)) == Got(n.component) && ReadTextOr(At(m, ParentIdKey)) == Got(n.parent)
    ensures ReadCodeOr(r.lifecycle, At(m, LifecycleKey)) == Got(n.lifecycle)
    ensures forall k :: k in NOTES_FIELDS ==> At(m, k) == At(NotesFields(r, n.notes), k)
  {
    hide NodeFields, NotesFields, NOTES_FIELDS, NODE_FIELDS, Shaped, At, ReadTechnology, TechnologyJson, ReadCode,
      ReadCodeOr, CodeOr, Inverse;
    TechnologyRead(n.technology);
    CodeRead(r.kind, n.kind);
    CodeOrRead(r.lifecycle, n.lifecycle);
    NodeAt(r, n);
    NodeShaped(r, n);
    forall k | k in NODE_OWN
      ensures At(m, k) == At(NodeFields(r, n), k)
    {
      NodeJoined(r, n, k);
    }
    assert At(m, IdKey) == At(NodeFields(r, n), IdKey) && At(m, KindKey) == At(NodeFields(r, n), KindKey);
    assert At(m, NameKey) == At(NodeFields(r, n), NameKey);
    assert At(m, DescriptionKey) == At(NodeFields(r, n), DescriptionKey);
    assert At(m, TechnologyKey) == At(NodeFields(r, n), TechnologyKey);
    assert At(m, ComponentKey) == At(NodeFields(r, n), ComponentKey);
    assert At(m, ParentIdKey) == At(NodeFields(r, n), ParentIdKey);
    assert At(m, LifecycleKey) == At(NodeFields(r, n), LifecycleKey);
    NodeKeys(r, n);
    NotesAt(r, NodeFields(r, n), n.notes);
  }

  lemma NodeRead(r: Rules, n: Node)
    requires Faithful(r) && ValidNotes(r, r.nodeProperty, n.notes)
    ensures ReadNode(r, NodeJson(r, n)) == Got(NodeAsRead(r, n))
  {
    hide NodeFields, NotesFields, ReadNotes, ReadCode, ReadCodeOr, ReadText, ReadTextOr, ReadTechnology, Shaped,
      Faithful, ValidNotes, NotesAsRead, At;
    var m := NodeFields(r, n) + NotesFields(r, n.notes);
    NodeFieldsRead(r, n, m);
    NotesRead(r, r.nodeProperty, n.notes, m);
  }

  const CONNECTION_OWN :=
    {IdKey, SourceIdKey, TargetIdKey, KindKey, ProtocolKey, InteractionKey, BidirectionalKey, CriticalKey, NameKey,
        DescriptionKey}

  lemma ConnectionKeys(r: Rules, c: Connection)
    ensures ConnectionFields(r, c).Keys == CONNECTION_OWN && CONNECTION_OWN * NOTES_FIELDS == {}
    ensures CONNECTION_OWN + NOTES_FIELDS == CONNECTION_FIELDS
  {
    hide CodeOr, TextOr;
    OwnApart(CONNECTION_OWN);
  }

  lemma ConnectionAt(r: Rules, c: Connection)
    ensures var m := ConnectionFields(r, c);
            && At(m, IdKey) == Text(c.id) && At(m, SourceIdKey) == Text(c.source)
            && At(m, TargetIdKey) == Text(c.target)
            && At(m, KindKey) == Text(r.connectionKind.write(c.kind)) && At(m, ProtocolKey) == TextOr(c.protocol)
            && At(m, InteractionKey) == CodeOr(r.interaction, c.interaction)
            && At(m, BidirectionalKey) == Bool(c.bidirectional)
            && At(m, CriticalKey) == (if c.critical.Some? then Bool(c.critical.value) else Null)
            && At(m, NameKey) == TextOr(c.name) && At(m, DescriptionKey) == TextOr(c.description)
  {
    hide CodeOr, TextOr;
  }

  lemma ConnectionJoined(r: Rules, c: Connection, k: Key)
    requires k in CONNECTION_OWN
    ensures At(ConnectionFields(r, c) + NotesFields(r, c.notes), k) == At(ConnectionFields(r, c), k)
  {
    hide ConnectionFields, NotesFields, NOTES_FIELDS, CONNECTION_OWN;
    ConnectionKeys(r, c);
    OwnAt(r, ConnectionFields(r, c), c.notes, k);
  }

  lemma ConnectionShaped(r: Rules, c: Connection)
    ensures Shaped(ConnectionFields(r, c) + NotesFields(r, c.notes), CONNECTION_FIELDS,
            {IdKey, SourceIdKey, TargetIdKey, KindKey})
  {
    hide ConnectionFields, NotesFields, NOTES_FIELDS, CONNECTION_FIELDS;
    ConnectionKeys(r, c);
    JoinedKeys(r, ConnectionFields(r, c), c.notes);
    ConnectionAt(r, c);
    ConnectionJoined(r, c, IdKey);
    ConnectionJoined(r, c, SourceIdKey);
    ConnectionJoined(r, c, TargetIdKey);
    ConnectionJoined(r, c, KindKey);
  }

  lemma ConnectionFieldsRead(r: Rules, c: Connection, m: map<Key, Json>)
    requires Faithful(r) && m == ConnectionFields(r, c) + NotesFields(r, c.notes)
    ensures Shaped(m, CONNECTION_FIELDS, {IdKey, SourceIdKey, TargetIdKey, KindKey})
    ensures ReadText(At(m, IdKey)) == Got(c.id) && ReadText(At(m, SourceIdKey)) == Got(c.source)
    ensures ReadText(At(m, TargetIdKey)) == Got(c.target)
    ensures ReadCode(r.connectionKind, At(m, KindKey)) == Got(c.kind)
    ensures ReadTextOr(At(m, ProtocolKey)) == Got(c.protocol)
    ensures ReadCodeOr(r.interaction, At(m, InteractionKey)) == Got(c.interaction)
    ensures ReadFlag(At(m, BidirectionalKey)) == Got(c.bidirectional)
    ensures At(m, CriticalKey) == if c.critical.Some? then Bool(c.critical.value) else Null
    ensures ReadTextOr(At(m, NameKey)) == Got(c.name) && ReadTextOr(At(m, DescriptionKey)) == Got(c.description)
    ensures forall k :: k in NOTES_FIELDS ==> At(m, k) == At(NotesFields(r, c.notes), k)
  {
    hide ConnectionFields, NotesFields, NOTES_FIELDS, CONNECTION_FIELDS, Shaped, At, ReadCode, ReadCodeOr, CodeOr,
      Inverse;
    CodeRead(r.connectionKind, c.kind);
    CodeOrRead(r.interaction, c.interaction);
    ConnectionAt(r, c);
    ConnectionShaped(r, c);
    forall k | k in CONNECTION_OWN
      ensures At(m, k) == At(ConnectionFields(r, c), k)
    {
      ConnectionJoined(r, c, k);
    }
    var own := ConnectionFields(r, c);
    assert At(m, IdKey) == At(own, IdKey) && At(m, SourceIdKey) == At(own, SourceIdKey);
    assert At(m, TargetIdKey) == At(own, TargetIdKey);
    assert At(m, KindKey) == At(own, KindKey) && At(m, ProtocolKey) == At(own, ProtocolKey);
    assert At(m, InteractionKey) == At(own, InteractionKey);
    assert At(m, BidirectionalKey) == At(own, BidirectionalKey) && At(m, CriticalKey) == At(own, CriticalKey);
    assert At(m, NameKey) == At(own, NameKey) && At(m, DescriptionKey) == At(own, DescriptionKey);
    ConnectionKeys(r, c);
    NotesAt(r, ConnectionFields(r, c), c.notes);
  }

  lemma ConnectionRead(r: Rules, c: Connection)
    requires Faithful(r) && ValidNotes(r, r.connectionProperty, c.notes)
    ensures ReadConnection(r, ConnectionJson(r, c)) == Got(ConnectionAsRead(r, c))
  {
    hide ConnectionFields, NotesFields, ReadNotes, ReadCode, ReadCodeOr, ReadText, ReadTextOr, ReadFlag, Shaped,
      Faithful, ValidNotes, NotesAsRead, At;
    var m := ConnectionFields(r, c) + NotesFields(r, c.notes);
    ConnectionFieldsRead(r, c, m);
    NotesRead(r, r.connectionProperty, c.notes, m);
  }

  lemma AssumptionRead(r: Rules, a: Assumption)
    requires Faithful(r) && Plain(a.provenance)
    ensures ReadAssumption(r, AssumptionJson(r, a)) == Got(a)
  {
    hide ReadProvenance, ProvenanceJson, ReadReference, ReferencesJson, Faithful, Plain, ReadList, Texts;
    ProvenanceRead(r, a.provenance);
    ReferencesRead(r, a.references);
    TextsRead(a.subjects);
  }

  lemma DecisionRead(r: Rules, d: DecisionRef)
    requires Faithful(r)
    ensures ReadDecision(r, DecisionJson(r, d)) == Got(d)
  {
    hide ReadCode, ReadList, Texts, Inverse;
    CodeRead(r.uuid, d.decision);
    TextsRead(d.subjects);
  }

  lemma ElementsRead(r: Rules, a: Architecture)
    requires Faithful(r) && Valid(r, a)
    ensures ReadList(List(seq(|a.nodes|, i requires 0 <= i < |a.nodes| => NodeJson(r, a.nodes[i]))), NodeReader(r))
            == Got(ArchitectureAsRead(r, a).nodes)
    ensures ReadList(List(seq(|a.connections|,
            i requires 0 <= i < |a.connections| => ConnectionJson(r, a.connections[i]))), ConnectionReader(r))
              == Got(ArchitectureAsRead(r, a).connections)
  {
    hide ReadNode, NodeJson, NodeAsRead, ReadConnection, ConnectionJson, ConnectionAsRead, Faithful, ValidNotes;
    var nodes := seq(|a.nodes|, i requires 0 <= i < |a.nodes| => NodeJson(r, a.nodes[i]));
    forall i | 0 <= i < |a.nodes|
      ensures ReadNode(r, nodes[i]) == Got(ArchitectureAsRead(r, a).nodes[i])
    {
      assert a.nodes[i] in a.nodes;
      NodeRead(r, a.nodes[i]);
    }
    ItemsRead(nodes, NodeReader(r), ArchitectureAsRead(r, a).nodes);
    var connections := seq(|a.connections|, i requires 0 <= i < |a.connections| => ConnectionJson(r, a.connections[i]));
    forall i | 0 <= i < |a.connections|
      ensures ReadConnection(r, connections[i]) == Got(ArchitectureAsRead(r, a).connections[i])
    {
      assert a.connections[i] in a.connections;
      ConnectionRead(r, a.connections[i]);
    }
    ItemsRead(connections, ConnectionReader(r), ArchitectureAsRead(r, a).connections);
  }

  lemma RecordsRead(r: Rules, a: Architecture)
    requires Faithful(r) && Valid(r, a)
    ensures ReadList(List(seq(|a.assumptions|,
            i requires 0 <= i < |a.assumptions| => AssumptionJson(r, a.assumptions[i]))), AssumptionReader(r))
            == Got(a.assumptions)
    ensures ReadList(List(seq(|a.decisions|, i requires 0 <= i < |a.decisions| => DecisionJson(r, a.decisions[i]))),
            DecisionReader(r)) == Got(a.decisions)
  {
    hide ReadAssumption, AssumptionJson, ReadDecision, DecisionJson, Faithful, Plain, ValidNotes;
    var assumptions := seq(|a.assumptions|, i requires 0 <= i < |a.assumptions| => AssumptionJson(r, a.assumptions[i]));
    forall i | 0 <= i < |a.assumptions|
      ensures ReadAssumption(r, assumptions[i]) == Got(a.assumptions[i])
    {
      assert a.assumptions[i] in a.assumptions;
      AssumptionRead(r, a.assumptions[i]);
    }
    ItemsRead(assumptions, AssumptionReader(r), a.assumptions);
    var decisions := seq(|a.decisions|, i requires 0 <= i < |a.decisions| => DecisionJson(r, a.decisions[i]));
    forall i | 0 <= i < |a.decisions|
      ensures ReadDecision(r, decisions[i]) == Got(a.decisions[i])
    {
      DecisionRead(r, a.decisions[i]);
    }
    ItemsRead(decisions, DecisionReader(r), a.decisions);
  }

  /** What the model's own checks accept does not depend on whether a number is held as an int or a decimal. */
  ghost predicate Indifferent(r: Rules) {
    forall a :: r.accepts(a) ==> r.accepts(ArchitectureAsRead(r, a))
  }

  /** What an architecture is read back as, if the checks accept it. */
  lemma ReadBack(r: Rules, a: Architecture)
    requires Faithful(r) && Valid(r, a)
    ensures FromJson(r, ToJson(r, a)) == if r.accepts(ArchitectureAsRead(r, a)) then Got(ArchitectureAsRead(r, a))
            else Refused
  {
    hide ReadList, ReadObject, TextMap, ReadProvenanceOr, ProvenanceOr, ReferencesJson, NodeJson, ConnectionJson,
      AssumptionJson, DecisionJson,
      Faithful, Valid, NodeAsRead, ConnectionAsRead, At, Shaped, TextReader, ReferenceReader, NodeReader,
      ConnectionReader, AssumptionReader,
      DecisionReader, ReadText, ReadTextOr;
    ElementsRead(r, a);
    RecordsRead(r, a);
    TextMapRead(a.metadata);
    ReferencesRead(r, a.references);
    ValidIs(r, a);
    ProvenanceOrRead(r, a.provenance);
    ArchitectureAt(r, a);
    TextsOfFields(a);
  }

  /** Every valid architecture is read back from its written form: the same, its decimal properties held as decimals. */
  lemma ArchitectureRoundTrip(r: Rules, a: Architecture)
    requires Faithful(r) && Indifferent(r) && Valid(r, a) && r.accepts(a)
    ensures FromJson(r, ToJson(r, a)) == Got(ArchitectureAsRead(r, a))
  {
    hide FromJson, ToJson, Faithful, Valid, ArchitectureAsRead;
    ReadBack(r, a);
  }

  lemma TextsOfFields(a: Architecture)
    ensures ReadText(Text(a.name)) == Got(a.name) && ReadTextOr(TextOr(a.description)) == Got(a.description)
  {
  }

  lemma ArchitectureAt(r: Rules, a: Architecture)
    ensures var m := ToJson(r, a).members;
            && Shaped(m, ARCHITECTURE_FIELDS, {SchemaVersionKey, NameKey})
            && At(m, SchemaVersionKey) == Int(a.version) && At(m, NameKey) == Text(a.name)
            && At(m, DescriptionKey) == TextOr(a.description)
            && At(m, MetadataKey) == TextMap(a.metadata) && At(m, ProvenanceKey) == ProvenanceOr(r, a.provenance)
            && At(m, RequirementRefsKey) == ReferencesJson(r, a.references)
            && At(m, NodesKey) == List(seq(|a.nodes|, i requires 0 <= i < |a.nodes| => NodeJson(r, a.nodes[i])))
            && At(m, ConnectionsKey) == List(seq(|a.connections|,
                i requires 0 <= i < |a.connections| => ConnectionJson(r, a.connections[i])))
            && At(m, AssumptionsKey) == List(seq(|a.assumptions|,
                i requires 0 <= i < |a.assumptions| => AssumptionJson(r, a.assumptions[i])))
            && At(m, DecisionsKey) == List(seq(|a.decisions|,
                i requires 0 <= i < |a.decisions| => DecisionJson(r, a.decisions[i])))
  {
    hide TextMap, ProvenanceOr, ReferencesJson, NodeJson, ConnectionJson, AssumptionJson, DecisionJson, TextOr;
  }

  lemma ValidIs(r: Rules, a: Architecture)
    requires Valid(r, a)
    ensures a.provenance.Some? ==> Plain(a.provenance.value)
  {
    hide Plain, ValidNotes;
  }

  // --- one form, after one reading -----------------------------------------------------------------

  lemma ValueOnce(r: Rules, type_: Option<ValueType>, v: Value)
    requires Conforms(r, type_, v)
    ensures AsRead(type_, AsRead(type_, v)) == AsRead(type_, v) && Conforms(r, type_, AsRead(type_, v))
  {
    hide Fits, Canonical, Written, Decimals.Read;
    if v.Number? && v.held.Whole? && type_ == Some(DecimalType) {
      PropertyRoundTrip(v.held);
    }
  }

  lemma NotesOnce(r: Rules, types: string -> Option<ValueType>, n: Notes)
    requires ValidNotes(r, types, n)
    ensures NotesAsRead(types, NotesAsRead(types, n)) == NotesAsRead(types, n)
    ensures ValidNotes(r, types, NotesAsRead(types, n))
  {
    hide Conforms, AsRead, Plain;
    forall k | k in n.configuration.values
      ensures AsRead(types(k), AsRead(types(k), n.configuration.values[k]))
              == AsRead(types(k), n.configuration.values[k])
      ensures Conforms(r, types(k), AsRead(types(k), n.configuration.values[k]))
    {
      ValueOnce(r, types(k), n.configuration.values[k]);
    }
    var once := NotesAsRead(types, n);
    assert NotesAsRead(types, once).configuration.values == once.configuration.values;
  }

  /** What was read once is read the same ever after: one round trip gives a fixed point of the written form. */
  lemma RoundTripSettles(r: Rules, a: Architecture)
    requires Faithful(r) && Indifferent(r) && Valid(r, a) && r.accepts(a)
    ensures var once := ArchitectureAsRead(r, a); Valid(r, once) && FromJson(r, ToJson(r, once)) == Got(once)
  {
    hide ValidNotes, NotesAsRead, Faithful, Plain, FromJson, ToJson;
    var once := ArchitectureAsRead(r, a);
    forall i | 0 <= i < |a.nodes|
      ensures NodeAsRead(r, once.nodes[i]) == once.nodes[i] && ValidNotes(r, r.nodeProperty, once.nodes[i].notes)
    {
      assert a.nodes[i] in a.nodes;
      NotesOnce(r, r.nodeProperty, a.nodes[i].notes);
    }
    forall i | 0 <= i < |a.connections|
      ensures ConnectionAsRead(r, once.connections[i]) == once.connections[i]
      ensures ValidNotes(r, r.connectionProperty, once.connections[i].notes)
    {
      assert a.connections[i] in a.connections;
      NotesOnce(r, r.connectionProperty, a.connections[i].notes);
    }
    var twice := ArchitectureAsRead(r, once);
    assert twice.nodes == once.nodes && twice.connections == once.connections;
    ReadBack(r, once);
  }

  /** No decimal property is held as an int. */
  ghost predicate NoWholeDecimals(types: string -> Option<ValueType>, n: Notes) {
    forall k :: k in n.configuration.values && types(k) == Some(DecimalType) && n.configuration.values[k].Number? ==>
      n.configuration.values[k].held.Exact?
  }

  lemma NotesUnchanged(r: Rules, types: string -> Option<ValueType>, n: Notes)
    ensures NotesAsRead(types, n) == n <==> NoWholeDecimals(types, n)
  {
    var once := NotesAsRead(types, n).configuration.values;
    if NoWholeDecimals(types, n) {
      assert once == n.configuration.values;
    } else {
      var k :| k in n.configuration.values && types(k) == Some(DecimalType) && n.configuration.values[k].Number?
               && n.configuration.values[k].held.Whole?;
      assert once[k] != n.configuration.values[k];
    }
  }

  ghost predicate AllDecimalsExact(r: Rules, a: Architecture) {
    && (forall i :: 0 <= i < |a.nodes| ==> NoWholeDecimals(r.nodeProperty, a.nodes[i].notes))
    && (forall i :: 0 <= i < |a.connections| ==> NoWholeDecimals(r.connectionProperty, a.connections[i].notes))
  }

  lemma AsReadUnchanged(r: Rules, a: Architecture)
    ensures ArchitectureAsRead(r, a) == a <==> AllDecimalsExact(r, a)
  {
    hide NotesAsRead, NoWholeDecimals;
    var once := ArchitectureAsRead(r, a);
    forall i | 0 <= i < |a.nodes|
      ensures once.nodes[i] == a.nodes[i] <==> NoWholeDecimals(r.nodeProperty, a.nodes[i].notes)
    {
      NotesUnchanged(r, r.nodeProperty, a.nodes[i].notes);
    }
    forall i | 0 <= i < |a.connections|
      ensures once.connections[i] == a.connections[i] <==> NoWholeDecimals(r.connectionProperty, a.connections[i].notes)
    {
      NotesUnchanged(r, r.connectionProperty, a.connections[i].notes);
    }
    assert once.nodes == a.nodes <==> forall i :: 0 <= i < |a.nodes| ==> once.nodes[i] == a.nodes[i];
    assert once.connections == a.connections <==>
        forall i :: 0 <= i < |a.connections| ==> once.connections[i] == a.connections[i];
  }

  /** A valid architecture is read back as it was exactly when no decimal property of it is held as an int. */
  lemma UnchangedExactly(r: Rules, a: Architecture)
    requires Faithful(r) && Indifferent(r) && Valid(r, a) && r.accepts(a)
    ensures FromJson(r, ToJson(r, a)) == Got(a) <==> AllDecimalsExact(r, a)
  {
    hide FromJson, ToJson, Faithful, Valid, Indifferent, ArchitectureAsRead, AllDecimalsExact;
    ArchitectureRoundTrip(r, a);
    AsReadUnchanged(r, a);
  }
}
