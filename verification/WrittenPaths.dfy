/** Under which path a diff finds each field of a written element. */
module WrittenPaths {
  import opened Options
  import opened Serialization
  import opened RoundTrip
  import opened FieldPaths
  import opened WrittenDiff

  /** The value found at a path of an element. */
  function Found(l: Listing, o: Record, path: string): Json {
    Get(Leaves(l, o, "", false), path)
  }

  /** What is under a key is found under paths that start with its name. */
  lemma UnderKey(l: Listing, o: Record, k: Key, x: string)
    requires Lists(l) && (forall z :: z in o.members ==> !z.Property?) && k in o.members && IsTail(x)
    ensures Found(l, o, KeyText(k) + x) == Get(LeavesAt(l, k, o.members[k], "", false), KeyText(k) + x)
  {
    hide Leaves, LeavesAt, KeyText, Lists;
    FixedApart(o.members.Keys);
    PartIs(l, o, o.members.Keys, k, "", false, x);
    assert "" + (KeyText(k) + x) == KeyText(k) + x;
  }

  /** A field that is no object, or is compared whole, is found under the name of its key. */
  lemma PlainField(l: Listing, o: Record, k: Key)
    requires Lists(l) && (forall z :: z in o.members ==> !z.Property?) && k in o.members
    requires !k.ConfigurationKey? && !k.FieldProvenanceKey? && (o.members[k].Object? ==> IsWhole(KeyText(k)))
    ensures Found(l, o, KeyText(k)) == o.members[k]
  {
    hide Leaves, KeyText, Lists, IsConfiguration;
    UnderKey(l, o, k, "");
    FirstLevel(k);
    assert "" + KeyText(k) == KeyText(k) == KeyText(k) + "";
    assert LeavesAt(l, k, o.members[k], "", false) == map[KeyText(k) := o.members[k]];
  }

  /** A field with named parts that are compared whole has each under its name. */
  lemma NamedPart(l: Listing, o: Record, k: Key, whole: bool, name: string)
    requires Lists(l) && (forall z :: z in o.members ==> !z.Property?) && k in o.members && Level(o.members[k], whole)
    requires if k.FieldProvenanceKey? then whole else k.MetadataKey? && !whole
    ensures Found(l, o, KeyText(k) + "." + name) == At(o.members[k].members, Property(name))
  {
    hide Leaves, KeyText, Lists, IsConfiguration;
    var item := o.members[k];
    UnderKey(l, o, k, "." + name);
    assert KeyText(k) + ("." + name) == KeyText(k) + "." + name == (KeyText(k) + ".") + name;
    FlatGet(l, item, KeyText(k) + ".", whole, Property(name));
    assert KeyText(Property(name)) == name by { PropertyText(Property(name)); }
    NamedWalk(l, k, item, whole);
  }

  lemma NamedWalk(l: Listing, k: Key, item: Json, whole: bool)
    requires item.Object? && if k.FieldProvenanceKey? then whole else k.MetadataKey? && !whole
    ensures LeavesAt(l, k, item, "", false) == Leaves(l, item, KeyText(k) + ".", whole)
  {
    hide Leaves, IsConfiguration;
    assert "" + KeyText(k) == KeyText(k);
    assert KeyText(k) + "." == if k.FieldProvenanceKey? then "field_provenance." else "metadata.";
  }

  lemma KeyNames()
    ensures KeyText(IdKey) == "id" && KeyText(KindKey) == "kind" && KeyText(NameKey) == "name"
    ensures KeyText(DescriptionKey) == "description" && KeyText(ComponentKey) == "component"
    ensures KeyText(ParentIdKey) == "parent_id" && KeyText(LifecycleKey) == "lifecycle"
    ensures KeyText(TechnologyKey) == "technology" && KeyText(ProvenanceKey) == "provenance"
    ensures KeyText(RequirementRefsKey) == "requirement_refs" && KeyText(MetadataKey) == "metadata"
    ensures KeyText(FieldProvenanceKey) == "field_provenance" && KeyText(ConfigurationKey) == "configuration"
    ensures IsWhole("provenance") && IsTail(".name") && IsTail(".version") && IsTail(".unknown")
  {
  }

  ghost predicate Holds(o: Record, k: Key, item: Json) {
    k in o.members && o.members[k] == item
  }

  /** The members are all of fixed names. */
  ghost predicate IsFixed(o: Record) {
    forall z :: z in o.members ==> !z.Property?
  }

  lemma PlainAt(l: Listing, o: Record, k: Key, item: Json)
    requires Lists(l) && IsFixed(o) && Holds(o, k, item)
    requires !k.ConfigurationKey? && !k.FieldProvenanceKey? && (item.Object? ==> IsWhole(KeyText(k)))
    ensures Found(l, o, KeyText(k)) == item
  {
    hide Found, KeyText, Lists;
    PlainField(l, o, k);
  }

  lemma OwnMember(r: Rules, n: Node, o: Record, k: Key, item: Json)
    requires o == NodeJson(r, n) && k in NODE_OWN && At(NodeFields(r, n), k) == item
    ensures Holds(o, k, item)
  {
    hide NodeFields, NotesFields, NODE_OWN, NOTES_FIELDS, NODE_FIELDS;
    NodeKeys(r, n);
    JoinedKeys(r, NodeFields(r, n), n.notes);
    NodeJoined(r, n, k);
  }

  lemma NodeFixed(r: Rules, n: Node)
    ensures NodeJson(r, n).Object? && IsFixed(NodeJson(r, n))
  {
    hide NodeFields, NotesFields, NODE_OWN, NOTES_FIELDS, NODE_FIELDS;
    NodeKeys(r, n);
    JoinedKeys(r, NodeFields(r, n), n.notes);
    FixedKeys();
  }

  lemma OwnKeys()
    ensures IdKey in NODE_OWN && KindKey in NODE_OWN && NameKey in NODE_OWN && DescriptionKey in NODE_OWN
    ensures ComponentKey in NODE_OWN && ParentIdKey in NODE_OWN && LifecycleKey in NODE_OWN && TechnologyKey in NODE_OWN
  {
  }

  lemma NodeHolds(r: Rules, n: Node, o: Record)
    requires o == NodeJson(r, n)
    ensures Holds(o, IdKey, Text(n.id)) && Holds(o, KindKey, Text(r.kind.write(n.kind)))
    ensures Holds(o, NameKey, Text(n.name)) && Holds(o, DescriptionKey, TextOr(n.description))
    ensures Holds(o, ComponentKey, TextOr(n.component)) && Holds(o, ParentIdKey, TextOr(n.parent))
    ensures Holds(o, LifecycleKey, CodeOr(r.lifecycle, n.lifecycle))
    ensures Holds(o, TechnologyKey, TechnologyJson(n.technology))
  {
    hide *;
    OwnKeys();
    NodeAt(r, n);
    OwnMember(r, n, o, IdKey, Text(n.id));
    OwnMember(r, n, o, KindKey, Text(r.kind.write(n.kind)));
    OwnMember(r, n, o, NameKey, Text(n.name));
    OwnMember(r, n, o, DescriptionKey, TextOr(n.description));
    OwnMember(r, n, o, ComponentKey, TextOr(n.component));
    OwnMember(r, n, o, ParentIdKey, TextOr(n.parent));
    OwnMember(r, n, o, LifecycleKey, CodeOr(r.lifecycle, n.lifecycle));
    OwnMember(r, n, o, TechnologyKey, TechnologyJson(n.technology));
  }

  lemma NotesHeld(r: Rules, n: Node, o: Record)
    requires o == NodeJson(r, n)
    ensures Holds(o, ProvenanceKey, ProvenanceOr(r, n.notes.provenance))
    ensures Holds(o, RequirementRefsKey, ReferencesJson(r, n.notes.references))
    ensures Holds(o, MetadataKey, TextMap(n.notes.metadata))
    ensures Holds(o, FieldProvenanceKey, Object(Properties(n.notes.fields, ProvenanceWriter(r))))
    ensures Holds(o, ConfigurationKey, ConfigurationJson(r, n.notes.configuration))
  {
    hide NodeFields, ProvenanceOr, ReferencesJson, TextMap, Properties, ConfigurationJson;
    NodeKeys(r, n);
    JoinedKeys(r, NodeFields(r, n), n.notes);
  }

  lemma NoObjects(r: Rules, n: Node)
    ensures !TextOr(n.description).Object? && !TextOr(n.component).Object? && !TextOr(n.parent).Object?
    ensures !CodeOr(r.lifecycle, n.lifecycle).Object? && !ReferencesJson(r, n.notes.references).Object?
  {
  }

  /** A node's own fields are found under their names, and its technology under two. */
  lemma NodeOwnPaths(l: Listing, r: Rules, n: Node)
    requires Lists(l)
    ensures var o := NodeJson(r, n);
            && Found(l, o, "id") == Text(n.id) && Found(l, o, "kind") == Text(r.kind.write(n.kind))
            && Found(l, o, "name") == Text(n.name) && Found(l, o, "description") == TextOr(n.description)
            && Found(l, o, "component") == TextOr(n.component) && Found(l, o, "parent_id") == TextOr(n.parent)
            && Found(l, o, "lifecycle") == CodeOr(r.lifecycle, n.lifecycle)
            && Found(l, o, "technology.name") == (if n.technology.Some? then Text(n.technology.value.name) else Null)
            && Found(l, o, "technology.version")
               == (if n.technology.Some? then TextOr(n.technology.value.version) else Null)
  {
    hide *;
    NodeFixed(r, n);
    var o := NodeJson(r, n);
    NodeHolds(r, n, o);
    NoObjects(r, n);
    KeyNames();
    PlainAt(l, o, IdKey, Text(n.id));
    PlainAt(l, o, KindKey, Text(r.kind.write(n.kind)));
    PlainAt(l, o, NameKey, Text(n.name));
    PlainAt(l, o, DescriptionKey, TextOr(n.description));
    PlainAt(l, o, ComponentKey, TextOr(n.component));
    PlainAt(l, o, ParentIdKey, TextOr(n.parent));
    PlainAt(l, o, LifecycleKey, CodeOr(r.lifecycle, n.lifecycle));
    TechnologyPaths(l, o, n.technology);
  }

  lemma TechnologyPaths(l: Listing, o: Record, t: Option<Technology>)
    requires Lists(l) && IsFixed(o) && Holds(o, TechnologyKey, TechnologyJson(t))
    ensures Found(l, o, "technology.name") == (if t.Some? then Text(t.value.name) else Null)
    ensures Found(l, o, "technology.version") == (if t.Some? then TextOr(t.value.version) else Null)
  {
    hide LeavesAt, Lists, KeyText, TechnologyJson, Found;
    KeyNames();
    UnderKey(l, o, TechnologyKey, ".name");
    UnderKey(l, o, TechnologyKey, ".version");
    TechnologyLeaves(l, t);
    assert "technology" + ".name" == "technology.name" && "technology" + ".version" == "technology.version";
  }

  /**
   * Provenance and references are found whole; metadata and the provenance of fields by name; a configuration value
   * under its property, the unknown ones in one list, and unrecognised settings beside them.
   */
  lemma NodeNotesPaths(l: Listing, r: Rules, n: Node, name: string)
    requires Lists(l) && Faithful(r) && NamesTold(r.nodeProperty) && ValidNotes(r, r.nodeProperty, n.notes)
    ensures var o, notes := NodeJson(r, n), n.notes;
            && Found(l, o, "provenance") == ProvenanceOr(r, notes.provenance)
            && Found(l, o, "requirement_refs") == ReferencesJson(r, notes.references)
            && Found(l, o, "metadata." + name) == (if name in notes.metadata then Text(notes.metadata[name]) else Null)
            && Found(l, o, "field_provenance." + name)
               == (if name in notes.fields then ProvenanceJson(r, notes.fields[name]) else Null)
    ensures var o, c := NodeJson(r, n), n.notes.configuration;
            && (NoDot(name) && name != "unknown" ==>
                  Found(l, o, "configuration." + name) == if name in c.values then ValueJson(c.values[name]) else Null)
            && Found(l, o, "configuration.unknown") == (if c.unknown != {} then Texts(r.sorted(c.unknown)) else Null)
            && Found(l, o, "configuration.extra." + name) == Get(SettingFields(l, c), "configuration.extra." + name)
  {
    hide *;
    NodeFixed(r, n);
    var o := NodeJson(r, n);
    NotesHeld(r, n, o);
    NoObjects(r, n);
    KeyNames();
    PlainAt(l, o, ProvenanceKey, ProvenanceOr(r, n.notes.provenance));
    PlainAt(l, o, RequirementRefsKey, ReferencesJson(r, n.notes.references));
    MetadataPath(l, o, n.notes.metadata, name);
    assert FieldsPlain(n.notes) by { FieldsArePlain(r, n.notes); }
    RecordPath(l, r, o, n.notes, name);
    ConfigurationPath(l, r, o, n.notes, name);
  }

  ghost predicate FieldsPlain(n: Notes) {
    forall k :: k in n.fields ==> Plain(n.fields[k])
  }

  lemma FieldsArePlain(r: Rules, n: Notes)
    requires ValidNotes(r, r.nodeProperty, n)
    ensures FieldsPlain(n)
  {
    hide Conforms, Plain;
  }

  lemma MetadataPath(l: Listing, o: Record, metadata: map<string, string>, name: string)
    requires Lists(l) && IsFixed(o) && Holds(o, MetadataKey, TextMap(metadata))
    ensures Found(l, o, "metadata." + name) == (if name in metadata then Text(metadata[name]) else Null)
  {
    hide Found, Lists, KeyText;
    KeyNames();
    MetadataFlat(metadata);
    NamedPart(l, o, MetadataKey, false, name);
    assert "metadata" + "." + name == "metadata." + name;
  }

  lemma RecordPath(l: Listing, r: Rules, o: Record, n: Notes, name: string)
    requires Lists(l) && IsFixed(o) && Faithful(r) && FieldsPlain(n)
    requires Holds(o, FieldProvenanceKey, Object(Properties(n.fields, ProvenanceWriter(r))))
    ensures Found(l, o, "field_provenance." + name)
            == (if name in n.fields then ProvenanceJson(r, n.fields[name]) else Null)
  {
    hide Found, Lists, KeyText, ProvenanceJson, Faithful, Plain;
    KeyNames();
    RecordsFlat(r, n.fields);
    NamedPart(l, o, FieldProvenanceKey, true, name);
    assert "field_provenance" + "." + name == "field_provenance." + name;
  }

  lemma ConfigurationPath(l: Listing, r: Rules, o: Record, n: Notes, name: string)
    requires Lists(l) && IsFixed(o) && Faithful(r) && NamesTold(r.nodeProperty) && ValidNotes(r, r.nodeProperty, n)
    requires Holds(o, ConfigurationKey, ConfigurationJson(r, n.configuration))
    ensures var c := n.configuration;
            && (NoDot(name) && name != "unknown" ==>
                  Found(l, o, "configuration." + name) == if name in c.values then ValueJson(c.values[name]) else Null)
            && Found(l, o, "configuration.unknown") == (if c.unknown != {} then Texts(r.sorted(c.unknown)) else Null)
            && Found(l, o, "configuration.extra." + name) == Get(SettingFields(l, c), "configuration.extra." + name)
  {
    hide *;
    ConfigurationShape(r, o, n);
    if NoDot(name) && name != "unknown" {
      ConfiguredValue(l, o, n.configuration, name);
    }
    ConfiguredUnknown(l, r, o, n.configuration);
    ConfiguredExtra(l, o, n.configuration, name);
    SettingsWritten(l, r, o, n);
  }

  lemma ConfigurationShape(r: Rules, o: Record, n: Notes)
    requires NamesTold(r.nodeProperty) && ValidNotes(r, r.nodeProperty, n)
    requires Holds(o, ConfigurationKey, ConfigurationJson(r, n.configuration))
    ensures ConfigurationKey in o.members
    ensures var written, c := o.members[ConfigurationKey], n.configuration;
            && IsConfiguration(written) && Configured(written)
            && written.members[ValuesKey] == Object(Properties(c.values, ValueJson))
            && written.members[UnknownKey] == Texts(r.sorted(c.unknown))
  {
    hide ConfigurationJson, Conforms, Plain, Properties, NamesTold;
    ConfigurationWritten(r, r.nodeProperty, n.configuration);
  }

  lemma ConfiguredValue(l: Listing, o: Record, c: Configuration, name: string)
    requires Lists(l) && IsFixed(o) && ConfigurationKey in o.members && NoDot(name) && name != "unknown"
    requires IsConfiguration(o.members[ConfigurationKey]) && Configured(o.members[ConfigurationKey])
    requires o.members[ConfigurationKey].members[ValuesKey] == Object(Properties(c.values, ValueJson))
    ensures Found(l, o, "configuration." + name) == if name in c.values then ValueJson(c.values[name]) else Null
  {
    hide LeavesAt, Lists, Found, Properties, ValuesPart, ExtraPart, KeyText, IsConfiguration, Configured, Get,
      ValueJson;
    var written := o.members[ConfigurationKey];
    KeyNames();
    UnderKey(l, o, ConfigurationKey, "." + name);
    ValuesGet(l, written, name);
    ValuePath(l, written, c, name);
    assert "configuration" + ("." + name) == "configuration." + name;
  }

  lemma ConfiguredUnknown(l: Listing, r: Rules, o: Record, c: Configuration)
    requires Lists(l) && IsFixed(o) && ConfigurationKey in o.members && Faithful(r)
    requires IsConfiguration(o.members[ConfigurationKey]) && Configured(o.members[ConfigurationKey])
    requires o.members[ConfigurationKey].members[UnknownKey] == Texts(r.sorted(c.unknown))
    ensures Found(l, o, "configuration.unknown") == (if c.unknown != {} then Texts(r.sorted(c.unknown)) else Null)
  {
    hide LeavesAt, Lists, Found, Properties, ValuesPart, ExtraPart, KeyText, IsConfiguration, Configured, Get, Faithful;
    KeyNames();
    UnderKey(l, o, ConfigurationKey, ".unknown");
    UnknownGet(l, o.members[ConfigurationKey]);
    UnknownListed(r, c.unknown);
    assert "configuration" + ".unknown" == "configuration.unknown";
  }

  lemma ConfiguredExtra(l: Listing, o: Record, c: Configuration, name: string)
    requires Lists(l) && IsFixed(o) && ConfigurationKey in o.members
    requires IsConfiguration(o.members[ConfigurationKey]) && Configured(o.members[ConfigurationKey])
    ensures Found(l, o, "configuration.extra." + name)
            == Get(ExtraPart(l, o.members[ConfigurationKey]), "configuration.extra." + name)
  {
    hide LeavesAt, Lists, Found, Properties, ValuesPart, ExtraPart, KeyText, IsConfiguration, Configured, Get;
    KeyNames();
    UnderKey(l, o, ConfigurationKey, ".extra." + name);
    ExtraGet(l, o.members[ConfigurationKey], name);
    assert "configuration" + (".extra." + name) == "configuration.extra." + name == "configuration."
        + ("extra." + name);
  }

  /** The part of unrecognised settings is the fields of those held. */
  lemma SettingsWritten(l: Listing, r: Rules, o: Record, n: Notes)
    requires NamesTold(r.nodeProperty) && ValidNotes(r, r.nodeProperty, n)
    requires Holds(o, ConfigurationKey, ConfigurationJson(r, n.configuration))
    ensures ConfigurationKey in o.members && IsConfiguration(o.members[ConfigurationKey])
    ensures ExtraPart(l, o.members[ConfigurationKey]) == SettingFields(l, n.configuration)
  {
    hide Leaves, ConfigurationJson, Conforms, Plain, Properties, NamesTold;
    ConfigurationWritten(r, r.nodeProperty, n.configuration);
  }

  lemma ValuePath(l: Listing, written: Json, c: Configuration, name: string)
    requires Lists(l) && IsConfiguration(written) && Configured(written)
    requires written.members[ValuesKey] == Object(Properties(c.values, ValueJson))
    ensures Get(ValuesPart(l, written), "configuration." + name)
            == if name in c.values then ValueJson(c.values[name]) else Null
  {
    hide Leaves, Lists, ValueJson, KeyText;
    FlatGet(l, written.members[ValuesKey], "configuration.", false, Property(name));
    PropertyText(Property(name));
  }

  lemma UnknownListed(r: Rules, names: set<string>)
    requires Faithful(r)
    ensures Texts(r.sorted(names)).List? && (Texts(r.sorted(names)).items == [] <==> names == {})
  {
    var listed := r.sorted(names);
    assert SetOf(listed) == names;
    if listed == [] {
      assert SetOf(listed) == {};
    } else {
      assert listed[0] in SetOf(listed);
    }
  }

  // --- connections, assumptions, decisions and the architecture itself -----------------------------

  lemma ConnectionFixed(r: Rules, c: Connection)
    ensures ConnectionJson(r, c).Object? && IsFixed(ConnectionJson(r, c))
  {
    hide ConnectionFields, NotesFields, CONNECTION_OWN, NOTES_FIELDS, CONNECTION_FIELDS;
    ConnectionKeys(r, c);
    JoinedKeys(r, ConnectionFields(r, c), c.notes);
    FixedKeys();
  }

  lemma ConnectionMember(r: Rules, c: Connection, o: Record, k: Key, item: Json)
    requires o == ConnectionJson(r, c) && k in CONNECTION_OWN && At(ConnectionFields(r, c), k) == item
    ensures Holds(o, k, item)
  {
    hide ConnectionFields, NotesFields, CONNECTION_OWN, NOTES_FIELDS, CONNECTION_FIELDS;
    ConnectionKeys(r, c);
    JoinedKeys(r, ConnectionFields(r, c), c.notes);
    ConnectionJoined(r, c, k);
  }

  lemma ConnectionNames()
    ensures IdKey in CONNECTION_OWN && SourceIdKey in CONNECTION_OWN && TargetIdKey in CONNECTION_OWN
    ensures KindKey in CONNECTION_OWN && ProtocolKey in CONNECTION_OWN && InteractionKey in CONNECTION_OWN
    ensures BidirectionalKey in CONNECTION_OWN && CriticalKey in CONNECTION_OWN && NameKey in CONNECTION_OWN
    ensures DescriptionKey in CONNECTION_OWN
    ensures KeyText(SourceIdKey) == "source_id" && KeyText(TargetIdKey) == "target_id"
    ensures KeyText(ProtocolKey) == "protocol" && KeyText(InteractionKey) == "interaction"
    ensures KeyText(BidirectionalKey) == "bidirectional" && KeyText(CriticalKey) == "critical"
  {
  }

  /** A field of a connection that is no object. */
  lemma ConnectionField(l: Listing, r: Rules, c: Connection, k: Key, item: Json)
    requires Lists(l) && k in CONNECTION_OWN && At(ConnectionFields(r, c), k) == item && !item.Object?
    requires !k.ConfigurationKey? && !k.FieldProvenanceKey?
    ensures ConnectionJson(r, c).Object? && Found(l, ConnectionJson(r, c), KeyText(k)) == item
  {
    hide *;
    ConnectionFixed(r, c);
    ConnectionMember(r, c, ConnectionJson(r, c), k, item);
    PlainAt(l, ConnectionJson(r, c), k, item);
  }

  lemma NoConnectionObjects(r: Rules, c: Connection)
    ensures !TextOr(c.protocol).Object? && !TextOr(c.name).Object? && !TextOr(c.description).Object?
    ensures !CodeOr(r.interaction, c.interaction).Object?
  {
  }

  /** A connection's own fields are found under their names. */
  lemma ConnectionOwnPaths(l: Listing, r: Rules, c: Connection)
    requires Lists(l)
    ensures var o := ConnectionJson(r, c);
            && Found(l, o, "id") == Text(c.id) && Found(l, o, "source_id") == Text(c.source)
            && Found(l, o, "target_id") == Text(c.target)
            && Found(l, o, "kind") == Text(r.connectionKind.write(c.kind))
            && Found(l, o, "protocol") == TextOr(c.protocol)
            && Found(l, o, "interaction") == CodeOr(r.interaction, c.interaction)
            && Found(l, o, "bidirectional") == Bool(c.bidirectional)
            && Found(l, o, "critical") == (if c.critical.Some? then Bool(c.critical.value) else Null)
            && Found(l, o, "name") == TextOr(c.name) && Found(l, o, "description") == TextOr(c.description)
  {
    hide *;
    ConnectionFixed(r, c);
    KeyNames();
    ConnectionNames();
    ConnectionAt(r, c);
    NoConnectionObjects(r, c);
    ConnectionField(l, r, c, IdKey, Text(c.id));
    ConnectionField(l, r, c, SourceIdKey, Text(c.source));
    ConnectionField(l, r, c, TargetIdKey, Text(c.target));
    ConnectionField(l, r, c, KindKey, Text(r.connectionKind.write(c.kind)));
    ConnectionField(l, r, c, ProtocolKey, TextOr(c.protocol));
    ConnectionField(l, r, c, InteractionKey, CodeOr(r.interaction, c.interaction));
    ConnectionField(l, r, c, BidirectionalKey, Bool(c.bidirectional));
    ConnectionField(l, r, c, CriticalKey, if c.critical.Some? then Bool(c.critical.value) else Null);
    ConnectionField(l, r, c, NameKey, TextOr(c.name));
    ConnectionField(l, r, c, DescriptionKey, TextOr(c.description));
  }

  lemma OtherNames()
    ensures KeyText(StatementKey) == "statement" && KeyText(SubjectIdsKey) == "subject_ids"
    ensures KeyText(DecisionIdKey) == "decision_id"
  {
  }

  /** So are those of an assumption and of a decision, what they are about as one list. */
  lemma SubjectPaths(l: Listing, r: Rules, a: Assumption, d: DecisionRef)
    requires Lists(l)
    ensures var o := AssumptionJson(r, a);
            && Found(l, o, "id") == Text(a.id) && Found(l, o, "statement") == Text(a.statement)
            && Found(l, o, "provenance") == ProvenanceJson(r, a.provenance)
            && Found(l, o, "subject_ids") == Texts(a.subjects)
            && Found(l, o, "requirement_refs") == ReferencesJson(r, a.references)
    ensures var o := DecisionJson(r, d);
            && Found(l, o, "decision_id") == Text(r.uuid.write(d.decision))
            && Found(l, o, "subject_ids") == Texts(d.subjects)
  {
    hide Found, KeyText, ProvenanceJson, ReferencesJson, Texts, Lists, IsWhole;
    var o, p := AssumptionJson(r, a), DecisionJson(r, d);
    KeyNames();
    OtherNames();
    ListsAreNone(r, a, d);
    PlainAt(l, o, IdKey, Text(a.id));
    PlainAt(l, o, StatementKey, Text(a.statement));
    PlainAt(l, o, ProvenanceKey, ProvenanceJson(r, a.provenance));
    PlainAt(l, o, SubjectIdsKey, Texts(a.subjects));
    PlainAt(l, o, RequirementRefsKey, ReferencesJson(r, a.references));
    PlainAt(l, p, DecisionIdKey, Text(r.uuid.write(d.decision)));
    PlainAt(l, p, SubjectIdsKey, Texts(d.subjects));
  }

  lemma ListsAreNone(r: Rules, a: Assumption, d: DecisionRef)
    ensures !Texts(a.subjects).Object? && !Texts(d.subjects).Object? && !ReferencesJson(r, a.references).Object?
  {
  }

  /** And those of the architecture itself. */
  lemma HeaderPaths(l: Listing, r: Rules, a: Architecture, name: string)
    requires Lists(l)
    ensures var o := HeaderJson(r, a);
            && Found(l, o, "name") == Text(a.name) && Found(l, o, "description") == TextOr(a.description)
            && Found(l, o, "metadata." + name) == (if name in a.metadata then Text(a.metadata[name]) else Null)
            && Found(l, o, "provenance") == ProvenanceOr(r, a.provenance)
            && Found(l, o, "requirement_refs") == ReferencesJson(r, a.references)
  {
    hide Found, KeyText, ProvenanceOr, ReferencesJson, TextOr, TextMap, Lists, IsWhole;
    var o := HeaderJson(r, a);
    KeyNames();
    HeaderLists(r, a);
    PlainAt(l, o, NameKey, Text(a.name));
    PlainAt(l, o, DescriptionKey, TextOr(a.description));
    PlainAt(l, o, ProvenanceKey, ProvenanceOr(r, a.provenance));
    PlainAt(l, o, RequirementRefsKey, ReferencesJson(r, a.references));
    MetadataPath(l, o, a.metadata, name);
  }

  lemma HeaderLists(r: Rules, a: Architecture)
    ensures !TextOr(a.description).Object? && !ReferencesJson(r, a.references).Object?
  {
  }

  // --- settings that are compared whole ------------------------------------------------------------

  /** An unrecognised setting under one of these names is one field, even an object. */
  lemma WholeSetting(l: Listing, key: string, item: Json, path: string)
    requires Lists(l) && (key == "provenance" || key == "requirement_refs" || key == "subject_ids")
    ensures Get(SettingFields(l, Extra(map[Property(key) := item])), path) ==
            if path == "configuration.extra." + key then item else Null
  {
    hide LeavesAt, LeavesOf, KeyText, Lists;
    var k, prefix, o := Property(key), "configuration.extra.", Object(map[Property(key) := item]);
    PropertyText(k);
    WholeNames(key);
    WalkedAt(l, k, item, prefix);
    assert Apart({k}) && o.members.Keys == {k};
    PartIs(l, o, {k}, k, prefix, false, "");
    assert KeyText(k) + "" == key;
    if path in Leaves(l, o, prefix, false) {
      var z, x := StartsIn(l, o, l(o.members.Keys), prefix, false, path);
    }
  }

  lemma WholeNames(key: string)
    requires key == "provenance" || key == "requirement_refs" || key == "subject_ids"
    ensures NoDot(key) && IsWhole(key)
  {
  }
}
