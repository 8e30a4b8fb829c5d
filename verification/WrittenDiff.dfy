/** What a diff says of the elements of two architectures as they are written: which changes it reports, exactly. */
module WrittenDiff {
  import opened Options
  import opened Reachability
  import opened Serialization
  import opened RoundTrip
  import opened FieldPaths
  import opened Diff

  /** Known properties have names without dots, none of them that of the list of unknown ones. */
  ghost predicate NamesTold(types: string -> Option<ValueType>) {
    forall name :: types(name).Some? ==> NoDot(name) && name != "unknown"
  }

  // --- one field -----------------------------------------------------------------------------------

  /** The fields of one key of two written elements are the same. */
  ghost predicate FieldAlike(l: Listing, k: Key, a: map<Key, Json>, b: map<Key, Json>) {
    Alike(LeavesAt(l, k, At(a, k), "", false), LeavesAt(l, k, At(b, k), "", false))
  }

  /** Elements written with the same keys have the same fields exactly when each key gives the same. */
  lemma FieldsSame(l: Listing, a: map<Key, Json>, b: map<Key, Json>)
    requires a.Keys == b.Keys && (forall k :: k in a ==> !k.Property?) && Lists(l)
    ensures Alike(Leaves(l, Object(a), "", false), Leaves(l, Object(b), "", false)) <==>
            forall k :: k in a ==> FieldAlike(l, k, a, b)
  {
    hide Leaves, LeavesAt, Alike, Lists, KeyText;
    FixedApart(a.Keys + b.Keys);
    SameByKey(l, Object(a), Object(b), "", false);
    assert forall k :: k in a ==> Part(l, Object(a), k, "", false) == LeavesAt(l, k, At(a, k), "", false);
    assert forall k :: k in b ==> Part(l, Object(b), k, "", false) == LeavesAt(l, k, At(b, k), "", false);
  }

  lemma TechnologySame(l: Listing, a: Option<Technology>, b: Option<Technology>)
    requires Lists(l)
    ensures Alike(LeavesAt(l, TechnologyKey, TechnologyJson(a), "", false),
            LeavesAt(l, TechnologyKey, TechnologyJson(b), "", false))
            <==> a == b
  {
    hide Leaves, LeavesAt, Lists, KeyText;
    TechnologyLeaves(l, a);
    TechnologyLeaves(l, b);
    var x, y := LeavesAt(l, TechnologyKey, TechnologyJson(a), "", false),
        LeavesAt(l, TechnologyKey, TechnologyJson(b), "", false);
    if Alike(x, y) {
      assert Matches(Get(x, "technology.name"), Get(y, "technology.name"));
      assert Matches(Get(x, "technology.version"), Get(y, "technology.version"));
    }
  }

  /** A value under a deeper prefix is a field of its own. */
  lemma ValueLeaf(l: Listing, k: Key, item: Json, prefix: string)
    requires !item.Object? && IsDeep(prefix)
    ensures LeavesAt(l, k, item, prefix, false) == map[prefix + KeyText(k) := item]
  {
    hide KeyText;
    NotSpecial(prefix, KeyText(k));
  }

  lemma TechnologyWalked(l: Listing, item: Json)
    requires item.Object?
    ensures LeavesAt(l, TechnologyKey, item, "", false) == Leaves(l, item, "technology.", false)
  {
    hide Leaves, KeyText;
    TechnologyTexts();
    FirstLevel(TechnologyKey);
    assert "technology"[0] != "provenance"[0] && |"technology"| != |"requirement_refs"|
        && |"technology"| != |"subject_ids"|;
  }

  /** What the technology's fields are. */
  lemma TechnologyLeaves(l: Listing, t: Option<Technology>)
    requires Lists(l)
    ensures var found := LeavesAt(l, TechnologyKey, TechnologyJson(t), "", false);
            && Get(found, "technology.name") == (if t.Some? then Text(t.value.name) else Null)
            && Get(found, "technology.version") == (if t.Some? then TextOr(t.value.version) else Null)
  {
    hide Leaves, Lists, KeyText, TextOr;
    TechnologyTexts();
    if t.Some? {
      TechnologyPart(l, t.value, NameKey, Text(t.value.name));
      TechnologyPart(l, t.value, VersionKey, TextOr(t.value.version));
    } else {
      FirstLevel(TechnologyKey);
      assert |"technology"| != |"technology.name"| && |"technology"| != |"technology.version"|;
    }
  }

  lemma TechnologyPart(l: Listing, t: Technology, k: Key, item: Json)
    requires Lists(l) && ((k == NameKey && item == Text(t.name)) || (k == VersionKey && item == TextOr(t.version)))
    ensures Get(LeavesAt(l, TechnologyKey, TechnologyJson(Some(t)), "", false), "technology." + (KeyText(k) + ""))
            == item
  {
    hide Leaves, LeavesAt, Lists, KeyText;
    var o := TechnologyJson(Some(t));
    assert o.Object? && o.members.Keys == {NameKey, VersionKey} && o.members[k] == item;
    TechnologyWalked(l, o);
    FixedApart(o.members.Keys);
    PartIs(l, o, o.members.Keys, k, "technology.", false, "");
    ValueLeaf(l, k, item, "technology.");
    assert KeyText(k) + "" == KeyText(k);
  }

  lemma TechnologyTexts()
    ensures "" + KeyText(TechnologyKey) + "." == "technology." && "" + KeyText(TechnologyKey) == "technology"
    ensures "technology." + (KeyText(NameKey) + "") == "technology.name" == "technology." + KeyText(NameKey)
    ensures "technology." + (KeyText(VersionKey) + "") == "technology.version" == "technology." + KeyText(VersionKey)
    ensures KeyText(NameKey) == "name" && KeyText(VersionKey) == "version"
  {
  }

  // --- what the JSON of a value tells --------------------------------------------------------------

  lemma TextTold(c: Codec, x: Code, y: Code)
    requires Inverse(c)
    ensures Text(c.write(x)) == Text(c.write(y)) <==> x == y
  {
    CodeRead(c, x);
    CodeRead(c, y);
  }

  lemma CodeTold(c: Codec, x: Option<Code>, y: Option<Code>)
    requires Inverse(c)
    ensures CodeOr(c, x) == CodeOr(c, y) <==> x == y
  {
    hide CodeOr, Inverse;
    CodeOrRead(c, x);
    CodeOrRead(c, y);
  }

  /** Null, true or false, or a text: two of them are compared as what they are. */
  predicate IsSimple(j: Json) {
    j.Null? || j.Bool? || j.Text?
  }

  lemma SimpleTold(a: Json, b: Json)
    requires IsSimple(a) && IsSimple(b)
    ensures Matches(a, b) <==> a == b
  {
  }

  /** Values compared as what they are. */
  predicate IsExact(j: Json) {
    AsCompared(j) == j
  }

  lemma ExactTold(a: Json, b: Json)
    requires IsExact(a) && IsExact(b)
    ensures Matches(a, b) <==> a == b
  {
    hide AsCompared;
  }

  lemma ReferencesExact(r: Rules, s: seq<Reference>)
    ensures IsExact(ReferencesJson(r, s))
  {
    hide ReferenceJson;
    forall i | 0 <= i < |s|
      ensures IsExact(ReferenceJson(r, s[i]))
    {
      ReferenceExact(r, s[i]);
    }
    assert AsCompared(ReferencesJson(r, s)).items == ReferencesJson(r, s).items;
  }

  lemma ReferenceExact(r: Rules, x: Reference)
    ensures IsExact(ReferenceJson(r, x))
  {
    var o := ReferenceJson(r, x);
    assert AsCompared(o).members == o.members;
  }

  lemma TextsExact(s: seq<string>)
    ensures IsExact(Texts(s))
  {
    assert AsCompared(Texts(s)).items == Texts(s).items;
  }

  lemma TextMapExact(m: map<string, string>)
    ensures IsExact(TextMap(m))
  {
    var o := TextMap(m);
    assert AsCompared(o).members == o.members;
  }

  lemma ReferencesTold(r: Rules, a: seq<Reference>, b: seq<Reference>)
    requires Faithful(r)
    ensures Matches(ReferencesJson(r, a), ReferencesJson(r, b)) <==> a == b
  {
    hide ReferencesJson, ReadList, Faithful, IsExact, Matches;
    ReferencesExact(r, a);
    ReferencesExact(r, b);
    ExactTold(ReferencesJson(r, a), ReferencesJson(r, b));
    ReferencesRead(r, a);
    ReferencesRead(r, b);
  }

  lemma MetadataTold(a: map<string, string>, b: map<string, string>)
    ensures Matches(TextMap(a), TextMap(b)) <==> a == b
  {
    hide ReadObject, TextMap, IsExact, Matches;
    TextMapExact(a);
    TextMapExact(b);
    ExactTold(TextMap(a), TextMap(b));
    TextMapRead(a);
    TextMapRead(b);
  }

  lemma MetadataFlat(a: map<string, string>)
    ensures Flat(TextMap(a), false)
  {
  }

  /** Provenance records are compared key by key, and what each key holds is of one kind. */
  lemma ProvenanceMatches(r: Rules, p: Provenance, q: Provenance)
    requires Matches(ProvenanceJson(r, p), ProvenanceJson(r, q))
    ensures ProvenanceJson(r, p) == ProvenanceJson(r, q)
  {
    hide ProvenanceJson, Matches;
    ProvenanceSimple(r, p);
    ProvenanceSimple(r, q);
    var x, y := ProvenanceJson(r, p).members, ProvenanceJson(r, q).members;
    KeysMatch(x, y);
    forall k | k in x
      ensures x[k] == y[k]
    {
      SimpleTold(x[k], y[k]);
    }
    assert x == y;
  }

  lemma ProvenanceSimple(r: Rules, p: Provenance)
    ensures ProvenanceJson(r, p).Object? && forall k :: k in ProvenanceJson(r, p).members ==>
            IsSimple(ProvenanceJson(r, p).members[k])
  {
    hide Decimals.Written;
  }

  lemma ProvenanceTold(r: Rules, a: Option<Provenance>, b: Option<Provenance>)
    requires Faithful(r) && (a.Some? ==> Plain(a.value)) && (b.Some? ==> Plain(b.value))
    ensures Matches(ProvenanceOr(r, a), ProvenanceOr(r, b)) <==> a == b
  {
    hide ProvenanceJson, ReadProvenanceOr, Faithful, Plain, Matches;
    ProvenanceOrRead(r, a);
    ProvenanceOrRead(r, b);
    if Matches(ProvenanceOr(r, a), ProvenanceOr(r, b)) {
      if a.Some? && b.Some? {
        ProvenanceMatches(r, a.value, b.value);
      } else {
        NullTold(ProvenanceOr(r, a), ProvenanceOr(r, b));
      }
    }
    MatchesSelf(ProvenanceOr(r, a));
  }

  lemma NullTold(a: Json, b: Json)
    requires Matches(a, b)
    ensures a.Null? <==> b.Null?
  {
  }

  lemma RecordsFlat(r: Rules, a: map<string, Provenance>)
    requires Faithful(r) && forall k :: k in a ==> Plain(a[k])
    ensures Flat(Object(Properties(a, ProvenanceWriter(r))), true)
  {
    hide Faithful, Plain, ProvenanceJson;
    forall t | t in a
      ensures !ProvenanceWriter(r)(a[t]).Null?
    {
      ProvenanceRead(r, a[t]);
    }
  }

  lemma RecordsTold(r: Rules, a: map<string, Provenance>, b: map<string, Provenance>)
    requires Faithful(r) && (forall k :: k in a ==> Plain(a[k])) && (forall k :: k in b ==> Plain(b[k]))
    ensures Matches(Object(Properties(a, ProvenanceWriter(r))), Object(Properties(b, ProvenanceWriter(r)))) <==> a == b
  {
    hide ReadObject, Faithful, Plain, ProvenanceJson, Matches;
    var x, y := Properties(a, ProvenanceWriter(r)), Properties(b, ProvenanceWriter(r));
    ProvenancesRead(r, a);
    ProvenancesRead(r, b);
    MatchesSelf(Object(x));
    if Matches(Object(x), Object(y)) {
      KeysMatch(x, y);
      forall k | k in x
        ensures x[k] == y[k]
      {
        ProvenanceMatches(r, a[k.text], b[k.text]);
      }
      assert x == y;
    }
  }

  /** Objects that match hold the same keys, with values that match. */
  lemma KeysMatch(x: map<Key, Json>, y: map<Key, Json>)
    requires Matches(Object(x), Object(y))
    ensures x.Keys == y.Keys && forall k :: k in x && k in y ==> Matches(x[k], y[k])
  {
    var u, v := AsCompared(Object(x)).members, AsCompared(Object(y)).members;
    assert u == v && forall k :: (k in x <==> k in u) && (k in y <==> k in v);
    forall k | k in x && k in y
      ensures Matches(x[k], y[k])
    {
      assert u[k] == AsCompared(x[k]) && v[k] == AsCompared(y[k]);
    }
  }

  /** Values of one property that match are the same. */
  lemma ValueTold(r: Rules, type_: Option<ValueType>, v: Value, w: Value)
    requires Conforms(r, type_, v) && Conforms(r, type_, w) && Matches(ValueJson(v), ValueJson(w))
    ensures v == w
  {
    hide ReadValue, Decimals.Fits, Decimals.Canonical, Decimals.Written, Texts;
    if type_ == Some(ListType) {
      TextsExact(v.words);
      TextsExact(w.words);
      ExactTold(ValueJson(v), ValueJson(w));
    }
    assert ValueJson(v) == ValueJson(w);
    ValueRead(r, type_, v);
    ValueRead(r, type_, w);
  }

  lemma ValuesTold(r: Rules, types: string -> Option<ValueType>, a: map<string, Value>, b: map<string, Value>)
    requires forall k :: k in a ==> Conforms(r, types(k), a[k])
    requires forall k :: k in b ==> Conforms(r, types(k), b[k])
    ensures Matches(Object(Properties(a, ValueJson)), Object(Properties(b, ValueJson))) <==> a == b
  {
    hide Conforms, ValueJson, Matches;
    var x, y := Properties(a, ValueJson), Properties(b, ValueJson);
    MatchesSelf(Object(x));
    if Matches(Object(x), Object(y)) {
      KeysMatch(x, y);
      forall t
        ensures t in a <==> t in b
        ensures t in a && t in b ==> a[t] == b[t]
      {
        assert Property(t) in x <==> Property(t) in y;
        if t in a && t in b {
          assert Matches(x[Property(t)], y[Property(t)]);
          ValueTold(r, types(t), a[t], b[t]);
        }
      }
      assert a == b;
    }
  }

  lemma NamesListed(r: Rules, a: set<string>, b: set<string>)
    requires Faithful(r)
    ensures Matches(Texts(r.sorted(a)), Texts(r.sorted(b))) <==> a == b
  {
    hide Texts, Matches;
    TextsTold(r.sorted(a), r.sorted(b));
    assert SetOf(r.sorted(a)) == a && SetOf(r.sorted(b)) == b;
  }

  lemma TextsTold(a: seq<string>, b: seq<string>)
    ensures Matches(Texts(a), Texts(b)) <==> a == b
  {
    hide Texts, ReadList, IsExact, Matches;
    TextsExact(a);
    TextsExact(b);
    ExactTold(Texts(a), Texts(b));
    TextsRead(a);
    TextsRead(b);
  }

  // --- notes ---------------------------------------------------------------------------------------

  lemma ValuesWritten(r: Rules, types: string -> Option<ValueType>, values: map<string, Value>)
    requires NamesTold(types) && forall k :: k in values ==> Conforms(r, types(k), values[k])
    ensures Flat(Object(Properties(values, ValueJson)), false) && Named(Object(Properties(values, ValueJson)))
  {
    hide NoDot, ValueJson, Conforms;
    var written := Properties(values, ValueJson);
    forall k | k in written
      ensures k.Property? && NoDot(k.text) && k.text != "unknown" && !written[k].Null? && !written[k].Object?
    {
      assert k == Property(k.text);
      ValueWritten(r, types(k.text), values[k.text]);
    }
  }

  lemma ValueWritten(r: Rules, type_: Option<ValueType>, v: Value)
    requires Conforms(r, type_, v)
    ensures type_.Some? && !ValueJson(v).Null? && !ValueJson(v).Object?
  {
    hide Decimals.Written, Decimals.Fits;
  }

  lemma ConfigurationWritten(r: Rules, types: string -> Option<ValueType>, c: Configuration)
    requires NamesTold(types) && forall k :: k in c.values ==> Conforms(r, types(k), c.values[k])
    ensures IsConfiguration(ConfigurationJson(r, c)) && Configured(ConfigurationJson(r, c))
    ensures var m := ConfigurationJson(r, c).members;
            && m[ValuesKey] == Object(Properties(c.values, ValueJson)) && m[UnknownKey] == Texts(r.sorted(c.unknown))
            && m[ExtraKey] == Object(c.extra)
  {
    hide NamesTold, Conforms, ValueJson, Flat, Named, Properties;
    ValuesWritten(r, types, c.values);
  }

  /** The fields of unrecognised settings. */
  function SettingFields(l: Listing, c: Configuration): map<string, Json> {
    Leaves(l, Object(c.extra), "configuration.extra.", false)
  }

  ghost predicate SameConfiguration(l: Listing, a: Configuration, b: Configuration) {
    a.values == b.values && a.unknown == b.unknown && Alike(SettingFields(l, a), SettingFields(l, b))
  }

  lemma ConfigurationTold(l: Listing, r: Rules, types: string -> Option<ValueType>, a: Configuration, b: Configuration)
    requires NamesTold(types) && Faithful(r) && Lists(l)
    requires forall k :: k in a.values ==> Conforms(r, types(k), a.values[k])
    requires forall k :: k in b.values ==> Conforms(r, types(k), b.values[k])
    ensures SameFields(l, ConfigurationJson(r, a), ConfigurationJson(r, b)) <==> SameConfiguration(l, a, b)
  {
    hide Leaves, Lists, SameFields, Alike, Conforms, ValueJson, Texts, Faithful, ConfigurationJson, Configured,
      NamesTold;
    ConfigurationWritten(r, types, a);
    ConfigurationWritten(r, types, b);
    ConfigurationsAlike(l, ConfigurationJson(r, a), ConfigurationJson(r, b));
    ValuesTold(r, types, a.values, b.values);
    NamesListed(r, a.unknown, b.unknown);
  }

  ghost predicate SameNotes(l: Listing, a: Notes, b: Notes) {
    && SameConfiguration(l, a.configuration, b.configuration)
    && a.references == b.references && a.metadata == b.metadata && a.provenance == b.provenance && a.fields == b.fields
  }

  /** The fields that notes are written in. */
  lemma NotesTold(l: Listing, r: Rules, types: string -> Option<ValueType>, a: Notes, b: Notes, x: map<Key, Json>,
      y: map<Key, Json>)
    requires NamesTold(types) && Faithful(r) && Lists(l) && ValidNotes(r, types, a) && ValidNotes(r, types, b)
    requires forall k :: k in NOTES_FIELDS ==>
             At(x, k) == At(NotesFields(r, a), k) && At(y, k) == At(NotesFields(r, b), k)
    ensures (forall k :: k in NOTES_FIELDS ==> FieldAlike(l, k, x, y)) <==> SameNotes(l, a, b)
  {
    hide LeavesAt, Lists, Alike, Conforms, Plain, Faithful, ConfigurationJson, ReferencesJson, ProvenanceOr, TextMap,
      Matches, Properties, At, NotesFields, NamesTold, Flat, SameConfiguration, NOTES_FIELDS, KeyText, FieldAlike;
    NotesFieldsAt(r, a);
    NotesFieldsAt(r, b);
    NotesKeysAre();
    ConfigurationTold(l, r, types, a.configuration, b.configuration);
    ReferencesTold(r, a.references, b.references);
    MetadataTold(a.metadata, b.metadata);
    MetadataFlat(a.metadata);
    MetadataFlat(b.metadata);
    ProvenanceTold(r, a.provenance, b.provenance);
    RecordsTold(r, a.fields, b.fields);
    RecordsFlat(r, a.fields);
    RecordsFlat(r, b.fields);
    FlatFieldSame(l, MetadataKey, TextMap(a.metadata), TextMap(b.metadata));
    RecordsFieldSame(l, FieldProvenanceKey, Object(Properties(a.fields, ProvenanceWriter(r))),
        Object(Properties(b.fields, ProvenanceWriter(r))));
    WholeNotesTold(l, r, a, b);
    FieldAlikeIs(l, ConfigurationKey, x, y);
    FieldAlikeIs(l, RequirementRefsKey, x, y);
    FieldAlikeIs(l, MetadataKey, x, y);
    FieldAlikeIs(l, ProvenanceKey, x, y);
    FieldAlikeIs(l, FieldProvenanceKey, x, y);
  }

  lemma FieldAlikeIs(l: Listing, k: Key, a: map<Key, Json>, b: map<Key, Json>)
    ensures FieldAlike(l, k, a, b) <==> Alike(LeavesAt(l, k, At(a, k), "", false), LeavesAt(l, k, At(b, k), "", false))
  {
    hide Alike, LeavesAt, At;
  }

  lemma NotesKeysAre()
    ensures forall k :: k in NOTES_FIELDS <==> OfNotes(k)
  {
  }

  lemma WholeNotesTold(l: Listing, r: Rules, a: Notes, b: Notes)
    ensures Alike(LeavesAt(l, RequirementRefsKey, ReferencesJson(r, a.references), "", false),
                  LeavesAt(l, RequirementRefsKey, ReferencesJson(r, b.references), "", false))
            <==> Matches(ReferencesJson(r, a.references), ReferencesJson(r, b.references))
    ensures Alike(LeavesAt(l, ProvenanceKey, ProvenanceOr(r, a.provenance), "", false),
                  LeavesAt(l, ProvenanceKey, ProvenanceOr(r, b.provenance), "", false))
            <==> Matches(ProvenanceOr(r, a.provenance), ProvenanceOr(r, b.provenance))
  {
    hide LeavesAt, Alike, ProvenanceOr;
    WholeFieldSame(l, RequirementRefsKey, ReferencesJson(r, a.references), ReferencesJson(r, b.references));
    WholeFieldSame(l, ProvenanceKey, ProvenanceOr(r, a.provenance), ProvenanceOr(r, b.provenance));
  }

  // --- elements ------------------------------------------------------------------------------------

  /** A field of a text, a code, a flag or nothing. */
  lemma SimpleFieldTold(l: Listing, k: Key, x: map<Key, Json>, y: map<Key, Json>)
    requires !OfNotes(k) && !k.Property? && IsSimple(At(x, k)) && IsSimple(At(y, k))
    ensures FieldAlike(l, k, x, y) <==> At(x, k) == At(y, k)
  {
    hide LeavesAt, Alike, At, KeyText, Matches;
    SimpleTold(At(x, k), At(y, k));
    WholeFieldSame(l, k, At(x, k), At(y, k));
  }

  lemma TextOrTold(x: Option<string>, y: Option<string>)
    ensures TextOr(x) == TextOr(y) <==> x == y
    ensures IsSimple(TextOr(x)) && IsSimple(TextOr(y))
  {
  }

  lemma NodeOwnAt(r: Rules, a: Node, x: map<Key, Json>)
    requires forall k :: k in NODE_OWN ==> At(x, k) == At(NodeFields(r, a), k)
    ensures At(x, IdKey) == Text(a.id) && At(x, KindKey) == Text(r.kind.write(a.kind)) && At(x, NameKey) == Text(a.name)
    ensures At(x, DescriptionKey) == TextOr(a.description) && At(x, TechnologyKey) == TechnologyJson(a.technology)
    ensures At(x, ComponentKey) == TextOr(a.component) && At(x, ParentIdKey) == TextOr(a.parent)
    ensures At(x, LifecycleKey) == CodeOr(r.lifecycle, a.lifecycle)
  {
    hide At, NodeFields, TextOr, CodeOr, TechnologyJson;
    NodeAt(r, a);
  }

  lemma NodeOwnAlike(l: Listing, x: map<Key, Json>, y: map<Key, Json>)
    ensures (forall k :: k in NODE_OWN ==> FieldAlike(l, k, x, y)) <==>
            && FieldAlike(l, IdKey, x, y) && FieldAlike(l, KindKey, x, y) && FieldAlike(l, NameKey, x, y)
            && FieldAlike(l, DescriptionKey, x, y) && FieldAlike(l, TechnologyKey, x, y)
            && FieldAlike(l, ComponentKey, x, y)
            && FieldAlike(l, ParentIdKey, x, y) && FieldAlike(l, LifecycleKey, x, y)
  {
    hide FieldAlike;
  }

  lemma NodeFieldsTold(l: Listing, r: Rules, a: Node, b: Node, x: map<Key, Json>, y: map<Key, Json>)
    requires Faithful(r) && Lists(l)
    requires forall k :: k in NODE_OWN ==> At(x, k) == At(NodeFields(r, a), k)
    requires forall k :: k in NODE_OWN ==> At(y, k) == At(NodeFields(r, b), k)
    ensures (forall k :: k in NODE_OWN ==> FieldAlike(l, k, x, y)) <==> a.(notes := b.notes) == b
  {
    hide FieldAlike, Lists, At, NODE_OWN, NodeFields, CodeOr, TextOr, TechnologyJson, Inverse, KeyText;
    NodeOwnAlike(l, x, y);
    NodeOwnAt(r, a, x);
    NodeOwnAt(r, b, y);
    SimpleFieldTold(l, IdKey, x, y);
    SimpleFieldTold(l, NameKey, x, y);
    TextTold(r.kind, a.kind, b.kind);
    SimpleFieldTold(l, KindKey, x, y);
    TextOrTold(a.description, b.description);
    SimpleFieldTold(l, DescriptionKey, x, y);
    TechnologySame(l, a.technology, b.technology);
    FieldAlikeIs(l, TechnologyKey, x, y);
    TextOrTold(a.component, b.component);
    SimpleFieldTold(l, ComponentKey, x, y);
    TextOrTold(a.parent, b.parent);
    SimpleFieldTold(l, ParentIdKey, x, y);
    CodeTold(r.lifecycle, a.lifecycle, b.lifecycle);
    CodeSimple(r.lifecycle, a.lifecycle);
    CodeSimple(r.lifecycle, b.lifecycle);
    SimpleFieldTold(l, LifecycleKey, x, y);
  }

  lemma CodeSimple(c: Codec, x: Option<Code>)
    ensures IsSimple(CodeOr(c, x))
  {
  }

  /** Two nodes that differ in nothing but how their unrecognised settings are written, if at all. */
  ghost predicate SameNode(l: Listing, a: Node, b: Node) {
    a.(notes := b.notes) == b && SameNotes(l, a.notes, b.notes)
  }

  lemma FixedKeys()
    ensures forall k :: k in NODE_FIELDS || k in CONNECTION_FIELDS ==> !k.Property?
  {
  }

  /** A diff reports nothing of a node exactly when it holds the same, unrecognised settings field by field. */
  lemma NodeSameExactly(l: Listing, r: Rules, a: Node, b: Node)
    requires NamesTold(r.nodeProperty) && Faithful(r) && Lists(l)
    requires ValidNotes(r, r.nodeProperty, a.notes) && ValidNotes(r, r.nodeProperty, b.notes)
    ensures Alike(Leaves(l, NodeJson(r, a), "", false), Leaves(l, NodeJson(r, b), "", false)) <==> SameNode(l, a, b)
  {
    hide Leaves, FieldAlike, Lists, Alike, At, NodeFields, NotesFields, NODE_OWN, NOTES_FIELDS, NODE_FIELDS, Faithful,
      ValidNotes, SameNotes, NamesTold;
    var x, y := NodeFields(r, a) + NotesFields(r, a.notes), NodeFields(r, b) + NotesFields(r, b.notes);
    NodeKeys(r, a);
    NodeKeys(r, b);
    JoinedKeys(r, NodeFields(r, a), a.notes);
    JoinedKeys(r, NodeFields(r, b), b.notes);
    FixedKeys();
    FieldsSame(l, x, y);
    NotesAt(r, NodeFields(r, a), a.notes);
    NotesAt(r, NodeFields(r, b), b.notes);
    forall k | k in NODE_OWN
      ensures At(x, k) == At(NodeFields(r, a), k) && At(y, k) == At(NodeFields(r, b), k)
    {
      NodeJoined(r, a, k);
      NodeJoined(r, b, k);
    }
    NodeFieldsTold(l, r, a, b, x, y);
    NotesTold(l, r, r.nodeProperty, a.notes, b.notes, x, y);
    assert forall k :: k in x <==> k in NODE_OWN || k in NOTES_FIELDS;
  }

  lemma ConnectionOwnAt(r: Rules, a: Connection, x: map<Key, Json>)
    requires forall k :: k in CONNECTION_OWN ==> At(x, k) == At(ConnectionFields(r, a), k)
    ensures At(x, IdKey) == Text(a.id) && At(x, SourceIdKey) == Text(a.source) && At(x, TargetIdKey) == Text(a.target)
    ensures At(x, KindKey) == Text(r.connectionKind.write(a.kind)) && At(x, ProtocolKey) == TextOr(a.protocol)
    ensures At(x, InteractionKey) == CodeOr(r.interaction, a.interaction)
            && At(x, BidirectionalKey) == Bool(a.bidirectional)
    ensures At(x, CriticalKey) == FlagOr(a.critical)
    ensures At(x, NameKey) == TextOr(a.name) && At(x, DescriptionKey) == TextOr(a.description)
  {
    hide At, ConnectionFields, TextOr, CodeOr;
    ConnectionAt(r, a);
  }

  function FlagOr(x: Option<bool>): Json {
    if x.Some? then Bool(x.value) else Null
  }

  lemma ConnectionOwnAlike(l: Listing, x: map<Key, Json>, y: map<Key, Json>)
    ensures (forall k :: k in CONNECTION_OWN ==> FieldAlike(l, k, x, y)) <==>
            && FieldAlike(l, IdKey, x, y) && FieldAlike(l, SourceIdKey, x, y) && FieldAlike(l, TargetIdKey, x, y)
            && FieldAlike(l, KindKey, x, y) && FieldAlike(l, ProtocolKey, x, y) && FieldAlike(l, InteractionKey, x, y)
            && FieldAlike(l, BidirectionalKey, x, y) && FieldAlike(l, CriticalKey, x, y) && FieldAlike(l, NameKey, x, y)
            && FieldAlike(l, DescriptionKey, x, y)
  {
    hide FieldAlike;
  }

  /** The ends, the kind and the interaction. */
  lemma ConnectionEndsTold(l: Listing, r: Rules, a: Connection, b: Connection, x: map<Key, Json>, y: map<Key, Json>)
    requires Faithful(r)
    requires forall k :: k in CONNECTION_OWN ==> At(x, k) == At(ConnectionFields(r, a), k)
    requires forall k :: k in CONNECTION_OWN ==> At(y, k) == At(ConnectionFields(r, b), k)
    ensures FieldAlike(l, IdKey, x, y) <==> a.id == b.id
    ensures FieldAlike(l, SourceIdKey, x, y) <==> a.source == b.source
    ensures FieldAlike(l, TargetIdKey, x, y) <==> a.target == b.target
    ensures FieldAlike(l, KindKey, x, y) <==> a.kind == b.kind
    ensures FieldAlike(l, InteractionKey, x, y) <==> a.interaction == b.interaction
  {
    hide FieldAlike, At, CONNECTION_OWN, ConnectionFields, CodeOr, TextOr, Inverse, KeyText, FlagOr;
    ConnectionOwnAt(r, a, x);
    ConnectionOwnAt(r, b, y);
    SimpleFieldTold(l, IdKey, x, y);
    SimpleFieldTold(l, SourceIdKey, x, y);
    SimpleFieldTold(l, TargetIdKey, x, y);
    TextTold(r.connectionKind, a.kind, b.kind);
    SimpleFieldTold(l, KindKey, x, y);
    CodeTold(r.interaction, a.interaction, b.interaction);
    CodeSimple(r.interaction, a.interaction);
    CodeSimple(r.interaction, b.interaction);
    SimpleFieldTold(l, InteractionKey, x, y);
  }

  /** The rest. */
  lemma ConnectionRestTold(l: Listing, r: Rules, a: Connection, b: Connection, x: map<Key, Json>, y: map<Key, Json>)
    requires forall k :: k in CONNECTION_OWN ==> At(x, k) == At(ConnectionFields(r, a), k)
    requires forall k :: k in CONNECTION_OWN ==> At(y, k) == At(ConnectionFields(r, b), k)
    ensures FieldAlike(l, ProtocolKey, x, y) <==> a.protocol == b.protocol
    ensures FieldAlike(l, BidirectionalKey, x, y) <==> a.bidirectional == b.bidirectional
    ensures FieldAlike(l, CriticalKey, x, y) <==> a.critical == b.critical
    ensures FieldAlike(l, NameKey, x, y) <==> a.name == b.name
    ensures FieldAlike(l, DescriptionKey, x, y) <==> a.description == b.description
  {
    hide FieldAlike, At, CONNECTION_OWN, ConnectionFields, CodeOr, TextOr, KeyText;
    ConnectionOwnAt(r, a, x);
    ConnectionOwnAt(r, b, y);
    TextOrTold(a.protocol, b.protocol);
    SimpleFieldTold(l, ProtocolKey, x, y);
    SimpleFieldTold(l, BidirectionalKey, x, y);
    SimpleFieldTold(l, CriticalKey, x, y);
    TextOrTold(a.name, b.name);
    SimpleFieldTold(l, NameKey, x, y);
    TextOrTold(a.description, b.description);
    SimpleFieldTold(l, DescriptionKey, x, y);
  }

  lemma ConnectionFieldsTold(l: Listing, r: Rules, a: Connection, b: Connection, x: map<Key, Json>, y: map<Key, Json>)
    requires Faithful(r)
    requires forall k :: k in CONNECTION_OWN ==> At(x, k) == At(ConnectionFields(r, a), k)
    requires forall k :: k in CONNECTION_OWN ==> At(y, k) == At(ConnectionFields(r, b), k)
    ensures (forall k :: k in CONNECTION_OWN ==> FieldAlike(l, k, x, y)) <==> a.(notes := b.notes) == b
  {
    hide FieldAlike, At, CONNECTION_OWN, ConnectionFields, Faithful;
    ConnectionOwnAlike(l, x, y);
    ConnectionEndsTold(l, r, a, b, x, y);
    ConnectionRestTold(l, r, a, b, x, y);
  }

  ghost predicate SameConnection(l: Listing, a: Connection, b: Connection) {
    a.(notes := b.notes) == b && SameNotes(l, a.notes, b.notes)
  }

  /** So does it of a connection. */
  lemma ConnectionSameExactly(l: Listing, r: Rules, a: Connection, b: Connection)
    requires NamesTold(r.connectionProperty) && Faithful(r) && Lists(l)
    requires ValidNotes(r, r.connectionProperty, a.notes) && ValidNotes(r, r.connectionProperty, b.notes)
    ensures Alike(Leaves(l, ConnectionJson(r, a), "", false), Leaves(l, ConnectionJson(r, b), "", false)) <==>
            SameConnection(l, a, b)
  {
    hide Leaves, FieldAlike, Lists, Alike, At, ConnectionFields, NotesFields, CONNECTION_OWN, NOTES_FIELDS,
      CONNECTION_FIELDS, Faithful, ValidNotes, SameNotes, NamesTold;
    var x, y := ConnectionFields(r, a) + NotesFields(r, a.notes), ConnectionFields(r, b) + NotesFields(r, b.notes);
    ConnectionKeys(r, a);
    ConnectionKeys(r, b);
    JoinedKeys(r, ConnectionFields(r, a), a.notes);
    JoinedKeys(r, ConnectionFields(r, b), b.notes);
    FixedKeys();
    FieldsSame(l, x, y);
    NotesAt(r, ConnectionFields(r, a), a.notes);
    NotesAt(r, ConnectionFields(r, b), b.notes);
    forall k | k in CONNECTION_OWN
      ensures At(x, k) == At(ConnectionFields(r, a), k) && At(y, k) == At(ConnectionFields(r, b), k)
    {
      ConnectionJoined(r, a, k);
      ConnectionJoined(r, b, k);
    }
    ConnectionFieldsTold(l, r, a, b, x, y);
    NotesTold(l, r, r.connectionProperty, a.notes, b.notes, x, y);
    assert forall k :: k in x <==> k in CONNECTION_OWN || k in NOTES_FIELDS;
  }

  /** Nothing is reported of an assumption or a decision exactly when it is the same. */
  lemma AssumptionSameExactly(l: Listing, r: Rules, a: Assumption, b: Assumption)
    requires Faithful(r) && Lists(l) && Plain(a.provenance) && Plain(b.provenance)
    ensures Alike(Leaves(l, AssumptionJson(r, a), "", false), Leaves(l, AssumptionJson(r, b), "", false)) <==> a == b
  {
    hide Leaves, FieldAlike, Lists, Alike, Faithful, Plain, Matches, Texts, ReferencesJson, ProvenanceJson, KeyText;
    var x, y := AssumptionJson(r, a).members, AssumptionJson(r, b).members;
    RecordsSimple(r, a);
    RecordsSimple(r, b);
    WholeFieldsSame(l, AssumptionJson(r, a), AssumptionJson(r, b));
    SimpleTold(Text(a.id), Text(b.id));
    SimpleTold(Text(a.statement), Text(b.statement));
    ProvenanceTold(r, Some(a.provenance), Some(b.provenance));
    TextsTold(a.subjects, b.subjects);
    ReferencesTold(r, a.references, b.references);
    assert x[IdKey] == Text(a.id) && y[IdKey] == Text(b.id);
    assert x[StatementKey] == Text(a.statement) && y[StatementKey] == Text(b.statement);
    assert x[ProvenanceKey] == ProvenanceOr(r, Some(a.provenance))
        && y[ProvenanceKey] == ProvenanceOr(r, Some(b.provenance));
    assert x[SubjectIdsKey] == Texts(a.subjects) && y[SubjectIdsKey] == Texts(b.subjects);
    assert x[RequirementRefsKey] == ReferencesJson(r, a.references);
    assert y[RequirementRefsKey] == ReferencesJson(r, b.references);
  }

  lemma RecordsSimple(r: Rules, a: Assumption)
    ensures !Texts(a.subjects).Object? && !ReferencesJson(r, a.references).Object?
  {
  }

  lemma DecisionSameExactly(l: Listing, r: Rules, a: DecisionRef, b: DecisionRef)
    requires Faithful(r) && Lists(l)
    ensures Alike(Leaves(l, DecisionJson(r, a), "", false), Leaves(l, DecisionJson(r, b), "", false)) <==> a == b
  {
    hide Leaves, FieldAlike, Lists, Alike, Inverse, Matches, KeyText;
    var x, y := DecisionJson(r, a).members, DecisionJson(r, b).members;
    WholeFieldsSame(l, DecisionJson(r, a), DecisionJson(r, b));
    TextTold(r.uuid, a.decision, b.decision);
    SimpleTold(Text(r.uuid.write(a.decision)), Text(r.uuid.write(b.decision)));
    TextsTold(a.subjects, b.subjects);
    assert x[DecisionIdKey] == Text(r.uuid.write(a.decision)) && y[DecisionIdKey] == Text(r.uuid.write(b.decision));
    assert x[SubjectIdsKey] == Texts(a.subjects) && y[SubjectIdsKey] == Texts(b.subjects);
  }

  predicate IsWholeField(k: Key, item: Json) {
    !k.ConfigurationKey? && !k.FieldProvenanceKey? && !k.Property? && (item.Object? ==> k.ProvenanceKey?)
  }

  /** Elements of fields compared whole have the same fields exactly when what each key holds matches. */
  lemma WholeFieldsSame(l: Listing, a: Json, b: Json)
    requires a.Object? && b.Object? && a.members.Keys == b.members.Keys && Lists(l)
    requires forall k :: k in a.members ==> IsWholeField(k, a.members[k]) && IsWholeField(k, b.members[k])
    ensures Alike(Leaves(l, a, "", false), Leaves(l, b, "", false)) <==>
            forall k :: k in a.members ==> Matches(a.members[k], b.members[k])
  {
    hide Leaves, LeavesAt, Lists, Alike, KeyText, Matches;
    FieldsSame(l, a.members, b.members);
    forall k | k in a.members
      ensures FieldAlike(l, k, a.members, b.members) <==> Matches(a.members[k], b.members[k])
    {
      ProvenanceWhole();
      WholeFieldSame(l, k, a.members[k], b.members[k]);
    }
  }

  lemma ProvenanceWhole()
    ensures IsWhole(KeyText(ProvenanceKey))
  {
  }

  // --- the architecture's own fields ---------------------------------------------------------------

  const COLLECTIONS := {NodesKey, ConnectionsKey, AssumptionsKey, DecisionsKey, SchemaVersionKey}

  /** What is written of the architecture itself. */
  function HeaderJson(r: Rules, a: Architecture): Record {
    Object(map[NameKey := Text(a.name), DescriptionKey := TextOr(a.description), MetadataKey := TextMap(a.metadata),
               ProvenanceKey := ProvenanceOr(r, a.provenance), RequirementRefsKey := ReferencesJson(r, a.references)])
  }

  /** It is the document without its collections. */
  lemma HeaderIsDocument(r: Rules, a: Architecture)
    ensures HeaderJson(r, a).members == ToJson(r, a).members - COLLECTIONS
  {
    hide TextOr, TextMap, ProvenanceOr, ReferencesJson, NodeJson, ConnectionJson, AssumptionJson, DecisionJson;
  }

  /** A diff reports no field of the architecture itself exactly when all of them are the same. */
  lemma HeaderSameExactly(l: Listing, r: Rules, a: Architecture, b: Architecture)
    requires Faithful(r) && Lists(l)
    requires (a.provenance.Some? ==> Plain(a.provenance.value)) && (b.provenance.Some? ==> Plain(b.provenance.value))
    ensures Alike(Leaves(l, HeaderJson(r, a), "", false), Leaves(l, HeaderJson(r, b), "", false)) <==>
            a.name == b.name && a.description == b.description && a.metadata == b.metadata
                && a.provenance == b.provenance
            && a.references == b.references
  {
    hide Leaves, FieldAlike, Lists, Alike, Faithful, Plain, TextOr, TextMap, ProvenanceOr, ReferencesJson, Flat,
      Matches, LeavesAt, KeyText;
    var x, y := HeaderJson(r, a).members, HeaderJson(r, b).members;
    FieldsSame(l, x, y);
    TextOrTold(a.description, b.description);
    MetadataTold(a.metadata, b.metadata);
    MetadataFlat(a.metadata);
    MetadataFlat(b.metadata);
    ProvenanceTold(r, a.provenance, b.provenance);
    ReferencesTold(r, a.references, b.references);
    FlatFieldSame(l, MetadataKey, TextMap(a.metadata), TextMap(b.metadata));
    FieldAlikeIs(l, MetadataKey, x, y);
    SimpleFieldTold(l, NameKey, x, y);
    SimpleFieldTold(l, DescriptionKey, x, y);
    ProvenanceWhole();
    WholeFieldSame(l, ProvenanceKey, At(x, ProvenanceKey), At(y, ProvenanceKey));
    FieldAlikeIs(l, ProvenanceKey, x, y);
    ReferencesSimple(r, a.references);
    ReferencesSimple(r, b.references);
    WholeFieldSame(l, RequirementRefsKey, At(x, RequirementRefsKey), At(y, RequirementRefsKey));
    FieldAlikeIs(l, RequirementRefsKey, x, y);
  }

  lemma ReferencesSimple(r: Rules, s: seq<Reference>)
    ensures !ReferencesJson(r, s).Object?
  {
  }

  // --- unrecognised settings -----------------------------------------------------------------------

  /**
   * With keys free of dots, the fields of settings are the same exactly when the settings are, at every path
   * of keys.
   */
  lemma SettingsSameExactly(l: Listing, a: Configuration, b: Configuration)
    requires Lists(l) && DotFree(Object(a.extra)) && DotFree(Object(b.extra))
    ensures Alike(SettingFields(l, a), SettingFields(l, b)) <==> SameSettings(Object(a.extra), Object(b.extra))
  {
    hide Leaves, Lists, DotFree, SameSettings, Alike;
    SettingsSame(l, Object(a.extra), Object(b.extra), "configuration.extra.");
  }

  /** With any keys, they are the same exactly when the settings hold the same at every join of keys by dots. */
  lemma SettingsJoinedExactly(l: Listing, a: Configuration, b: Configuration)
    requires ListsOnce(l) && Texted(Object(a.extra)) && Texted(Object(b.extra))
    ensures Alike(SettingFields(l, a), SettingFields(l, b)) <==>
            forall text :: Matches(AtJoin(l, Object(a.extra), text), AtJoin(l, Object(b.extra), text))
  {
    hide Leaves, ListsOnce, Texted, AtJoin, Alike, Matches;
    JoinedSame(l, Object(a.extra), Object(b.extra), "configuration.extra.");
  }

  function Extra(settings: map<Key, Json>): Configuration {
    Configuration(map[], {}, settings)
  }

  /** The fields of one setting. */
  lemma OneSetting(l: Listing, key: string, item: Json, path: string)
    requires Lists(l) && !item.Object?
    ensures Get(SettingFields(l, Extra(map[Property(key) := item])), path) ==
            if path == "configuration.extra." + key then item else Null
  {
    LevelOne(l, Object(map[Property(key) := item]), key, item, "configuration.extra.", path);
  }

  lemma LevelOne(l: Listing, o: Json, key: string, item: Json, prefix: string, path: string)
    requires Lists(l) && !item.Object? && o == Object(map[Property(key) := item]) && IsDeep(prefix)
    ensures Get(Leaves(l, o, prefix, false), path) == if path == prefix + key then item else Null
  {
    hide KeyText, LeavesOf, Lists;
    PropertyText(Property(key));
    FlatGet(l, o, prefix, false, Property(key));
    if path in Leaves(l, o, prefix, false) {
      var k := FlatPath(l, o, l(o.members.Keys), prefix, false, path);
    }
  }

  /** The fields of a setting inside another. */
  lemma NestedSetting(l: Listing, key: string, inner: string, item: Json, path: string)
    requires Lists(l) && !item.Object? && NoDot(key) && !IsWhole(key)
    ensures Get(SettingFields(l, Extra(map[Property(key) := Object(map[Property(inner) := item])])), path) ==
            if path == "configuration.extra." + (key + "." + inner) then item else Null
  {
    hide Leaves, KeyText, Lists;
    var k, o, prefix := Property(key), Object(map[Property(inner) := item]), "configuration.extra.";
    var all := Object(map[k := o]);
    PropertyText(k);
    WalkedAt(l, k, o, prefix);
    assert Apart({k});
    var end := "." + inner;
    assert IsTail(end) && prefix + (key + end) == prefix + (key + "." + inner);
    PartIs(l, all, {k}, k, prefix, false, end);
    LevelOne(l, o, inner, item, prefix + key + ".", prefix + (key + end));
    assert prefix + (key + end) == prefix + key + "." + inner;
    if path in Leaves(l, all, prefix, false) {
      NestedPath(l, all, k, prefix, path);
      LevelOne(l, o, inner, item, prefix + key + ".", path);
    }
  }

  lemma NestedPath(l: Listing, o: Json, k: Key, prefix: string, path: string)
    requires Lists(l) && o.Object? && o.members.Keys == {k} && Apart({k}) && path in Leaves(l, o, prefix, false)
    ensures Get(Leaves(l, o, prefix, false), path) == Get(LeavesAt(l, k, o.members[k], prefix, false), path)
  {
    hide LeavesOf, LeavesAt, KeyText, Lists, Apart;
    var z, x := StartsIn(l, o, l(o.members.Keys), prefix, false, path);
    PartIs(l, o, {k}, k, prefix, false, x);
  }

  /** A key with a dot and a key inside another are one field, a null or an empty object is none, and true is 1. */
  lemma SettingsMerge(l: Listing)
    requires Lists(l)
    ensures var a := Extra(map[Property("a.b") := Int(1)]);
            var b := Extra(map[Property("a") := Object(map[Property("b") := Int(1)])]);
            a != b && SameConfiguration(l, a, b)
    ensures var c := Extra(map[Property("a") := Null]);
            c != Extra(map[]) && SameConfiguration(l, c, Extra(map[]))
    ensures var d := Extra(map[Property("a") := Bool(true)]);
            var e := Extra(map[Property("a") := Int(1)]);
            d != e && SameConfiguration(l, d, e)
    ensures var f := Extra(map[Property("a") := Object(map[])]);
            f != Extra(map[]) && SameConfiguration(l, f, Extra(map[]))
  {
    hide SettingFields, Lists;
    var a := Extra(map[Property("a.b") := Int(1)]);
    var b := Extra(map[Property("a") := Object(map[Property("b") := Int(1)])]);
    var c := Extra(map[Property("a") := Null]);
    var d, e := Extra(map[Property("a") := Bool(true)]), Extra(map[Property("a") := Int(1)]);
    var f := Extra(map[Property("a") := Object(map[])]);
    assert d.extra[Property("a")] != e.extra[Property("a")] && Property("a") in f.extra;
    assert Property("a.b") in a.extra && Property("a.b") !in b.extra by { assert "a.b" != "a"; }
    assert Property("a") in c.extra;
    assert "a" + "." + "b" == "a.b";
    ShortWords();
    forall path
      ensures Matches(Get(SettingFields(l, a), path), Get(SettingFields(l, b), path))
      ensures Matches(Get(SettingFields(l, c), path), Get(SettingFields(l, Extra(map[])), path))
      ensures Matches(Get(SettingFields(l, d), path), Get(SettingFields(l, e), path))
      ensures Matches(Get(SettingFields(l, f), path), Get(SettingFields(l, Extra(map[])), path))
    {
      OneSetting(l, "a.b", Int(1), path);
      NestedSetting(l, "a", "b", Int(1), path);
      OneSetting(l, "a", Null, path);
      OneSetting(l, "a", Bool(true), path);
      OneSetting(l, "a", Int(1), path);
      NoSetting(l, path);
      EmptySetting(l, path);
    }
  }

  lemma ShortWords()
    ensures NoDot("a") && !IsWhole("a")
  {
  }

  /** An empty object gives no field. */
  lemma EmptySetting(l: Listing, path: string)
    requires Lists(l)
    ensures path !in SettingFields(l, Extra(map[Property("a") := Object(map[])]))
  {
    hide KeyText, LeavesOf, LeavesAt, Lists;
    var k, item, prefix := Property("a"), Object(map[]), "configuration.extra.";
    var o := Object(map[k := item]);
    ShortWords();
    WalkedAt(l, k, item, prefix);
    if path in Leaves(l, o, prefix, false) {
      var z, x := StartsIn(l, o, l(o.members.Keys), prefix, false, path);
      NoneInside(l, item, prefix + "a" + ".", path);
    }
  }

  lemma NoneInside(l: Listing, o: Json, prefix: string, path: string)
    requires Lists(l) && o == Object(map[])
    ensures path !in Leaves(l, o, prefix, false)
  {
    hide KeyText;
    if path in Leaves(l, o, prefix, false) {
      var k, x := StartsIn(l, o, l(o.members.Keys), prefix, false, path);
    }
  }

  lemma NoSetting(l: Listing, path: string)
    requires Lists(l)
    ensures path !in SettingFields(l, Extra(map[]))
  {
    hide KeyText;
    var o := Object(map[]);
    if path in Leaves(l, o, "configuration.extra.", false) {
      var k, x := StartsIn(l, o, l(o.members.Keys), "configuration.extra.", false, path);
    }
  }

  // --- reported ------------------------------------------------------------------------------------

  /** An element's id is the field of its id. */
  lemma IdLeaf(l: Listing, o: Json, k: Key)
    requires Lists(l) && o.Object? && k in o.members && (k == IdKey || k == DecisionIdKey) && !o.members[k].Object?
    requires forall z :: z in o.members ==> !z.Property?
    ensures Get(Leaves(l, o, "", false), KeyText(k)) == o.members[k]
  {
    hide Leaves, KeyText, Lists;
    FixedApart(o.members.Keys);
    PartIs(l, o, o.members.Keys, k, "", false, "");
    FirstLevel(k);
    assert "" + (KeyText(k) + "") == KeyText(k) == "" + KeyText(k);
  }

  /** Of two elements of one id, nothing is reported exactly when they have the same fields. */
  lemma ReportedExactly(l: Listing, before: map<Id, Record>, after: map<Id, Record>, k: Key, id: Id)
    requires Lists(l) && id in before && id in after && (k == IdKey || k == DecisionIdKey)
    requires k in before[id].members && k in after[id].members && before[id].members[k] == after[id].members[k]
    requires !before[id].members[k].Object?
    requires forall z :: z in before[id].members || z in after[id].members ==> !z.Property?
    ensures ChangeOf(l, before, after, {KeyText(k)}, id).None? <==>
            Alike(Leaves(l, before[id], "", false), Leaves(l, after[id], "", false))
  {
    hide Leaves, KeyText, Lists, FieldChanges, Get;
    IdLeaf(l, before[id], k);
    IdLeaf(l, after[id], k);
    NoChanges(Leaves(l, before[id], "", false), Leaves(l, after[id], "", false), {KeyText(k)});
  }

  /** A node kept is not reported exactly when it holds the same, unrecognised settings field by field. */
  lemma NodeReportedExactly(l: Listing, r: Rules, before: map<Id, Record>, after: map<Id, Record>, id: Id, a: Node,
      b: Node)
    requires NamesTold(r.nodeProperty) && Faithful(r) && Lists(l)
    requires ValidNotes(r, r.nodeProperty, a.notes) && ValidNotes(r, r.nodeProperty, b.notes) && a.id == b.id
    requires id in before && id in after && before[id] == NodeJson(r, a) && after[id] == NodeJson(r, b)
    ensures ChangeOf(l, before, after, {KeyText(IdKey)}, id).None? <==> SameNode(l, a, b)
  {
    hide Leaves, KeyText, Lists, ChangeOf, SameNode, Faithful, ValidNotes, NamesTold, Alike;
    NodeIdAt(r, a);
    NodeIdAt(r, b);
    ReportedExactly(l, before, after, IdKey, id);
    NodeSameExactly(l, r, a, b);
  }

  lemma NodeIdAt(r: Rules, n: Node)
    ensures var m := NodeJson(r, n).members; IdKey in m && m[IdKey] == Text(n.id) && forall k :: k in m ==> !k.Property?
  {
    hide NodeFields, NotesFields, NODE_FIELDS, At, NOTES_FIELDS;
    NodeKeys(r, n);
    JoinedKeys(r, NodeFields(r, n), n.notes);
    NodeJoined(r, n, IdKey);
    NodeAt(r, n);
    FixedKeys();
    AtIs(NodeJson(r, n).members, IdKey, Text(n.id));
  }

  lemma AtIs(m: map<Key, Json>, k: Key, item: Json)
    requires At(m, k) == item && !item.Null?
    ensures k in m && m[k] == item
  {
  }

  /** So a connection. */
  lemma ConnectionReportedExactly(l: Listing, r: Rules, before: map<Id, Record>, after: map<Id, Record>, id: Id,
      a: Connection, b: Connection)
    requires NamesTold(r.connectionProperty) && Faithful(r) && Lists(l)
    requires ValidNotes(r, r.connectionProperty, a.notes) && ValidNotes(r, r.connectionProperty, b.notes)
             && a.id == b.id
    requires id in before && id in after && before[id] == ConnectionJson(r, a) && after[id] == ConnectionJson(r, b)
    ensures ChangeOf(l, before, after, {KeyText(IdKey)}, id).None? <==> SameConnection(l, a, b)
  {
    hide Leaves, KeyText, Lists, ChangeOf, SameConnection, Faithful, ValidNotes, NamesTold, Alike;
    ConnectionIdAt(r, a);
    ConnectionIdAt(r, b);
    ReportedExactly(l, before, after, IdKey, id);
    ConnectionSameExactly(l, r, a, b);
  }

  lemma ConnectionIdAt(r: Rules, c: Connection)
    ensures var m := ConnectionJson(r, c).members;
            IdKey in m && m[IdKey] == Text(c.id) && forall k :: k in m ==> !k.Property?
  {
    hide ConnectionFields, NotesFields, CONNECTION_FIELDS, At, NOTES_FIELDS;
    ConnectionKeys(r, c);
    JoinedKeys(r, ConnectionFields(r, c), c.notes);
    ConnectionJoined(r, c, IdKey);
    ConnectionAt(r, c);
    FixedKeys();
    AtIs(ConnectionJson(r, c).members, IdKey, Text(c.id));
  }

  /**
   * Two nodes a diff takes for one, though one has a setting with a dotted key and the other a setting inside
   * another.
   */
  lemma NodesMerge(l: Listing, r: Rules, n: Node)
    requires Lists(l)
    ensures var a := n.(notes := n.notes.(configuration := Extra(map[Property("a.b") := Int(1)])));
            var b := n.(notes := n.notes.(configuration :=
                Extra(map[Property("a") := Object(map[Property("b") := Int(1)])])));
            a != b && SameNode(l, a, b)
  {
    hide SameConfiguration;
    SettingsMerge(l);
  }
}
