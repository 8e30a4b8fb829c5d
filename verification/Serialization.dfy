/** The architecture's written form: a JSON document, and what reading it gives back. */
module Serialization {
  import opened Options
  import opened Decimals

  /** The name of a field of the document, or the name of a property or label. */
  datatype Key =
    | Property(text: string) | IdKey | KindKey | NameKey | DescriptionKey | TechnologyKey | ComponentKey
    | ParentIdKey | LifecycleKey | ConfigurationKey | RequirementRefsKey | MetadataKey | ProvenanceKey
    | FieldProvenanceKey | SourceIdKey | TargetIdKey | ProtocolKey | InteractionKey | BidirectionalKey | CriticalKey
    | SourceKey | ReferenceKey | ConfidenceKey | VerifiedKey | InferredKey | ActorKey | RecordedAtKey
    | RequirementIdKey | VersionKey | ValuesKey | UnknownKey | ExtraKey | StatementKey | SubjectIdsKey
    | DecisionIdKey | SchemaVersionKey | NodesKey | ConnectionsKey | AssumptionsKey | DecisionsKey

  datatype Json =
    | Null | Bool(value: bool) | Int(n: int) | Text(text: string) | List(items: seq<Json>)
        | Object(members: map<Key, Json>)

  // --- what is written -----------------------------------------------------------------------------

  /** An enumerated value, an identifier or a time: written as a text of its own. */
  type Code = int

  datatype Provenance = Provenance(source: Code, reference: Option<string>, confidence: Option<Decimal>, verified: bool,
    inferred: bool, actor: Option<string>, recordedAt: Option<Code>)

  datatype Reference = Reference(requirement: Code, version: Option<int>)

  datatype Value = Number(held: Held) | Flag(flag: bool) | Word(word: string) | Words(words: seq<string>)

  datatype Configuration = Configuration(values: map<string, Value>, unknown: set<string>, extra: map<Key, Json>)

  datatype Notes = Notes(configuration: Configuration, references: seq<Reference>, metadata: map<string, string>,
    provenance: Option<Provenance>, fields: map<string, Provenance>)

  datatype Technology = Technology(name: string, version: Option<string>)

  datatype Node = Node(id: string, kind: Code, name: string, description: Option<string>,
      technology: Option<Technology>,
    component: Option<string>, parent: Option<string>, lifecycle: Option<Code>, notes: Notes)

  datatype Connection = Connection(id: string, source: string, target: string, kind: Code, protocol: Option<string>,
    interaction: Option<Code>, bidirectional: bool, critical: Option<bool>, name: Option<string>,
    description: Option<string>, notes: Notes)

  datatype Assumption = Assumption(id: string, statement: string, provenance: Provenance, subjects: seq<string>,
      references: seq<Reference>)

  datatype DecisionRef = DecisionRef(decision: Code, subjects: seq<string>)

  datatype Architecture = Architecture(version: int, name: string, description: Option<string>,
      metadata: map<string, string>,
    provenance: Option<Provenance>, references: seq<Reference>, nodes: seq<Node>, connections: seq<Connection>,
    assumptions: seq<Assumption>, decisions: seq<DecisionRef>)

  // --- texts of codes ------------------------------------------------------------------------------

  datatype Codec = Codec(write: Code -> string, read: string -> Option<Code>)

  ghost predicate Inverse(c: Codec) {
    forall x :: c.read(c.write(x)) == Some(x)
  }

  datatype ValueType = IntegerType | DecimalType | BooleanType | ChoiceType | ListType

  /** How codes and lists are written, which type each property has, and what the model's own checks accept. */
  datatype Rules = Rules(kind: Codec, connectionKind: Codec, interaction: Codec, lifecycle: Codec, source: Codec,
      uuid: Codec, time: Codec,
    sorted: set<string> -> seq<string>, tidy: seq<string> -> seq<string>,
    nodeProperty: string -> Option<ValueType>, connectionProperty: string -> Option<ValueType>,
    accepts: Architecture -> bool)

  ghost predicate Faithful(r: Rules) {
    && Inverse(r.kind) && Inverse(r.connectionKind) && Inverse(r.interaction) && Inverse(r.lifecycle)
    && Inverse(r.source)
    && Inverse(r.uuid) && Inverse(r.time)
    && forall s :: SetOf(r.sorted(s)) == s
  }

  function SetOf(s: seq<string>): set<string> {
    set x | x in s
  }

  // --- writing -------------------------------------------------------------------------------------

  function TextOr(x: Option<string>): Json {
    if x.Some? then Text(x.value) else Null
  }

  function CodeOr(c: Codec, x: Option<Code>): Json {
    if x.Some? then Text(c.write(x.value)) else Null
  }

  function Texts(s: seq<string>): Json {
    List(seq(|s|, i requires 0 <= i < |s| => Text(s[i])))
  }

  /** An object with a member for each property or label. */
  function Properties<T>(m: map<string, T>, write: T -> Json): (o: map<Key, Json>)
    ensures forall k :: k in o <==> k.Property? && k.text in m
    ensures forall t :: t in m ==> o[Property(t)] == write(m[t])
  {
    map t | t in m :: Property(t) := write(m[t])
  }

  function TextMap(m: map<string, string>): Json {
    Object(Properties(m, t => Text(t)))
  }

  function ProvenanceJson(r: Rules, p: Provenance): Json {
    Object(map[SourceKey := Text(r.source.write(p.source)), ReferenceKey := TextOr(p.reference),
               ConfidenceKey := if p.confidence.Some? then Text(Written(p.confidence.value)) else Null,
               VerifiedKey := Bool(p.verified), InferredKey := Bool(p.inferred), ActorKey := TextOr(p.actor),
               RecordedAtKey := CodeOr(r.time, p.recordedAt)])
  }

  function ProvenanceWriter(r: Rules): Provenance -> Json {
    (p: Provenance) => ProvenanceJson(r, p)
  }

  function ProvenanceOr(r: Rules, p: Option<Provenance>): Json {
    if p.Some? then ProvenanceJson(r, p.value) else Null
  }

  function ReferenceJson(r: Rules, x: Reference): Json {
    Object(map[RequirementIdKey := Text(r.uuid.write(x.requirement)), VersionKey := if x.version.Some? then
        Int(x.version.value) else Null])
  }

  function ReferencesJson(r: Rules, s: seq<Reference>): Json {
    List(seq(|s|, i requires 0 <= i < |s| => ReferenceJson(r, s[i])))
  }

  function ValueJson(v: Value): Json {
    match v
    case Number(Whole(n)) => Int(n)
    case Number(Exact(d)) => Text(Written(d))
    case Flag(flag) => Bool(flag)
    case Word(word) => Text(word)
    case Words(words) => Texts(words)
  }

  function ConfigurationJson(r: Rules, c: Configuration): Json {
    Object(map[ValuesKey := Object(Properties(c.values, ValueJson)), UnknownKey := Texts(r.sorted(c.unknown)),
               ExtraKey := Object(c.extra)])
  }

  function NotesFields(r: Rules, n: Notes): map<Key, Json> {
    map[ConfigurationKey := ConfigurationJson(r, n.configuration),
        RequirementRefsKey := ReferencesJson(r, n.references),
        MetadataKey := TextMap(n.metadata), ProvenanceKey := ProvenanceOr(r, n.provenance),
        FieldProvenanceKey := Object(Properties(n.fields, ProvenanceWriter(r)))]
  }

  function TechnologyJson(t: Option<Technology>): Json {
    if t.Some? then Object(map[NameKey := Text(t.value.name), VersionKey := TextOr(t.value.version)]) else Null
  }

  function NodeFields(r: Rules, n: Node): map<Key, Json> {
    map[IdKey := Text(n.id), KindKey := Text(r.kind.write(n.kind)), NameKey := Text(n.name),
        DescriptionKey := TextOr(n.description),
        TechnologyKey := TechnologyJson(n.technology), ComponentKey := TextOr(n.component),
        ParentIdKey := TextOr(n.parent),
        LifecycleKey := CodeOr(r.lifecycle, n.lifecycle)]
  }

  function NodeJson(r: Rules, n: Node): Json {
    Object(NodeFields(r, n) + NotesFields(r, n.notes))
  }

  function ConnectionFields(r: Rules, c: Connection): map<Key, Json> {
    map[IdKey := Text(c.id), SourceIdKey := Text(c.source), TargetIdKey := Text(c.target),
        KindKey := Text(r.connectionKind.write(c.kind)),
        ProtocolKey := TextOr(c.protocol), InteractionKey := CodeOr(r.interaction, c.interaction),
        BidirectionalKey := Bool(c.bidirectional),
        CriticalKey := if c.critical.Some? then Bool(c.critical.value) else Null, NameKey := TextOr(c.name),
        DescriptionKey := TextOr(c.description)]
  }

  function ConnectionJson(r: Rules, c: Connection): Json {
    Object(ConnectionFields(r, c) + NotesFields(r, c.notes))
  }

  function AssumptionJson(r: Rules, a: Assumption): Json {
    Object(map[IdKey := Text(a.id), StatementKey := Text(a.statement), ProvenanceKey := ProvenanceJson(r, a.provenance),
               SubjectIdsKey := Texts(a.subjects), RequirementRefsKey := ReferencesJson(r, a.references)])
  }

  function DecisionJson(r: Rules, d: DecisionRef): Json {
    Object(map[DecisionIdKey := Text(r.uuid.write(d.decision)), SubjectIdsKey := Texts(d.subjects)])
  }

  function ToJson(r: Rules, a: Architecture): Json {
    Object(map[SchemaVersionKey := Int(a.version), NameKey := Text(a.name), DescriptionKey := TextOr(a.description),
               MetadataKey := TextMap(a.metadata), ProvenanceKey := ProvenanceOr(r, a.provenance),
               RequirementRefsKey := ReferencesJson(r, a.references),
               NodesKey := List(seq(|a.nodes|, i requires 0 <= i < |a.nodes| => NodeJson(r, a.nodes[i]))),
               ConnectionsKey := List(seq(|a.connections|,
                   i requires 0 <= i < |a.connections| => ConnectionJson(r, a.connections[i]))),
               AssumptionsKey := List(seq(|a.assumptions|,
                   i requires 0 <= i < |a.assumptions| => AssumptionJson(r, a.assumptions[i]))),
               DecisionsKey := List(seq(|a.decisions|,
                   i requires 0 <= i < |a.decisions| => DecisionJson(r, a.decisions[i])))])
  }

  // --- reading -------------------------------------------------------------------------------------

  /** A value, or that it was refused. */
  datatype Read<T> = Refused | Got(value: T)

  function At(m: map<Key, Json>, key: Key): Json {
    if key in m then m[key] else Null
  }

  /** Only known fields, and none of the required ones missing or null. */
  predicate Shaped(m: map<Key, Json>, allowed: set<Key>, required: set<Key>) {
    m.Keys <= allowed && forall k :: k in required ==> !At(m, k).Null?
  }

  function ReadText(j: Json): Read<string> {
    if j.Text? then Got(j.text) else Refused
  }

  function ReadTextOr(j: Json): Read<Option<string>> {
    if j.Null? then Got(None) else if j.Text? then Got(Some(j.text)) else Refused
  }

  function ReadFlag(j: Json): Read<bool> {
    if j.Null? then Got(false) else if j.Bool? then Got(j.value) else Refused
  }

  function ReadCode(c: Codec, j: Json): Read<Code> {
    if j.Text? && c.read(j.text).Some? then Got(c.read(j.text).value) else Refused
  }

  function ReadCodeOr(c: Codec, j: Json): Read<Option<Code>> {
    if j.Null? then Got(None)
    else
      var code := ReadCode(c, j);
      if code.Got? then Got(Some(code.value)) else Refused
  }

  /** A list, every item read; refused if any is. */
  function ReadItems<T>(items: seq<Json>, read: Json -> Read<T>): Read<seq<T>> {
    if items == [] then Got([])
    else
      var rest, last := ReadItems(items[..|items| - 1], read), read(items[|items| - 1]);
      if rest.Got? && last.Got? then Got(rest.value + [last.value]) else Refused
  }

  function ReadList<T>(j: Json, read: Json -> Read<T>): Read<seq<T>> {
    if j.Null? then Got([]) else if j.List? then ReadItems(j.items, read) else Refused
  }

  function Labels(m: map<Key, Json>): set<string> {
    set k | k in m && k.Property? :: k.text
  }

  function ReadMembers<T>(m: map<Key, Json>, read: (string, Json) -> Read<T>): Read<map<string, T>> {
    if forall k :: k in m ==> k.Property? && read(k.text, m[k]).Got? then
      Got(map t | t in Labels(m) && Property(t) in m && read(t, m[Property(t)]).Got? :: read(t, m[Property(t)]).value)
    else Refused
  }

  function ReadObject<T>(j: Json, read: (string, Json) -> Read<T>): Read<map<string, T>> {
    if j.Null? then Got(map[]) else if j.Object? then ReadMembers(j.members, read) else Refused
  }

  const PROVENANCE_FIELDS := {SourceKey, ReferenceKey, ConfidenceKey, VerifiedKey, InferredKey, ActorKey, RecordedAtKey}

  function ReadConfidence(j: Json): Read<Option<Decimal>> {
    match j
    case Null => Got(None)
    case Int(n) => Got(Some(Canonical(OfInt(n))))
    case Text(text) => if Decimals.Read(text).Some? then Got(Some(Canonical(Decimals.Read(text).value))) else Refused
    case _ => Refused
  }

  function ReadProvenance(r: Rules, j: Json): Read<Provenance> {
    if !j.Object? || !Shaped(j.members, PROVENANCE_FIELDS, {SourceKey}) then Refused
    else
      var m := j.members;
      var source := ReadCode(r.source, At(m, SourceKey));
      var reference := ReadTextOr(At(m, ReferenceKey));
      var confidence := ReadConfidence(At(m, ConfidenceKey));
      var verified := ReadFlag(At(m, VerifiedKey));
      var inferred := ReadFlag(At(m, InferredKey));
      var actor := ReadTextOr(At(m, ActorKey));
      var at := ReadCodeOr(r.time, At(m, RecordedAtKey));
      if source.Got? && reference.Got? && confidence.Got? && verified.Got? && inferred.Got? && actor.Got?
          && at.Got? then
        Got(Provenance(source.value, reference.value, confidence.value, verified.value, inferred.value, actor.value,
            at.value))
      else Refused
  }

  function ReadProvenanceOr(r: Rules, j: Json): Read<Option<Provenance>> {
    if j.Null? then Got(None)
    else
      var p := ReadProvenance(r, j);
      if p.Got? then Got(Some(p.value)) else Refused
  }

  function ReadReference(r: Rules, j: Json): Read<Reference> {
    if !j.Object? || !Shaped(j.members, {RequirementIdKey, VersionKey}, {RequirementIdKey}) then Refused
    else
      var id, version := ReadCode(r.uuid, At(j.members, RequirementIdKey)), At(j.members, VersionKey);
      if id.Got? && (version.Null? || version.Int?) then
          Got(Reference(id.value, if version.Int? then Some(version.n) else None)) else Refused
  }

  function IntOf(d: Decimal): int {
    var n: int := d.digits;
    if d.negative then -n else n
  }

  /** A configuration value by the type of its property; a value of another shape is kept for the checks to refuse. */
  function ReadValue(r: Rules, type_: Option<ValueType>, j: Json): Read<Value> {
    match j
    case Int(n) => Got(Number(if type_ == Some(DecimalType) then Exact(Canonical(OfInt(n))) else Whole(n)))
    case Bool(b) => Got(Flag(b))
    case Text(text) =>
      var d := Decimals.Read(text);
      if type_ == Some(DecimalType) && d.Some? then Got(Number(Exact(Canonical(d.value))))
      else if type_ == Some(IntegerType) && d.Some? && d.value.exponent == 0 then
        Got(Number(Whole(IntOf(d.value))))
      else Got(Word(text))
    case List(items) =>
      var words := ReadItems(items, ReadText);
      if words.Got? then Got(Words(r.tidy(words.value))) else Refused
    case _ => Refused
  }

  function ValueReader(r: Rules, types: string -> Option<ValueType>): (string, Json) -> Read<Value> {
    (k: string, v: Json) => ReadValue(r, types(k), v)
  }

  function ReadConfiguration(r: Rules, types: string -> Option<ValueType>, j: Json): Read<Configuration> {
    if j.Null? then Got(Configuration(map[], {}, map[]))
    else if !j.Object? || !Shaped(j.members, {ValuesKey, UnknownKey, ExtraKey}, {}) then Refused
    else
      var values := ReadObject(At(j.members, ValuesKey), ValueReader(r, types));
      var unknown := ReadList(At(j.members, UnknownKey), ReadText);
      var extra := At(j.members, ExtraKey);
      if values.Got? && unknown.Got? && (extra.Null? || extra.Object?) then
        Got(Configuration(values.value, SetOf(unknown.value), if extra.Object? then extra.members else map[]))
      else Refused
  }

  function ReferenceReader(r: Rules): Json -> Read<Reference> {
    (j: Json) => ReadReference(r, j)
  }

  function TextReader(): (string, Json) -> Read<string> {
    (k: string, v: Json) => ReadText(v)
  }

  function ProvenanceReader(r: Rules): (string, Json) -> Read<Provenance> {
    (k: string, v: Json) => ReadProvenance(r, v)
  }

  function ReadNotes(r: Rules, types: string -> Option<ValueType>, m: map<Key, Json>): Read<Notes> {
    var configuration := ReadConfiguration(r, types, At(m, ConfigurationKey));
    var references := ReadList(At(m, RequirementRefsKey), ReferenceReader(r));
    var metadata := ReadObject(At(m, MetadataKey), TextReader());
    var provenance := ReadProvenanceOr(r, At(m, ProvenanceKey));
    var fields := ReadObject(At(m, FieldProvenanceKey), ProvenanceReader(r));
    if configuration.Got? && references.Got? && metadata.Got? && provenance.Got? && fields.Got? then
      Got(Notes(configuration.value, references.value, metadata.value, provenance.value, fields.value))
    else Refused
  }

  function ReadTechnology(j: Json): Read<Option<Technology>> {
    if j.Null? then Got(None)
    else if !j.Object? || !Shaped(j.members, {NameKey, VersionKey}, {NameKey}) then Refused
    else
      var name, version := ReadText(At(j.members, NameKey)), ReadTextOr(At(j.members, VersionKey));
      if name.Got? && version.Got? then Got(Some(Technology(name.value, version.value))) else Refused
  }

  const NOTES_FIELDS := {ConfigurationKey, RequirementRefsKey, MetadataKey, ProvenanceKey, FieldProvenanceKey}

  const NODE_FIELDS := {IdKey, KindKey, NameKey, DescriptionKey, TechnologyKey, ComponentKey, ParentIdKey, LifecycleKey}
      + NOTES_FIELDS

  function ReadNode(r: Rules, j: Json): Read<Node> {
    if !j.Object? || !Shaped(j.members, NODE_FIELDS, {IdKey, KindKey, NameKey}) then Refused
    else
      var m := j.members;
      var id := ReadText(At(m, IdKey));
      var kind := ReadCode(r.kind, At(m, KindKey));
      var name := ReadText(At(m, NameKey));
      var description := ReadTextOr(At(m, DescriptionKey));
      var technology := ReadTechnology(At(m, TechnologyKey));
      var component := ReadTextOr(At(m, ComponentKey));
      var parent := ReadTextOr(At(m, ParentIdKey));
      var lifecycle, notes := ReadCodeOr(r.lifecycle, At(m, LifecycleKey)), ReadNotes(r, r.nodeProperty, m);
      if id.Got? && kind.Got? && name.Got? && description.Got? && technology.Got? && component.Got? && parent.Got?
          && lifecycle.Got? && notes.Got? then
        Got(Node(id.value, kind.value, name.value, description.value, technology.value, component.value, parent.value,
            lifecycle.value, notes.value))
      else Refused
  }

  const CONNECTION_FIELDS :=
    {IdKey, SourceIdKey, TargetIdKey, KindKey, ProtocolKey, InteractionKey, BidirectionalKey, CriticalKey, NameKey,
        DescriptionKey} + NOTES_FIELDS

  function ReadConnection(r: Rules, j: Json): Read<Connection> {
    if !j.Object? || !Shaped(j.members, CONNECTION_FIELDS, {IdKey, SourceIdKey, TargetIdKey, KindKey}) then Refused
    else
      var m := j.members;
      var id := ReadText(At(m, IdKey));
      var source := ReadText(At(m, SourceIdKey));
      var target := ReadText(At(m, TargetIdKey));
      var kind := ReadCode(r.connectionKind, At(m, KindKey));
      var protocol := ReadTextOr(At(m, ProtocolKey));
      var interaction := ReadCodeOr(r.interaction, At(m, InteractionKey));
      var bidirectional := ReadFlag(At(m, BidirectionalKey));
      var critical := At(m, CriticalKey);
      var name := ReadTextOr(At(m, NameKey));
      var description := ReadTextOr(At(m, DescriptionKey));
      var notes := ReadNotes(r, r.connectionProperty, m);
      if id.Got? && source.Got? && target.Got? && kind.Got? && protocol.Got? && interaction.Got? && bidirectional.Got?
         && (critical.Null? || critical.Bool?) && name.Got? && description.Got? && notes.Got? then
        Got(Connection(id.value, source.value, target.value, kind.value, protocol.value, interaction.value,
            bidirectional.value,
                       if critical.Bool? then Some(critical.value)
                           else None, name.value, description.value, notes.value))
      else Refused
  }

  function ReadAssumption(r: Rules, j: Json): Read<Assumption> {
    if !j.Object? || !Shaped(j.members, {IdKey, StatementKey, ProvenanceKey, SubjectIdsKey, RequirementRefsKey},
        {IdKey, StatementKey, ProvenanceKey}) then Refused
    else
      var m := j.members;
      var id := ReadText(At(m, IdKey));
      var statement := ReadText(At(m, StatementKey));
      var provenance := ReadProvenance(r, At(m, ProvenanceKey));
      var subjects := ReadList(At(m, SubjectIdsKey), ReadText);
      var references := ReadList(At(m, RequirementRefsKey), ReferenceReader(r));
      if id.Got? && statement.Got? && provenance.Got? && subjects.Got? && references.Got? then
        Got(Assumption(id.value, statement.value, provenance.value, subjects.value, references.value))
      else Refused
  }

  function ReadDecision(r: Rules, j: Json): Read<DecisionRef> {
    if !j.Object? || !Shaped(j.members, {DecisionIdKey, SubjectIdsKey}, {DecisionIdKey}) then Refused
    else
      var id := ReadCode(r.uuid, At(j.members, DecisionIdKey));
      var subjects := ReadList(At(j.members, SubjectIdsKey), ReadText);
      if id.Got? && subjects.Got? then Got(DecisionRef(id.value, subjects.value)) else Refused
  }

  function NodeReader(r: Rules): Json -> Read<Node> {
    (j: Json) => ReadNode(r, j)
  }

  function ConnectionReader(r: Rules): Json -> Read<Connection> {
    (j: Json) => ReadConnection(r, j)
  }

  function AssumptionReader(r: Rules): Json -> Read<Assumption> {
    (j: Json) => ReadAssumption(r, j)
  }

  function DecisionReader(r: Rules): Json -> Read<DecisionRef> {
    (j: Json) => ReadDecision(r, j)
  }

  const ARCHITECTURE_FIELDS :=
    {SchemaVersionKey, NameKey, DescriptionKey, MetadataKey, ProvenanceKey, RequirementRefsKey, NodesKey,
        ConnectionsKey, AssumptionsKey, DecisionsKey}

  function FromJson(r: Rules, j: Json): Read<Architecture> {
    if !j.Object? || !Shaped(j.members, ARCHITECTURE_FIELDS, {SchemaVersionKey, NameKey})
        || !At(j.members, SchemaVersionKey).Int? then Refused
    else
      var m := j.members;
      var name := ReadText(At(m, NameKey));
      var description := ReadTextOr(At(m, DescriptionKey));
      var metadata := ReadObject(At(m, MetadataKey), TextReader());
      var provenance := ReadProvenanceOr(r, At(m, ProvenanceKey));
      var references := ReadList(At(m, RequirementRefsKey), ReferenceReader(r));
      var nodes := ReadList(At(m, NodesKey), NodeReader(r));
      var connections := ReadList(At(m, ConnectionsKey), ConnectionReader(r));
      var assumptions := ReadList(At(m, AssumptionsKey), AssumptionReader(r));
      var decisions := ReadList(At(m, DecisionsKey), DecisionReader(r));
      if name.Got? && description.Got? && metadata.Got? && provenance.Got? && references.Got? && nodes.Got?
          && connections.Got? && assumptions.Got? && decisions.Got? then
        var a := Architecture(At(m, SchemaVersionKey).n, name.value, description.value, metadata.value,
            provenance.value, references.value,
                              nodes.value, connections.value, assumptions.value, decisions.value);
        if r.accepts(a) then Got(a) else Refused
      else Refused
  }

  // --- what a valid architecture holds -------------------------------------------------------------

  predicate Plain(p: Provenance) {
    p.confidence.Some? ==> Fits(p.confidence.value) && Canonical(p.confidence.value) == p.confidence.value
  }

  /** A value of its property's type, numbers exact and within bounds, lists in their one representation. */
  predicate Conforms(r: Rules, type_: Option<ValueType>, v: Value) {
    match type_
    case None => false
    case Some(DecimalType) => v.Number? && HeldFits(v.held)
    case Some(IntegerType) => v.Number? && v.held.Whole?
    case Some(BooleanType) => v.Flag?
    case Some(ChoiceType) => v.Word?
    case Some(ListType) => v.Words? && r.tidy(v.words) == v.words
  }

  ghost predicate ValidNotes(r: Rules, types: string -> Option<ValueType>, n: Notes) {
    && (forall k :: k in n.configuration.values ==> Conforms(r, types(k), n.configuration.values[k]))
    && (n.provenance.Some? ==> Plain(n.provenance.value)) && (forall k :: k in n.fields ==> Plain(n.fields[k]))
  }

  ghost predicate Valid(r: Rules, a: Architecture) {
    && (a.provenance.Some? ==> Plain(a.provenance.value))
    && (forall n :: n in a.nodes ==> ValidNotes(r, r.nodeProperty, n.notes))
    && (forall c :: c in a.connections ==> ValidNotes(r, r.connectionProperty, c.notes))
    && (forall x :: x in a.assumptions ==> Plain(x.provenance))
  }

  // --- the form read back --------------------------------------------------------------------------

  /** A decimal property held as an int is held as a decimal once read. */
  function AsRead(type_: Option<ValueType>, v: Value): Value {
    if type_ == Some(DecimalType) && v.Number? && v.held.Whole? then Number(Exact(Canonical(OfInt(v.held.n)))) else v
  }

  function NotesAsRead(types: string -> Option<ValueType>, n: Notes): Notes {
    n.(configuration := n.configuration.(values := map k | k in n.configuration.values ::
        AsRead(types(k), n.configuration.values[k])))
  }

  function NodeAsRead(r: Rules, n: Node): Node {
    n.(notes := NotesAsRead(r.nodeProperty, n.notes))
  }

  function ConnectionAsRead(r: Rules, c: Connection): Connection {
    c.(notes := NotesAsRead(r.connectionProperty, c.notes))
  }

  function ArchitectureAsRead(r: Rules, a: Architecture): Architecture {
    a.(nodes := seq(|a.nodes|, i requires 0 <= i < |a.nodes| => NodeAsRead(r, a.nodes[i])),
       connections := seq(|a.connections|,
           i requires 0 <= i < |a.connections| => ConnectionAsRead(r, a.connections[i])))
  }
}
