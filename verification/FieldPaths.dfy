/** The field paths of a written element: what a comparison of two architectures looks at. */
module FieldPaths {
  import opened Serialization

  /** How a key is written. */
  function KeyText(k: Key): string {
    match k
    case Property(text) => text
    case IdKey => "id"
    case KindKey => "kind"
    case NameKey => "name"
    case DescriptionKey => "description"
    case TechnologyKey => "technology"
    case ComponentKey => "component"
    case ParentIdKey => "parent_id"
    case LifecycleKey => "lifecycle"
    case ConfigurationKey => "configuration"
    case RequirementRefsKey => "requirement_refs"
    case MetadataKey => "metadata"
    case ProvenanceKey => "provenance"
    case FieldProvenanceKey => "field_provenance"
    case SourceIdKey => "source_id"
    case TargetIdKey => "target_id"
    case ProtocolKey => "protocol"
    case InteractionKey => "interaction"
    case BidirectionalKey => "bidirectional"
    case CriticalKey => "critical"
    case SourceKey => "source"
    case ReferenceKey => "reference"
    case ConfidenceKey => "confidence"
    case VerifiedKey => "verified"
    case InferredKey => "inferred"
    case ActorKey => "actor"
    case RecordedAtKey => "recorded_at"
    case RequirementIdKey => "requirement_id"
    case VersionKey => "version"
    case ValuesKey => "values"
    case UnknownKey => "unknown"
    case ExtraKey => "extra"
    case StatementKey => "statement"
    case SubjectIdsKey => "subject_ids"
    case DecisionIdKey => "decision_id"
    case SchemaVersionKey => "schema_version"
    case NodesKey => "nodes"
    case ConnectionsKey => "connections"
    case AssumptionsKey => "assumptions"
    case DecisionsKey => "decisions"
  }

  /** A written element. */
  type Record = j: Json | j.Object? witness Object(map[])

  /** The order an object's keys are walked in. */
  type Listing = set<Key> -> seq<Key>

  ghost predicate Lists(l: Listing) {
    forall s, k :: k in l(s) <==> k in s
  }

  // --- field path to value -------------------------------------------------------------------------

  /** Compared as one value. */
  predicate IsWhole(key: string) {
    key == "provenance" || key == "requirement_refs" || key == "subject_ids"
  }

  predicate IsConfiguration(j: Json) {
    && j.Object? && ValuesKey in j.members && j.members[ValuesKey].Object?
    && UnknownKey in j.members && j.members[UnknownKey].List?
    && ExtraKey in j.members && j.members[ExtraKey].Object?
  }

  /** Each field path with its value: objects walked, their keys joined by dots, unless every item is compared whole. */
  function Leaves(l: Listing, o: Json, prefix: string, whole: bool): map<string, Json>
    requires o.Object?
    decreases o, 2, 0
  {
    LeavesOf(l, o, l(o.members.Keys), prefix, whole)
  }

  /** Those of the keys listed. */
  function LeavesOf(l: Listing, o: Json, keys: seq<Key>, prefix: string, whole: bool): map<string, Json>
    requires o.Object?
    decreases o, 1, |keys|
  {
    if keys == [] then map[]
    else
      var front, k := LeavesOf(l, o, keys[..|keys| - 1], prefix, whole), keys[|keys| - 1];
      if k in o.members then front + LeavesAt(l, k, o.members[k], prefix, whole) else front
  }

  /** Those of a configuration: its values, the list of unknown ones if there is any, and unrecognised settings. */
  function ConfigurationLeaves(l: Listing, c: Json): map<string, Json>
    requires IsConfiguration(c)
    decreases c, 2, 1
  {
    var m := c.members;
    Leaves(l, m[ValuesKey], "configuration.", false)
    + (if m[UnknownKey].items != [] then map["configuration.unknown" := m[UnknownKey]] else map[])
    + Leaves(l, m[ExtraKey], "configuration.extra.", false)
  }

  /** Those of one key: configuration values by their own names, lists and records whole; an empty object gives none. */
  function LeavesAt(l: Listing, k: Key, item: Json, prefix: string, whole: bool): map<string, Json>
    decreases item, 3, 0
  {
    var path := prefix + KeyText(k);
    if path == "configuration" && IsConfiguration(item) then ConfigurationLeaves(l, item)
    else if path == "field_provenance" && item.Object? then Leaves(l, item, "field_provenance.", true)
    else if item.Object? && !whole && !IsWhole(KeyText(k)) then Leaves(l, item, path + ".", false)
    else map[path := item]
  }

  lemma LeavesNext(l: Listing, o: Json, keys: seq<Key>, n: nat, prefix: string, whole: bool)
    requires o.Object? && n < |keys|
    ensures LeavesOf(l, o, keys[..n + 1], prefix, whole) ==
            LeavesOf(l, o, keys[..n], prefix, whole)
            + (if keys[n] in o.members then LeavesAt(l, keys[n], o.members[keys[n]], prefix, whole) else map[])
  {
    hide LeavesAt;
    assert keys[..n + 1][..n] == keys[..n];
  }

  method WalkLeaves(l: Listing, o: Json, prefix: string, whole: bool) returns (found: map<string, Json>)
    requires o.Object?
    ensures found == Leaves(l, o, prefix, whole)
    decreases o, 1
  {
    hide LeavesAt, LeavesOf;
    found := map[];
    var keys := l(o.members.Keys);
    assert LeavesOf(l, o, keys[..0], prefix, whole) == map[] by { NoLeaves(l, o, keys[..0], prefix, whole); }
    for i := 0 to |keys|
      invariant found == LeavesOf(l, o, keys[..i], prefix, whole)
    {
      LeavesNext(l, o, keys, i, prefix, whole);
      if keys[i] in o.members {
        var more := WalkKey(l, keys[i], o.members[keys[i]], prefix, whole);
        found := found + more;
      }
    }
    assert keys[..|keys|] == keys;
  }

  lemma NoLeaves(l: Listing, o: Json, keys: seq<Key>, prefix: string, whole: bool)
    requires o.Object? && keys == []
    ensures LeavesOf(l, o, keys, prefix, whole) == map[]
  {
  }

  method WalkConfiguration(l: Listing, c: Json) returns (found: map<string, Json>)
    requires IsConfiguration(c)
    ensures found == ConfigurationLeaves(l, c)
    decreases c, 2, 0
  {
    hide Leaves;
    found := WalkLeaves(l, c.members[ValuesKey], "configuration.", false);
    if c.members[UnknownKey].items != [] {
      found := found + map["configuration.unknown" := c.members[UnknownKey]];
    }
    var extra := WalkLeaves(l, c.members[ExtraKey], "configuration.extra.", false);
    found := found + extra;
  }

  method WalkKey(l: Listing, k: Key, item: Json, prefix: string, whole: bool) returns (found: map<string, Json>)
    ensures found == LeavesAt(l, k, item, prefix, whole)
    decreases item, 3, 0
  {
    hide Leaves, ConfigurationLeaves, KeyText, IsConfiguration;
    var path := prefix + KeyText(k);
    if path == "configuration" && IsConfiguration(item) {
      found := WalkConfiguration(l, item);
    } else if path == "field_provenance" && item.Object? {
      found := WalkLeaves(l, item, "field_provenance.", true);
    } else if item.Object? && !whole && !IsWhole(KeyText(k)) {
      found := WalkLeaves(l, item, path + ".", false);
    } else {
      found := map[path := item];
    }
  }

  // --- two forms with the same fields --------------------------------------------------------------

  /** The value at a path; a field that is null is one that is not there. */
  function Get(leaves: map<string, Json>, path: string): Json {
    if path in leaves then leaves[path] else Null
  }

  /** A value as it is compared: true and 1 are equal, and so are false and 0, at any depth. */
  function AsCompared(j: Json): Json {
    match j
    case Bool(value) => Int(if value then 1 else 0)
    case List(items) => List(seq(|items|, i requires 0 <= i < |items| => AsCompared(items[i])))
    case Object(members) => Object(map k | k in members :: AsCompared(members[k]))
    case _ => j
  }

  predicate Matches(a: Json, b: Json) {
    AsCompared(a) == AsCompared(b)
  }

  ghost predicate Alike(a: map<string, Json>, b: map<string, Json>) {
    forall path :: Matches(Get(a, path), Get(b, path))
  }

  predicate NoDot(s: string) {
    '.' !in s
  }

  /** Nothing, or a dot and more. */
  predicate IsTail(s: string) {
    s == "" || s[0] == '.'
  }

  /** Where a shorter head ends, a longer one has the dot. */
  lemma DotAt(a: string, x: string, b: string, y: string)
    requires IsTail(x) && a + x == b + y && |a| < |b|
    ensures b[|a|] == '.'
  {
    assert (a + x)[|a|] == x[0];
    assert (b + y)[|a|] == b[|a|];
  }

  lemma SameHead(a: string, x: string, b: string, y: string)
    requires NoDot(a) && NoDot(b) && IsTail(x) && IsTail(y) && a + x == b + y
    ensures a == b && x == y
  {
    if |a| < |b| {
      DotAt(a, x, b, y);
      assert false;
    }
    if |b| < |a| {
      DotAt(b, y, a, x);
      assert false;
    }
    assert (a + x)[..|a|] == a && (b + y)[..|b|] == b;
    assert (a + x)[|a|..] == x && (b + y)[|b|..] == y;
  }

  lemma SamePrefix(prefix: string, s: string, t: string)
    requires prefix + s == prefix + t
    ensures s == t
  {
    assert (prefix + s)[|prefix|..] == s && (prefix + t)[|prefix|..] == t;
  }

  /** Every path of a key starts with it. */
  lemma {:induction false} StartsAt(l: Listing, k: Key, item: Json, prefix: string, whole: bool, q: string)
      returns (x: string)
    requires q in LeavesAt(l, k, item, prefix, whole)
    ensures IsTail(x) && q == prefix + (KeyText(k) + x)
    decreases item, 1, 0
  {
    hide KeyText, IsConfiguration;
    var path := prefix + KeyText(k);
    if path == "configuration" && IsConfiguration(item) {
      ConfigurationIs(item);
      x := StartsInConfiguration(l, item, q);
      assert path + x == prefix + (KeyText(k) + x);
    } else if path == "field_provenance" && item.Object? {
      var key, y := StartsIn(l, item, l(item.members.Keys), "field_provenance.", true, q);
      x := "." + (KeyText(key) + y);
      assert "field_provenance." + (KeyText(key) + y) == "field_provenance" + x;
      assert path + x == prefix + (KeyText(k) + x);
    } else if item.Object? && !whole && !IsWhole(KeyText(k)) {
      var key, y := StartsIn(l, item, l(item.members.Keys), path + ".", false, q);
      x := "." + (KeyText(key) + y);
      assert q == path + x == prefix + (KeyText(k) + x);
    } else {
      x := "";
      assert KeyText(k) + x == KeyText(k);
    }
  }

  lemma ConfigurationIs(item: Json)
    requires IsConfiguration(item)
    ensures item.Object? && ValuesKey in item.members && UnknownKey in item.members && ExtraKey in item.members
    ensures item.members[ValuesKey].Object? && item.members[UnknownKey].List? && item.members[ExtraKey].Object?
  {
  }

  lemma StartsInConfiguration(l: Listing, item: Json, q: string) returns (x: string)
    requires item.Object? && ValuesKey in item.members && UnknownKey in item.members && ExtraKey in item.members
    requires item.members[ValuesKey].Object? && item.members[UnknownKey].List? && item.members[ExtraKey].Object?
    requires q in Leaves(l, item.members[ValuesKey], "configuration.", false) || q == "configuration.unknown"
             || q in Leaves(l, item.members[ExtraKey], "configuration.extra.", false)
    ensures IsTail(x) && q == "configuration" + x
    decreases item, 0, 0
  {
    hide KeyText;
    if q in Leaves(l, item.members[ValuesKey], "configuration.", false) {
      var o := item.members[ValuesKey];
      var key, y := StartsIn(l, o, l(o.members.Keys), "configuration.", false, q);
      x := "." + (KeyText(key) + y);
      assert "configuration." + (KeyText(key) + y) == "configuration" + x;
    } else if q == "configuration.unknown" {
      x := ".unknown";
    } else {
      var o := item.members[ExtraKey];
      var key, y := StartsIn(l, o, l(o.members.Keys), "configuration.extra.", false, q);
      x := ".extra." + (KeyText(key) + y);
      assert "configuration.extra." + (KeyText(key) + y) == "configuration" + x;
    }
  }

  /** Every path of an object starts with one of its keys, and is a path of that key. */
  lemma {:induction false} StartsIn(l: Listing, o: Json, keys: seq<Key>, prefix: string, whole: bool, q: string)
    returns (k: Key, x: string)
    requires o.Object? && q in LeavesOf(l, o, keys, prefix, whole)
    ensures k in keys && k in o.members && IsTail(x) && q == prefix + (KeyText(k) + x)
    ensures q in LeavesAt(l, k, o.members[k], prefix, whole)
    decreases o, 0, |keys|
  {
    hide LeavesAt, KeyText;
    var front, last := keys[..|keys| - 1], keys[|keys| - 1];
    if last in o.members && q in LeavesAt(l, last, o.members[last], prefix, whole) {
      k := last;
      x := StartsAt(l, k, o.members[k], prefix, whole, q);
    } else {
      k, x := StartsIn(l, o, front, prefix, whole, q);
    }
  }

  // --- keys told apart -----------------------------------------------------------------------------

  /** Keys without dots, each written in its own way. */
  ghost predicate Apart(keys: set<Key>) {
    && (forall k :: k in keys ==> NoDot(KeyText(k)))
    && forall k, x :: k in keys && x in keys && KeyText(k) == KeyText(x) ==> k == x
  }

  /** A fixed key, told by how long its text is and the letters it starts and ends with. */
  function KeyLike(length: int, first: char, last: char): Key {
    match length
    case 2 =>
      IdKey
    case 4 =>
      if first == 'k' then KindKey
      else NameKey
    case 5 =>
      if first == 'a' then ActorKey
      else if first == 'e' then ExtraKey
      else NodesKey
    case 6 =>
      if first == 's' then SourceKey
      else ValuesKey
    case 7 =>
      if first == 'u' then UnknownKey
      else VersionKey
    case 8 =>
      if first == 'c' then CriticalKey
      else if first == 'i' then InferredKey
      else if first == 'm' then MetadataKey
      else if first == 'p' then ProtocolKey
      else VerifiedKey
    case 9 =>
      if first == 'c' then ComponentKey
      else if first == 'd' then DecisionsKey
      else if first == 'l' then LifecycleKey
      else if first == 'p' then ParentIdKey
      else if first == 'r' then ReferenceKey
      else if first == 's' && last == 'd' then SourceIdKey
      else if first == 's' && last == 't' then StatementKey
      else TargetIdKey
    case 10 =>
      if first == 'c' then ConfidenceKey
      else if first == 'p' then ProvenanceKey
      else TechnologyKey
    case 11 =>
      if first == 'a' then AssumptionsKey
      else if first == 'c' then ConnectionsKey
      else if first == 'd' && last == 'd' then DecisionIdKey
      else if first == 'd' && last == 'n' then DescriptionKey
      else if first == 'i' then InteractionKey
      else if first == 'r' then RecordedAtKey
      else SubjectIdsKey
    case 13 =>
      if first == 'b' then BidirectionalKey
      else ConfigurationKey
    case 14 =>
      if first == 'r' then RequirementIdKey
      else SchemaVersionKey
    case 16 =>
      if first == 'f' then FieldProvenanceKey
      else RequirementRefsKey
    case _ => IdKey
  }

  /** The keys of a node's own fields and of notes; the others. */
  predicate OfNode(k: Key) {
    k.IdKey? || k.KindKey? || k.NameKey? || k.DescriptionKey? || k.TechnologyKey? || k.ComponentKey? || k.ParentIdKey?
    || k.LifecycleKey? || k.ConfigurationKey? || k.RequirementRefsKey? || k.MetadataKey? || k.ProvenanceKey?
    || k.FieldProvenanceKey?
  }

  predicate OfConnection(k: Key) {
    k.SourceIdKey? || k.TargetIdKey? || k.ProtocolKey? || k.InteractionKey? || k.BidirectionalKey? || k.CriticalKey?
    || k.SourceKey? || k.ReferenceKey? || k.ConfidenceKey? || k.VerifiedKey? || k.InferredKey? || k.ActorKey?
    || k.RecordedAtKey?
  }

  ghost predicate Told(text: string, k: Key) {
    text != "" && KeyLike(|text|, text[0], text[|text| - 1]) == k
  }

  lemma NodeKeyDotless(k: Key)
    requires OfNode(k)
    ensures NoDot(KeyText(k))
  {
  }

  lemma NodeKeyTold(k: Key)
    requires OfNode(k)
    ensures Told(KeyText(k), k)
  {
  }

  lemma ConnectionKeyDotless(k: Key)
    requires OfConnection(k)
    ensures NoDot(KeyText(k))
  {
  }

  lemma ConnectionKeyTold(k: Key)
    requires OfConnection(k)
    ensures Told(KeyText(k), k)
  {
  }

  lemma OtherKeyDotless(k: Key)
    requires !k.Property? && !OfNode(k) && !OfConnection(k)
    ensures NoDot(KeyText(k))
  {
  }

  lemma OtherKeyTold(k: Key)
    requires !k.Property? && !OfNode(k) && !OfConnection(k)
    ensures Told(KeyText(k), k)
  {
  }

  lemma KeyTold(k: Key)
    requires !k.Property?
    ensures NoDot(KeyText(k)) && Told(KeyText(k), k)
  {
    hide Told, KeyText, NoDot, OfNode, OfConnection;
    if OfNode(k) {
      NodeKeyDotless(k);
      NodeKeyTold(k);
    } else if OfConnection(k) {
      ConnectionKeyDotless(k);
      ConnectionKeyTold(k);
    } else {
      OtherKeyDotless(k);
      OtherKeyTold(k);
    }
  }

  /** The fixed keys are told apart. */
  lemma FixedApart(keys: set<Key>)
    requires forall k :: k in keys ==> !k.Property?
    ensures Apart(keys)
  {
    hide KeyText, NoDot, KeyLike;
    forall k | k in keys
      ensures NoDot(KeyText(k))
    {
      KeyTold(k);
    }
    forall k, x | k in keys && x in keys && KeyText(k) == KeyText(x)
      ensures k == x
    {
      KeyTold(k);
      KeyTold(x);
    }
  }

  /** The paths of one key of an object. */
  function Part(l: Listing, o: Json, k: Key, prefix: string, whole: bool): map<string, Json>
    requires o.Object?
  {
    if k in o.members then LeavesAt(l, k, o.members[k], prefix, whole) else map[]
  }

  /** Among keys told apart, what an object holds at a path that starts with a key is what that key gives. */
  lemma {:induction false} PartAt(l: Listing, o: Json, keys: seq<Key>, all: set<Key>, k: Key, prefix: string,
      whole: bool, x: string)
    requires o.Object? && Apart(all) && k in all && IsTail(x) && forall z :: z in keys ==> z in all
    ensures var q := prefix + (KeyText(k) + x);
            Get(LeavesOf(l, o, keys, prefix, whole), q) == if k in keys then Get(Part(l, o, k, prefix, whole), q)
                else Null
    ensures prefix + (KeyText(k) + x) in LeavesOf(l, o, keys, prefix, whole) ==> k in keys
    decreases |keys|
  {
    hide LeavesAt, KeyText, NoDot;
    var q := prefix + (KeyText(k) + x);
    if keys != [] {
      var front, last := keys[..|keys| - 1], keys[|keys| - 1];
      PartAt(l, o, front, all, k, prefix, whole, x);
      assert last in keys && forall z :: z in keys <==> z in front || z == last;
      if last != k && last in o.members && q in LeavesAt(l, last, o.members[last], prefix, whole) {
        var y := StartsAt(l, last, o.members[last], prefix, whole, q);
        OtherHead(all, prefix, k, x, last, y);
      }
    }
  }

  lemma OtherHead(all: set<Key>, prefix: string, k: Key, x: string, z: Key, y: string)
    requires Apart(all) && k in all && z in all && IsTail(x) && IsTail(y)
    requires prefix + (KeyText(k) + x) == prefix + (KeyText(z) + y)
    ensures k == z
  {
    hide KeyText;
    SamePrefix(prefix, KeyText(k) + x, KeyText(z) + y);
    SameHead(KeyText(k), x, KeyText(z), y);
  }

  /** Objects of keys told apart have the same fields exactly when each key gives the same. */
  lemma SameByKey(l: Listing, a: Json, b: Json, prefix: string, whole: bool)
    requires a.Object? && b.Object? && Lists(l) && Apart(a.members.Keys + b.members.Keys)
    ensures Alike(Leaves(l, a, prefix, whole), Leaves(l, b, prefix, whole)) <==>
            forall k :: k in a.members.Keys + b.members.Keys ==>
                Alike(Part(l, a, k, prefix, whole), Part(l, b, k, prefix, whole))
  {
    hide LeavesAt, LeavesOf, KeyText, Apart, Part, Get, Matches;
    var all := a.members.Keys + b.members.Keys;
    if Alike(Leaves(l, a, prefix, whole), Leaves(l, b, prefix, whole)) {
      forall k, q | k in all
        ensures Matches(Get(Part(l, a, k, prefix, whole), q), Get(Part(l, b, k, prefix, whole), q))
      {
        PartSame(l, a, b, prefix, whole, k, q);
      }
    }
    if forall k :: k in all ==> Alike(Part(l, a, k, prefix, whole), Part(l, b, k, prefix, whole)) {
      forall q
        ensures Matches(Get(Leaves(l, a, prefix, whole), q), Get(Leaves(l, b, prefix, whole), q))
      {
        WholeSame(l, a, b, prefix, whole, q);
      }
    }
  }

  lemma PartIs(l: Listing, o: Json, all: set<Key>, k: Key, prefix: string, whole: bool, x: string)
    requires o.Object? && Lists(l) && Apart(all) && o.members.Keys <= all && k in all && IsTail(x)
    ensures var q := prefix + (KeyText(k) + x);
            Get(Leaves(l, o, prefix, whole), q) == Get(Part(l, o, k, prefix, whole), q)
  {
    hide LeavesAt, LeavesOf, KeyText, Apart;
    PartAt(l, o, l(o.members.Keys), all, k, prefix, whole, x);
  }

  lemma PartSame(l: Listing, a: Json, b: Json, prefix: string, whole: bool, k: Key, q: string)
    requires a.Object? && b.Object? && Lists(l) && Apart(a.members.Keys + b.members.Keys)
    requires k in a.members.Keys + b.members.Keys && Alike(Leaves(l, a, prefix, whole), Leaves(l, b, prefix, whole))
    ensures Matches(Get(Part(l, a, k, prefix, whole), q), Get(Part(l, b, k, prefix, whole), q))
  {
    hide LeavesAt, Leaves, KeyText, Apart, Lists, Matches;
    MatchesSelf(Null);
    var all := a.members.Keys + b.members.Keys;
    if q in Part(l, a, k, prefix, whole) || q in Part(l, b, k, prefix, whole) {
      var x: string;
      if q in Part(l, a, k, prefix, whole) {
        x := StartsAt(l, k, a.members[k], prefix, whole, q);
      } else {
        x := StartsAt(l, k, b.members[k], prefix, whole, q);
      }
      PartIs(l, a, all, k, prefix, whole, x);
      PartIs(l, b, all, k, prefix, whole, x);
    }
  }

  lemma WholeSame(l: Listing, a: Json, b: Json, prefix: string, whole: bool, q: string)
    requires a.Object? && b.Object? && Lists(l) && Apart(a.members.Keys + b.members.Keys)
    requires forall k :: k in a.members.Keys + b.members.Keys ==>
             Alike(Part(l, a, k, prefix, whole), Part(l, b, k, prefix, whole))
    ensures Matches(Get(Leaves(l, a, prefix, whole), q), Get(Leaves(l, b, prefix, whole), q))
  {
    hide LeavesAt, LeavesOf, KeyText, Apart, Lists, Part, Matches;
    MatchesSelf(Null);
    var all := a.members.Keys + b.members.Keys;
    if q in Leaves(l, a, prefix, whole) || q in Leaves(l, b, prefix, whole) {
      var k: Key, x: string;
      if q in Leaves(l, a, prefix, whole) {
        k, x := StartsIn(l, a, l(a.members.Keys), prefix, whole, q);
      } else {
        k, x := StartsIn(l, b, l(b.members.Keys), prefix, whole, q);
      }
      PartIs(l, a, all, k, prefix, whole, x);
      PartIs(l, b, all, k, prefix, whole, x);
    }
  }

  // --- flat objects --------------------------------------------------------------------------------

  /** Names with values that are not walked. */
  predicate Level(o: Json, whole: bool) {
    && o.Object?
    && forall k :: k in o.members ==> k.Property? && (whole || !o.members[k].Object?)
  }

  /** None of them null. */
  predicate Flat(o: Json, whole: bool) {
    Level(o, whole) && forall k :: k in o.members ==> !o.members[k].Null?
  }

  /** A prefix that is not of the first level. */
  predicate IsDeep(prefix: string) {
    prefix != "" && prefix[|prefix| - 1] == '.'
  }

  lemma NotSpecial(prefix: string, s: string)
    requires IsDeep(prefix)
    ensures prefix + s != "configuration" && prefix + s != "field_provenance"
  {
    var q, i := prefix + s, |prefix| - 1;
    assert q[i] == '.';
    Dotless();
  }

  lemma Dotless()
    ensures NoDot("configuration") && NoDot("field_provenance") && NoDot("unknown") && NoDot("extra")
  {
  }

  lemma FlatItem(l: Listing, o: Json, k: Key, prefix: string, whole: bool)
    requires Level(o, whole) && k in o.members && IsDeep(prefix)
    ensures LeavesAt(l, k, o.members[k], prefix, whole) == map[prefix + KeyText(k) := o.members[k]]
  {
    NotSpecial(prefix, KeyText(k));
  }

  lemma {:induction false} FlatAt(l: Listing, o: Json, keys: seq<Key>, prefix: string, whole: bool, k: Key)
    requires o.Object? && Level(o, whole) && IsDeep(prefix) && k.Property? && forall z :: z in keys ==> z.Property?
    ensures Get(LeavesOf(l, o, keys, prefix, whole), prefix + KeyText(k)) == if k in keys then At(o.members, k)
            else Null
    decreases |keys|
  {
    hide LeavesAt, Level;
    if keys != [] {
      var front, last := keys[..|keys| - 1], keys[|keys| - 1];
      FlatAt(l, o, front, prefix, whole, k);
      assert last in keys && forall z :: z in keys <==> z in front || z == last;
      if last in o.members {
        FlatItem(l, o, last, prefix, whole);
        if prefix + KeyText(last) == prefix + KeyText(k) {
          SamePrefix(prefix, KeyText(last), KeyText(k));
        }
      }
    }
  }

  lemma {:induction false} FlatPath(l: Listing, o: Json, keys: seq<Key>, prefix: string, whole: bool, q: string)
      returns (k: Key)
    requires o.Object? && Level(o, whole) && IsDeep(prefix) && q in LeavesOf(l, o, keys, prefix, whole)
    ensures k in keys && k in o.members && k.Property? && q == prefix + KeyText(k)
    decreases |keys|
  {
    hide LeavesAt, KeyText;
    var last := keys[|keys| - 1];
    if last in o.members {
      FlatItem(l, o, last, prefix, whole);
    }
    if last in o.members && q == prefix + KeyText(last) {
      k := last;
    } else {
      k := FlatPath(l, o, keys[..|keys| - 1], prefix, whole, q);
    }
  }

  lemma FlatGet(l: Listing, o: Json, prefix: string, whole: bool, k: Key)
    requires Level(o, whole) && IsDeep(prefix) && k.Property? && Lists(l)
    ensures Get(Leaves(l, o, prefix, whole), prefix + KeyText(k)) == At(o.members, k)
  {
    hide KeyText, LeavesOf;
    FlatAt(l, o, l(o.members.Keys), prefix, whole, k);
  }

  /** Flat objects have the same fields exactly when they hold the same. */
  lemma FlatSame(l: Listing, a: Json, b: Json, prefix: string, whole: bool)
    requires Flat(a, whole) && Flat(b, whole) && IsDeep(prefix) && Lists(l)
    ensures Alike(Leaves(l, a, prefix, whole), Leaves(l, b, prefix, whole)) <==> Matches(a, b)
  {
    hide Leaves, KeyText, Lists, IsDeep, AsCompared;
    MatchesByKey(a, b);
    var x, y := Leaves(l, a, prefix, whole), Leaves(l, b, prefix, whole);
    if Alike(x, y) {
      forall k
        ensures Matches(At(a.members, k), At(b.members, k))
      {
        if k.Property? {
          FlatGet(l, a, prefix, whole, k);
          FlatGet(l, b, prefix, whole, k);
          assert Matches(Get(x, prefix + KeyText(k)), Get(y, prefix + KeyText(k)));
        }
      }
    }
    if forall k :: Matches(At(a.members, k), At(b.members, k)) {
      forall q
        ensures Matches(Get(x, q), Get(y, q))
      {
        FlatAlike(l, a, b, prefix, whole, q);
      }
    }
  }

  lemma FlatAlike(l: Listing, a: Json, b: Json, prefix: string, whole: bool, q: string)
    requires Flat(a, whole) && Flat(b, whole) && IsDeep(prefix) && Lists(l)
    requires forall k :: Matches(At(a.members, k), At(b.members, k))
    ensures Matches(Get(Leaves(l, a, prefix, whole), q), Get(Leaves(l, b, prefix, whole), q))
  {
    hide LeavesOf, KeyText, Lists, IsDeep, Matches;
    if q in Leaves(l, a, prefix, whole) || q in Leaves(l, b, prefix, whole) {
      var k: Key;
      if q in Leaves(l, a, prefix, whole) {
        k := FlatPath(l, a, l(a.members.Keys), prefix, whole, q);
      } else {
        k := FlatPath(l, b, l(b.members.Keys), prefix, whole, q);
      }
      FlatGet(l, a, prefix, whole, k);
      FlatGet(l, b, prefix, whole, k);
    } else {
      MatchesSelf(Null);
    }
  }

  lemma MatchesSelf(j: Json)
    ensures Matches(j, j)
  {
  }

  /** Objects without nulls match exactly when what they hold at each key does. */
  lemma MatchesByKey(a: Json, b: Json)
    requires a.Object? && b.Object?
    requires (forall k :: k in a.members ==> !a.members[k].Null?)
             && (forall k :: k in b.members ==> !b.members[k].Null?)
    ensures Matches(a, b) <==> forall k :: Matches(At(a.members, k), At(b.members, k))
  {
    var x, y := AsCompared(a).members, AsCompared(b).members;
    assert forall k :: (k in x <==> k in a.members) && (k in y <==> k in b.members);
    if Matches(a, b) {
      forall k
        ensures Matches(At(a.members, k), At(b.members, k))
      {
        assert k in x <==> k in y;
        if k in x {
          assert x[k] == y[k];
        }
      }
    }
    if forall k :: Matches(At(a.members, k), At(b.members, k)) {
      forall k
        ensures (k in x <==> k in y) && (k in x && k in y ==> x[k] == y[k])
      {
        assert Matches(At(a.members, k), At(b.members, k));
      }
      assert x == y;
    }
  }

  // --- settings kept as found ----------------------------------------------------------------------

  /** Keys without dots, as far as they are walked. */
  predicate DotFree(j: Json)
    decreases j
  {
    j.Object? ==>
      forall k :: k in j.members ==> k.Property? && NoDot(k.text) && (!IsWhole(k.text) ==> DotFree(j.members[k]))
  }

  /** The value at a path of keys; nothing where there is none, or an object that is walked. */
  function SettingAt(j: Json, path: seq<string>): Json
    requires path != []
  {
    if !j.Object? || Property(path[0]) !in j.members then Null
    else
      var item := j.members[Property(path[0])];
      if item.Object? && !IsWhole(path[0]) then (if |path| == 1 then Null else SettingAt(item, path[1..]))
      else if |path| == 1 then item else Null
  }

  predicate AllDotFree(path: seq<string>) {
    forall i :: 0 <= i < |path| ==> NoDot(path[i])
  }

  ghost predicate SameSetting(a: Json, b: Json, path: seq<string>) {
    path != [] && AllDotFree(path) ==> Matches(SettingAt(a, path), SettingAt(b, path))
  }

  /** The same value at every path of keys. */
  ghost predicate SameSettings(a: Json, b: Json) {
    forall path :: SameSetting(a, b, path)
  }

  function Dotted(path: seq<string>): string
    requires path != []
  {
    if |path| == 1 then path[0] else path[0] + "." + Dotted(path[1..])
  }

  function TailOf(path: seq<string>): (x: string)
    requires path != []
    ensures IsTail(x) && Dotted(path) == path[0] + x
  {
    if |path| == 1 then "" else "." + Dotted(path[1..])
  }

  lemma DotFreeApart(o: Json, key: string)
    requires o.Object? && DotFree(o) && NoDot(key)
    ensures Apart(o.members.Keys + {Property(key)})
  {
    hide NoDot;
    assert forall k :: k in o.members.Keys + {Property(key)} ==> k.Property? && NoDot(k.text);
  }

  /** An object's own path is not among its members' paths. */
  lemma NotItself(l: Listing, o: Json, path: string)
    requires o.Object?
    ensures path !in Leaves(l, o, path + ".", false)
  {
    hide KeyText;
    if path in Leaves(l, o, path + ".", false) {
      var k, x := StartsIn(l, o, l(o.members.Keys), path + ".", false, path);
    }
  }

  lemma WalkedAt(l: Listing, k: Key, item: Json, prefix: string)
    requires IsDeep(prefix) && k.Property?
    ensures LeavesAt(l, k, item, prefix, false) ==
            if item.Object? && !IsWhole(k.text) then Leaves(l, item, prefix + k.text + ".", false)
                else map[prefix + k.text := item]
  {
    hide Leaves;
    NotSpecial(prefix, k.text);
  }

  /** With keys free of dots, the field at a dotted path is the value at the path of keys. */
  lemma {:induction false} SettingIsAt(l: Listing, o: Json, prefix: string, path: seq<string>)
    requires o.Object? && DotFree(o) && IsDeep(prefix) && Lists(l) && path != [] && AllDotFree(path)
    ensures Get(Leaves(l, o, prefix, false), prefix + Dotted(path)) == SettingAt(o, path)
    decreases |path|, 1
  {
    hide Leaves, LeavesAt, Apart, Lists, NoDot, IsTail, Get, DotFree, SettingAt;
    var k := Property(path[0]);
    DotFreeApart(o, path[0]);
    PartIs(l, o, o.members.Keys + {k}, k, prefix, false, TailOf(path));
    assert prefix + Dotted(path) == prefix + (KeyText(k) + TailOf(path));
    KeySettingIsAt(l, o, prefix, path);
  }

  lemma KeySettingIsAt(l: Listing, o: Json, prefix: string, path: seq<string>)
    requires o.Object? && DotFree(o) && IsDeep(prefix) && Lists(l) && path != [] && AllDotFree(path)
    ensures Get(Part(l, o, Property(path[0]), prefix, false), prefix + Dotted(path)) == SettingAt(o, path)
    decreases |path|, 0
  {
    hide Leaves, LeavesAt, Lists, NoDot;
    var k := Property(path[0]);
    if k in o.members {
      var item, p := o.members[k], prefix + path[0];
      WalkedAt(l, k, item, prefix);
      if item.Object? && !IsWhole(path[0]) {
        if |path| == 1 {
          NotItself(l, item, p);
        } else {
          SettingIsAt(l, item, p + ".", path[1..]);
          assert prefix + Dotted(path) == p + "." + Dotted(path[1..]);
        }
      } else if |path| > 1 {
        assert |prefix + Dotted(path)| > |p|;
      }
    }
  }

  /** Every field of settings is at a path of keys. */
  lemma {:induction false} SettingPath(l: Listing, o: Json, prefix: string, q: string) returns (path: seq<string>)
    requires o.Object? && DotFree(o) && IsDeep(prefix) && Lists(l) && q in Leaves(l, o, prefix, false)
    ensures path != [] && q == prefix + Dotted(path) && AllDotFree(path)
    decreases o
  {
    hide LeavesAt, Lists, NoDot, KeyText;
    var k, x := StartsIn(l, o, l(o.members.Keys), prefix, false, q);
    var item := o.members[k];
    WalkedAt(l, k, item, prefix);
    if item.Object? && !IsWhole(k.text) {
      var inner := SettingPath(l, item, prefix + k.text + ".", q);
      path := [k.text] + inner;
      assert path[1..] == inner;
      assert q == prefix + Dotted(path);
    } else {
      path := [k.text];
    }
  }

  /**
   * Settings whose keys are free of dots have the same fields exactly when they hold the same at every path
   * of keys.
   */
  lemma SettingsSame(l: Listing, a: Json, b: Json, prefix: string)
    requires a.Object? && b.Object? && DotFree(a) && DotFree(b) && IsDeep(prefix) && Lists(l)
    ensures Alike(Leaves(l, a, prefix, false), Leaves(l, b, prefix, false)) <==> SameSettings(a, b)
  {
    hide Leaves, DotFree, SettingAt, Lists, IsDeep, Get, AllDotFree, Dotted, Matches;
    var x, y := Leaves(l, a, prefix, false), Leaves(l, b, prefix, false);
    if Alike(x, y) {
      forall path
        ensures SameSetting(a, b, path)
      {
        if path != [] && AllDotFree(path) {
          SettingIsAt(l, a, prefix, path);
          SettingIsAt(l, b, prefix, path);
          assert Matches(Get(x, prefix + Dotted(path)), Get(y, prefix + Dotted(path)));
        }
      }
    }
    if SameSettings(a, b) {
      forall q
        ensures Matches(Get(x, q), Get(y, q))
      {
        SettingAlike(l, a, b, prefix, q);
      }
    }
  }

  lemma SettingAlike(l: Listing, a: Json, b: Json, prefix: string, q: string)
    requires a.Object? && b.Object? && DotFree(a) && DotFree(b) && IsDeep(prefix) && Lists(l) && SameSettings(a, b)
    ensures Matches(Get(Leaves(l, a, prefix, false), q), Get(Leaves(l, b, prefix, false), q))
  {
    hide Leaves, DotFree, SettingAt, Lists, IsDeep, AllDotFree, Dotted, Matches;
    MatchesSelf(Null);
    if q in Leaves(l, a, prefix, false) || q in Leaves(l, b, prefix, false) {
      var path: seq<string>;
      if q in Leaves(l, a, prefix, false) {
        path := SettingPath(l, a, prefix, q);
      } else {
        path := SettingPath(l, b, prefix, q);
      }
      SettingIsAt(l, a, prefix, path);
      SettingIsAt(l, b, prefix, path);
      assert SameSetting(a, b, path);
    }
  }

  // --- settings with any keys ----------------------------------------------------------------------

  /** Each key is walked once. */
  ghost predicate ListsOnce(l: Listing) {
    Lists(l) && forall s, i, j :: 0 <= i < j < |l(s)| ==> l(s)[i] != l(s)[j]
  }

  /** Keys that are texts, as far as they are walked. */
  predicate Texted(j: Json)
    decreases j
  {
    j.Object? ==> forall k :: k in j.members ==> k.Property? && (!IsWhole(k.text) ==> Texted(j.members[k]))
  }

  /** The keys lead to a value that is not walked. */
  predicate IsLeafPath(j: Json, path: seq<string>)
    decreases |path|
  {
    && path != [] && j.Object? && Property(path[0]) in j.members
    && var item := j.members[Property(path[0])];
       if item.Object? && !IsWhole(path[0]) then IsLeafPath(item, path[1..]) else |path| == 1
  }

  /** Where two paths part, the first is walked before the second. */
  ghost predicate Earlier(l: Listing, j: Json, p: seq<string>, q: seq<string>)
    decreases |p|
  {
    && p != [] && q != [] && j.Object?
    && if p[0] == q[0] then Property(p[0]) in j.members && Earlier(l, j.members[Property(p[0])], p[1..], q[1..])
       else ListedBefore(l(j.members.Keys), Property(p[0]), Property(q[0]))
  }

  ghost predicate ListedBefore(keys: seq<Key>, a: Key, b: Key) {
    exists i, j :: 0 <= i < j < |keys| && keys[i] == a && keys[j] == b
  }

  /** The last path walked of those that are joined to the same text. */
  ghost predicate IsLast(l: Listing, j: Json, path: seq<string>) {
    && IsLeafPath(j, path)
    && forall p :: IsLeafPath(j, p) && Dotted(p) == Dotted(path) ==> p == path || Earlier(l, j, p, path)
  }

  ghost predicate JoinsTo(l: Listing, j: Json, path: seq<string>, text: string) {
    IsLast(l, j, path) && Dotted(path) == text
  }

  /** The value at keys joined by dots, dots in the keys included: of all paths joined to the text, the last one's. */
  ghost function AtJoin(l: Listing, j: Json, text: string): Json {
    if path :| JoinsTo(l, j, path, text) then SettingAt(j, path) else Null
  }

  lemma {:induction false} EarlierOnce(l: Listing, j: Json, p: seq<string>, q: seq<string>)
    requires ListsOnce(l) && Earlier(l, j, p, q)
    ensures !Earlier(l, j, q, p)
    decreases |p|
  {
    if p[0] == q[0] {
      EarlierOnce(l, j.members[Property(p[0])], p[1..], q[1..]);
    } else {
      BeforeOnce(l, j.members.Keys, Property(p[0]), Property(q[0]));
    }
  }

  lemma BeforeOnce(l: Listing, s: set<Key>, a: Key, b: Key)
    requires ListsOnce(l) && ListedBefore(l(s), a, b)
    ensures !ListedBefore(l(s), b, a)
  {
  }

  lemma {:induction false} KeyIn(l: Listing, o: Json, keys: seq<Key>, k: Key, prefix: string, q: string)
    requires o.Object? && k in keys && k in o.members && q in LeavesAt(l, k, o.members[k], prefix, false)
    ensures q in LeavesOf(l, o, keys, prefix, false)
    decreases |keys|
  {
    hide LeavesAt;
    var last := keys[|keys| - 1];
    if last != k {
      KeyIn(l, o, keys[..|keys| - 1], k, prefix, q);
    }
  }

  lemma {:induction false} KeyPathIn(l: Listing, o: Json, prefix: string, path: seq<string>)
    requires IsLeafPath(o, path) && IsDeep(prefix) && Lists(l)
    ensures prefix + Dotted(path) in LeavesAt(l, Property(path[0]), o.members[Property(path[0])], prefix, false)
    decreases |path|
  {
    hide LeavesAt, Lists;
    var k := Property(path[0]);
    var item, p := o.members[k], prefix + path[0];
    WalkedAt(l, k, item, prefix);
    if item.Object? && !IsWhole(path[0]) {
      KeyPathIn(l, item, p + ".", path[1..]);
      ListedIn(l, item, Property(path[1]));
      KeyIn(l, item, l(item.members.Keys), Property(path[1]), p + ".", p + "." + Dotted(path[1..]));
      assert prefix + Dotted(path) == p + "." + Dotted(path[1..]);
    }
  }

  lemma ListedIn(l: Listing, o: Json, k: Key)
    requires Lists(l) && o.Object? && k in o.members
    ensures k in l(o.members.Keys)
  {
  }

  /** The first `n` keys give the value of the last path joined to the text among theirs. */
  ghost predicate IsLastAmong(l: Listing, o: Json, n: nat, path: seq<string>)
    requires o.Object?
  {
    && n <= |l(o.members.Keys)| && IsLeafPath(o, path) && Property(path[0]) in l(o.members.Keys)[..n]
    && forall p :: IsLeafPath(o, p) && Dotted(p) == Dotted(path) && Property(p[0]) in l(o.members.Keys)[..n] ==>
         p == path || Earlier(l, o, p, path)
  }

  lemma {:induction false} LastAmong(l: Listing, o: Json, n: nat, prefix: string, q: string) returns (path: seq<string>)
    requires o.Object? && Texted(o) && IsDeep(prefix) && ListsOnce(l) && n <= |l(o.members.Keys)|
    requires q in LeavesOf(l, o, l(o.members.Keys)[..n], prefix, false)
    ensures IsLastAmong(l, o, n, path) && q == prefix + Dotted(path)
    ensures LeavesOf(l, o, l(o.members.Keys)[..n], prefix, false)[q] == SettingAt(o, path)
    decreases o, n
  {
    hide LeavesAt, Texted, ListsOnce, IsLastAmong, IsLastOfKey;
    OnceLists(l);
    var keys := l(o.members.Keys);
    assert n > 0;
    var k := keys[n - 1];
    assert keys[..n][..n - 1] == keys[..n - 1] && keys[..n][n - 1] == k;
    if k in o.members && q in LeavesAt(l, k, o.members[k], prefix, false) {
      path := LastOfKey(l, o, k, prefix, q);
      LastIsNew(l, o, n, path);
    } else {
      path := LastAmong(l, o, n - 1, prefix, q);
      LastIsOld(l, o, n, prefix, path);
    }
  }

  /** No path through the key that is joined to the same text is walked after it. */
  ghost predicate IsLastOfKey(l: Listing, o: Json, k: Key, path: seq<string>) {
    && IsLeafPath(o, path) && Property(path[0]) == k
    && forall p :: IsLeafPath(o, p) && Dotted(p) == Dotted(path) && Property(p[0]) == k ==>
         p == path || Earlier(l, o, p, path)
  }

  /** Of the paths through one key, the last one joined to the text. */
  lemma LastOfKey(l: Listing, o: Json, k: Key, prefix: string, q: string) returns (path: seq<string>)
    requires o.Object? && Texted(o) && IsDeep(prefix) && ListsOnce(l)
    requires k in o.members && q in LeavesAt(l, k, o.members[k], prefix, false)
    ensures path != [] && IsLastOfKey(l, o, k, path) && q == prefix + Dotted(path)
    ensures LeavesAt(l, k, o.members[k], prefix, false)[q] == SettingAt(o, path)
    decreases o, 0
  {
    hide LeavesAt, LeavesOf, ListsOnce, IsLastAmong, IsLastOfKey, IsLast, Earlier;
    OnceLists(l);
    var item := o.members[k];
    WalkedAt(l, k, item, prefix);
    if item.Object? && !IsWhole(k.text) {
      var keys := l(item.members.Keys);
      assert keys[..|keys|] == keys;
      var inner := LastAmong(l, item, |keys|, prefix + k.text + ".", q);
      AmongAll(l, item, inner);
      LastIsPath(l, item, inner);
      path := [k.text] + inner;
      assert path[1..] == inner;
      assert q == prefix + Dotted(path);
      InnerLast(l, o, k, path);
    } else {
      path := [k.text];
      SingleLast(l, o, k, path);
    }
  }

  lemma SingleLast(l: Listing, o: Json, k: Key, path: seq<string>)
    requires o.Object? && k.Property? && k in o.members && !(o.members[k].Object? && !IsWhole(k.text))
             && path == [k.text]
    ensures IsLastOfKey(l, o, k, path)
  {
    hide Dotted, Earlier;
    forall p | IsLeafPath(o, p) && Property(p[0]) == k
      ensures p == path
    {
      assert p == [p[0]];
    }
  }

  lemma InnerLast(l: Listing, o: Json, k: Key, path: seq<string>)
    requires o.Object? && k.Property? && k in o.members && o.members[k].Object? && !IsWhole(k.text)
    requires |path| > 1 && path[0] == k.text && IsLast(l, o.members[k], path[1..])
    ensures IsLastOfKey(l, o, k, path)
  {
    hide Dotted;
    forall p | IsLeafPath(o, p) && Dotted(p) == Dotted(path) && Property(p[0]) == k
      ensures p == path || Earlier(l, o, p, path)
    {
      assert IsLeafPath(o.members[k], p[1..]);
      SameInner(p, path);
      assert p == [p[0]] + p[1..] && path == [path[0]] + path[1..];
    }
  }

  lemma SameInner(p: seq<string>, q: seq<string>)
    requires |p| > 1 && |q| > 1 && p[0] == q[0] && Dotted(p) == Dotted(q)
    ensures Dotted(p[1..]) == Dotted(q[1..])
  {
    SamePrefix(p[0] + ".", Dotted(p[1..]), Dotted(q[1..]));
  }

  lemma AmongAll(l: Listing, o: Json, path: seq<string>)
    requires o.Object? && Lists(l) && IsLastAmong(l, o, |l(o.members.Keys)|, path)
    ensures IsLast(l, o, path)
  {
    hide Earlier, Dotted;
    var keys := l(o.members.Keys);
    assert keys[..|keys|] == keys;
    forall p | IsLeafPath(o, p) && Dotted(p) == Dotted(path)
      ensures p == path || Earlier(l, o, p, path)
    {
      ListedIn(l, o, Property(p[0]));
    }
  }

  lemma LastIsNew(l: Listing, o: Json, n: nat, path: seq<string>)
    requires o.Object? && 0 < n <= |l(o.members.Keys)|
    requires IsLastOfKey(l, o, l(o.members.Keys)[n - 1], path)
    ensures IsLastAmong(l, o, n, path)
  {
    hide Dotted;
    var keys := l(o.members.Keys);
    assert keys[..n][n - 1] == Property(path[0]);
    forall p | IsLeafPath(o, p) && Dotted(p) == Dotted(path) && Property(p[0]) in keys[..n]
      ensures p == path || Earlier(l, o, p, path)
    {
      if p[0] != path[0] {
        var i :| 0 <= i < n && keys[..n][i] == Property(p[0]);
        assert ListedBefore(keys, keys[i], keys[n - 1]);
      }
    }
  }

  lemma LastIsOld(l: Listing, o: Json, n: nat, prefix: string, path: seq<string>)
    requires o.Object? && 0 < n <= |l(o.members.Keys)| && IsDeep(prefix) && Lists(l) && IsLastAmong(l, o, n - 1, path)
    requires var k := l(o.members.Keys)[n - 1];
             k in o.members ==> prefix + Dotted(path) !in LeavesAt(l, k, o.members[k], prefix, false)
    ensures IsLastAmong(l, o, n, path)
  {
    hide Dotted, LeavesAt, Earlier;
    var keys := l(o.members.Keys);
    assert forall k :: k in keys[..n] <==> k in keys[..n - 1] || k == keys[n - 1] by {
      assert keys[..n] == keys[..n - 1] + [keys[n - 1]];
    }
    forall p | IsLeafPath(o, p) && Dotted(p) == Dotted(path) && Property(p[0]) in keys[..n]
      ensures p == path || Earlier(l, o, p, path)
    {
      if Property(p[0]) == keys[n - 1] {
        KeyPathIn(l, o, prefix, p);
      }
    }
  }

  /** A field of settings is the value at the keys joined to its path. */
  lemma JoinedIs(l: Listing, o: Json, prefix: string, text: string)
    requires o.Object? && Texted(o) && IsDeep(prefix) && ListsOnce(l)
    ensures Get(Leaves(l, o, prefix, false), prefix + text) == AtJoin(l, o, text)
  {
    hide LeavesAt, LeavesOf, Texted, ListsOnce, IsLast, IsLastAmong, SettingAt;
    var keys, q := l(o.members.Keys), prefix + text;
    OnceLists(l);
    assert keys[..|keys|] == keys;
    if q in Leaves(l, o, prefix, false) {
      var path := LastAmong(l, o, |keys|, prefix, q);
      AmongAll(l, o, path);
      LastIsPath(l, o, path);
      SamePrefix(prefix, text, Dotted(path));
      assert JoinsTo(l, o, path, text);
      forall p | JoinsTo(l, o, p, text)
        ensures p == path
      {
        OneLast(l, o, p, path);
      }
    } else if path :| JoinsTo(l, o, path, text) {
      LastIsPath(l, o, path);
      KeyPathIn(l, o, prefix, path);
      ListedIn(l, o, Property(path[0]));
      KeyIn(l, o, keys, Property(path[0]), prefix, q);
    }
  }

  lemma OnceLists(l: Listing)
    requires ListsOnce(l)
    ensures Lists(l)
  {
  }

  lemma LastIsPath(l: Listing, o: Json, path: seq<string>)
    requires IsLast(l, o, path)
    ensures IsLeafPath(o, path) && path != [] && o.Object? && Property(path[0]) in o.members
  {
  }

  lemma OneLast(l: Listing, j: Json, p: seq<string>, q: seq<string>)
    requires ListsOnce(l) && IsLast(l, j, p) && IsLast(l, j, q) && Dotted(p) == Dotted(q)
    ensures p == q
  {
    hide Earlier, Dotted, IsLeafPath, ListsOnce;
    if p != q {
      EarlierOnce(l, j, p, q);
    }
  }

  /** Settings of any keys have the same fields exactly when they hold the same at every join of keys. */
  lemma JoinedSame(l: Listing, a: Json, b: Json, prefix: string)
    requires a.Object? && b.Object? && Texted(a) && Texted(b) && IsDeep(prefix) && ListsOnce(l)
    ensures Alike(Leaves(l, a, prefix, false), Leaves(l, b, prefix, false)) <==>
            forall text :: Matches(AtJoin(l, a, text), AtJoin(l, b, text))
  {
    hide Leaves, Texted, ListsOnce, AtJoin, Matches, Get, IsDeep;
    var x, y := Leaves(l, a, prefix, false), Leaves(l, b, prefix, false);
    if Alike(x, y) {
      forall text
        ensures Matches(AtJoin(l, a, text), AtJoin(l, b, text))
      {
        JoinedIs(l, a, prefix, text);
        JoinedIs(l, b, prefix, text);
        assert Matches(Get(x, prefix + text), Get(y, prefix + text));
      }
    }
    if forall text :: Matches(AtJoin(l, a, text), AtJoin(l, b, text)) {
      forall q
        ensures Matches(Get(x, q), Get(y, q))
      {
        JoinedAlike(l, a, b, prefix, q);
      }
    }
  }

  lemma JoinedAlike(l: Listing, a: Json, b: Json, prefix: string, q: string)
    requires a.Object? && b.Object? && Texted(a) && Texted(b) && IsDeep(prefix) && ListsOnce(l)
    requires forall text :: Matches(AtJoin(l, a, text), AtJoin(l, b, text))
    ensures Matches(Get(Leaves(l, a, prefix, false), q), Get(Leaves(l, b, prefix, false), q))
  {
    hide LeavesOf, Texted, ListsOnce, AtJoin, Matches, IsDeep, KeyText;
    MatchesSelf(Null);
    if q in Leaves(l, a, prefix, false) || q in Leaves(l, b, prefix, false) {
      var k: Key, x: string;
      if q in Leaves(l, a, prefix, false) {
        k, x := StartsIn(l, a, l(a.members.Keys), prefix, false, q);
      } else {
        k, x := StartsIn(l, b, l(b.members.Keys), prefix, false, q);
      }
      JoinedIs(l, a, prefix, KeyText(k) + x);
      JoinedIs(l, b, prefix, KeyText(k) + x);
    }
  }

  // --- a configuration -----------------------------------------------------------------------------

  /** Names a property can have: without dots, and none that the unknown ones are listed under. */
  ghost predicate Named(o: Json) {
    o.Object? && forall k :: k in o.members ==> k.Property? && NoDot(k.text) && k.text != "unknown"
  }

  function ValuesPart(l: Listing, c: Json): map<string, Json>
    requires IsConfiguration(c)
  {
    Leaves(l, c.members[ValuesKey], "configuration.", false)
  }

  function UnknownPart(c: Json): map<string, Json>
    requires IsConfiguration(c)
  {
    if c.members[UnknownKey].items != [] then map["configuration.unknown" := c.members[UnknownKey]] else map[]
  }

  function ExtraPart(l: Listing, c: Json): map<string, Json>
    requires IsConfiguration(c)
  {
    Leaves(l, c.members[ExtraKey], "configuration.extra.", false)
  }

  lemma ConfigurationParts(l: Listing, c: Json, whole: bool)
    requires IsConfiguration(c)
    ensures LeavesAt(l, ConfigurationKey, c, "", whole) == ValuesPart(l, c) + UnknownPart(c) + ExtraPart(l, c)
  {
    hide Leaves;
    assert "" + KeyText(ConfigurationKey) == "configuration";
  }

  lemma PropertyText(k: Key)
    requires k.Property?
    ensures KeyText(k) == k.text
  {
  }

  lemma Differ(prefix: string, s: string, t: string)
    requires s != t
    ensures prefix + s != prefix + t
  {
    if prefix + s == prefix + t {
      SamePrefix(prefix, s, t);
    }
  }

  lemma NotUnderExtra(t: string, s: string)
    requires NoDot(t)
    ensures t != "extra." + s
  {
    assert ("extra." + s)[5] == '.';
    assert |t| > 5 ==> t[5] != '.';
  }

  lemma NotUnknown(s: string)
    ensures "unknown" != "extra." + s
  {
    assert ("extra." + s)[0] == 'e' && "unknown"[0] == 'u';
  }

  lemma ValuesPath(l: Listing, c: Json, q: string) returns (t: string)
    requires IsConfiguration(c) && Flat(c.members[ValuesKey], false) && Named(c.members[ValuesKey])
             && q in ValuesPart(l, c)
    ensures q == "configuration." + t && NoDot(t) && t != "unknown"
  {
    hide KeyText, LeavesOf;
    var values := c.members[ValuesKey];
    var k := FlatPath(l, values, l(values.members.Keys), "configuration.", false, q);
    PropertyText(k);
    t := k.text;
  }

  lemma ExtraPath(l: Listing, c: Json, q: string) returns (s: string)
    requires IsConfiguration(c) && q in ExtraPart(l, c)
    ensures q == "configuration." + ("extra." + s)
  {
    hide KeyText, LeavesOf;
    var extra := c.members[ExtraKey];
    var z, x := StartsIn(l, extra, l(extra.members.Keys), "configuration.extra.", false, q);
    s := KeyText(z) + x;
    assert "configuration.extra." + s == "configuration." + ("extra." + s);
  }

  /** The paths of values, of the unknown ones' list and of unrecognised settings are told apart. */
  lemma PartsApart(l: Listing, c: Json, q: string)
    requires IsConfiguration(c) && Flat(c.members[ValuesKey], false) && Named(c.members[ValuesKey])
    ensures q in ValuesPart(l, c) ==> q !in UnknownPart(c) && q !in ExtraPart(l, c)
    ensures q in UnknownPart(c) ==> q !in ExtraPart(l, c)
  {
    hide ValuesPart, ExtraPart, IsConfiguration, Flat, Named;
    assert "configuration." + "unknown" == "configuration.unknown";
    if q in ValuesPart(l, c) {
      var t := ValuesPath(l, c, q);
      Differ("configuration.", t, "unknown");
      if q in ExtraPart(l, c) {
        var s := ExtraPath(l, c, q);
        NotUnderExtra(t, s);
        Differ("configuration.", t, "extra." + s);
      }
    } else if q in ExtraPart(l, c) {
      var s := ExtraPath(l, c, q);
      NotUnknown(s);
      Differ("configuration.", "unknown", "extra." + s);
    }
  }

  /** What a written configuration holds, with values that can be told from the rest. */
  ghost predicate Configured(c: Json) {
    IsConfiguration(c) && Flat(c.members[ValuesKey], false) && Named(c.members[ValuesKey])
  }

  lemma ValuesGet(l: Listing, c: Json, t: string)
    requires IsConfiguration(c) && Configured(c) && NoDot(t) && t != "unknown"
    ensures Get(LeavesAt(l, ConfigurationKey, c, "", false), "configuration." + t)
            == Get(ValuesPart(l, c), "configuration." + t)
  {
    hide ValuesPart, ExtraPart, LeavesAt, Configured, IsConfiguration;
    var q := "configuration." + t;
    ConfigurationParts(l, c, false);
    Differ("configuration.", t, "unknown");
    assert "configuration." + "unknown" == "configuration.unknown";
    if q in ExtraPart(l, c) {
      var s := ExtraPath(l, c, q);
      NotUnderExtra(t, s);
      Differ("configuration.", t, "extra." + s);
    }
  }

  lemma UnknownGet(l: Listing, c: Json)
    requires IsConfiguration(c) && Configured(c)
    ensures var names := c.members[UnknownKey];
            Get(LeavesAt(l, ConfigurationKey, c, "", false), "configuration.unknown") == if names.items != [] then names
                else Null
  {
    hide ValuesPart, ExtraPart, LeavesAt;
    var q := "configuration.unknown";
    ConfigurationParts(l, c, false);
    PartsApart(l, c, q);
    if q in ValuesPart(l, c) {
      var t := ValuesPath(l, c, q);
      Differ("configuration.", t, "unknown");
    } else if q in ExtraPart(l, c) {
      var s := ExtraPath(l, c, q);
      NotUnknown(s);
      Differ("configuration.", "unknown", "extra." + s);
    }
  }

  lemma ExtraGet(l: Listing, c: Json, s: string)
    requires IsConfiguration(c) && Configured(c)
    ensures var q := "configuration." + ("extra." + s);
            Get(LeavesAt(l, ConfigurationKey, c, "", false), q) == Get(ExtraPart(l, c), q)
  {
    hide ValuesPart, ExtraPart, LeavesAt, IsConfiguration;
    var q := "configuration." + ("extra." + s);
    ConfigurationParts(l, c, false);
    NotUnknown(s);
    Differ("configuration.", "unknown", "extra." + s);
    assert "configuration." + "unknown" == "configuration.unknown";
    if q in ValuesPart(l, c) {
      var t := ValuesPath(l, c, q);
      NotUnderExtra(t, s);
      Differ("configuration.", t, "extra." + s);
    }
  }

  ghost predicate SameFields(l: Listing, a: Json, b: Json) {
    Alike(LeavesAt(l, ConfigurationKey, a, "", false), LeavesAt(l, ConfigurationKey, b, "", false))
  }

  lemma PartsAlike(l: Listing, a: Json, b: Json)
    requires IsConfiguration(a) && Configured(a) && IsConfiguration(b) && Configured(b) && SameFields(l, a, b)
    ensures Alike(ValuesPart(l, a), ValuesPart(l, b)) && Alike(ExtraPart(l, a), ExtraPart(l, b))
    ensures Matches(a.members[UnknownKey], b.members[UnknownKey])
  {
    hide ValuesPart, ExtraPart, LeavesAt, Configured, Get;
    UnknownGet(l, a);
    UnknownGet(l, b);
    forall q
      ensures Matches(Get(ValuesPart(l, a), q), Get(ValuesPart(l, b), q))
    {
      ValuesAlike(l, a, b, q);
    }
    forall q
      ensures Matches(Get(ExtraPart(l, a), q), Get(ExtraPart(l, b), q))
    {
      ExtraAlike(l, a, b, q);
    }
    assert Matches(Get(LeavesAt(l, ConfigurationKey, a, "", false), "configuration.unknown"),
                   Get(LeavesAt(l, ConfigurationKey, b, "", false), "configuration.unknown"));
  }

  lemma ValuesAlike(l: Listing, a: Json, b: Json, q: string)
    requires IsConfiguration(a) && Configured(a) && IsConfiguration(b) && Configured(b) && SameFields(l, a, b)
    ensures Matches(Get(ValuesPart(l, a), q), Get(ValuesPart(l, b), q))
  {
    hide ValuesPart, ExtraPart, LeavesAt, IsConfiguration, Matches;
    MatchesSelf(Null);
    if q in ValuesPart(l, a) || q in ValuesPart(l, b) {
      var t: string;
      if q in ValuesPart(l, a) {
        t := ValuesPath(l, a, q);
      } else {
        t := ValuesPath(l, b, q);
      }
      ValuesGet(l, a, t);
      ValuesGet(l, b, t);
    }
  }

  lemma ExtraAlike(l: Listing, a: Json, b: Json, q: string)
    requires IsConfiguration(a) && Configured(a) && IsConfiguration(b) && Configured(b) && SameFields(l, a, b)
    ensures Matches(Get(ExtraPart(l, a), q), Get(ExtraPart(l, b), q))
  {
    hide ValuesPart, ExtraPart, LeavesAt, Configured, IsConfiguration, Matches;
    MatchesSelf(Null);
    if q in ExtraPart(l, a) || q in ExtraPart(l, b) {
      var s: string;
      if q in ExtraPart(l, a) {
        s := ExtraPath(l, a, q);
      } else {
        s := ExtraPath(l, b, q);
      }
      ExtraGet(l, a, s);
      ExtraGet(l, b, s);
    }
  }

  lemma EmptyListsTogether(a: Json, b: Json)
    requires a.List? && b.List? && Matches(a, b)
    ensures a.items == [] <==> b.items == []
  {
    assert |AsCompared(a).items| == |a.items| && |AsCompared(b).items| == |b.items|;
  }

  lemma PartsTogether(l: Listing, a: Json, b: Json)
    requires IsConfiguration(a) && Configured(a) && IsConfiguration(b) && Configured(b)
    requires Alike(ValuesPart(l, a), ValuesPart(l, b)) && Alike(ExtraPart(l, a), ExtraPart(l, b))
    requires Matches(a.members[UnknownKey], b.members[UnknownKey])
    ensures SameFields(l, a, b)
  {
    hide ValuesPart, ExtraPart, LeavesAt, Matches;
    MatchesSelf(Null);
    ConfigurationParts(l, a, false);
    ConfigurationParts(l, b, false);
    forall q
      ensures Matches(Get(LeavesAt(l, ConfigurationKey, a, "", false), q),
                      Get(LeavesAt(l, ConfigurationKey, b, "", false), q))
    {
      PartsApart(l, a, q);
      PartsApart(l, b, q);
      if q in ValuesPart(l, a) || q in ValuesPart(l, b) {
        var t: string;
        if q in ValuesPart(l, a) {
          t := ValuesPath(l, a, q);
        } else {
          t := ValuesPath(l, b, q);
        }
        ValuesGet(l, a, t);
        ValuesGet(l, b, t);
      } else if q == "configuration.unknown" {
        UnknownGet(l, a);
        UnknownGet(l, b);
        EmptyListsTogether(a.members[UnknownKey], b.members[UnknownKey]);
      } else {
        assert Matches(Get(ExtraPart(l, a), q), Get(ExtraPart(l, b), q));
        if q in ExtraPart(l, a) || q in ExtraPart(l, b) {
          var s: string;
          if q in ExtraPart(l, a) {
            s := ExtraPath(l, a, q);
          } else {
            s := ExtraPath(l, b, q);
          }
          ExtraGet(l, a, s);
          ExtraGet(l, b, s);
        }
      }
    }
  }

  /**
   * Configurations have the same fields exactly when their values, unknown names and fields of settings are
   * the same.
   */
  lemma ConfigurationsAlike(l: Listing, a: Json, b: Json)
    requires IsConfiguration(a) && Configured(a) && IsConfiguration(b) && Configured(b) && Lists(l)
    ensures SameFields(l, a, b) <==>
            Matches(a.members[ValuesKey], b.members[ValuesKey]) && Matches(a.members[UnknownKey], b.members[UnknownKey])
            && Alike(ExtraPart(l, a), ExtraPart(l, b))
  {
    hide Leaves, Lists, SameFields, Flat, Named, Alike, Matches;
    if SameFields(l, a, b) {
      PartsAlike(l, a, b);
    }
    FlatSame(l, a.members[ValuesKey], b.members[ValuesKey], "configuration.", false);
    if Alike(ValuesPart(l, a), ValuesPart(l, b)) && Alike(ExtraPart(l, a), ExtraPart(l, b))
      && Matches(a.members[UnknownKey], b.members[UnknownKey]) {
      PartsTogether(l, a, b);
    }
  }

  // --- a field of an element -----------------------------------------------------------------------

  /** A field compared as one value. */
  lemma WholeFieldSame(l: Listing, k: Key, a: Json, b: Json)
    requires !k.ConfigurationKey? && !k.FieldProvenanceKey? && !k.Property?
    requires (!a.Object? && !b.Object?) || IsWhole(KeyText(k))
    ensures Alike(LeavesAt(l, k, a, "", false), LeavesAt(l, k, b, "", false)) <==> Matches(a, b)
  {
    hide Leaves, KeyText, AsCompared;
    FirstLevel(k);
    var path := "" + KeyText(k);
    assert LeavesAt(l, k, a, "", false) == map[path := a] && LeavesAt(l, k, b, "", false) == map[path := b];
    assert Get(map[path := a], path) == a && Get(map[path := b], path) == b;
  }

  lemma FirstLevel(k: Key)
    requires !k.ConfigurationKey? && !k.FieldProvenanceKey? && !k.Property?
    ensures "" + KeyText(k) != "configuration" && "" + KeyText(k) != "field_provenance"
  {
    hide KeyText;
    assert "" + KeyText(k) == KeyText(k);
    FixedApart({k, ConfigurationKey, FieldProvenanceKey});
    assert KeyText(ConfigurationKey) == "configuration"
        && KeyText(FieldProvenanceKey) == "field_provenance" by { TextOfTwo(); }
  }

  lemma TextOfTwo()
    ensures KeyText(ConfigurationKey) == "configuration" && KeyText(FieldProvenanceKey) == "field_provenance"
  {
  }

  /** A field that is an object of names, walked. */
  lemma FlatFieldSame(l: Listing, k: Key, a: Json, b: Json)
    requires k.MetadataKey? && Flat(a, false) && Flat(b, false) && Lists(l)
    ensures Alike(LeavesAt(l, k, a, "", false), LeavesAt(l, k, b, "", false)) <==> Matches(a, b)
  {
    hide Leaves, Lists;
    FirstLevel(k);
    FlatSame(l, a, b, "metadata.", false);
    assert "" + KeyText(k) + "." == "metadata.";
  }

  /** A field of records, each compared whole. */
  lemma RecordsFieldSame(l: Listing, k: Key, a: Json, b: Json)
    requires k.FieldProvenanceKey? && Flat(a, true) && Flat(b, true) && Lists(l)
    ensures Alike(LeavesAt(l, k, a, "", false), LeavesAt(l, k, b, "", false)) <==> Matches(a, b)
  {
    hide Leaves, Lists;
    FlatSame(l, a, b, "field_provenance.", true);
    assert "" + KeyText(k) == "field_provenance";
  }
}
