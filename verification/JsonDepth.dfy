/** How deep a JSON text nests, measured one character at a time before the text is parsed. */
module JsonDepth {
  // --- JSON texts (RFC 8259) -----------------------------------------------------------------------

  /** One character of a string, or a backslash with the character after it (section 7). */
  datatype Piece = Raw(c: char) | Escape(c: char)

  /** A value as written, with the white space around its parts; a literal is a number, true, false or null. */
  datatype Json =
    | Literal(text: string)
    | Text(pieces: seq<Piece>)
    | Array(pad: string, elements: Elements)
    | Object(pad: string, members: Members)

  datatype Elements = NoElements | Element(before: string, value: Json, after: string, rest: Elements)

  datatype Members =
    | NoMembers
    | Member(before: string, name: seq<Piece>, colon: string, gap: string, value: Json, after: string, rest: Members)

  predicate IsSpace(s: string) {
    forall c :: c in s ==> c == ' ' || c == '\t' || c == '\n' || c == '\r'
  }

  /** No quotation mark, backslash or bracket: what every number and name satisfies. */
  predicate IsPlain(s: string) {
    forall c :: c in s ==> c != '\"' && c != '\\' && c != '[' && c != ']' && c != '{' && c != '}'
  }

  predicate AreRaw(pieces: seq<Piece>) {
    forall p :: p in pieces && p.Raw? ==> p.c != '\"' && p.c != '\\'
  }

  predicate IsJson(j: Json)
    decreases j, 1
  {
    match j
    case Literal(text) => IsPlain(text)
    case Text(pieces) => AreRaw(pieces)
    case Array(pad, elements) => IsSpace(pad) && AreElements(elements)
    case Object(pad, members) => IsSpace(pad) && AreMembers(members)
  }

  predicate AreElements(e: Elements)
    decreases e, 0
  {
    e.Element? ==> IsSpace(e.before) && IsJson(e.value) && IsSpace(e.after) && AreElements(e.rest)
  }

  predicate AreMembers(m: Members)
    decreases m, 0
  {
    m.Member? ==>
      IsSpace(m.before) && AreRaw(m.name) && IsSpace(m.colon) && IsSpace(m.gap) && IsJson(m.value) && IsSpace(m.after)
      && AreMembers(m.rest)
  }

  function Body(pieces: seq<Piece>): string {
    if pieces == [] then ""
    else (if pieces[0].Raw? then [pieces[0].c] else ['\\', pieces[0].c]) + Body(pieces[1..])
  }

  function Quoted(pieces: seq<Piece>): string {
    "\"" + Body(pieces) + "\""
  }

  function Written(j: Json): string
    decreases j, 1
  {
    match j
    case Literal(text) => text
    case Text(pieces) => Quoted(pieces)
    case Array(pad, elements) => "[" + pad + WrittenElements(elements) + "]"
    case Object(pad, members) => "{" + pad + WrittenMembers(members) + "}"
  }

  function Separator(last: bool): string {
    if last then "" else ","
  }

  function WrittenElements(e: Elements): string
    decreases e, 0
  {
    if e.NoElements? then ""
    else e.before + Written(e.value) + e.after + Separator(e.rest.NoElements?) + WrittenElements(e.rest)
  }

  function WrittenMembers(m: Members): string
    decreases m, 0
  {
    if m.NoMembers? then ""
    else
      m.before + Quoted(m.name) + m.colon + ":" + m.gap + Written(m.value) + m.after + Separator(m.rest.NoMembers?)
      + WrittenMembers(m.rest)
  }

  function Max(a: nat, b: nat): nat {
    if a < b then b else a
  }

  /** How deep arrays and objects are nested in the value. */
  function Nesting(j: Json): nat
    decreases j, 1
  {
    match j
    case Array(_, elements) => 1 + NestingOfElements(elements)
    case Object(_, members) => 1 + NestingOfMembers(members)
    case _ => 0
  }

  function NestingOfElements(e: Elements): nat
    decreases e, 0
  {
    if e.NoElements? then 0 else Max(Nesting(e.value), NestingOfElements(e.rest))
  }

  function NestingOfMembers(m: Members): nat
    decreases m, 0
  {
    if m.NoMembers? then 0 else Max(Nesting(m.value), NestingOfMembers(m.rest))
  }

  // --- the scanner ---------------------------------------------------------------------------------

  datatype Scan = Scan(depth: int, deepest: int, inString: bool, escaped: bool)

  function Read(s: Scan, c: char): Scan {
    if s.inString then
      if s.escaped then s.(escaped := false)
      else if c == '\\' then s.(escaped := true)
      else if c == '\"' then s.(inString := false)
      else s
    else if c == '\"' then s.(inString := true)
    else if c == '[' || c == '{' then
      s.(depth := s.depth + 1, deepest := if s.deepest < s.depth + 1 then s.depth + 1 else s.deepest)
    else if c == ']' || c == '}' then s.(depth := s.depth - 1)
    else s
  }

  function ReadAll(s: Scan, text: string): Scan
  {
    if text == "" then s else Read(ReadAll(s, text[..|text| - 1]), text[|text| - 1])
  }

  method MeasureDepth(content: string) returns (deepest: int)
    ensures deepest == ReadAll(Scan(0, 0, false, false), content).deepest
  {
    var depth, inString, escaped := 0, false, false;
    deepest := 0;
    for i := 0 to |content|
      invariant Scan(depth, deepest, inString, escaped) == ReadAll(Scan(0, 0, false, false), content[..i])
    {
      var c := content[i];
      assert content[..i + 1][..i] == content[..i];
      if inString {
        if escaped {
          escaped := false;
        } else if c == '\\' {
          escaped := true;
        } else if c == '\"' {
          inString := false;
        }
      } else if c == '\"' {
        inString := true;
      } else if c == '[' || c == '{' {
        depth := depth + 1;
        deepest := if deepest < depth then depth else deepest;
      } else if c == ']' || c == '}' {
        depth := depth - 1;
      }
    }
    assert content[..|content|] == content;
  }

  // --- what it measures ----------------------------------------------------------------------------

  lemma {:induction false} ReadJoined(s: Scan, a: string, b: string)
    ensures ReadAll(s, a + b) == ReadAll(ReadAll(s, a), b)
    decreases |b|
  {
    if b == "" {
      assert a + b == a;
    } else {
      var z := |b| - 1;
      assert (a + b)[..|a + b| - 1] == a + b[..z];
      ReadJoined(s, a, b[..z]);
    }
  }

  lemma ReadOne(s: Scan, c: char)
    ensures ReadAll(s, [c]) == Read(s, c)
  {
    assert [c][..0] == "";
  }

  /** White space and literals leave the scan as it is. */
  lemma {:induction false} ReadPlain(s: Scan, text: string)
    requires IsPlain(text) && !s.inString
    ensures ReadAll(s, text) == s
  {
    if text != "" {
      var front := text[..|text| - 1];
      forall c | c in front
        ensures c in text
      {
        var i :| 0 <= i < |front| && front[i] == c;
        assert text[i] == c;
      }
      assert IsPlain(front);
      ReadPlain(s, front);
      assert text[|text| - 1] in text;
    }
  }

  lemma ReadSpace(s: Scan, text: string)
    requires IsSpace(text) && !s.inString
    ensures ReadAll(s, text) == s
  {
    ReadPlain(s, text);
  }

  lemma ReadSeparator(s: Scan, last: bool)
    requires !s.inString
    ensures ReadAll(s, Separator(last)) == s
  {
    ReadPlain(s, Separator(last));
  }

  lemma {:induction false} ReadBody(s: Scan, pieces: seq<Piece>)
    requires AreRaw(pieces) && s.inString && !s.escaped
    ensures ReadAll(s, Body(pieces)) == s
  {
    if pieces != [] {
      var p := pieces[0];
      assert p in pieces;
      if p.Raw? {
        ReadJoined(s, [p.c], Body(pieces[1..]));
        ReadOne(s, p.c);
      } else {
        ReadJoined(s, ['\\', p.c], Body(pieces[1..]));
        ReadJoined(s, ['\\'], [p.c]);
        assert ['\\'] + [p.c] == ['\\', p.c];
        ReadOne(s, '\\');
        ReadOne(s.(escaped := true), p.c);
      }
      ReadBody(s, pieces[1..]);
    }
  }

  /** Nothing inside a string counts. */
  lemma ReadQuoted(s: Scan, pieces: seq<Piece>)
    requires AreRaw(pieces) && !s.inString && !s.escaped
    ensures ReadAll(s, Quoted(pieces)) == s
  {
    var open := s.(inString := true);
    ReadJoined(s, "\"" + Body(pieces), "\"");
    ReadJoined(s, "\"", Body(pieces));
    ReadOne(s, '\"');
    ReadBody(open, pieces);
    ReadOne(open, '\"');
  }

  /** The scan after reading something nested `n` deep. */
  function Reached(s: Scan, n: nat): Scan {
    s.(deepest := if n > 0 && s.deepest < s.depth + n then s.depth + n else s.deepest)
  }

  predicate Between(s: Scan) {
    !s.inString && !s.escaped && s.depth <= s.deepest
  }

  lemma {:induction false} ReadValue(s: Scan, j: Json)
    requires IsJson(j) && Between(s)
    ensures ReadAll(s, Written(j)) == Reached(s, Nesting(j))
    decreases j, 1
  {
    hide ReadAll, IsSpace, IsPlain, AreRaw, Quoted;
    match j
    case Literal(text) => ReadPlain(s, text);
    case Text(pieces) => ReadQuoted(s, pieces);
    case Array(pad, elements) =>
      var open := Read(s, '[');
      ReadJoined(s, "[" + pad + WrittenElements(elements), "]");
      ReadJoined(s, "[" + pad, WrittenElements(elements));
      ReadJoined(s, "[", pad);
      ReadOne(s, '[');
      ReadSpace(open, pad);
      ReadElements(open, elements);
      ReadOne(Reached(open, NestingOfElements(elements)), ']');
    case Object(pad, members) =>
      var open := Read(s, '{');
      ReadJoined(s, "{" + pad + WrittenMembers(members), "}");
      ReadJoined(s, "{" + pad, WrittenMembers(members));
      ReadJoined(s, "{", pad);
      ReadOne(s, '{');
      ReadSpace(open, pad);
      ReadMembers(open, members);
      ReadOne(Reached(open, NestingOfMembers(members)), '}');
  }

  lemma {:induction false} ReadElements(s: Scan, e: Elements)
    requires AreElements(e) && Between(s)
    ensures ReadAll(s, WrittenElements(e)) == Reached(s, NestingOfElements(e))
    decreases e, 0
  {
    hide ReadAll, IsSpace, Written, IsJson, Separator, Nesting;
    if e.NoElements? {
      ReadNothing(s);
    } else {
      var value, comma := Written(e.value), Separator(e.rest.NoElements?);
      var after := Reached(s, Nesting(e.value));
      ReadJoined(s, e.before + value + e.after + comma, WrittenElements(e.rest));
      ReadJoined(s, e.before + value + e.after, comma);
      ReadJoined(s, e.before + value, e.after);
      ReadJoined(s, e.before, value);
      ReadSpace(s, e.before);
      ReadValue(s, e.value);
      ReadSpace(after, e.after);
      ReadSeparator(after, e.rest.NoElements?);
      ReadElements(after, e.rest);
    }
  }

  lemma {:induction false} ReadMembers(s: Scan, m: Members)
    requires AreMembers(m) && Between(s)
    ensures ReadAll(s, WrittenMembers(m)) == Reached(s, NestingOfMembers(m))
    decreases m, 0
  {
    hide ReadAll, IsSpace, Written, IsJson, Separator, Nesting, Quoted, AreRaw;
    if m.NoMembers? {
      ReadNothing(s);
    } else {
      var name, value, comma := Quoted(m.name), Written(m.value), Separator(m.rest.NoMembers?);
      var after := Reached(s, Nesting(m.value));
      var head := m.before + name + m.colon + ":" + m.gap;
      ReadHead(s, m.before, m.name, m.colon, m.gap);
      ReadJoined(s, head + value + m.after + comma, WrittenMembers(m.rest));
      ReadJoined(s, head + value + m.after, comma);
      ReadJoined(s, head + value, m.after);
      ReadJoined(s, head, value);
      ReadValue(s, m.value);
      ReadSpace(after, m.after);
      ReadSeparator(after, m.rest.NoMembers?);
      ReadMembers(after, m.rest);
    }
  }

  lemma ReadNothing(s: Scan)
    ensures ReadAll(s, "") == s
  {
  }

  lemma ReadHead(s: Scan, before: string, name: seq<Piece>, colon: string, gap: string)
    requires IsSpace(before) && AreRaw(name) && IsSpace(colon) && IsSpace(gap) && Between(s)
    ensures ReadAll(s, before + Quoted(name) + colon + ":" + gap) == s
  {
    hide ReadAll, IsSpace, AreRaw, Quoted;
    ReadJoined(s, before + Quoted(name) + colon + ":", gap);
    ReadJoined(s, before + Quoted(name) + colon, ":");
    ReadJoined(s, before + Quoted(name), colon);
    ReadJoined(s, before, Quoted(name));
    ReadSpace(s, before);
    ReadQuoted(s, name);
    ReadSpace(s, colon);
    ReadPlain(s, ":");
    ReadSpace(s, gap);
  }

  /** The measured depth of every well-formed text of a value is how deep the value nests. */
  lemma DepthIsNesting(before: string, j: Json, after: string)
    requires IsSpace(before) && IsJson(j) && IsSpace(after)
    ensures ReadAll(Scan(0, 0, false, false), before + Written(j) + after).deepest == Nesting(j)
  {
    var s := Scan(0, 0, false, false);
    ReadJoined(s, before + Written(j), after);
    ReadJoined(s, before, Written(j));
    ReadSpace(s, before);
    ReadValue(s, j);
    ReadSpace(Reached(s, Nesting(j)), after);
  }

  const MAX_DEPTH := 32

  /** A well-formed text is refused, before it is parsed, exactly when its value nests deeper than the limit. */
  method TooDeep(content: string) returns (refused: bool)
    ensures forall before, j, after ::
            IsSpace(before) && IsJson(j) && IsSpace(after) && content == before + Written(j) + after ==>
              (refused <==> Nesting(j) > MAX_DEPTH)
  {
    hide ReadAll, IsSpace, IsJson, Written, Nesting;
    var depth := MeasureDepth(content);
    forall before, j, after | IsSpace(before) && IsJson(j) && IsSpace(after) && content == before + Written(j) + after
      ensures depth == Nesting(j)
    {
      DepthIsNesting(before, j, after);
    }
    refused := depth > MAX_DEPTH;
  }
}
