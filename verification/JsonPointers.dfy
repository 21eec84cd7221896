/**
  JSON Pointers (sections 3 and 4 of RFC 6901): parsing, rendering, reading a document, building a document
  around a value, and finding the arrays of objects in a schema.
 */
module JsonPointers {
  import opened Options
  import opened Texts

  // ---------- Text ----------

  /** A raw token with `~0` and `~1` replaced, or None for any other use of `~`. */
  function Unescape(raw: string): Option<string> {
    if raw == "" then Some("")
    else if raw[0] != '~' then Prefixed(raw[0], Unescape(raw[1..]))
    else if |raw| < 2 || (raw[1] != '0' && raw[1] != '1') then None
    else Prefixed(if raw[1] == '0' then '~' else '/', Unescape(raw[2..]))
  }

  function Prefixed(c: char, rest: Option<string>): Option<string> {
    if rest.Some? then Some([c] + rest.value) else None
  }

  function UnescapeAll(raws: seq<string>): Option<seq<string>> {
    if raws == [] then Some([])
    else
      var before, last := UnescapeAll(raws[..|raws| - 1]), Unescape(raws[|raws| - 1]);
      if before.None? || last.None? then None else Some(before.value + [last.value])
  }

  function Parse(pointer: string): Option<seq<string>> {
    if pointer == "" then Some([])
    else if pointer[0] != '/' then None
    else UnescapeAll(Split(pointer[1..], '/'))
  }

  function ReplaceAll(s: string, c: char, replacement: string): string {
    if s == "" then "" else (if s[0] == c then replacement else [s[0]]) + ReplaceAll(s[1..], c, replacement)
  }

  /** Rendering a token replaces `~` first and `/` after it. */
  function Escape(token: string): string {
    ReplaceAll(ReplaceAll(token, '~', "~0"), '/', "~1")
  }

  function Render(tokens: seq<string>): string {
    if tokens == [] then "" else Render(tokens[..|tokens| - 1]) + "/" + Escape(tokens[|tokens| - 1])
  }

  // ---------- Parsing, in place ----------

  method ParseJSONPointer(pointer: string) returns (tokens: Option<seq<string>>)
    ensures tokens == Parse(pointer)
  {
    if pointer == "" {
      return Some([]);
    }
    if pointer[0] != '/' {
      return None;
    }
    var raws := Split(pointer[1..], '/');
    var parsed: seq<string> := [];
    for index := 0 to |raws|
      invariant UnescapeAll(raws[..index]) == Some(parsed)
    {
      assert raws[..index + 1][..index] == raws[..index];
      var token := UnescapeToken(raws[index]);
      if token.None? {
        NotAllUnescape(raws, index);
        return None;
      }
      parsed := parsed + [token.value];
    }
    assert raws[..|raws|] == raws;
    return Some(parsed);
  }

  lemma {:induction false} NotAllUnescape(raws: seq<string>, i: nat)
    requires i < |raws| && Unescape(raws[i]).None?
    ensures UnescapeAll(raws).None?
  {
    if i < |raws| - 1 {
      NotAllUnescape(raws[..|raws| - 1], i);
    }
  }

  function Glued(done: string, rest: Option<string>): Option<string> {
    if rest.Some? then Some(done + rest.value) else None
  }

  lemma GluedPrefixed(done: string, c: char, rest: Option<string>)
    ensures Glued(done, Prefixed(c, rest)) == Glued(done + [c], rest)
  {
    if rest.Some? {
      assert done + ([c] + rest.value) == done + [c] + rest.value;
    }
  }

  method UnescapeToken(raw: string) returns (token: Option<string>)
    ensures token == Unescape(raw)
  {
    var built := "";
    var position := 0;
    assert raw[0..] == raw;
    assert Glued("", Unescape(raw)) == Unescape(raw) by {
      if Unescape(raw).Some? { assert "" + Unescape(raw).value == Unescape(raw).value; }
    }
    while position < |raw|
      invariant 0 <= position <= |raw|
      invariant Unescape(raw) == Glued(built, Unescape(raw[position..]))
    {
      var rest := raw[position..];
      if raw[position] != '~' {
        assert rest[1..] == raw[position + 1..];
        GluedPrefixed(built, raw[position], Unescape(raw[position + 1..]));
        built := built + [raw[position]];
        position := position + 1;
        continue;
      }
      if position + 1 >= |raw| || (raw[position + 1] != '0' && raw[position + 1] != '1') {
        return None;
      }
      var c := if raw[position + 1] == '0' then '~' else '/';
      assert rest[2..] == raw[position + 2..];
      GluedPrefixed(built, c, Unescape(raw[position + 2..]));
      built := built + [c];
      position := position + 2;
    }
    assert raw[position..] == "" && built + "" == built;
    return Some(built);
  }

  // ---------- Parsing and rendering are inverse ----------

  function EscapeChar(c: char): string {
    if c == '~' then "~0" else if c == '/' then "~1" else [c]
  }

  lemma ReplaceFront(first: char, rest: string, c: char, replacement: string)
    ensures ReplaceAll([first] + rest, c, replacement) ==
            (if first == c then replacement else [first]) + ReplaceAll(rest, c, replacement)
  {
    assert ([first] + rest)[1..] == rest;
  }

  lemma {:induction false} EscapeFront(token: string)
    requires token != ""
    ensures Escape(token) == EscapeChar(token[0]) + Escape(token[1..])
  {
    var tail := ReplaceAll(token[1..], '~', "~0");
    if token[0] == '~' {
      ReplaceFront('~', "0" + tail, '/', "~1");
      ReplaceFront('0', tail, '/', "~1");
      assert "~0" + tail == ['~'] + ("0" + tail);
      assert ['~'] + (['0'] + ReplaceAll(tail, '/', "~1")) == "~0" + ReplaceAll(tail, '/', "~1");
    } else {
      ReplaceFront(token[0], tail, '/', "~1");
    }
  }

  lemma {:induction false} UnescapeEscape(token: string)
    ensures Unescape(Escape(token)) == Some(token) && '/' !in Escape(token)
  {
    if token != "" {
      EscapeFront(token);
      UnescapeEscape(token[1..]);
      var escaped := Escape(token);
      assert escaped[|EscapeChar(token[0])|..] == Escape(token[1..]);
      assert [token[0]] + token[1..] == token;
    }
  }

  lemma {:induction false} EscapeUnescape(raw: string)
    requires '/' !in raw && Unescape(raw).Some?
    ensures Escape(Unescape(raw).value) == raw
  {
    if raw != "" {
      var n := if raw[0] == '~' then 2 else 1;
      EscapeUnescape(raw[n..]);
      var token := Unescape(raw).value;
      EscapeFront(token);
      assert token[1..] == Unescape(raw[n..]).value;
      assert raw == raw[..n] + raw[n..];
    }
  }

  function Escapes(tokens: seq<string>): (raws: seq<string>)
    ensures |raws| == |tokens|
    ensures forall i :: 0 <= i < |tokens| ==> raws[i] == Escape(tokens[i])
  {
    if tokens == [] then [] else Escapes(tokens[..|tokens| - 1]) + [Escape(tokens[|tokens| - 1])]
  }

  lemma {:induction false} RenderIsJoin(tokens: seq<string>)
    requires tokens != []
    ensures Render(tokens) == "/" + Join(Escapes(tokens), '/')
  {
    hide Escape;
    var front, last := tokens[..|tokens| - 1], tokens[|tokens| - 1];
    if front == [] {
      assert Render(front) == "" && Escapes(tokens) == [Escape(last)];
    } else {
      RenderIsJoin(front);
      JoinLast(Escapes(front), Escape(last), '/');
      assert "/" + Join(Escapes(front), '/') + ['/'] + Escape(last) == "/" + (Join(Escapes(front), '/') + ['/'] + Escape(last));
    }
  }

  lemma {:induction false} UnescapeEscapes(tokens: seq<string>)
    ensures UnescapeAll(Escapes(tokens)) == Some(tokens) && FreeOf(Escapes(tokens), '/')
  {
    hide Escape, Unescape;
    if tokens != [] {
      var front, last := tokens[..|tokens| - 1], tokens[|tokens| - 1];
      UnescapeEscapes(front);
      UnescapeEscape(last);
      assert Escapes(tokens)[..|tokens| - 1] == Escapes(front);
      assert tokens == front + [last];
    }
  }

  lemma {:induction false} EscapesUnescape(raws: seq<string>)
    requires FreeOf(raws, '/') && UnescapeAll(raws).Some?
    ensures Escapes(UnescapeAll(raws).value) == raws
  {
    hide Escape, Unescape;
    if raws != [] {
      var front, last := raws[..|raws| - 1], raws[|raws| - 1];
      EscapesUnescape(front);
      EscapeUnescape(last);
      var tokens := UnescapeAll(raws).value;
      assert tokens[..|tokens| - 1] == UnescapeAll(front).value;
      assert raws == front + [last];
    }
  }

  /** Every list of tokens is what its rendering parses to. */
  lemma ParseRender(tokens: seq<string>)
    ensures Parse(Render(tokens)) == Some(tokens)
  {
    if tokens != [] {
      RenderIsJoin(tokens);
      UnescapeEscapes(tokens);
      SplitJoin(Escapes(tokens), '/');
      assert Render(tokens)[1..] == Join(Escapes(tokens), '/');
    }
  }

  /** Every accepted pointer is the rendering of what it parses to; so parsing is injective. */
  lemma RenderParse(pointer: string)
    requires Parse(pointer).Some?
    ensures Render(Parse(pointer).value) == pointer
  {
    if pointer != "" {
      var raws := Split(pointer[1..], '/');
      JoinSplit(pointer[1..], '/');
      EscapesUnescape(raws);
      RenderIsJoin(Parse(pointer).value);
      assert pointer == "/" + pointer[1..];
    }
  }

  /** Each `~` is followed by `0` or `1`. */
  predicate TildesOk(s: string) {
    forall i :: 0 <= i < |s| && s[i] == '~' ==> i + 1 < |s| && (s[i + 1] == '0' || s[i + 1] == '1')
  }

  lemma {:induction false} UnescapesExactlyWhen(raw: string)
    ensures Unescape(raw).Some? <==> TildesOk(raw)
  {
    if raw != "" {
      if raw[0] != '~' {
        UnescapesExactlyWhen(raw[1..]);
        assert forall i :: 0 < i < |raw| ==> raw[i] == raw[1..][i - 1];
        assert forall i :: 0 <= i < |raw| - 1 ==> raw[1..][i] == raw[i + 1];
      } else if |raw| >= 2 {
        UnescapesExactlyWhen(raw[2..]);
        assert forall i :: 1 < i < |raw| ==> raw[i] == raw[2..][i - 2];
        assert forall i :: 0 <= i < |raw| - 2 ==> raw[2..][i] == raw[i + 2];
      }
    }
  }

  /** `~0` stands for a tilde, `~1` for a slash, any other character for itself, and a text for its parts. */
  lemma UnescapeMeans(c: char, a: string, b: string)
    ensures Unescape("") == Some("") && Unescape("~0") == Some("~") && Unescape("~1") == Some("/")
    ensures c != '~' ==> Unescape([c]) == Some([c])
    ensures Unescape(a).Some? && Unescape(b).Some? ==> Unescape(a + b) == Some(Unescape(a).value + Unescape(b).value)
  {
    assert Unescape("") == Some("") && "~0"[2..] == "" && "~1"[2..] == "" && [c][1..] == "";
    assert ['~'] + "" == "~" && ['/'] + "" == "/" && [c] + "" == [c];
    if Unescape(a).Some? && Unescape(b).Some? {
      UnescapeJoins(a, b);
    }
  }

  lemma {:induction false} UnescapeJoins(a: string, b: string)
    requires Unescape(a).Some? && Unescape(b).Some?
    ensures Unescape(a + b) == Some(Unescape(a).value + Unescape(b).value)
    decreases |a|
  {
    if a == "" {
      assert a + b == b && "" + Unescape(b).value == Unescape(b).value;
    } else {
      var n, d := FirstUnescaped(a, b);
      hide Unescape;
      UnescapeJoins(a[n..], b);
      assert [d] + (Unescape(a[n..]).value + Unescape(b).value) == ([d] + Unescape(a[n..]).value) + Unescape(b).value;
    }
  }

  lemma FirstUnescaped(a: string, b: string) returns (n: nat, d: char)
    requires a != "" && Unescape(a).Some?
    ensures 0 < n <= |a| && Unescape(a) == Prefixed(d, Unescape(a[n..]))
              && Unescape(a + b) == Prefixed(d, Unescape(a[n..] + b))
  {
    n := if a[0] == '~' then 2 else 1;
    d := if a[0] != '~' then a[0] else if a[1] == '0' then '~' else '/';
    assert (a + b)[n..] == a[n..] + b && (a + b)[0] == a[0] && (n == 2 ==> (a + b)[1] == a[1]);
  }

  // ---------- Documents ----------

  datatype Json = Object(members: map<string, Json>) | Array(items: seq<Json>) | Scalar(value: int)

  datatype Read = Found(value: Json) | NotFound | NotAnObject | BadPointer

  function ReadAt(document: Json, tokens: seq<string>): Read {
    if tokens == [] then Found(document)
    else if !document.Object? then NotAnObject
    else if tokens[0] !in document.members then NotFound
    else ReadAt(document.members[tokens[0]], tokens[1..])
  }

  function ValueAt(document: Json, pointer: string): Read {
    var tokens := Parse(pointer);
    if tokens.None? then BadPointer else ReadAt(document, tokens.value)
  }

  method OptionalValueAtJSONPointer(document: Json, pointer: string) returns (r: Read)
    ensures r == ValueAt(document, pointer)
  {
    var tokens := ParseJSONPointer(pointer);
    if tokens.None? {
      return BadPointer;
    }
    var current := document;
    for i := 0 to |tokens.value|
      invariant ReadAt(document, tokens.value) == ReadAt(current, tokens.value[i..])
    {
      if !current.Object? {
        return NotAnObject;
      }
      if tokens.value[i] !in current.members {
        return NotFound;
      }
      assert tokens.value[i..][1..] == tokens.value[i + 1..];
      current := current.members[tokens.value[i]];
    }
    return Found(current);
  }

  function Wrap(body: Json, tokens: seq<string>): Json {
    if tokens == [] then body else Object(map[tokens[0] := Wrap(body, tokens[1..])])
  }

  method WrapMutationBody(body: Json, pointer: string) returns (wrapped: Option<Json>)
    ensures wrapped == match Parse(pointer) case None => None case Some(tokens) => Some(Wrap(body, tokens))
  {
    var tokens := ParseJSONPointer(pointer);
    if tokens.None? {
      return None;
    }
    var result := body;
    var index := |tokens.value|;
    while index > 0
      invariant 0 <= index <= |tokens.value|
      invariant result == Wrap(body, tokens.value[index..])
    {
      index := index - 1;
      assert tokens.value[index..][1..] == tokens.value[index + 1..];
      result := Object(map[tokens.value[index] := result]);
    }
    assert tokens.value[0..] == tokens.value;
    return Some(result);
  }

  /**
    A body wrapped at a path reads back at it and below it, the rest of the wrapping reads back above it, and nothing is
    found at any other path.
   */
  lemma {:induction false} WrapReadsBack(body: Json, tokens: seq<string>, other: seq<string>)
    ensures ReadAt(Wrap(body, tokens), tokens) == Found(body)
    ensures ReadAt(Wrap(body, tokens), other) ==
              if tokens <= other then ReadAt(body, other[|tokens|..])
              else if other <= tokens then Found(Wrap(body, tokens[|other|..]))
              else NotFound
  {
    if tokens == [] {
      assert other[0..] == other;
    } else {
      WrapReadsBack(body, tokens[1..], if other == [] then [] else other[1..]);
      if other != [] && other[0] == tokens[0] {
        assert tokens == [tokens[0]] + tokens[1..] && other == [other[0]] + other[1..];
        assert tokens <= other <==> tokens[1..] <= other[1..];
        assert other <= tokens <==> other[1..] <= tokens[1..];
        assert tokens <= other ==> other[|tokens|..] == other[1..][|tokens| - 1..];
        assert other <= tokens ==> tokens[|other|..] == tokens[1..][|other| - 1..];
      }
    }
  }

  lemma WrappedBodyReadsBack(body: Json, pointer: string)
    requires Parse(pointer).Some?
    ensures ValueAt(Wrap(body, Parse(pointer).value), pointer) == Found(body)
  {
    WrapReadsBack(body, Parse(pointer).value, []);
  }

  // ---------- Schemas ----------

  type Schema = int

  /**
    A graph of schemas, cyclic or not. `shape` is what a schema offers as an object, if it can be read as
    one; a property that cannot be built has no schema.
   */
  datatype Schemas = Schemas(
    all: set<Schema>,
    shape: map<Schema, map<string, Option<Schema>>>,
    arrays: map<Schema, Option<Option<Schema>>>)

  predicate SchemasOk(g: Schemas) {
    && (forall s, name :: s in g.shape && name in g.shape[s] && g.shape[s][name].Some? ==> g.shape[s][name].value in g.all)
    && (forall s :: s in g.arrays && g.arrays[s].Some? && g.arrays[s].value.Some? ==> g.arrays[s].value.value in g.all)
  }

  /** The schema the tokens lead to, through properties of object shapes. */
  function Walk(g: Schemas, from: Schema, tokens: seq<string>): Option<Schema>
    decreases |tokens|
  {
    if tokens == [] then Some(from)
    else if from !in g.shape || tokens[0] !in g.shape[from] || g.shape[from][tokens[0]].None? then None
    else Walk(g, g.shape[from][tokens[0]].value, tokens[1..])
  }

  function SchemaAt(g: Schemas, root: Schema, pointer: string): Option<Schema> {
    var tokens := Parse(pointer);
    if tokens.None? then None else Walk(g, root, tokens.value)
  }

  datatype Discovered = Discovered(path: string, target: Schema)

  datatype Discovery = Arrays(found: seq<Discovered>) | BuildFailed

  predicate IsObjectArray(g: Schemas, s: Schema) {
    && s in g.arrays && g.arrays[s].Some? && g.arrays[s].value.Some?
    && g.arrays[s].value.value in g.shape
  }

  /** The tokens lead through object shapes, none of them seen twice, to an array of objects. */
  predicate LeadsTo(g: Schemas, from: Schema, tokens: seq<string>, seen: set<Schema>, target: Schema)
    decreases |tokens|
  {
    && from !in seen
    && if tokens == [] then from == target && IsObjectArray(g, from)
       else
         && from !in g.arrays && from in g.shape && tokens[0] in g.shape[from] && g.shape[from][tokens[0]].Some?
         && LeadsTo(g, g.shape[from][tokens[0]].value, tokens[1..], seen + {from}, target)
  }

  /** The schema, or a property of it, cannot be built. */
  predicate Unbuildable(g: Schemas, s: Schema) {
    if s in g.arrays then g.arrays[s].Some? && g.arrays[s].value.None?
    else s in g.shape && exists name :: name in g.shape[s] && g.shape[s][name].None?
  }

  /** The tokens lead through object shapes, none of them seen twice, to one that cannot be built. */
  predicate FailsAt(g: Schemas, from: Schema, tokens: seq<string>, seen: set<Schema>)
    decreases |tokens|
  {
    && from !in seen
    && if tokens == [] then Unbuildable(g, from)
       else
         && from !in g.arrays && from in g.shape && tokens[0] in g.shape[from] && g.shape[from][tokens[0]].Some?
         && FailsAt(g, g.shape[from][tokens[0]].value, tokens[1..], seen + {from})
  }

  ghost predicate Fails(g: Schemas, from: Schema, seen: set<Schema>) {
    exists tokens :: FailsAt(g, from, tokens, seen)
  }

  /** A search fails through a property exactly if the search from the property does. */
  lemma FailsThrough(g: Schemas, from: Schema, seen: set<Schema>, name: string)
    requires from !in seen && from !in g.arrays && from in g.shape && name in g.shape[from] && g.shape[from][name].Some?
    ensures Fails(g, g.shape[from][name].value, seen + {from}) <==>
              exists tokens :: tokens != [] && tokens[0] == name && FailsAt(g, from, tokens, seen)
  {
    var next := g.shape[from][name].value;
    if tokens :| FailsAt(g, next, tokens, seen + {from}) {
      assert ([name] + tokens)[1..] == tokens;
      assert FailsAt(g, from, [name] + tokens, seen);
    }
  }

  ghost predicate FoundFrom(g: Schemas, from: Schema, pointer: string, seen: set<Schema>, d: Discovered) {
    exists tokens :: d.path == pointer + Render(tokens) && LeadsTo(g, from, tokens, seen, d.target)
  }

  /** Exactly the arrays that can be reached are found, each at the pointer of the way to it. */
  ghost predicate FindsAll(g: Schemas, from: Schema, pointer: string, seen: set<Schema>, found: seq<Discovered>) {
    && (forall d :: d in found ==> FoundFrom(g, from, pointer, seen, d))
    && (forall tokens, target :: LeadsTo(g, from, tokens, seen, target) ==>
         Discovered(pointer + Render(tokens), target) in found)
  }

  lemma {:induction false} RenderFront(token: string, tokens: seq<string>)
    ensures Render([token] + tokens) == "/" + Escape(token) + Render(tokens)
  {
    hide Escape;
    var all := [token] + tokens;
    if tokens == [] {
      assert all[..0] == [] && Render([]) == "";
    } else {
      var front, last := tokens[..|tokens| - 1], tokens[|tokens| - 1];
      assert all[..|all| - 1] == [token] + front;
      RenderFront(token, front);
    }
  }

  /** The part of a search that starts with one of the given properties. */
  ghost predicate FindsThrough(g: Schemas, from: Schema, pointer: string, seen: set<Schema>, names: seq<string>,
                               found: seq<Discovered>)
  {
    && (forall d :: d in found ==> FoundFrom(g, from, pointer, seen, d))
    && (forall tokens, target :: tokens != [] && tokens[0] in names && LeadsTo(g, from, tokens, seen, target) ==>
         Discovered(pointer + Render(tokens), target) in found)
  }

  lemma OneMoreProperty(g: Schemas, from: Schema, pointer: string, seen: set<Schema>, names: seq<string>, name: string,
                        found: seq<Discovered>, more: seq<Discovered>)
    requires from !in seen && from !in g.arrays && from in g.shape && name in g.shape[from] && g.shape[from][name].Some?
    requires FindsThrough(g, from, pointer, seen, names, found)
    requires FindsAll(g, g.shape[from][name].value, pointer + "/" + Escape(name), seen + {from}, more)
    ensures FindsThrough(g, from, pointer, seen, names + [name], found + more)
  {
    hide Escape, Render;
    var next, inner := g.shape[from][name].value, pointer + "/" + Escape(name);
    forall d | d in more ensures FoundFrom(g, from, pointer, seen, d) {
      assert FoundFrom(g, next, inner, seen + {from}, d);
      var tokens :| d.path == inner + Render(tokens) && LeadsTo(g, next, tokens, seen + {from}, d.target);
      ThroughProperty(pointer, name, tokens);
      assert ([name] + tokens)[1..] == tokens;
      assert LeadsTo(g, from, [name] + tokens, seen, d.target);
    }
    forall tokens, target | tokens != [] && tokens[0] == name && LeadsTo(g, from, tokens, seen, target)
      ensures Discovered(pointer + Render(tokens), target) in more
    {
      assert tokens == [name] + tokens[1..];
      ThroughProperty(pointer, name, tokens[1..]);
      assert LeadsTo(g, next, tokens[1..], seen + {from}, target);
    }
  }

  lemma ThroughProperty(pointer: string, name: string, tokens: seq<string>)
    ensures pointer + Render([name] + tokens) == pointer + "/" + Escape(name) + Render(tokens)
  {
    RenderFront(name, tokens);
    hide Render, Escape;
    assert pointer + ("/" + Escape(name) + Render(tokens)) == pointer + "/" + Escape(name) + Render(tokens);
  }

  /** Terminates on every schema graph: a schema is not entered again while it is being visited. */
  method DiscoverObjectArrays(g: Schemas, schema: Schema, pointer: string, visiting: set<Schema>) returns (r: Discovery)
    requires SchemasOk(g) && schema in g.all
    ensures r.Arrays? ==> FindsAll(g, schema, pointer, visiting, r.found)
    ensures r.BuildFailed? <==> Fails(g, schema, visiting)
    decreases g.all - visiting
  {
    if schema in visiting {
      return Arrays([]);
    }
    if schema in g.arrays {
      if g.arrays[schema].None? {
        return Arrays([]);
      }
      if g.arrays[schema].value.None? {
        assert FailsAt(g, schema, [], visiting);
        return BuildFailed;
      }
      if g.arrays[schema].value.value !in g.shape {
        return Arrays([]);
      }
      assert Render([]) == "" && pointer + "" == pointer;
      assert LeadsTo(g, schema, [], visiting, schema);
      return Arrays([Discovered(pointer, schema)]);
    }
    if schema !in g.shape {
      return Arrays([]);
    }
    var names := SortedNames(g.shape[schema].Keys);
    var arrays: seq<Discovered> := [];
    for i := 0 to |names|
      invariant FindsThrough(g, schema, pointer, visiting, names[..i], arrays)
      invariant forall k :: 0 <= k < i ==> g.shape[schema][names[k]].Some?
      invariant forall tokens :: tokens != [] && tokens[0] in names[..i] ==> !FailsAt(g, schema, tokens, visiting)
    {
      assert names[i] in names;
      var property := g.shape[schema][names[i]];
      if property.None? {
        assert FailsAt(g, schema, [], visiting);
        return BuildFailed;
      }
      FailsThrough(g, schema, visiting, names[i]);
      var discovered := DiscoverObjectArrays(g, property.value, pointer + "/" + Escape(names[i]), visiting + {schema});
      if discovered.BuildFailed? {
        return BuildFailed;
      }
      OneMoreProperty(g, schema, pointer, visiting, names[..i], names[i], arrays, discovered.found);
      assert names[..i + 1] == names[..i] + [names[i]];
      arrays := arrays + discovered.found;
    }
    assert names[..|names|] == names;
    forall tokens ensures !FailsAt(g, schema, tokens, visiting) {
      assert tokens != [] && tokens[0] in g.shape[schema] ==> tokens[0] in names;
    }
    return Arrays(arrays);
  }

  lemma {:induction false} LeadsToWalks(g: Schemas, from: Schema, tokens: seq<string>, seen: set<Schema>, target: Schema)
    requires LeadsTo(g, from, tokens, seen, target)
    ensures Walk(g, from, tokens) == Some(target) && IsObjectArray(g, target)
    decreases |tokens|
  {
    if tokens != [] {
      LeadsToWalks(g, g.shape[from][tokens[0]].value, tokens[1..], seen + {from}, target);
    }
  }

  /** Every path a discovery from the root reports resolves to the array of objects it was found at. */
  lemma DiscoveredPathsResolve(g: Schemas, root: Schema, found: seq<Discovered>, d: Discovered)
    requires FindsAll(g, root, "", {}, found) && d in found
    ensures SchemaAt(g, root, d.path) == Some(d.target) && IsObjectArray(g, d.target)
  {
    assert FoundFrom(g, root, "", {}, d);
    var tokens :| d.path == "" + Render(tokens) && LeadsTo(g, root, tokens, {}, d.target);
    assert "" + Render(tokens) == Render(tokens);
    ParseRender(tokens);
    LeadsToWalks(g, root, tokens, {}, d.target);
  }
}
