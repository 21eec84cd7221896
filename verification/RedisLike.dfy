/**
  SQL LIKE patterns and the two things they are compiled to: a regular expression that decides whether a row
  matches, and a Redis glob that decides which keys a scan returns.

  Characters are single bytes.
 */
module RedisLike {
  import opened Options

  /** A pattern is literal characters, runs of any characters, and single characters. */
  datatype Piece = Lit(c: char) | Run | One

  /** The pieces of a LIKE pattern, or None when it ends with its escape character. */
  function Pieces(pattern: string, escape: Option<char>): Option<seq<Piece>> {
    if pattern == "" then Some([])
    else if escape == Some(pattern[0]) then
      if |pattern| == 1 then None else Before(Lit(pattern[1]), Pieces(pattern[2..], escape))
    else
      var piece := if pattern[0] == '%' then Run else if pattern[0] == '_' then One else Lit(pattern[0]);
      Before(piece, Pieces(pattern[1..], escape))
  }

  function Before(piece: Piece, rest: Option<seq<Piece>>): Option<seq<Piece>> {
    match rest
    case None => None
    case Some(pieces) => Some([piece] + pieces)
  }

  /** The text matches; runs and single characters match a newline only if `newlines` says so. */
  predicate Accepts(pieces: seq<Piece>, text: string, newlines: bool)
    decreases |pieces| + |text|
  {
    if pieces == [] then text == ""
    else
      match pieces[0]
      case Lit(c) => text != "" && text[0] == c && Accepts(pieces[1..], text[1..], newlines)
      case One => text != "" && (newlines || text[0] != '\n') && Accepts(pieces[1..], text[1..], newlines)
      case Run =>
        || Accepts(pieces[1..], text, newlines)
        || (text != "" && (newlines || text[0] != '\n') && Accepts(pieces, text[1..], newlines))
  }

  // ---------- What patterns mean ----------

  /**
    `%` is a run, `_` a single character, an escaped character itself, any other likewise; the escape alone is no pattern, and
    a pattern has the pieces of its parts.
   */
  lemma PiecesMean(escape: Option<char>, c: char, d: char, a: string, b: string)
    ensures Pieces("", escape) == Some([])
    ensures escape == Some(c) ==> Pieces([c, d], escape) == Some([Lit(d)]) && Pieces([c], escape) == None
    ensures escape != Some(c) ==>
              Pieces([c], escape) == Some([if c == '%' then Run else if c == '_' then One else Lit(c)])
    ensures Pieces(a, escape).Some? ==>
              Pieces(a + b, escape) ==
              match Pieces(b, escape) case None => None case Some(more) => Some(Pieces(a, escape).value + more)
  {
    assert Pieces("", escape) == Some([]) && [c][1..] == "" && [c, d][2..] == "";
    PieceAlone();
    if Pieces(a, escape).Some? {
      PiecesJoin(escape, a, b);
    }
  }

  lemma PieceAlone()
    ensures forall piece: Piece :: Before(piece, Some([])) == Some([piece])
  {
    forall piece: Piece ensures Before(piece, Some([])) == Some([piece]) {
      assert [piece] + [] == [piece];
    }
  }

  lemma {:induction false} PiecesJoin(escape: Option<char>, a: string, b: string)
    requires Pieces(a, escape).Some?
    ensures Pieces(a + b, escape) ==
            match Pieces(b, escape) case None => None case Some(more) => Some(Pieces(a, escape).value + more)
    decreases |a|
  {
    if a == "" {
      assert a + b == b;
      assert Pieces(b, escape).Some? ==> [] + Pieces(b, escape).value == Pieces(b, escape).value;
    } else {
      var n, piece := FirstPiece(escape, a, b);
      hide Pieces;
      PiecesJoin(escape, a[n..], b);
      if Pieces(b, escape).Some? {
        assert [piece] + (Pieces(a[n..], escape).value + Pieces(b, escape).value)
            == ([piece] + Pieces(a[n..], escape).value) + Pieces(b, escape).value;
      }
    }
  }

  lemma FirstPiece(escape: Option<char>, a: string, b: string) returns (n: nat, piece: Piece)
    requires a != "" && Pieces(a, escape).Some?
    ensures 0 < n <= |a| && Pieces(a, escape) == Before(piece, Pieces(a[n..], escape))
    ensures Pieces(a + b, escape) == Before(piece, Pieces(a[n..] + b, escape))
  {
    n := if escape == Some(a[0]) then 2 else 1;
    piece := if n == 2 then Lit(a[1]) else if a[0] == '%' then Run else if a[0] == '_' then One else Lit(a[0]);
    assert (a + b)[n..] == a[n..] + b && (a + b)[0] == a[0] && (n == 2 ==> (a + b)[1] == a[1]);
  }

  ghost predicate AcceptsApart(a: seq<Piece>, b: seq<Piece>, text: string, newlines: bool) {
    exists k :: SplitsAt(a, b, text, newlines, k)
  }

  predicate SplitsAt(a: seq<Piece>, b: seq<Piece>, text: string, newlines: bool, k: int) {
    0 <= k <= |text| && Accepts(a, text[..k], newlines) && Accepts(b, text[k..], newlines)
  }

  /** A character matches itself, `_` one character, `%` any text, and pieces a text that splits into what each matches. */
  lemma AcceptsMean(c: char, a: seq<Piece>, b: seq<Piece>, text: string, newlines: bool)
    ensures Accepts([], text, newlines) <==> text == ""
    ensures Accepts([Lit(c)], text, newlines) <==> text == [c]
    ensures Accepts([One], text, newlines) <==> |text| == 1 && (newlines || '\n' !in text)
    ensures Accepts([Run], text, newlines) <==> newlines || '\n' !in text
    ensures Accepts(a + b, text, newlines) <==> AcceptsApart(a, b, text, newlines)
  {
    assert [Lit(c)][1..] == [] && [One][1..] == [];
    assert text != "" ==> text == [text[0]] + text[1..];
    RunAccepts(text, newlines);
    AcceptsJoin(a, b, text, newlines);
  }

  lemma {:induction false} RunAccepts(text: string, newlines: bool)
    ensures Accepts([Run], text, newlines) <==> newlines || '\n' !in text
  {
    assert [Run][1..] == [];
    if text != "" {
      RunAccepts(text[1..], newlines);
      assert text == [text[0]] + text[1..];
    }
  }

  lemma {:induction false} AcceptsJoin(a: seq<Piece>, b: seq<Piece>, text: string, newlines: bool)
    ensures Accepts(a + b, text, newlines) <==> AcceptsApart(a, b, text, newlines)
    decreases |a| + |text|
  {
    if a == [] {
      assert a + b == b && text[..0] == "" && text[0..] == text;
      if Accepts(b, text, newlines) { assert SplitsAt(a, b, text, newlines, 0); }
    } else {
      assert (a + b)[1..] == a[1..] + b && (a + b)[0] == a[0];
      AcceptsJoin(a[1..], b, text, newlines);
      if text != "" {
        AcceptsJoin(a, b, text[1..], newlines);
        AcceptsJoin(a[1..], b, text[1..], newlines);
      }
      AcceptsApartFirst(a, b, text, newlines);
      hide Accepts, AcceptsApart;
      AcceptsFirst(a + b, text, newlines);
    }
  }

  /** What the first piece does, to pieces taken together and apart. */
  lemma AcceptsFirst(a: seq<Piece>, text: string, newlines: bool)
    requires a != []
    ensures Accepts(a, text, newlines) <==>
              if a[0].Run? then
                Accepts(a[1..], text, newlines) ||
                (text != "" && (newlines || text[0] != '\n') && Accepts(a, text[1..], newlines))
              else
                text != "" && (if a[0].Lit? then text[0] == a[0].c else newlines || text[0] != '\n') &&
                Accepts(a[1..], text[1..], newlines)
  {
  }

  lemma AcceptsApartFirst(a: seq<Piece>, b: seq<Piece>, text: string, newlines: bool)
    requires a != []
    ensures AcceptsApart(a, b, text, newlines) <==>
              if a[0].Run? then
                AcceptsApart(a[1..], b, text, newlines) ||
                (text != "" && (newlines || text[0] != '\n') && AcceptsApart(a, b, text[1..], newlines))
              else
                text != "" && (if a[0].Lit? then text[0] == a[0].c else newlines || text[0] != '\n')
                && AcceptsApart(a[1..], b, text[1..], newlines)
  {
    hide Accepts;
    var rest := if a[0].Run? then a else a[1..];
    forall k | 0 < k <= |text|
      ensures text[..k][1..] == text[1..][..k - 1] && text[1..][k - 1..] == text[k..] && text[..k][0] == text[0]
    {
    }
    forall k ensures SplitsAt(a, b, text, newlines, k) <==>
        (a[0].Run? && SplitsAt(a[1..], b, text, newlines, k)) ||
        (k > 0 && text != "" && (if a[0].Lit? then text[0] == a[0].c else newlines || text[0] != '\n')
         && SplitsAt(rest, b, text[1..], newlines, k - 1))
    {
      if 0 <= k <= |text| {
        AcceptsFirst(a, text[..k], newlines);
      }
    }
    hide SplitsAt;
    if AcceptsApart(a, b, text, newlines) {
      var k :| SplitsAt(a, b, text, newlines, k);
      assert (a[0].Run? && SplitsAt(a[1..], b, text, newlines, k)) || SplitsAt(rest, b, text[1..], newlines, k - 1);
    }
    if a[0].Run? && AcceptsApart(a[1..], b, text, newlines) {
      var k :| SplitsAt(a[1..], b, text, newlines, k);
      assert SplitsAt(a, b, text, newlines, k);
    }
    if text != "" && (if a[0].Lit? then text[0] == a[0].c else newlines || text[0] != '\n')
        && AcceptsApart(rest, b, text[1..], newlines) {
      var k :| SplitsAt(rest, b, text[1..], newlines, k);
      SplitsWithin(rest, b, text[1..], newlines, k);
      assert SplitsAt(a, b, text, newlines, k + 1);
    }
  }

  lemma SplitsWithin(a: seq<Piece>, b: seq<Piece>, text: string, newlines: bool, k: int)
    requires SplitsAt(a, b, text, newlines, k)
    ensures 0 <= k <= |text|
  {
  }

  // ---------- What the compilers emit ----------

  predicate IsGlobSpecial(c: char) {
    c == '*' || c == '?' || c == '[' || c == ']' || c == '\\'
  }

  function GlobPiece(piece: Piece): string {
    match piece
    case Run => "*"
    case One => "?"
    case Lit(c) => if IsGlobSpecial(c) then ['\\', c] else [c]
  }

  function GlobOf(pieces: seq<Piece>): string {
    if pieces == [] then "" else GlobOf(pieces[..|pieces| - 1]) + GlobPiece(pieces[|pieces| - 1])
  }

  predicate IsRegexSpecial(c: char) {
    || c == '\\' || c == '.' || c == '+' || c == '*' || c == '?' || c == '(' || c == ')'
    || c == '|' || c == '[' || c == ']' || c == '{' || c == '}' || c == '^' || c == '$'
  }

  function RegexPiece(piece: Piece): string {
    match piece
    case Run => ".*"
    case One => "."
    case Lit(c) => if IsRegexSpecial(c) then ['\\', c] else [c]
  }

  function RegexBody(pieces: seq<Piece>): string {
    if pieces == [] then "" else RegexBody(pieces[..|pieces| - 1]) + RegexPiece(pieces[|pieces| - 1])
  }

  function RegexOf(pieces: seq<Piece>): string {
    "^" + RegexBody(pieces) + "$"
  }

  /** The escape argument must be exactly one character. */
  predicate EscapeOk(escape: Option<string>) {
    escape.Some? ==> |escape.value| == 1
  }

  function EscapeChar(escape: Option<string>): Option<char>
    requires EscapeOk(escape)
  {
    if escape.None? then None else Some(escape.value[0])
  }

  function Compiled(pattern: string, escape: Option<string>): Option<seq<Piece>> {
    if EscapeOk(escape) then Pieces(pattern, EscapeChar(escape)) else None
  }

  lemma EmitOne(pieces: seq<Piece>, piece: Piece)
    ensures GlobOf(pieces + [piece]) == GlobOf(pieces) + GlobPiece(piece)
    ensures RegexBody(pieces + [piece]) == RegexBody(pieces) + RegexPiece(piece)
  {
    assert (pieces + [piece])[..|pieces|] == pieces;
  }

  lemma Assoc(a: string, b: string, c: string)
    ensures a + (b + c) == a + b + c
  {
  }

  // ---------- The compilers ----------

  /** What the compilation loops keep: the pieces so far and, after an escape, the rest with the escape put back. */
  ghost predicate Compiling(pattern: string, i: nat, escaped: bool, escape: Option<char>, pieces: seq<Piece>) {
    && i <= |pattern|
    && (escaped ==> i > 0 && escape == Some(pattern[i - 1]))
    && Pieces(pattern, escape) == After(pieces, Pieces(pattern[if escaped then i - 1 else i..], escape))
  }

  ghost function After(pieces: seq<Piece>, rest: Option<seq<Piece>>): Option<seq<Piece>> {
    match rest
    case None => None
    case Some(more) => Some(pieces + more)
  }

  lemma CompilingStarts(pattern: string, escape: Option<char>)
    ensures Compiling(pattern, 0, false, escape, [])
  {
    assert pattern[0..] == pattern;
    if Pieces(pattern, escape).Some? {
      assert [] + Pieces(pattern, escape).value == Pieces(pattern, escape).value;
    }
  }

  lemma AfterBefore(pieces: seq<Piece>, piece: Piece, rest: Option<seq<Piece>>)
    ensures After(pieces, Before(piece, rest)) == After(pieces + [piece], rest)
  {
    if rest.Some? {
      assert pieces + ([piece] + rest.value) == pieces + [piece] + rest.value;
    }
  }

  /** An unescaped escape character is only remembered. */
  lemma CompilingEscape(pattern: string, i: nat, escape: Option<char>, pieces: seq<Piece>)
    requires Compiling(pattern, i, false, escape, pieces) && i < |pattern| && escape == Some(pattern[i])
    ensures Compiling(pattern, i + 1, true, escape, pieces)
  {
  }

  /** Any other character adds its piece. */
  lemma CompilingPiece(pattern: string, i: nat, escaped: bool, escape: Option<char>, pieces: seq<Piece>, piece: Piece)
    requires Compiling(pattern, i, escaped, escape, pieces) && i < |pattern|
    requires escaped || escape != Some(pattern[i])
    requires piece == if escaped then Lit(pattern[i]) else if pattern[i] == '%' then Run
                      else if pattern[i] == '_' then One else Lit(pattern[i])
    ensures Compiling(pattern, i + 1, false, escape, pieces + [piece])
  {
    var from := if escaped then i - 1 else i;
    var rest := pattern[from..];
    assert (if escaped then rest[2..] else rest[1..]) == pattern[i + 1..];
    assert Pieces(rest, escape) == Before(piece, Pieces(pattern[i + 1..], escape));
    AfterBefore(pieces, piece, Pieces(pattern[i + 1..], escape));
  }

  lemma CompilingEnds(pattern: string, escaped: bool, escape: Option<char>, pieces: seq<Piece>)
    requires Compiling(pattern, |pattern|, escaped, escape, pieces)
    ensures Pieces(pattern, escape) == if escaped then None else Some(pieces)
  {
    if escaped {
      assert pattern[|pattern| - 1..] == [pattern[|pattern| - 1]];
    } else {
      assert pattern[|pattern|..] == "";
      assert pieces + [] == pieces;
    }
  }

  method LikeToRedisGlob(pattern: string, escape: Option<string>) returns (glob: Option<string>)
    ensures glob == match Compiled(pattern, escape) case None => None case Some(pieces) => Some(GlobOf(pieces))
  {
    var escapeRune: Option<char> := None;
    if escape.Some? {
      if |escape.value| != 1 {
        return None;
      }
      escapeRune := Some(escape.value[0]);
    }
    var built := "";
    var escaped := false;
    ghost var pieces: seq<Piece> := [];
    CompilingStarts(pattern, escapeRune);
    assert built == GlobOf(pieces);
    hide Pieces, Compiling, GlobOf;
    for i := 0 to |pattern|
      invariant Compiling(pattern, i, escaped, escapeRune, pieces) && built == GlobOf(pieces)
    {
      var character := pattern[i];
      if !escaped && escapeRune == Some(character) {
        CompilingEscape(pattern, i, escapeRune, pieces);
        escaped := true;
        continue;
      }
      ghost var piece := if escaped then Lit(character) else if character == '%' then Run
                         else if character == '_' then One else Lit(character);
      CompilingPiece(pattern, i, escaped, escapeRune, pieces, piece);
      EmitOne(pieces, piece);
      pieces := pieces + [piece];
      if !escaped {
        if character == '%' {
          built := built + "*";
          continue;
        } else if character == '_' {
          built := built + "?";
          continue;
        }
      }
      if IsGlobSpecial(character) {
        built := built + ['\\'];
      }
      built := built + [character];
      assert built == GlobOf(pieces);
      escaped := false;
    }
    CompilingEnds(pattern, escaped, escapeRune, pieces);
    if escaped {
      return None;
    }
    return Some(built);
  }

  /** Emits the text of the regular expression. */
  method CompileLikePattern(pattern: string, escape: Option<string>) returns (regex: Option<string>)
    ensures regex == match Compiled(pattern, escape) case None => None case Some(pieces) => Some(RegexOf(pieces))
  {
    var escapeRune: Option<char> := None;
    if escape.Some? {
      if |escape.value| != 1 {
        return None;
      }
      escapeRune := Some(escape.value[0]);
    }
    var built := "^";
    var escaped := false;
    ghost var pieces: seq<Piece> := [];
    CompilingStarts(pattern, escapeRune);
    assert built == "^" + RegexBody(pieces);
    hide Pieces, Compiling, RegexBody;
    for i := 0 to |pattern|
      invariant Compiling(pattern, i, escaped, escapeRune, pieces) && built == "^" + RegexBody(pieces)
    {
      var character := pattern[i];
      if !escaped && escapeRune == Some(character) {
        CompilingEscape(pattern, i, escapeRune, pieces);
        escaped := true;
        continue;
      }
      ghost var piece := if escaped then Lit(character) else if character == '%' then Run
                         else if character == '_' then One else Lit(character);
      CompilingPiece(pattern, i, escaped, escapeRune, pieces, piece);
      EmitOne(pieces, piece);
      Assoc("^", RegexBody(pieces), RegexPiece(piece));
      pieces := pieces + [piece];
      if !escaped {
        if character == '%' {
          built := built + ".*";
          continue;
        } else if character == '_' {
          built := built + ".";
          continue;
        }
      }
      built := built + (if IsRegexSpecial(character) then ['\\', character] else [character]);
      escaped := false;
    }
    CompilingEnds(pattern, escaped, escapeRune, pieces);
    if escaped {
      return None;
    }
    return Some(built + "$");
  }

  // ---------- What the emitted texts mean ----------

  /**
    The pieces a regular expression body denotes, in the sublanguage of literals, escaped punctuation, `.`
    and `.*`; None outside it.
   */
  function ReadRegex(body: string): Option<seq<Piece>> {
    if body == "" then Some([])
    else if body[0] == '\\' then
      if |body| == 1 then None else Before(Lit(body[1]), ReadRegex(body[2..]))
    else if body[0] == '.' then
      if |body| > 1 && body[1] == '*' then Before(Run, ReadRegex(body[2..])) else Before(One, ReadRegex(body[1..]))
    else if IsRegexSpecial(body[0]) then None
    else Before(Lit(body[0]), ReadRegex(body[1..]))
  }

  lemma {:induction false} RegexFront(piece: Piece, pieces: seq<Piece>)
    ensures RegexBody([piece] + pieces) == RegexPiece(piece) + RegexBody(pieces)
  {
    hide RegexPiece;
    if pieces == [] {
      EmitOne([], piece);
      assert [] + [piece] == [piece] + pieces;
    } else {
      hide RegexBody;
      var front, last := pieces[..|pieces| - 1], pieces[|pieces| - 1];
      calc {
        RegexBody([piece] + pieces);
        { assert [piece] + pieces == [piece] + front + [last]; }
        RegexBody([piece] + front + [last]);
        { EmitOne([piece] + front, last); }
        RegexBody([piece] + front) + RegexPiece(last);
        { RegexFront(piece, front); }
        RegexPiece(piece) + RegexBody(front) + RegexPiece(last);
        { Assoc(RegexPiece(piece), RegexBody(front), RegexPiece(last)); }
        RegexPiece(piece) + (RegexBody(front) + RegexPiece(last));
        { EmitOne(front, last); assert front + [last] == pieces; }
        RegexPiece(piece) + RegexBody(pieces);
      }
    }
  }

  lemma ReadPiece(piece: Piece, tail: string)
    requires tail != "" ==> tail[0] != '*'
    ensures ReadRegex(RegexPiece(piece) + tail) == Before(piece, ReadRegex(tail))
  {
    var body := RegexPiece(piece) + tail;
    match piece
    case Run => assert body[2..] == tail;
    case One => assert body[1..] == tail;
    case Lit(c) =>
      if IsRegexSpecial(c) {
        assert body[2..] == tail;
      } else {
        assert body[1..] == tail;
      }
  }

  /** Quoting is exact: the emitted expression denotes the pattern's pieces and nothing else. */
  lemma {:induction false} RegexRoundTrip(pieces: seq<Piece>)
    ensures ReadRegex(RegexBody(pieces)) == Some(pieces)
    ensures pieces != [] ==> RegexBody(pieces) != "" && RegexBody(pieces)[0] != '*'
  {
    if pieces != [] {
      var rest := pieces[1..];
      RegexRoundTrip(rest);
      assert rest == [] ==> RegexBody(rest) == "";
      hide RegexBody, ReadRegex;
      RegexFront(pieces[0], rest);
      assert pieces == [pieces[0]] + rest;
      ReadPiece(pieces[0], RegexBody(rest));
    }
  }

  /** Whether the class that starts after its `[` holds the character, and the pattern after the class. */
  function InClass(p: string, c: char): (bool, string) {
    if p == "" then (false, "")
    else if p[0] == '\\' && |p| >= 2 then
      var (found, rest) := InClass(p[2..], c);
      (found || p[1] == c, rest)
    else if p[0] == ']' then (false, p[1..])
    else if |p| >= 3 && p[1] == '-' then
      var (found, rest) := InClass(p[3..], c);
      (found || p[0] <= c <= p[2] || p[2] <= c <= p[0], rest)
    else
      var (found, rest) := InClass(p[1..], c);
      (found || p[0] == c, rest)
  }

  lemma {:induction false} ClassShrinks(p: string, c: char)
    ensures |InClass(p, c).1| <= |p|
  {
    if p != "" {
      if p[0] == '\\' && |p| >= 2 { ClassShrinks(p[2..], c); }
      else if p[0] == ']' {}
      else if |p| >= 3 && p[1] == '-' { ClassShrinks(p[3..], c); }
      else { ClassShrinks(p[1..], c); }
    }
  }

  /** The keys a Redis glob selects. */
  predicate GlobMatch(p: string, s: string)
    decreases |p| + |s|
  {
    if p == "" then s == ""
    else if p[0] == '*' then GlobMatch(p[1..], s) || (s != "" && GlobMatch(p, s[1..]))
    else if s == "" then false
    else if p[0] == '?' then GlobMatch(p[1..], s[1..])
    else if p[0] == '[' then
      ClassShrinks(p[1..], s[0]);
      ClassShrinks(p[if |p| > 1 && p[1] == '^' then 2 else 1..], s[0]);
      if |p| > 1 && p[1] == '^' then
        var (found, rest) := InClass(p[2..], s[0]);
        !found && GlobMatch(rest, s[1..])
      else
        var (found, rest) := InClass(p[1..], s[0]);
        found && GlobMatch(rest, s[1..])
    else if p[0] == '\\' && |p| >= 2 then p[1] == s[0] && GlobMatch(p[2..], s[1..])
    else p[0] == s[0] && GlobMatch(p[1..], s[1..])
  }

  lemma {:induction false} GlobFront(piece: Piece, pieces: seq<Piece>)
    ensures GlobOf([piece] + pieces) == GlobPiece(piece) + GlobOf(pieces)
  {
    hide GlobPiece;
    if pieces == [] {
      EmitOne([], piece);
      assert [] + [piece] == [piece] + pieces;
    } else {
      hide GlobOf;
      var front, last := pieces[..|pieces| - 1], pieces[|pieces| - 1];
      calc {
        GlobOf([piece] + pieces);
        { assert [piece] + pieces == [piece] + front + [last]; }
        GlobOf([piece] + front + [last]);
        { EmitOne([piece] + front, last); }
        GlobOf([piece] + front) + GlobPiece(last);
        { GlobFront(piece, front); }
        GlobPiece(piece) + GlobOf(front) + GlobPiece(last);
        { Assoc(GlobPiece(piece), GlobOf(front), GlobPiece(last)); }
        GlobPiece(piece) + (GlobOf(front) + GlobPiece(last));
        { EmitOne(front, last); assert front + [last] == pieces; }
        GlobPiece(piece) + GlobOf(pieces);
      }
    }
  }

  /** The emitted glob selects exactly the texts the LIKE pattern matches. */
  lemma {:induction false} GlobIsLike(pieces: seq<Piece>, s: string)
    ensures GlobMatch(GlobOf(pieces), s) <==> Accepts(pieces, s, true)
    decreases |pieces| + |s|
  {
    if pieces == [] {
      assert GlobOf(pieces) == "";
    } else {
      var rest := pieces[1..];
      assert pieces == [pieces[0]] + rest;
      GlobFront(pieces[0], rest);
      if pieces[0].Run? {
        GlobIsLike(rest, s);
        if s != "" { GlobIsLike(pieces, s[1..]); }
      } else if s != "" {
        GlobIsLike(rest, s[1..]);
      }
      hide GlobOf;
      GlobOfPiece(pieces[0], GlobOf(rest), s);
    }
  }

  /** A piece of a glob consumes what it stands for. */
  lemma GlobOfPiece(piece: Piece, rest: string, s: string)
    ensures var glob := GlobPiece(piece) + rest;
            GlobMatch(glob, s) <==>
              match piece
              case Run => GlobMatch(rest, s) || (s != "" && GlobMatch(glob, s[1..]))
              case One => s != "" && GlobMatch(rest, s[1..])
              case Lit(c) => s != "" && s[0] == c && GlobMatch(rest, s[1..])
  {
    var glob := GlobPiece(piece) + rest;
    assert glob[|GlobPiece(piece)|..] == rest;
  }

  /** The expression accepts no more than the LIKE pattern, and the same texts when they have no newline. */
  lemma {:induction false} RegexIsLike(pieces: seq<Piece>, s: string)
    ensures Accepts(pieces, s, false) ==> Accepts(pieces, s, true)
    ensures '\n' !in s ==> (Accepts(pieces, s, false) <==> Accepts(pieces, s, true))
    decreases |pieces| + |s|
  {
    if pieces != [] {
      if pieces[0].Run? { RegexIsLike(pieces[1..], s); }
      if s != "" {
        assert s[0] in s && forall c :: c in s[1..] ==> c in s;
        RegexIsLike(if pieces[0].Run? then pieces else pieces[1..], s[1..]);
      }
    }
  }

  /** Without wildcards the two are the same. */
  lemma {:induction false} LiteralsAgree(pieces: seq<Piece>, s: string)
    requires Run !in pieces && One !in pieces
    ensures Accepts(pieces, s, false) <==> Accepts(pieces, s, true)
    decreases |pieces|
  {
    if pieces != [] && s != "" {
      assert pieces[0] in pieces && forall p :: p in pieces[1..] ==> p in pieces;
      LiteralsAgree(pieces[1..], s[1..]);
    }
  }

  /** The expression means what every LIKE pattern means for a text exactly if the text has no newline. */
  lemma RegexIsLikeExactlyWhen(s: string)
    ensures (forall pieces :: Accepts(pieces, s, false) <==> Accepts(pieces, s, true)) <==> '\n' !in s
  {
    RunAccepts(s, false);
    RunAccepts(s, true);
    if '\n' !in s {
      forall pieces ensures Accepts(pieces, s, false) <==> Accepts(pieces, s, true) {
        RegexIsLike(pieces, s);
      }
    }
  }

  /** A text the pattern matches, with a newline for each of its wildcards. */
  function WithNewlines(pieces: seq<Piece>): string {
    if pieces == [] then ""
    else [if pieces[0].Lit? then pieces[0].c else '\n'] + WithNewlines(pieces[1..])
  }

  lemma {:induction false} NewlinesMatch(pieces: seq<Piece>)
    ensures Accepts(pieces, WithNewlines(pieces), true)
  {
    if pieces != [] {
      NewlinesMatch(pieces[1..]);
      assert WithNewlines(pieces)[1..] == WithNewlines(pieces[1..]);
    }
  }

  /** A wildcard needs a character that is no newline, or none at all. */
  function Newlines(s: string): nat {
    if s == "" then 0 else Newlines(s[1..]) + if s[0] == '\n' then 1 else 0
  }

  function LiteralNewlines(pieces: seq<Piece>): nat {
    if pieces == [] then 0 else LiteralNewlines(pieces[1..]) + if pieces[0] == Lit('\n') then 1 else 0
  }

  lemma {:induction false} NewlinesAreLiteral(pieces: seq<Piece>, s: string)
    requires Accepts(pieces, s, false)
    ensures Newlines(s) == LiteralNewlines(pieces)
    decreases |pieces| + |s|
  {
    if pieces != [] {
      if pieces[0].Run? {
        if Accepts(pieces[1..], s, false) {
          NewlinesAreLiteral(pieces[1..], s);
        } else {
          NewlinesAreLiteral(pieces, s[1..]);
        }
      } else {
        NewlinesAreLiteral(pieces[1..], s[1..]);
      }
    }
  }

  lemma {:induction false} NewlinesAdded(pieces: seq<Piece>)
    ensures Newlines(WithNewlines(pieces)) >= LiteralNewlines(pieces)
    ensures Run in pieces || One in pieces ==> Newlines(WithNewlines(pieces)) > LiteralNewlines(pieces)
  {
    if pieces != [] {
      NewlinesAdded(pieces[1..]);
      assert WithNewlines(pieces)[1..] == WithNewlines(pieces[1..]);
      assert pieces == [pieces[0]] + pieces[1..];
    }
  }

  /** The expression means what a LIKE pattern means for every text exactly if the pattern has no wildcard. */
  lemma WildcardsDifferExactlyWhen(pieces: seq<Piece>)
    ensures (forall s :: Accepts(pieces, s, false) <==> Accepts(pieces, s, true)) <==> Run !in pieces && One !in pieces
  {
    if Run !in pieces && One !in pieces {
      forall s ensures Accepts(pieces, s, false) <==> Accepts(pieces, s, true) {
        LiteralsAgree(pieces, s);
      }
    } else {
      NewlinesMatch(pieces);
      NewlinesAreRefused(pieces);
      assert Accepts(pieces, WithNewlines(pieces), true) && !Accepts(pieces, WithNewlines(pieces), false);
    }
  }

  lemma NewlinesAreRefused(pieces: seq<Piece>)
    requires Run in pieces || One in pieces
    ensures !Accepts(pieces, WithNewlines(pieces), false)
  {
    NewlinesAdded(pieces);
    if Accepts(pieces, WithNewlines(pieces), false) {
      NewlinesAreLiteral(pieces, WithNewlines(pieces));
    }
  }
}
