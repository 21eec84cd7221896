/** Table prefixes put unescaped in front of a glob: which of them still select the table's own keys. */
module RedisPrefixes {
  import opened Options
  import opened RedisLike
  import opened RedisGlobs

  // ---------- The whole table ----------

  /** The glob of the whole table selects every key that starts with the prefix. */
  ghost predicate SelectsItsKeys(prefix: string) {
    forall s :: GlobMatch(prefix + "*", prefix + s)
  }

  /** What can be checked of the prefix beforehand. */
  ghost predicate SuitsTable(prefix: string) {
    GlobMatch(prefix + "*", prefix) && OpenEnded(Tokens(prefix + "*"))
  }

  /** A table's scan finds all its keys exactly if it finds the bare prefix, and its glob is open-ended. */
  lemma TableIsSelectedExactlyWhen(prefix: string)
    ensures SelectsItsKeys(prefix) <==> SuitsTable(prefix)
  {
    var glob := prefix + "*";
    if SuitsTable(prefix) {
      forall s ensures GlobMatch(glob, prefix + s) {
        GlobIsTokens(glob, prefix);
        OpenEndedContinues(Tokens(glob), prefix, s);
        GlobIsTokens(glob, prefix + s);
      }
    } else if GlobMatch(glob, prefix) {
      var end := NotContinued(Tokens(glob));
      GlobIsTokens(glob, prefix + end);
      assert !GlobMatch(glob, prefix + end);
    } else {
      assert !GlobMatch(glob, prefix + "") by { assert prefix + "" == prefix; }
    }
  }

  lemma {:induction false} StarSelects(s: string)
    ensures GlobMatch("*", s)
  {
    assert GlobMatch("", "");
    if s != "" {
      StarSelects(s[1..]);
    }
  }

  // ---------- Patterns behind a complete prefix ----------

  /** Behind the prefix, every LIKE pattern's glob still selects what the pattern matches. */
  ghost predicate CarriesPatterns(prefix: string) {
    forall pieces, s :: GlobMatch(GlobOf(pieces), s) ==> GlobMatch(prefix + GlobOf(pieces), prefix + s)
  }

  /** The prefix leaves nothing open and, read as a glob, selects itself. */
  predicate SelfContained(prefix: string) {
    Complete(prefix) && GlobMatch(prefix, prefix)
  }

  lemma SelfContainedCarries(prefix: string, glob: string, s: string)
    requires SelfContained(prefix) && GlobMatch(glob, s)
    ensures GlobMatch(prefix + glob, prefix + s)
  {
    GlobIsTokens(prefix, prefix);
    GlobIsTokens(glob, s);
    GlobIsTokens(prefix + glob, prefix + s);
    CompleteKeepsTokens(prefix, glob);
    FitsTogether(Tokens(prefix), Tokens(glob), prefix, s);
  }

  /** Such a prefix suits the scan of the whole table as well. */
  lemma SelfContainedSuitsTable(prefix: string)
    requires SelfContained(prefix)
    ensures SuitsTable(prefix)
  {
    forall s ensures GlobMatch(prefix + "*", prefix + s) {
      StarSelects(s);
      SelfContainedCarries(prefix, "*", s);
    }
    TableIsSelectedExactlyWhen(prefix);
  }

  // ---------- Classes that are left open ----------

  /** The class a prefix leaves open, from its bracket on. */
  function OpenClass(p: string): (r: Option<string>)
    ensures r.Some? ==> r.value != "" && r.value[0] == '[' && ClassTail(ClassText(r.value)).None?
    decreases |p|
  {
    if p == "" then None
    else if p[0] == '[' then
      if ClassTail(ClassText(p)).None? then Some(p) else OpenClass(ClassTail(ClassText(p)).value)
    else if p[0] == '\\' then if |p| >= 2 then OpenClass(p[2..]) else None
    else OpenClass(p[1..])
  }

  /** The tokens in front of the open class. */
  ghost function HeadTokens(p: string): seq<Token>
    requires OpenClass(p).Some?
    decreases |p|
  {
    if p[0] == '[' then
      if ClassTail(ClassText(p)).None? then [] else [ClassOf(p)] + HeadTokens(ClassTail(ClassText(p)).value)
    else [Tokens(p)[0]] + HeadTokens(p[if p[0] == '\\' then 2 else 1..])
  }

  lemma {:induction false} OpenTokens(p: string, glob: string)
    requires OpenClass(p).Some?
    ensures Tokens(p + glob) == HeadTokens(p) + Tokens(OpenClass(p).value + glob)
    decreases |p|
  {
    if p[0] == '[' {
      if ClassTail(ClassText(p)).Some? {
        var tail := ClassTail(ClassText(p)).value;
        ClosedClassStays(p, glob);
        OpenTokens(tail, glob);
        Joined(ClassOf(p), HeadTokens(tail), Tokens(OpenClass(tail).value + glob));
      }
    } else {
      var n := if p[0] == '\\' then 2 else 1;
      var q := p + glob;
      assert q[n..] == p[n..] + glob && q[0] == p[0] && (n == 2 ==> q[1] == p[1]);
      OpenTokens(p[n..], glob);
      Joined(Tokens(p)[0], HeadTokens(p[n..]), Tokens(OpenClass(p).value + glob));
      hide ClassOf, ClassTail, ClassText;
    }
  }

  /** The unclosed class text holds the character, whatever follows it. */
  predicate Holds(text: string, c: char)
    decreases |text|
  {
    if text == "" || text == "\\" then false
    else if text[0] == '\\' then text[1] == c || Holds(text[2..], c)
    else if |text| == 2 && text[1] == '-' then text[0] == c
    else if |text| >= 3 && text[1] == '-' then
      text[0] <= c <= text[2] || text[2] <= c <= text[0] || Holds(text[3..], c)
    else text[0] == c || Holds(text[1..], c)
  }

  /** The prefix leaves open a class that holds every character, whatever follows it. */
  ghost predicate HoldsAll(prefix: string) {
    var r := OpenClass(prefix);
    r.Some? && !IsNegated(r.value) && forall c :: Holds(ClassText(r.value), c)
  }

  lemma {:induction false} HeldAlways(text: string, more: string, c: char)
    requires ClassTail(text).None? && Holds(text, c)
    ensures InClass(text + more, c).0
    decreases |text|
  {
    var q := text + more;
    assert q[0] == text[0] && (|text| >= 2 ==> q[1] == text[1]) && (|text| >= 3 ==> q[2] == text[2]);
    if text[0] == '\\' {
      RestOfSum(text, more, 2);
      if text[1] != c { HeldAlways(text[2..], more, c); }
    } else if |text| >= 3 && text[1] == '-' {
      RestOfSum(text, more, 3);
      if !(text[0] <= c <= text[2] || text[2] <= c <= text[0]) { HeldAlways(text[3..], more, c); }
    } else if !(|text| == 2 && text[1] == '-') {
      RestOfSum(text, more, 1);
      if text[0] != c { HeldAlways(text[1..], more, c); }
    }
  }

  // ---------- Where a pattern closes an open class ----------

  /** A glob of pieces without its first character is a glob of pieces, or one begun by an escaped character. */
  lemma AfterFirst(pieces: seq<Piece>)
    requires pieces != []
    ensures GlobOf(pieces) != ""
    ensures GlobOf(pieces)[1..] ==
              if pieces[0].Lit? && IsGlobSpecial(pieces[0].c) then [pieces[0].c] + GlobOf(pieces[1..]) else GlobOf(pieces[1..])
  {
    hide GlobOf;
    assert pieces == [pieces[0]] + pieces[1..];
    GlobFront(pieces[0], pieces[1..]);
    var piece := GlobPiece(pieces[0]);
    RestOfSum(piece, GlobOf(pieces[1..]), 1);
    assert piece[1..] == if pieces[0].Lit? && IsGlobSpecial(pieces[0].c) then [pieces[0].c] else "";
  }

  /** The rest of a glob of pieces, begun inside an escape or not. */
  function Part(begun: Option<char>, pieces: seq<Piece>): string {
    if begun.Some? then [begun.value] + GlobOf(pieces) else GlobOf(pieces)
  }

  ghost predicate IsRest(t: string, pieces: seq<Piece>, k: nat) {
    k <= |pieces| && t == GlobOf(pieces[k..])
  }

  /** What is left after a character is dropped from the front. */
  lemma {:induction false} TailAfterFirst(pieces: seq<Piece>) returns (k: nat)
    requires pieces != [] && ClassTail(GlobOf(pieces)[1..]).Some?
    ensures IsRest(ClassTail(GlobOf(pieces)[1..]).value, pieces, k)
    decreases |GlobOf(pieces)|, 0
  {
    hide GlobOf, ClassTail;
    AfterFirst(pieces);
    var begun := if pieces[0].Lit? && IsGlobSpecial(pieces[0].c) then Some(pieces[0].c) else None;
    k := TailOfPart(begun, pieces[1..]);
    k := k + 1;
    assert pieces[1..][k - 1..] == pieces[k..];
  }

  /** A member that starts with a character of its own takes up that, or it, a hyphen and the character behind. */
  lemma {:induction false} TailBehindOne(x: char, pieces: seq<Piece>) returns (k: nat)
    requires x != '\\' && x != ']' && ClassTail([x] + GlobOf(pieces)).Some?
    ensures IsRest(ClassTail([x] + GlobOf(pieces)).value, pieces, k)
    decreases |GlobOf(pieces)|, 1
  {
    var g, rest := [x] + GlobOf(pieces), GlobOf(pieces);
    assert g[1..] == rest;
    if |g| >= 3 && g[1] == '-' {
      assert g[1] == rest[0] && g[3..] == rest[2..];
      assert pieces != [] by { assert GlobOf([]) == ""; }
      AfterFirst(pieces);
      FirstIsHyphen(pieces);
      assert rest[1..] == GlobOf(pieces[1..]) && rest[2..] == GlobOf(pieces[1..])[1..];
      assert pieces[1..] != [] by { assert GlobOf([]) == ""; }
      k := TailAfterFirst(pieces[1..]);
      k := k + 1;
      assert pieces[1..][k - 1..] == pieces[k..];
    } else {
      k := TailOfPart(None, pieces);
    }
  }

  lemma FirstIsHyphen(pieces: seq<Piece>)
    requires pieces != [] && GlobOf(pieces) != "" && GlobOf(pieces)[0] == '-'
    ensures pieces[0] == Lit('-')
  {
    hide GlobOf;
    assert pieces == [pieces[0]] + pieces[1..];
    GlobFront(pieces[0], pieces[1..]);
    PieceIsHyphen(pieces[0], GlobOf(pieces[1..]));
  }

  lemma PieceIsHyphen(piece: Piece, rest: string)
    requires (GlobPiece(piece) + rest)[0] == '-'
    ensures piece == Lit('-')
  {
    assert GlobPiece(piece)[0] == '-';
  }

  lemma {:induction false} TailOfPart(begun: Option<char>, pieces: seq<Piece>) returns (k: nat)
    requires begun.Some? ==> IsGlobSpecial(begun.value)
    requires ClassTail(Part(begun, pieces)).Some?
    ensures IsRest(ClassTail(Part(begun, pieces)).value, pieces, k)
    decreases |Part(begun, pieces)|, if begun.Some? then 2 else 0
  {
    var g := Part(begun, pieces);
    k := 0;
    if begun.Some? {
      assert g[1..] == GlobOf(pieces);
      if begun.value == ']' {
        assert pieces[0..] == pieces;
      } else if begun.value == '\\' {
        ShortIsOpen(g);
        assert pieces != [] by { assert GlobOf([]) == ""; }
        assert g[2..] == GlobOf(pieces)[1..];
        k := TailAfterFirst(pieces);
      } else {
        k := TailBehindOne(begun.value, pieces);
      }
    } else {
      assert pieces != [] by { assert GlobOf([]) == "" && ClassTail("").None?; }
      var piece, rest := pieces[0], pieces[1..];
      assert pieces == [piece] + rest;
      GlobFront(piece, rest);
      if piece.Lit? && IsGlobSpecial(piece.c) {
        assert g[2..] == GlobOf(rest);
        k := TailOfPart(None, rest);
        k := k + 1;
      } else {
        assert GlobPiece(piece) == [g[0]];
        k := TailBehindOne(g[0], rest);
        k := k + 1;
      }
      assert rest[k - 1..] == pieces[k..];
    }
  }

  /** A class left open is closed by a pattern behind it, if at all, where a piece of the pattern ends. */
  lemma {:induction false} ClosedAtPiece(text: string, pieces: seq<Piece>) returns (k: nat)
    requires ClassTail(text).None? && ClassTail(text + GlobOf(pieces)).Some?
    ensures IsRest(ClassTail(text + GlobOf(pieces)).value, pieces, k)
    decreases |text|
  {
    var q, glob := text + GlobOf(pieces), GlobOf(pieces);
    if text == "" {
      assert q == glob;
      k := TailOfPart(None, pieces);
    } else if text == "\\" || (|text| == 2 && text[0] != '\\' && text[1] == '-') {
      assert glob == "" ==> q == text;
      assert pieces != [] by { assert GlobOf([]) == ""; }
      assert q[0] == text[0] && (|text| == 2 ==> q[1] == '-');
      assert q[|text| + 1..] == glob[1..];
      k := TailAfterFirst(pieces);
    } else if |text| == 1 {
      assert q == [text[0]] + glob;
      k := TailBehindOne(text[0], pieces);
    } else {
      var n := MemberLength(text);
      assert q[0] == text[0] && q[1] == text[1];
      RestOfSum(text, glob, n);
      k := ClosedAtPiece(text[n..], pieces);
    }
  }

  // ---------- Patterns behind an open class ----------

  lemma {:induction false} GlobOfBoth(a: seq<Piece>, b: seq<Piece>)
    ensures GlobOf(a + b) == GlobOf(a) + GlobOf(b)
  {
    if a == [] {
      assert a + b == b && GlobOf(a) == "";
    } else {
      hide GlobOf, GlobPiece;
      assert a == [a[0]] + a[1..] && a + b == [a[0]] + (a[1..] + b);
      GlobFront(a[0], a[1..]);
      GlobFront(a[0], a[1..] + b);
      GlobOfBoth(a[1..], b);
      Assoc(GlobPiece(a[0]), GlobOf(a[1..]), GlobOf(b));
    }
  }

  lemma {:induction false} GlobsAreComplete(pieces: seq<Piece>)
    ensures Complete(GlobOf(pieces))
  {
    if pieces == [] {
      assert GlobOf(pieces) == "";
    } else {
      assert pieces == [pieces[0]] + pieces[1..];
      GlobFront(pieces[0], pieces[1..]);
      GlobsAreComplete(pieces[1..]);
      var piece := GlobPiece(pieces[0]);
      assert (piece + GlobOf(pieces[1..]))[|piece|..] == GlobOf(pieces[1..]);
      hide GlobOf;
    }
  }

  lemma {:induction false} FitsApart(a: seq<Token>, b: seq<Token>, s: string) returns (k: nat)
    requires Fits(a + b, s)
    ensures k <= |s| && Fits(a, s[..k]) && Fits(b, s[k..])
    decreases |a| + |s|
  {
    if a == [] {
      k := 0;
      assert a + b == b && s[0..] == s && s[..0] == "";
    } else {
      assert (a + b)[1..] == a[1..] + b && (a + b)[0] == a[0];
      if a[0].Star? && Fits(a[1..] + b, s) {
        k := FitsApart(a[1..], b, s);
      } else {
        k := FitsApart(if a[0].Star? then a else a[1..], b, s[1..]);
        k := k + 1;
        assert s[..k][1..] == s[1..][..k - 1] && s[1..][k - 1..] == s[k..] && s[..k][0] == s[0];
      }
    }
  }

  /** What a pattern matches splits where its pieces do. */
  lemma MatchSplits(pieces: seq<Piece>, k: nat, s: string) returns (n: nat)
    requires k <= |pieces| && GlobMatch(GlobOf(pieces), s)
    ensures n <= |s| && GlobMatch(GlobOf(pieces[k..]), s[n..])
  {
    var a, b := pieces[..k], pieces[k..];
    assert pieces == a + b;
    GlobOfBoth(a, b);
    GlobsAreComplete(a);
    CompleteKeepsTokens(GlobOf(a), GlobOf(b));
    GlobIsTokens(GlobOf(pieces), s);
    n := FitsApart(Tokens(GlobOf(a)), Tokens(GlobOf(b)), s);
    GlobIsTokens(GlobOf(b), s[n..]);
  }

  /** A last token that takes one character may be another that takes any. */
  lemma {:induction false} LastExchanged(a: seq<Token>, u: Token, v: Token, s: string)
    requires Fits(a + [v], s) && !v.Star? && !u.Star? && TakesAll(u)
    ensures Fits(a + [u], s)
    decreases |a| + |s|
  {
    if a == [] {
      assert a + [v] == [v] && a + [u] == [u];
      assert Takes(u, s[0]);
    } else {
      assert (a + [v])[1..] == a[1..] + [v] && (a + [u])[1..] == a[1..] + [u];
      if a[0].Star? && Fits(a[1..] + [v], s) {
        LastExchanged(a[1..], u, v, s);
      } else {
        LastExchanged(if a[0].Star? then a else a[1..], u, v, s[1..]);
      }
    }
  }

  lemma {:induction false} LastIsTaken(a: seq<Token>, v: Token, s: string)
    requires Fits(a + [v], s) && !v.Star?
    ensures s != "" && Takes(v, s[|s| - 1])
    decreases |a| + |s|
  {
    if a == [] {
      assert a + [v] == [v];
    } else {
      assert (a + [v])[1..] == a[1..] + [v];
      if a[0].Star? && Fits(a[1..] + [v], s) {
        LastIsTaken(a[1..], v, s);
      } else {
        LastIsTaken(if a[0].Star? then a else a[1..], v, s[1..]);
      }
    }
  }

  /** Behind an open class, a pattern's glob is the class and what follows where a piece closes it. */
  lemma OpenClassTokens(r: string, glob: string)
    requires |r| >= 2 && r[0] == '['
    ensures ClassText(r + glob) == ClassText(r) + glob && IsNegated(r + glob) == IsNegated(r)
    ensures var tail := ClassTail(ClassText(r) + glob);
            Tokens(r + glob) == [ClassOf(r + glob)] + Tokens(if tail.Some? then tail.value else "")
  {
    var q := r + glob;
    assert q[0] == '[' && q[1] == r[1] && |q| >= 2;
    assert q[1..] == r[1..] + glob && q[2..] == r[2..] + glob;
  }

  /** In front of the star of a table's scan, an open class is the last token. */
  lemma OpenClassScan(prefix: string)
    requires OpenClass(prefix).Some?
    ensures Tokens(prefix + "*") == HeadTokens(prefix) + [ClassOf(OpenClass(prefix).value + "*")]
    ensures ClassText(OpenClass(prefix).value + "*") == ClassText(OpenClass(prefix).value) + "*"
    ensures IsNegated(OpenClass(prefix).value + "*") == IsNegated(OpenClass(prefix).value)
  {
    var r := OpenClass(prefix).value;
    OpenTokens(prefix, "*");
    OpenStaysOpen(ClassText(r));
    assert Tokens("") == [];
    if |r| >= 2 {
      OpenClassTokens(r, "*");
    } else {
      assert r == "[" && r + "*" == "[*";
    }
  }

  lemma HoldsAllTakesAll(r: string, glob: string)
    requires r != "" && r[0] == '[' && ClassTail(ClassText(r)).None? && !IsNegated(r)
    requires forall c :: Holds(ClassText(r), c)
    ensures |r| >= 2 && TakesAll(ClassOf(r + glob))
  {
    assert Holds(ClassText(r), 'x');
    OpenClassTokens(r, glob);
    forall c ensures Takes(ClassOf(r + glob), c) {
      HeldAlways(ClassText(r), glob, c);
    }
  }

  /** The tokens of the prefix and the class it leaves open, with the glob behind it. */
  ghost function UpTo(prefix: string, glob: string): seq<Token>
    requires OpenClass(prefix).Some?
  {
    HeadTokens(prefix) + [ClassOf(OpenClass(prefix).value + glob)]
  }

  /** What is left of the glob behind that class. */
  function Behind(prefix: string, glob: string): string
    requires OpenClass(prefix).Some?
  {
    var tail := ClassTail(ClassText(OpenClass(prefix).value) + glob);
    if tail.Some? then tail.value else ""
  }

  lemma TokensBehind(prefix: string, glob: string)
    requires HoldsAll(prefix)
    ensures Tokens(prefix + glob) == UpTo(prefix, glob) + Tokens(Behind(prefix, glob))
  {
    var r := OpenClass(prefix).value;
    HoldsAllTakesAll(r, glob);
    OpenTokens(prefix, glob);
    OpenClassTokens(r, glob);
    Regrouped(HeadTokens(prefix), ClassOf(r + glob), Tokens(Behind(prefix, glob)));
    hide ClassOf, Tokens, HeadTokens, ClassTail, ClassText, HoldsAll;
  }

  lemma Regrouped(a: seq<Token>, t: Token, b: seq<Token>)
    ensures a + ([t] + b) == a + [t] + b
  {
  }

  /** The tokens up to the class take the prefix and whatever follows. */
  lemma UpToTakes(prefix: string, glob: string, s: string)
    requires HoldsAll(prefix) && SelectsItsKeys(prefix)
    ensures Fits(UpTo(prefix, glob), prefix + s)
  {
    var r := OpenClass(prefix).value;
    HoldsAllTakesAll(r, glob);
    OpenClassScan(prefix);
    GlobIsTokens(prefix + "*", prefix + s);
    LastExchanged(HeadTokens(prefix), ClassOf(r + glob), ClassOf(r + "*"), prefix + s);
  }

  /** They take what the pieces up to where the class is closed match, and the rest takes the rest. */
  lemma TakenApart(prefix: string, pieces: seq<Piece>, s: string) returns (n: nat)
    requires HoldsAll(prefix) && SelectsItsKeys(prefix) && GlobMatch(GlobOf(pieces), s)
    ensures n <= |s|
    ensures Fits(UpTo(prefix, GlobOf(pieces)), prefix + s[..n])
    ensures Fits(Tokens(Behind(prefix, GlobOf(pieces))), s[n..])
  {
    var text := ClassText(OpenClass(prefix).value);
    n := |s|;
    if ClassTail(text + GlobOf(pieces)).Some? {
      var k := ClosedAtPiece(text, pieces);
      n := MatchSplits(pieces, k, s);
    } else {
      assert GlobMatch("", s[n..]);
    }
    UpToTakes(prefix, GlobOf(pieces), s[..n]);
    GlobIsTokens(Behind(prefix, GlobOf(pieces)), s[n..]);
  }

  lemma SplitText(prefix: string, s: string, n: nat)
    requires n <= |s|
    ensures (prefix + s[..n]) + s[n..] == prefix + s
  {
  }

  lemma HoldsAllCarries(prefix: string, pieces: seq<Piece>, s: string)
    requires HoldsAll(prefix) && SuitsTable(prefix) && GlobMatch(GlobOf(pieces), s)
    ensures GlobMatch(prefix + GlobOf(pieces), prefix + s)
  {
    TableIsSelectedExactlyWhen(prefix);
    assert OpenClass(prefix).Some?;
    hide *;
    var glob := GlobOf(pieces);
    var n := TakenApart(prefix, pieces, s);
    TokensBehind(prefix, glob);
    FitsTogether(UpTo(prefix, glob), Tokens(Behind(prefix, glob)), prefix + s[..n], s[n..]);
    SplitText(prefix, s, n);
    GlobIsTokens(prefix + glob, prefix + s);
  }

  // ---------- Prefixes that lose patterns ----------

  /** The prefix leaves a class open that, with the star that falls into it, holds every character. */
  ghost predicate OpenToAll(prefix: string) {
    var ts := Tokens(prefix + "*");
    ts != [] && !ts[|ts| - 1].Star? && TakesAll(ts[|ts| - 1])
  }

  /** There is a last token, and it is no star. */
  ghost predicate Swallowed(ts: seq<Token>) {
    ts != [] && !ts[|ts| - 1].Star?
  }

  lemma StillSwallowed(t: Token, ts: seq<Token>)
    requires Swallowed(ts)
    ensures Swallowed([t] + ts)
  {
  }

  /** In front of a star, a prefix that is not complete swallows it. */
  lemma {:induction false} IncompleteSwallows(p: string)
    requires !Complete(p)
    ensures Swallowed(Tokens(p + "*"))
    decreases |p|, 1
  {
    if p[0] == '[' {
      ClassSwallows(p);
    } else if p == "\\" {
      var q := p + "*";
      assert q[2..] == "" && Tokens("") == [];
      assert Tokens(q) == [Single(iset{'*'})];
    } else {
      var q, n := p + "*", if p[0] == '\\' then 2 else 1;
      assert q[n..] == p[n..] + "*" && q[0] == p[0];
      IncompleteSwallows(p[n..]);
      hide Swallowed, Complete;
      StillSwallowed(Tokens(q)[0], Tokens(p[n..] + "*"));
    }
  }

  lemma {:induction false} ClassSwallows(p: string)
    requires !Complete(p) && p[0] == '['
    ensures Swallowed(Tokens(p + "*"))
    decreases |p|, 0
  {
    var q, text := p + "*", ClassText(p);
    assert ClassText(q) == text + "*" && q[0] == '[';
    if ClassTail(text).Some? {
      ClassTailGoesOn(text, "*");
      IncompleteSwallows(ClassTail(text).value);
      StillSwallowed(ClassOf(q), Tokens(ClassTail(text).value + "*"));
    } else {
      OpenStaysOpen(text);
      assert Tokens("") == [] && Tokens(q) == [ClassOf(q)];
    }
  }

  lemma {:induction false} OpenStaysOpen(p: string)
    requires ClassTail(p).None?
    ensures ClassTail(p + "*").None?
    decreases |p|
  {
    var q := p + "*";
    if p == "" {
      assert q == "*" && q[1..] == "";
    } else if p[0] == '\\' && |p| >= 2 {
      assert q[2..] == p[2..] + "*";
      OpenStaysOpen(p[2..]);
    } else if p == "\\" {
      assert q[2..] == "";
    } else if |p| >= 3 && p[1] == '-' {
      assert q[3..] == p[3..] + "*";
      OpenStaysOpen(p[3..]);
    } else if |p| == 2 && p[1] == '-' {
      assert q[3..] == "";
    } else {
      assert q[1..] == p[1..] + "*";
      OpenStaysOpen(p[1..]);
    }
  }

  /** A pending escape makes the appended star one that is meant. */
  lemma {:induction false} PendingEscape(p: string)
    requires !Complete(p) && OpenClass(p).None?
    ensures var ts := Tokens(p + "*"); ts != [] && ts[|ts| - 1] == Single(iset{'*'})
    decreases |p|
  {
    var q := p + "*";
    if p[0] == '[' {
      ClosedClassStays(p, "*");
      PendingEscape(ClassTail(ClassText(p)).value);
    } else if p == "\\" {
      assert q[2..] == "" && Tokens("") == [];
    } else {
      var n := if p[0] == '\\' then 2 else 1;
      assert q[n..] == p[n..] + "*" && q[0] == p[0];
      PendingEscape(p[n..]);
    }
  }

  lemma {:induction false} StarIsHeld(text: string)
    requires ClassTail(text).None?
    ensures InClass(text + "*", '*').0
    decreases |text|
  {
    var q := text + "*";
    if text == "" {
      assert q == "*";
    } else if text == "\\" || (|text| == 2 && text[0] != '\\' && text[1] == '-') {
      assert q[|text|] == '*' && q[0] == text[0] && q[1] == if |text| == 2 then '-' else '*';
    } else if |text| == 1 {
      assert q[1..] == "*" && q[0] == text[0];
      StarIsHeld("");
    } else {
      var n := MemberLength(text);
      assert q[0] == text[0] && q[1] == text[1];
      RestOfSum(text, "*", n);
      StarIsHeld(text[n..]);
    }
  }

  /** The wildcard that does not put the character itself into a class. */
  function WildcardFor(c: char): Piece {
    if c == '?' then Run else One
  }

  lemma WildcardTakes(c: char)
    ensures GlobMatch(GlobPiece(WildcardFor(c)), [c]) && GlobPiece(WildcardFor(c)) != [c]
    ensures |GlobPiece(WildcardFor(c))| == 1 && GlobPiece(WildcardFor(c))[0] in ['*', '?']
  {
    assert [c][1..] == "" && GlobMatch("", "");
    assert "*"[1..] == "" && "?"[1..] == "";
    assert GlobMatch("*", "");
  }

  /** A pattern behind an unclosed class text that leaves out a character not held, and matches a text that ends with it. */
  lemma {:induction false} Excluding(text: string, c: char) returns (pieces: seq<Piece>, s: string)
    requires ClassTail(text).None? && !Holds(text, c)
    ensures ClassTail(text + GlobOf(pieces)).None? && !InClass(text + GlobOf(pieces), c).0
    ensures GlobMatch(GlobOf(pieces), s + [c])
    ensures text == "" ==> GlobOf(pieces) != "" && GlobOf(pieces)[0] != '^'
    ensures |text| <= 1 ==> GlobOf(pieces) == GlobPiece(WildcardFor(c))
    decreases |text|
  {
    if |text| <= 1 {
      pieces, s := [WildcardFor(c)], "";
      ExcludingShort(text, c);
    } else if |text| == 2 && text[0] != '\\' && text[1] == '-' {
      pieces, s := ExcludingRange(text[0], c);
      assert text == [text[0], '-'];
    } else {
      var n := MemberLength(text);
      pieces, s := Excluding(text[n..], c);
      ExcludedBehind(text, GlobOf(pieces), c);
    }
  }

  lemma ExcludedBehind(text: string, glob: string, c: char)
    requires |text| >= 2 && ClassTail(text).None? && !Holds(text, c)
    requires text[0] == '\\' || |text| > 2 || text[1] != '-'
    requires ClassTail(text[MemberLength(text)..] + glob).None? && !InClass(text[MemberLength(text)..] + glob, c).0
    ensures ClassTail(text + glob).None? && !InClass(text + glob, c).0
  {
    var q := text + glob;
    RestOfSum(text, glob, MemberLength(text));
    assert q[0] == text[0] && q[1] == text[1] && (|text| > 2 ==> q[2] == text[2]);
  }

  lemma ExcludingShort(text: string, c: char)
    requires |text| <= 1 && ClassTail(text).None? && !Holds(text, c)
    ensures var g := GlobPiece(WildcardFor(c));
            && GlobOf([WildcardFor(c)]) == g && GlobMatch(g, "" + [c])
            && ClassTail(text + g).None? && !InClass(text + g, c).0
  {
    var g := GlobPiece(WildcardFor(c));
    EmitOne([], WildcardFor(c));
    assert [] + [WildcardFor(c)] == [WildcardFor(c)] && GlobOf([]) == "" && "" + g == g && "" + [c] == [c];
    WildcardTakes(c);
    var q := text + g;
    assert g[1..] == "";
    if text == "" {
      assert q == g;
    } else {
      assert q[1..] == g && q[2..] == "" && q[0] == text[0] && q[1] == g[0];
    }
  }

  /** A piece in front of the wildcard, which ends the pending range without going beyond what it must hold. */
  lemma ExcludingRange(x: char, c: char) returns (pieces: seq<Piece>, s: string)
    requires x != ']' && x != '\\' && x != c
    ensures ClassTail([x, '-'] + GlobOf(pieces)).None? && !InClass([x, '-'] + GlobOf(pieces), c).0
    ensures GlobMatch(GlobOf(pieces), s + [c])
  {
    var w := WildcardFor(c);
    WildcardTakes(c);
    var first: Piece;
    if x == '*' {
      first, s := Run, "";
    } else if x == '?' {
      first, s := One, "y";
    } else if x == '[' && c == '\\' {
      first, s := Lit('Z'), "Z";
    } else {
      first, s := Lit(x), [x];
    }
    pieces := [first, w];
    TwoPieces(first, w);
    RangeEnds(x, c, first);
    FirstTakes(first, s, GlobPiece(w), [c]);
  }

  lemma TwoPieces(a: Piece, b: Piece)
    ensures GlobOf([a, b]) == GlobPiece(a) + GlobPiece(b)
  {
    EmitOne([], a);
    EmitOne([a], b);
    assert [] + [a] == [a] && [a] + [b] == [a, b] && GlobOf([]) == "" && "" + GlobPiece(a) == GlobPiece(a);
  }

  lemma FirstTakes(first: Piece, s: string, rest: string, end: string)
    requires GlobMatch(rest, end)
    requires match first case Run => s == "" case One => |s| == 1 case Lit(x) => s == [x]
    ensures GlobMatch(GlobPiece(first) + rest, s + end)
  {
    GlobOfPiece(first, rest, s + end);
    if first.Run? {
      assert s + end == end;
    } else {
      assert (s + end)[1..] == end;
    }
  }

  lemma RangeEnds(x: char, c: char, first: Piece)
    requires x != ']' && x != '\\' && x != c
    requires first == if x == '*' then Run else if x == '?' then One else if x == '[' && c == '\\' then Lit('Z') else Lit(x)
    ensures var q := [x, '-'] + (GlobPiece(first) + GlobPiece(WildcardFor(c)));
            ClassTail(q).None? && !InClass(q, c).0
  {
    var f, w := GlobPiece(first), GlobPiece(WildcardFor(c));
    WildcardTakes(c);
    var q := [x, '-'] + (f + w);
    assert q[0] == x && q[1] == '-' && q[2] == f[0];
    assert w[1..] == "";
    assert !InClass(w, c).0 && ClassTail(w).None?;
    if |f| == 1 {
      assert q[3..] == w;
    } else {
      assert f == ['\\', '['];
      assert q[3..] == ['['] + w && (['['] + w)[1..] == w && (['['] + w)[0] == '[' && (['['] + w)[1] == w[0];
      assert |['['] + w| == 2;
    }
  }

  lemma UnheldLoses(prefix: string, c: char)
    requires OpenClass(prefix).Some? && !IsNegated(OpenClass(prefix).value) && !Holds(ClassText(OpenClass(prefix).value), c)
    ensures !CarriesPatterns(prefix)
  {
    var r := OpenClass(prefix).value;
    var pieces, s := Excluding(ClassText(r), c);
    var glob := GlobOf(pieces);
    OpenTokens(prefix, glob);
    UnheldIsLast(r, glob, c);
    var text := prefix + (s + [c]);
    assert text[|text| - 1] == c;
    GlobIsTokens(prefix + glob, text);
    hide ClassOf, HeadTokens;
    if Fits(HeadTokens(prefix) + [ClassOf(r + glob)], text) {
      LastIsTaken(HeadTokens(prefix), ClassOf(r + glob), text);
    }
    assert GlobMatch(GlobOf(pieces), s + [c]) && !GlobMatch(prefix + GlobOf(pieces), prefix + (s + [c]));
  }

  lemma UnheldIsLast(r: string, glob: string, c: char)
    requires r != "" && r[0] == '[' && !IsNegated(r)
    requires ClassTail(ClassText(r) + glob).None? && !InClass(ClassText(r) + glob, c).0
    requires ClassText(r) == "" ==> glob != "" && glob[0] != '^'
    ensures Tokens(r + glob) == [ClassOf(r + glob)] && !ClassOf(r + glob).Star? && !Takes(ClassOf(r + glob), c)
  {
    assert Tokens("") == [];
    if |r| >= 2 {
      OpenClassTokens(r, glob);
    } else {
      var q := r + glob;
      assert r == "[" && ClassText(r) == "" && "" + glob == glob;
      assert q[0] == '[' && q[1] == glob[0] && q[1..] == glob;
    }
  }

  /** What can be checked of the prefix beforehand. */
  ghost predicate SuitsPatterns(prefix: string) {
    SelfContained(prefix) || (SuitsTable(prefix) && HoldsAll(prefix))
  }

  lemma SuitedIsCarried(prefix: string, pieces: seq<Piece>, s: string)
    requires SuitsPatterns(prefix) && GlobMatch(GlobOf(pieces), s)
    ensures GlobMatch(prefix + GlobOf(pieces), prefix + s)
  {
    if SelfContained(prefix) {
      SelfContainedCarries(prefix, GlobOf(pieces), s);
    } else {
      HoldsAllCarries(prefix, pieces, s);
    }
  }

  lemma PatternsNeedTheTable(prefix: string)
    requires SuitsPatterns(prefix)
    ensures SuitsTable(prefix)
  {
    if SelfContained(prefix) {
      SelfContainedSuitsTable(prefix);
    }
  }

  /**
    A prefix carries patterns exactly if it leaves nothing open and, read as a glob, selects itself, or if it suits the
    whole table and leaves open a class that holds every character, whatever follows.
   */
  lemma PatternsAreCarriedExactlyWhen(prefix: string)
    ensures CarriesPatterns(prefix) <==> SuitsPatterns(prefix)
  {
    if SuitsPatterns(prefix) {
      forall pieces, s | GlobMatch(GlobOf(pieces), s) ensures GlobMatch(prefix + GlobOf(pieces), prefix + s) {
        SuitedIsCarried(prefix, pieces, s);
      }
    } else if Complete(prefix) {
      assert GlobOf([]) == "" && GlobMatch("", "") && prefix + "" == prefix;
      assert !GlobMatch(prefix + GlobOf([]), prefix + "");
    } else if !SuitsTable(prefix) {
      UnsuitedLoses(prefix);
    } else {
      IncompleteLoses(prefix);
    }
  }

  lemma IncompleteLoses(prefix: string)
    requires !Complete(prefix) && SuitsTable(prefix) && !HoldsAll(prefix)
    ensures !CarriesPatterns(prefix)
  {
    SuitedIsOpen(prefix);
    var r := OpenClass(prefix).value;
    var c :| !Holds(ClassText(r), c);
    UnheldLoses(prefix, c);
  }

  lemma OneIsNotAll(c: char)
    ensures !TakesAll(Single(iset{c}))
  {
    assert !Takes(Single(iset{c}), if c == 'x' then 'y' else 'x');
  }

  /** An incomplete prefix that suits the whole table leaves open a class that is not negated. */
  lemma SuitedIsOpen(prefix: string)
    requires !Complete(prefix) && SuitsTable(prefix)
    ensures OpenClass(prefix).Some? && !IsNegated(OpenClass(prefix).value)
  {
    if !OpenToAll(prefix) {
      IncompleteIsUnsuited(prefix);
    }
    if OpenClass(prefix).None? {
      PendingEscape(prefix);
      OneIsNotAll('*');
    } else {
      var r := OpenClass(prefix).value;
      OpenClassScan(prefix);
      StarIsHeld(ClassText(r));
      assert Takes(ClassOf(r + "*"), '*');
    }
  }

  lemma LastCloses(ts: seq<Token>)
    requires ts != [] && !ts[|ts| - 1].Star? && !TakesAll(ts[|ts| - 1])
    ensures !OpenEnded(ts)
  {
    forall i | 0 <= i < |ts| && ts[i].Star? ensures !AllTakeAll(ts[i + 1..]) {
      assert ts[i + 1..][|ts| - 1 - (i + 1)] == ts[|ts| - 1];
    }
  }

  lemma IncompleteIsUnsuited(prefix: string)
    requires !OpenToAll(prefix) && !Complete(prefix)
    ensures !SuitsTable(prefix)
  {
    IncompleteSwallows(prefix);
    LastCloses(Tokens(prefix + "*"));
  }

  lemma UnsuitedLoses(prefix: string)
    ensures !SuitsTable(prefix) ==> !CarriesPatterns(prefix)
  {
    TableIsSelectedExactlyWhen(prefix);
    if !SuitsTable(prefix) {
      var s :| !GlobMatch(prefix + "*", prefix + s);
      StarSelects(s);
      assert GlobOf([Run]) == "*" by { EmitOne([], Run); }
      assert GlobMatch(GlobOf([Run]), s) && !GlobMatch(prefix + GlobOf([Run]), prefix + s);
    }
  }

  // ---------- Prefixes without special characters ----------

  /** A prefix in which the glob opens no class and escapes nothing. */
  predicate PlainPrefix(prefix: string) {
    '[' !in prefix && '\\' !in prefix
  }

  /** Such a prefix suits everything. */
  lemma {:induction false} PlainPrefixSuits(prefix: string)
    requires PlainPrefix(prefix)
    ensures SelfContained(prefix)
  {
    if prefix == "" {
      assert GlobMatch("", "");
    } else {
      PlainPrefixSuits(prefix[1..]);
      assert forall c :: c in prefix[1..] ==> c in prefix;
    }
  }

  /** A prefix with no character the glob treats specially. */
  predicate LiteralPrefix(prefix: string) {
    PlainPrefix(prefix) && '*' !in prefix && '?' !in prefix
  }

  /** A literal prefix selects exactly the keys that start with it. */
  lemma {:induction false} LiteralPrefixIsExact(prefix: string, glob: string, key: string)
    requires LiteralPrefix(prefix)
    ensures GlobMatch(prefix + glob, key) <==> prefix <= key && GlobMatch(glob, key[|prefix|..])
  {
    if prefix == "" {
      assert prefix + glob == glob && key[0..] == key;
    } else {
      assert (prefix + glob)[1..] == prefix[1..] + glob;
      if key != "" {
        LiteralPrefixIsExact(prefix[1..], glob, key[1..]);
        assert key[0] == prefix[0] ==> (prefix[1..] <= key[1..] <==> prefix <= key);
        if prefix <= key {
          assert key[1..][|prefix| - 1..] == key[|prefix|..];
        }
      }
    }
  }

  /** A prefix that opens a class, or escapes, can lose the table's own keys. */
  lemma UnplainPrefixesLoseKeys()
    ensures !GlobMatch("a[b]" + "*", "a[b]" + "x") && GlobMatch("*", "x")
    ensures !GlobMatch("a\\b" + "*", "a\\b" + "x")
  {
    assert InClass("b]*", '[') == (false, "*") by {
      assert InClass("]*", '[') == (false, "*");
    }
    assert "a[b]" + "*" == "a[b]*" && "a[b]" + "x" == "a[b]x";
    assert "a[b]*"[1..] == "[b]*" && "a[b]x"[1..] == "[b]x" && "[b]*"[1..] == "b]*";
    assert !GlobMatch("[b]*", "[b]x");
    assert "a\\b" + "*" == "a\\b*" && "a\\b" + "x" == "a\\bx";
    assert "a\\b*"[1..] == "\\b*" && "a\\bx"[1..] == "\\bx";
    assert !GlobMatch("\\b*", "\\bx");
    assert GlobMatch("", "");
    assert GlobMatch("*", "");
  }
}
