/** Redis globs read as sequences of tokens, each taking any run of characters or one character of a set. */
module RedisGlobs {
  import opened Options
  import opened RedisLike

  // ---------- Globs as tokens ----------

  datatype Token = Star | AnyOne | Single(taken: iset<char>)

  /** A token other than a star takes the character. */
  ghost predicate Takes(t: Token, c: char) {
    t.AnyOne? || (t.Single? && c in t.taken)
  }

  /** What follows a class, given what follows its opening, or None when the class is never closed. */
  function ClassTail(p: string): (r: Option<string>)
    ensures r.Some? ==> |r.value| < |p|
  {
    if p == "" then None
    else if p[0] == '\\' && |p| >= 2 then ClassTail(p[2..])
    else if p[0] == ']' then Some(p[1..])
    else if |p| >= 3 && p[1] == '-' then ClassTail(p[3..])
    else ClassTail(p[1..])
  }

  lemma {:induction false} ClassTailIsRest(p: string, c: char)
    ensures InClass(p, c).1 == if ClassTail(p).Some? then ClassTail(p).value else ""
  {
    if p != "" {
      if p[0] == '\\' && |p| >= 2 { ClassTailIsRest(p[2..], c); }
      else if p[0] == ']' {}
      else if |p| >= 3 && p[1] == '-' { ClassTailIsRest(p[3..], c); }
      else { ClassTailIsRest(p[1..], c); }
    }
  }

  /** What follows the opening of a class and its negation. */
  function ClassText(p: string): (text: string)
    requires p != ""
    ensures |text| < |p|
  {
    if |p| > 1 && p[1] == '^' then p[2..] else p[1..]
  }

  predicate IsNegated(p: string) {
    |p| > 1 && p[1] == '^'
  }

  ghost function ClassOf(p: string): Token
    requires p != ""
  {
    Single(iset c: char | InClass(ClassText(p), c).0 != IsNegated(p))
  }

  ghost function Tokens(p: string): seq<Token>
    decreases |p|
  {
    if p == "" then []
    else if p[0] == '*' then [Star] + Tokens(p[1..])
    else if p[0] == '?' then [AnyOne] + Tokens(p[1..])
    else if p[0] == '[' then [ClassOf(p)] + Tokens(if ClassTail(ClassText(p)).Some? then ClassTail(ClassText(p)).value else "")
    else if p[0] == '\\' && |p| >= 2 then [Single(iset{p[1]})] + Tokens(p[2..])
    else [Single(iset{p[0]})] + Tokens(p[1..])
  }

  ghost predicate Fits(ts: seq<Token>, s: string)
    decreases |ts| + |s|
  {
    if ts == [] then s == ""
    else if ts[0].Star? then Fits(ts[1..], s) || (s != "" && Fits(ts, s[1..]))
    else s != "" && Takes(ts[0], s[0]) && Fits(ts[1..], s[1..])
  }

  /** The tokens of a glob select what the glob selects. */
  lemma {:induction false} GlobIsTokens(p: string, s: string)
    ensures GlobMatch(p, s) <==> Fits(Tokens(p), s)
    decreases |p| + |s|
  {
    if p != "" {
      var ts := Tokens(p);
      if p[0] == '*' {
        assert ts[1..] == Tokens(p[1..]);
        GlobIsTokens(p[1..], s);
        if s != "" { GlobIsTokens(p, s[1..]); }
      } else if s != "" {
        if p[0] == '[' {
          var tail := if ClassTail(ClassText(p)).Some? then ClassTail(ClassText(p)).value else "";
          ClassTailIsRest(ClassText(p), s[0]);
          assert ts[1..] == Tokens(tail);
          GlobIsTokens(tail, s[1..]);
        } else if p[0] == '\\' && |p| >= 2 {
          assert ts[1..] == Tokens(p[2..]);
          GlobIsTokens(p[2..], s[1..]);
        } else {
          assert ts[1..] == Tokens(p[1..]);
          GlobIsTokens(p[1..], s[1..]);
        }
      }
    }
  }

  // ---------- Patterns whose texts may be continued ----------

  ghost predicate TakesAll(t: Token) {
    t.Star? || forall c :: Takes(t, c)
  }

  ghost predicate AllTakeAll(ts: seq<Token>) {
    forall i :: 0 <= i < |ts| ==> TakesAll(ts[i])
  }

  /** There is a star, and every token after it takes any character. */
  ghost predicate OpenEnded(ts: seq<Token>) {
    exists i :: 0 <= i < |ts| && ts[i].Star? && AllTakeAll(ts[i + 1..])
  }

  lemma OpenEndedFront(t: Token, rest: seq<Token>)
    ensures OpenEnded([t] + rest) <==> OpenEnded(rest) || (t.Star? && AllTakeAll(rest))
    ensures AllTakeAll([t] + rest) <==> TakesAll(t) && AllTakeAll(rest)
  {
    AllTakeAllFront(t, rest);
    hide AllTakeAll, TakesAll;
    var all := [t] + rest;
    if i :| 0 <= i < |rest| && rest[i].Star? && AllTakeAll(rest[i + 1..]) {
      StarBehind(t, rest, i);
    }
    assert all[0] == t && all[1..] == rest;
    if i :| 0 <= i < |all| && all[i].Star? && AllTakeAll(all[i + 1..]) {
      if i > 0 {
        assert all[i + 1..] == rest[i..];
        assert rest[i - 1].Star? && AllTakeAll(rest[i - 1 + 1..]);
      }
    }
    if t.Star? && AllTakeAll(rest) {
      assert all[0].Star? && AllTakeAll(all[0 + 1..]);
    }
  }

  lemma StarBehind(t: Token, rest: seq<Token>, i: nat)
    requires i < |rest| && rest[i].Star? && AllTakeAll(rest[i + 1..])
    ensures OpenEnded([t] + rest)
  {
    hide AllTakeAll;
    var all := [t] + rest;
    assert all[i + 1].Star? && all[i + 1 + 1..] == rest[i + 1..];
  }

  lemma AllTakeAllFront(t: Token, rest: seq<Token>)
    ensures AllTakeAll([t] + rest) <==> TakesAll(t) && AllTakeAll(rest)
  {
    hide TakesAll;
    var all := [t] + rest;
    if AllTakeAll(all) {
      assert TakesAll(all[0]);
      forall i | 0 <= i < |rest| ensures TakesAll(rest[i]) { assert TakesAll(all[i + 1]); }
    }
  }

  lemma Front(ts: seq<Token>)
    requires ts != []
    ensures ts == [ts[0]] + ts[1..]
  {
  }

  /** Tokens that take anything take every text of the length of one they take. */
  lemma {:induction false} SameLengthFits(ts: seq<Token>, s: string, z: string)
    requires AllTakeAll(ts) && Fits(ts, s) && |s| == |z|
    ensures Fits(ts, z)
    decreases |ts| + |s|
  {
    if ts != [] {
      Front(ts);
      OpenEndedFront(ts[0], ts[1..]);
      assert TakesAll(ts[0]);
      if ts[0].Star? {
        if Fits(ts[1..], s) {
          SameLengthFits(ts[1..], s, z);
        } else {
          SameLengthFits(ts, s[1..], z[1..]);
        }
      } else {
        SameLengthFits(ts[1..], s[1..], z[1..]);
      }
    }
  }

  /** A star skips what it likes. */
  lemma {:induction false} StarSkips(ts: seq<Token>, s: string, k: nat)
    requires ts != [] && ts[0].Star? && k <= |s| && Fits(ts[1..], s[k..])
    ensures Fits(ts, s)
    decreases k
  {
    if k == 0 {
      assert s[0..] == s;
    } else {
      assert s[1..][k - 1..] == s[k..];
      StarSkips(ts, s[1..], k - 1);
    }
  }

  /** Whatever open-ended tokens take they take continued. */
  lemma {:induction false} OpenEndedContinues(ts: seq<Token>, s: string, more: string)
    requires OpenEnded(ts) && Fits(ts, s)
    ensures Fits(ts, s + more)
    decreases |ts| + |s|
  {
    Front(ts);
    OpenEndedFront(ts[0], ts[1..]);
    if ts[0].Star? {
      if Fits(ts[1..], s) {
        if OpenEnded(ts[1..]) {
          OpenEndedContinues(ts[1..], s, more);
        } else {
          SameLengthFits(ts[1..], s, (s + more)[|more|..]);
          StarSkips(ts, s + more, |more|);
        }
      } else {
        OpenEndedContinues(ts, s[1..], more);
        assert (s + more)[1..] == s[1..] + more;
      }
    } else {
      OpenEndedContinues(ts[1..], s[1..], more);
      assert (s + more)[1..] == s[1..] + more;
    }
  }

  // ---------- And those whose texts may not ----------

  /** Without a star, tokens take texts of their own number only. */
  lemma {:induction false} FixedLength(ts: seq<Token>, s: string)
    requires AllTakeAll(ts) && !OpenEnded(ts) && Fits(ts, s)
    ensures |s| == |ts|
  {
    if ts != [] {
      Front(ts);
      OpenEndedFront(ts[0], ts[1..]);
      FixedLength(ts[1..], s[1..]);
    }
  }

  ghost predicate EndsAlike(s: string, end: string) {
    IsEnd(end, s) || IsEnd(s, end)
  }

  ghost predicate IsEnd(end: string, s: string) {
    |end| <= |s| && s[|s| - |end|..] == end
  }

  lemma EndsAlikeLater(s: string, end: string)
    requires s != "" && EndsAlike(s, end)
    ensures EndsAlike(s[1..], end)
  {
    if |end| < |s| {
      assert IsEnd(end, s) ==> s[1..][|s| - 1 - |end|..] == end;
    } else {
      assert end[|end| - (|s| - 1)..] == end[|end| - |s|..][1..];
    }
  }

  /** Not open-ended, and not taking everything: some end is taken by no text that ends like it. */
  lemma {:induction false} Refusing(ts: seq<Token>) returns (end: string)
    requires !OpenEnded(ts) && !AllTakeAll(ts)
    ensures forall s :: EndsAlike(s, end) ==> !Fits(ts, s)
    decreases |ts|
  {
    Front(ts);
    OpenEndedFront(ts[0], ts[1..]);
    if AllTakeAll(ts[1..]) {
      var c :| !Takes(ts[0], c);
      end := [c] + seq(|ts| - 1, _ => c);
      forall s | EndsAlike(s, end) ensures !Fits(ts, s) {
        if Fits(ts, s) {
          FixedLength(ts[1..], s[1..]);
        }
      }
    } else {
      end := Refusing(ts[1..]);
      forall s | EndsAlike(s, end) ensures !Fits(ts, s) {
        RefusedBefore(ts, s, end);
      }
    }
  }

  lemma {:induction false} RefusedBefore(ts: seq<Token>, s: string, end: string)
    requires ts != [] && EndsAlike(s, end) && forall z :: EndsAlike(z, end) ==> !Fits(ts[1..], z)
    ensures !Fits(ts, s)
    decreases |s|
  {
    if s != "" {
      EndsAlikeLater(s, end);
      RefusedBefore(ts, s[1..], end);
    }
  }

  /** Tokens that are not open-ended take no text with a certain end. */
  lemma NotContinued(ts: seq<Token>) returns (end: string)
    requires !OpenEnded(ts)
    ensures forall s :: !Fits(ts, s + end)
  {
    if AllTakeAll(ts) {
      end := seq(|ts| + 1, _ => 'x');
      forall s ensures !Fits(ts, s + end) {
        if Fits(ts, s + end) {
          FixedLength(ts, s + end);
        }
      }
    } else {
      end := Refusing(ts);
      forall s ensures !Fits(ts, s + end) {
        assert (s + end)[|s + end| - |end|..] == end;
        assert EndsAlike(s + end, end);
      }
    }
  }

  // ---------- Globs in front of globs ----------

  /** The prefix leaves no class open and no escape pending. */
  predicate Complete(p: string)
    decreases |p|
  {
    if p == "" then true
    else if p[0] == '[' then ClassTail(ClassText(p)).Some? && Complete(ClassTail(ClassText(p)).value)
    else if p[0] == '\\' then |p| >= 2 && Complete(p[2..])
    else Complete(p[1..])
  }

  /** How many characters the first member of a class text takes up. */
  function MemberLength(p: string): (n: nat)
    requires p != ""
    ensures 1 <= n <= |p|
  {
    if p[0] == '\\' && |p| >= 2 then 2 else if |p| >= 3 && p[1] == '-' && p[0] != ']' then 3 else 1
  }

  /** The rest of a class text after its first member, if that does not close it. */
  lemma MemberFirst(p: string)
    requires ClassTail(p).Some?
    ensures p != "" && (p[0] != ']' ==> ClassTail(p) == ClassTail(p[MemberLength(p)..]))
  {
  }

  /** A class text that consists of the beginning of a member is not closed. */
  lemma DanglingIsOpen(x: char)
    ensures x != ']' ==> ClassTail([x]).None?
    ensures x != ']' && x != '\\' ==> ClassTail([x, '-']).None?
  {
    assert [x][1..] == "" && [x, '-'][1..] == "-" && "-"[1..] == "";
  }

  lemma ShortIsOpen(p: string)
    requires p != "" && p[0] != ']'
    ensures |p| == 1 || (|p| == 2 && p[0] != '\\' && p[1] == '-') ==> ClassTail(p).None?
  {
    DanglingIsOpen(p[0]);
    assert |p| == 1 ==> p == [p[0]];
    assert |p| == 2 ==> p == [p[0], p[1]];
  }

  /** Texts that begin alike, as far as it matters, have first members of the same length. */
  lemma SameMemberLength(p: string, q: string)
    requires p != "" && |p| <= |q| && q[0] == p[0] && (|p| >= 2 ==> q[1] == p[1])
    requires p[0] == ']' || (|p| >= 2 && (|p| == 2 && p[0] != '\\' ==> p[1] != '-'))
    ensures MemberLength(q) == MemberLength(p)
  {
  }

  lemma RestOfSum(p: string, more: string, n: nat)
    requires n <= |p|
    ensures (p + more)[n..] == p[n..] + more
  {
  }

  /** In a closed class what follows does not change where the first member ends. */
  lemma MemberStays(p: string, more: string)
    requires ClassTail(p).Some?
    ensures p != "" && MemberLength(p + more) == MemberLength(p)
    ensures (p + more)[MemberLength(p)..] == p[MemberLength(p)..] + more
    ensures p[0] != ']' ==> ClassTail(p) == ClassTail(p[MemberLength(p)..])
  {
    MemberFirst(p);
    if p[0] != ']' {
      ShortIsOpen(p);
    }
    hide ClassTail, MemberLength;
    SameMemberLength(p, p + more);
    RestOfSum(p, more, MemberLength(p));
  }

  lemma {:induction false} ClassTailGoesOn(p: string, more: string)
    requires ClassTail(p).Some?
    ensures ClassTail(p + more) == Some(ClassTail(p).value + more)
    decreases |p|
  {
    var q := p + more;
    MemberStays(p, more);
    if p[0] == ']' {
      assert q[1..] == p[1..] + more;
    } else {
      ClassTailGoesOn(p[MemberLength(p)..], more);
    }
  }

  lemma {:induction false} ClassGoesOn(p: string, more: string, c: char)
    requires ClassTail(p).Some?
    ensures InClass(p + more, c).0 == InClass(p, c).0
    decreases |p|
  {
    MemberStays(p, more);
    if p[0] != ']' {
      ClassGoesOn(p[MemberLength(p)..], more, c);
      assert forall k :: 0 <= k < MemberLength(p) ==> (p + more)[k] == p[k];
    }
  }

  /** A class that is closed stays the same class in front of any glob. */
  lemma ClosedClassStays(p: string, glob: string)
    requires p != "" && p[0] == '[' && ClassTail(ClassText(p)).Some?
    ensures p + glob != "" && (p + glob)[0] == '['
    ensures ClassTail(ClassText(p + glob)) == Some(ClassTail(ClassText(p)).value + glob)
    ensures ClassOf(p + glob) == ClassOf(p)
  {
    var q, text := p + glob, ClassText(p);
    assert ClassText(q) == text + glob && IsNegated(q) == IsNegated(p);
    forall c ensures InClass(text + glob, c).0 == InClass(text, c).0 {
      ClassGoesOn(text, glob, c);
    }
    ClassTailGoesOn(text, glob);
    assert ClassOf(q).taken == ClassOf(p).taken;
  }

  /** The tokens of a complete prefix stay what they are in front of any glob. */
  lemma {:induction false} CompleteKeepsTokens(p: string, glob: string)
    requires Complete(p)
    ensures Tokens(p + glob) == Tokens(p) + Tokens(glob)
    decreases |p|, 1
  {
    if p == "" {
      assert p + glob == glob;
    } else if p[0] == '[' {
      var tail := ClassTail(ClassText(p)).value;
      ClosedClassStays(p, glob);
      CompleteKeepsTokens(tail, glob);
      Joined(ClassOf(p), Tokens(tail), Tokens(glob));
      hide ClassOf, ClassTail, ClassText, Complete;
    } else {
      TokenStays(p, glob);
    }
  }

  lemma Joined(t: Token, a: seq<Token>, b: seq<Token>)
    ensures [t] + (a + b) == [t] + a + b
  {
  }

  /** So does a token that is no class. */
  lemma {:induction false} TokenStays(p: string, glob: string)
    requires Complete(p) && p != "" && p[0] != '['
    ensures Tokens(p + glob) == Tokens(p) + Tokens(glob)
    decreases |p|, 0
  {
    var n := if p[0] == '\\' then 2 else 1;
    var q := p + glob;
    assert q[n..] == p[n..] + glob && q[0] == p[0] && (n == 2 ==> q[1] == p[1]);
    CompleteKeepsTokens(p[n..], glob);
    Joined(Tokens(p)[0], Tokens(p[n..]), Tokens(glob));
    hide ClassOf, ClassTail, ClassText;
  }

  /** Tokens that take two texts one by one take them together. */
  lemma {:induction false} FitsTogether(a: seq<Token>, b: seq<Token>, s: string, z: string)
    requires Fits(a, s) && Fits(b, z)
    ensures Fits(a + b, s + z)
    decreases |a| + |s|
  {
    if a == [] {
      assert a + b == b && s + z == z;
    } else {
      assert (a + b)[1..] == a[1..] + b;
      if a[0].Star? && Fits(a[1..], s) {
        FitsTogether(a[1..], b, s, z);
      } else {
        assert (s + z)[1..] == s[1..] + z;
        FitsTogether(if a[0].Star? then a else a[1..], b, s[1..], z);
      }
    }
  }
}
