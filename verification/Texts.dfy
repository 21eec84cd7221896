/** Texts of single-byte characters: their order, sorted sequences of them, and case folding. */
module Texts {
  predicate TextLess(a: string, b: string) {
    if a == "" then b != ""
    else b != "" && (a[0] < b[0] || (a[0] == b[0] && TextLess(a[1..], b[1..])))
  }

  predicate StrictlySorted(keys: seq<string>) {
    forall i, j :: 0 <= i < j < |keys| ==> TextLess(keys[i], keys[j])
  }

  lemma {:induction false} TextLessTotal(a: string, b: string)
    ensures TextLess(a, b) || a == b || TextLess(b, a)
    ensures !(TextLess(a, b) && TextLess(b, a)) && !TextLess(a, a)
  {
    if a != "" {
      TextLessTotal(a[1..], if b == "" then "" else b[1..]);
      if b != "" && a[0] == b[0] && a[1..] == b[1..] {
        assert a == [a[0]] + a[1..] == b;
      }
    }
  }

  /** The first difference decides; a text that begins another is below it. */
  lemma {:induction false} TextLessExactlyWhen(a: string, b: string)
    ensures TextLess(a, b) <==> (a <= b && a != b) || exists k :: DifferAt(a, b, k) && a[k] < b[k]
  {
    if a != "" && b != "" && a[0] == b[0] {
      var c, d := a[1..], b[1..];
      TextLessExactlyWhen(c, d);
      assert a == [a[0]] + c && b == [b[0]] + d;
      assert a <= b <==> c <= d;
      forall k | k > 0 ensures DifferAt(a, b, k) <==> DifferAt(c, d, k - 1) {
        assert k <= |a| && k <= |b| ==> a[..k] == [a[0]] + c[..k - 1] && b[..k] == [b[0]] + d[..k - 1];
        assert k <= |a| && k <= |b| ==> a[..k][1..] == c[..k - 1] && b[..k][1..] == d[..k - 1];
      }
      if k :| DifferAt(c, d, k) && c[k] < d[k] {
        assert DifferAt(a, b, k + 1);
      }
      if k :| DifferAt(a, b, k) && a[k] < b[k] {
        assert DifferAt(c, d, k - 1);
      }
    } else if a != "" && b != "" {
      assert DifferAt(a, b, 0);
      assert forall k :: DifferAt(a, b, k) ==> k == 0 || a[..k][0] == b[..k][0];
    }
  }

  /** The texts agree up to there, and not there. */
  predicate DifferAt(a: string, b: string, k: int) {
    0 <= k < |a| && k < |b| && a[..k] == b[..k] && a[k] != b[k]
  }

  /** A common beginning does not matter for the order. */
  lemma {:induction false} TextLessBehind(front: string, a: string, b: string)
    ensures TextLess(front + a, front + b) <==> TextLess(a, b)
  {
    if front == "" {
      assert front + a == a && front + b == b;
    } else {
      TextLessBehind(front[1..], a, b);
      assert (front + a)[1..] == front[1..] + a && (front + b)[1..] == front[1..] + b;
    }
  }

  /** Different beginnings of the same length decide. */
  lemma {:induction false} TextLessAhead(a: string, b: string, x: string, y: string)
    requires |a| == |b| && a != b
    ensures TextLess(a + x, b + y) <==> TextLess(a, b)
  {
    assert (a + x)[1..] == a[1..] + x && (b + y)[1..] == b[1..] + y;
    if a[0] == b[0] {
      assert a == [a[0]] + a[1..] && b == [b[0]] + b[1..];
      TextLessAhead(a[1..], b[1..], x, y);
    }
  }

  lemma {:induction false} TextLessTransitive(a: string, b: string, c: string)
    requires TextLess(a, b) && TextLess(b, c)
    ensures TextLess(a, c)
  {
    if a != "" && a[0] == b[0] && b[0] == c[0] {
      TextLessTransitive(a[1..], b[1..], c[1..]);
    }
  }

  function Insert(sorted: seq<string>, key: string): seq<string> {
    if sorted == [] then [key]
    else if TextLess(key, sorted[0]) then [key] + sorted
    else [sorted[0]] + Insert(sorted[1..], key)
  }

  lemma {:induction false} InsertHas(sorted: seq<string>, key: string, x: string)
    ensures x in Insert(sorted, key) <==> x == key || x in sorted
  {
    if sorted != [] && !TextLess(key, sorted[0]) {
      InsertHas(sorted[1..], key, x);
      assert x in sorted <==> x == sorted[0] || x in sorted[1..];
    }
  }

  /** The first key is below all the others, which are strictly sorted in turn. */
  lemma SortedFront(first: string, rest: seq<string>)
    requires StrictlySorted(rest) && forall x :: x in rest ==> TextLess(first, x)
    ensures StrictlySorted([first] + rest)
  {
  }

  lemma {:induction false} InsertSorts(sorted: seq<string>, key: string)
    requires StrictlySorted(sorted) && key !in sorted
    ensures StrictlySorted(Insert(sorted, key))
  {
    if sorted != [] {
      TextLessTotal(key, sorted[0]);
      if TextLess(key, sorted[0]) {
        forall x | x in sorted ensures TextLess(key, x) {
          if x != sorted[0] {
            TextLessTransitive(key, sorted[0], x);
          }
        }
        SortedFront(key, sorted);
      } else {
        InsertSorts(sorted[1..], key);
        forall x | x in Insert(sorted[1..], key) ensures TextLess(sorted[0], x) {
          InsertHas(sorted[1..], key, x);
        }
        SortedFront(sorted[0], Insert(sorted[1..], key));
      }
    }
  }

  /** A strictly sorted sequence is determined by its elements. */
  lemma {:induction false} SortedIsUnique(a: seq<string>, b: seq<string>)
    requires StrictlySorted(a) && StrictlySorted(b) && forall x :: x in a <==> x in b
    ensures a == b
  {
    assert b != [] ==> b[0] in b;
    if a != [] {
      assert a[0] in a;
      if a[0] != b[0] {
        assert b[0] in b;
        TextLessTotal(a[0], b[0]);
      }
      forall x ensures x in a[1..] <==> x in b[1..] {
        TextLessTotal(x, x);
        assert x in a <==> x == a[0] || x in a[1..];
        assert x in b <==> x == b[0] || x in b[1..];
      }
      SortedIsUnique(a[1..], b[1..]);
      assert a == [a[0]] + a[1..] && b == [b[0]] + b[1..];
    }
  }

  /** The texts of a set, in order. */
  method SortedNames(names: set<string>) returns (sorted: seq<string>)
    ensures StrictlySorted(sorted)
    ensures forall x :: x in sorted <==> x in names
  {
    sorted := [];
    var rest := names;
    while rest != {}
      invariant rest <= names && StrictlySorted(sorted)
      invariant forall x :: x in sorted <==> x in names && x !in rest
      decreases rest
    {
      var name :| name in rest;
      InsertSorts(sorted, name);
      forall x ensures x in Insert(sorted, name) <==> x == name || x in sorted {
        InsertHas(sorted, name, x);
      }
      sorted := Insert(sorted, name);
      rest := rest - {name};
    }
  }

  // ---------- Case ----------

  function UpperChar(c: char): char {
    if 'a' <= c <= 'z' then ((c as int) - 32) as char else c
  }

  function Upper(name: string): string {
    if name == "" then "" else [UpperChar(name[0])] + Upper(name[1..])
  }

  predicate EqualFold(a: string, b: string) {
    Upper(a) == Upper(b)
  }

  function LowerChar(c: char): char {
    if 'A' <= c <= 'Z' then ((c as int) + 32) as char else c
  }

  function Lower(name: string): string {
    if name == "" then "" else [LowerChar(name[0])] + Lower(name[1..])
  }

  /** Two characters are the same, or an upper and a lower case letter of the same place in the alphabet. */
  predicate SameLetter(a: char, b: char) {
    || a == b
    || ('a' <= a <= 'z' && 'A' <= b <= 'Z' && a as int - 'a' as int == b as int - 'A' as int)
    || ('A' <= a <= 'Z' && 'a' <= b <= 'z' && a as int - 'A' as int == b as int - 'a' as int)
  }

  lemma {:induction false} EqualFoldExactlyWhen(a: string, b: string)
    ensures EqualFold(a, b) <==> |a| == |b| && forall i :: 0 <= i < |a| ==> SameLetter(a[i], b[i])
  {
    if a != "" && b != "" {
      EqualFoldExactlyWhen(a[1..], b[1..]);
      assert Upper(a)[1..] == Upper(a[1..]) && Upper(b)[1..] == Upper(b[1..]);
      assert forall i :: 0 < i < |a| ==> a[i] == a[1..][i - 1];
      assert forall i :: 0 < i < |b| ==> b[i] == b[1..][i - 1];
      hide SameLetter;
      assert UpperChar(a[0]) == UpperChar(b[0]) <==> SameLetter(a[0], b[0]) by { SameUpperChar(a[0], b[0]); }
    }
  }

  lemma SameUpperChar(a: char, b: char)
    ensures UpperChar(a) == UpperChar(b) <==> SameLetter(a, b)
    ensures SameLetter(a, b) ==> LowerChar(a) == LowerChar(b)
  {
  }

  lemma {:induction false} SameLower(a: string, b: string)
    requires EqualFold(a, b)
    ensures Lower(a) == Lower(b)
  {
    EqualFoldExactlyWhen(a, b);
    if a != "" {
      SameUpperChar(a[0], b[0]);
      assert forall i :: 0 <= i < |a| - 1 ==> a[1..][i] == a[i + 1] && b[1..][i] == b[i + 1];
      EqualFoldExactlyWhen(a[1..], b[1..]);
      SameLower(a[1..], b[1..]);
    }
  }

  // ---------- Splitting and joining ----------

  /** The parts between the separators; at least one. */
  function Split(s: string, sep: char): (parts: seq<string>)
    ensures |parts| >= 1
  {
    if s == "" then [""]
    else if s[0] == sep then [""] + Split(s[1..], sep)
    else
      var parts := Split(s[1..], sep);
      [[s[0]] + parts[0]] + parts[1..]
  }

  function Join(parts: seq<string>, sep: char): string
    requires parts != []
  {
    if |parts| == 1 then parts[0] else parts[0] + [sep] + Join(parts[1..], sep)
  }

  predicate FreeOf(parts: seq<string>, sep: char) {
    forall i :: 0 <= i < |parts| ==> sep !in parts[i]
  }

  lemma {:induction false} JoinSplit(s: string, sep: char)
    ensures Join(Split(s, sep), sep) == s && FreeOf(Split(s, sep), sep)
  {
    if s != "" {
      JoinSplit(s[1..], sep);
      var rest := Split(s[1..], sep);
      assert s == [s[0]] + s[1..];
      if s[0] == sep {
        assert ([""] + rest)[1..] == rest;
      } else {
        var parts := [[s[0]] + rest[0]] + rest[1..];
        assert parts[1..] == rest[1..];
      }
    }
  }

  lemma {:induction false} SplitJoin(parts: seq<string>, sep: char)
    requires parts != [] && FreeOf(parts, sep)
    ensures Split(Join(parts, sep), sep) == parts
    decreases |parts|, |parts[0]|
  {
    var s := Join(parts, sep);
    if parts[0] == "" {
      if |parts| > 1 {
        SplitJoin(parts[1..], sep);
        assert s[1..] == Join(parts[1..], sep);
        assert parts == [""] + parts[1..];
      } else {
        assert parts == [""];
      }
    } else {
      var shorter := [parts[0][1..]] + parts[1..];
      assert shorter[1..] == parts[1..];
      SplitJoin(shorter, sep);
      assert s[1..] == Join(shorter, sep);
      assert [s[0]] + parts[0][1..] == parts[0];
      assert parts == [parts[0]] + parts[1..];
    }
  }

  lemma {:induction false} JoinLast(parts: seq<string>, last: string, sep: char)
    requires parts != []
    ensures Join(parts + [last], sep) == Join(parts, sep) + [sep] + last
  {
    var all := parts + [last];
    assert all[1..] == parts[1..] + [last];
    if |parts| > 1 {
      JoinLast(parts[1..], last, sep);
      assert parts[0] + [sep] + (Join(parts[1..], sep) + [sep] + last) == parts[0] + [sep] + Join(parts[1..], sep) + [sep] + last;
    }
  }
}
