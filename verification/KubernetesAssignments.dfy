/** Documents built by assignments to columns that were made from the schema of a Kubernetes resource. */
module KubernetesAssignments {
  import opened Options
  import opened Texts
  import opened JsonPointers
  import opened KubernetesColumns

  // ---------- One assignment ----------

  datatype Assignment = Assignment(path: seq<string>, value: Json)

  type Members = map<string, Json>

  /** Sets the value at a path, making objects on the way; fails where something else is in the way. */
  function SetAt(members: Members, path: seq<string>, value: Json): Option<Members>
    requires path != []
    decreases |path|, 1
  {
    var placed := Placed(members, path, value);
    if placed.None? then None else Some(members[path[0] := placed.value])
  }

  /** What the first member of the path becomes. */
  function Placed(members: Members, path: seq<string>, value: Json): Option<Json>
    requires path != []
    decreases |path|, 0
  {
    if |path| == 1 then Some(value)
    else if path[0] in members && !members[path[0]].Object? then None
    else
      var inner := SetAt(Inner(members, path[0]), path[1..], value);
      if inner.None? then None else Some(Object(inner.value))
  }

  function Inner(members: Members, name: string): Members {
    if name in members && members[name].Object? then members[name].members else map[]
  }

  /** The assignment fails exactly where a value that is no object stands at a proper prefix of its path. */
  lemma {:induction false} SetFails(members: Members, path: seq<string>, value: Json)
    requires path != []
    ensures SetAt(members, path, value).None? <==>
              exists k :: 0 < k < |path| && Blocks(members, path[..k])
    decreases |path|
  {
    if |path| > 1 {
      var inner := Inner(members, path[0]);
      SetFails(inner, path[1..], value);
      assert path[..1] == [path[0]];
      if path[0] in members && !members[path[0]].Object? {
        assert ReadAt(Object(members), path[..1]) == Found(members[path[0]]);
        assert Blocks(members, path[..1]);
      } else {
        assert path[..1][1..] == [];
        assert ReadAt(Object(members), path[..1]) == if path[0] in members then Found(members[path[0]]) else NotFound;
        assert !Blocks(members, path[..1]);
        forall k | 1 < k < |path| ensures Blocks(members, path[..k]) <==> Blocks(inner, path[1..][..k - 1]) {
          assert path[..k][1..] == path[1..][..k - 1];
          BlocksInside(members, path[..k]);
        }
        if k :| 0 < k < |path| - 1 && Blocks(inner, path[1..][..k]) {
          assert Blocks(members, path[..k + 1]);
        }
      }
    }
  }

  predicate Blocks(members: Members, path: seq<string>) {
    var r := ReadAt(Object(members), path);
    r.Found? && !r.value.Object?
  }

  lemma BlocksInside(members: Members, path: seq<string>)
    requires |path| > 1 && (path[0] in members ==> members[path[0]].Object?)
    ensures Blocks(members, path) <==> Blocks(Inner(members, path[0]), path[1..])
  {
  }

  lemma {:induction false} SetReadsBack(members: Members, path: seq<string>, value: Json)
    requires path != [] && SetAt(members, path, value).Some?
    ensures ReadAt(Object(SetAt(members, path, value).value), path) == Found(value)
    decreases |path|
  {
    if |path| == 1 {
      assert path[1..] == [];
    } else {
      SetReadsBack(Inner(members, path[0]), path[1..], value);
    }
  }

  /** Setting one path leaves what is read at any path apart from it, but for where an object now stands. */
  lemma {:induction false} SetLeavesOthers(members: Members, path: seq<string>, value: Json, other: seq<string>)
    requires path != [] && Apart(path, other) && SetAt(members, path, value).Some?
    ensures ReadAt(Object(SetAt(members, path, value).value), other) == ReadAt(Object(members), other)
    decreases |path|
  {
    TailsApart(path, other);
    if path[0] == other[0] {
      SetLeavesOthers(Inner(members, path[0]), path[1..], value, other[1..]);
    }
  }

  lemma TailsApart(p: seq<string>, q: seq<string>)
    requires Apart(p, q)
    ensures p != [] && q != [] && (p[0] == q[0] ==> |p| > 1 && |q| > 1 && Apart(p[1..], q[1..]))
  {
    if p[0] == q[0] {
      assert p == [p[0]] + p[1..] && q == [q[0]] + q[1..];
    }
  }

  function SetTwo(members: Members, p: seq<string>, v: Json, q: seq<string>, w: Json): Option<Members>
    requires p != [] && q != []
  {
    var one := SetAt(members, p, v);
    if one.None? then None else SetAt(one.value, q, w)
  }

  /** Two paths that are apart may be set in either order, with the same result or the same failure. */
  lemma {:induction false} SetCommutes(members: Members, p: seq<string>, v: Json, q: seq<string>, w: Json)
    requires p != [] && q != [] && Apart(p, q)
    ensures SetTwo(members, p, v, q, w) == SetTwo(members, q, w, p, v)
    decreases |p|
  {
    TailsApart(p, q);
    if p[0] != q[0] {
      ElsewhereCommutes(members, p, v, q, w);
    } else if !(p[0] in members && !members[p[0]].Object?) {
      SetCommutes(Inner(members, p[0]), p[1..], v, q[1..], w);
      SetTwoInside(members, p, v, q, w);
      SetTwoInside(members, q, w, p, v);
    } else {
      assert Placed(members, p, v).None? && Placed(members, q, w).None?;
    }
  }

  lemma ElsewhereCommutes(members: Members, p: seq<string>, v: Json, q: seq<string>, w: Json)
    requires p != [] && q != [] && p[0] != q[0]
    ensures SetTwo(members, p, v, q, w) == SetTwo(members, q, w, p, v)
  {
    SetElsewhere(members, p, v, q, w);
    SetElsewhere(members, q, w, p, v);
    var one, other := Placed(members, p, v), Placed(members, q, w);
    if one.Some? && other.Some? {
      assert members[p[0] := one.value][q[0] := other.value] == members[q[0] := other.value][p[0] := one.value];
    }
  }

  lemma SetElsewhere(members: Members, p: seq<string>, v: Json, q: seq<string>, w: Json)
    requires p != [] && q != [] && p[0] != q[0]
    ensures SetAt(members, p, v).Some? ==> Placed(SetAt(members, p, v).value, q, w) == Placed(members, q, w)
  {
  }

  lemma SetTwoInside(members: Members, p: seq<string>, v: Json, q: seq<string>, w: Json)
    requires |p| > 1 && |q| > 1 && p[0] == q[0] && (p[0] in members ==> members[p[0]].Object?)
    ensures var inside := SetTwo(Inner(members, p[0]), p[1..], v, q[1..], w);
            SetTwo(members, p, v, q, w) == if inside.None? then None else Some(members[p[0] := Object(inside.value)])
  {
    var one := SetAt(Inner(members, p[0]), p[1..], v);
    assert Placed(members, p, v) == if one.None? then None else Some(Object(one.value));
    if one.Some? {
      var next := members[p[0] := Object(one.value)];
      var two := SetAt(Inner(next, p[0]), q[1..], w);
      assert Placed(next, q, w) == if two.None? then None else Some(Object(two.value));
      if two.Some? {
        assert next[p[0] := Object(two.value)] == members[p[0] := Object(two.value)];
      }
      assert SetAt(members, p, v).value == members[p[0] := Object(one.value)];
      assert Inner(SetAt(members, p, v).value, p[0]) == one.value;
    }
  }

  // ---------- Many assignments ----------

  predicate Proper(plan: seq<Assignment>) {
    forall i :: 0 <= i < |plan| ==> plan[i].path != []
  }

  /** No two assignments have paths one of which continues the other. */
  predicate Independent(plan: seq<Assignment>) {
    forall i, j :: 0 <= i < j < |plan| ==> Apart(plan[i].path, plan[j].path)
  }

  function ApplyAll(members: Members, plan: seq<Assignment>): Option<Members>
    requires Proper(plan)
    decreases |plan|
  {
    if plan == [] then Some(members)
    else
      var next := SetAt(members, plan[0].path, plan[0].value);
      if next.None? then None else ApplyAll(next.value, plan[1..])
  }

  lemma {:induction false} ApplyAllAppend(members: Members, a: seq<Assignment>, b: seq<Assignment>)
    requires Proper(a) && Proper(b)
    ensures var first := ApplyAll(members, a);
            ApplyAll(members, a + b) == if first.None? then None else ApplyAll(first.value, b)
    decreases |a|
  {
    if a == [] {
      assert a + b == b;
    } else {
      var next := SetAt(members, a[0].path, a[0].value);
      assert (a + b)[0] == a[0] && (a + b)[1..] == a[1..] + b;
      if next.Some? {
        ApplyAllAppend(next.value, a[1..], b);
      }
    }
  }

  /** An assignment apart from those before it may be made first. */
  lemma {:induction false} MoveToFront(members: Members, before: seq<Assignment>, x: Assignment, after: seq<Assignment>)
    requires Proper(before) && x.path != [] && Proper(after)
    requires forall i :: 0 <= i < |before| ==> Apart(before[i].path, x.path)
    ensures ApplyAll(members, before + [x] + after) == ApplyAll(members, [x] + before + after)
    decreases |before|
  {
    if before == [] {
      assert before + [x] + after == [x] + before + after;
    } else {
      var y, rest := before[0], before[1..] + after;
      var next := SetAt(members, y.path, y.value);
      assert (before + [x] + after)[0] == y && (before + [x] + after)[1..] == before[1..] + [x] + after;
      assert [x] + before + after == [x, y] + rest;
      if next.Some? {
        MoveToFront(next.value, before[1..], x, after);
      }
      assert [y, x] + rest == [y] + ([x] + before[1..] + after);
      ApplyTwo(members, y, x, rest);
      ApplyTwo(members, x, y, rest);
      SetCommutes(members, x.path, x.value, y.path, y.value);
    }
  }

  lemma ApplyTwo(members: Members, x: Assignment, y: Assignment, rest: seq<Assignment>)
    requires x.path != [] && y.path != [] && Proper(rest)
    ensures var both := SetTwo(members, x.path, x.value, y.path, y.value);
            ApplyAll(members, [x, y] + rest) == if both.None? then None else ApplyAll(both.value, rest)
  {
    assert ([x, y] + rest)[1..] == [y] + rest && ([y] + rest)[1..] == rest;
  }

  /** Independent assignments give the same document, or fail, in every order. */
  lemma {:induction false} OrderDoesNotMatter(members: Members, a: seq<Assignment>, b: seq<Assignment>)
    requires Proper(a) && Independent(a) && multiset(a) == multiset(b)
    ensures Proper(b) && ApplyAll(members, a) == ApplyAll(members, b)
    decreases |a|
  {
    SameElements(a, b);
    if a != [] {
      var i := WhereFirst(a, b);
      var rest := b[..i] + b[i + 1..];
      RestIsPermuted(a, b, i);
      SameElements(a[1..], rest);
      FirstMovesToFront(members, a, b, i);
      var next := SetAt(members, a[0].path, a[0].value);
      assert ([a[0]] + rest)[1..] == rest;
      if next.Some? {
        assert Independent(a[1..]);
        OrderDoesNotMatter(next.value, a[1..], rest);
      }
    }
  }

  lemma WhereFirst(a: seq<Assignment>, b: seq<Assignment>) returns (i: nat)
    requires a != [] && multiset(a) == multiset(b)
    ensures i < |b| && b[i] == a[0]
  {
    assert a[0] in multiset(b);
    i :| 0 <= i < |b| && b[i] == a[0];
  }

  lemma FirstIsApart(a: seq<Assignment>, x: Assignment)
    requires a != [] && Independent(a) && x in a[1..]
    ensures Apart(x.path, a[0].path)
  {
    var j :| 0 < j < |a| && a[j] == x;
    assert Apart(a[0].path, a[j].path);
  }

  lemma FirstMovesToFront(members: Members, a: seq<Assignment>, b: seq<Assignment>, i: nat)
    requires a != [] && Proper(a) && Independent(a) && Proper(b) && i < |b| && b[i] == a[0]
    requires forall x :: x in b[..i] + b[i + 1..] ==> x in a[1..]
    ensures ApplyAll(members, b) == ApplyAll(members, [a[0]] + (b[..i] + b[i + 1..]))
  {
    var rest := b[..i] + b[i + 1..];
    forall k | 0 <= k < i ensures Apart(b[..i][k].path, b[i].path) {
      assert rest[k] == b[k] && rest[k] in rest;
      FirstIsApart(a, b[k]);
    }
    MoveToFront(members, b[..i], b[i], b[i + 1..]);
    assert b == b[..i] + [b[i]] + b[i + 1..];
    assert [b[i]] + b[..i] + b[i + 1..] == [a[0]] + rest;
  }

  lemma SameElements(a: seq<Assignment>, b: seq<Assignment>)
    requires multiset(a) == multiset(b)
    ensures |a| == |b|
    ensures forall i :: 0 <= i < |b| ==> b[i] in a
    ensures Proper(a) ==> Proper(b)
  {
    assert |multiset(a)| == |a| && |multiset(b)| == |b|;
    forall i | 0 <= i < |b| ensures b[i] in a {
      assert b[i] in multiset(b);
    }
  }

  lemma RestIsPermuted(a: seq<Assignment>, b: seq<Assignment>, i: nat)
    requires a != [] && i < |b| && b[i] == a[0] && multiset(a) == multiset(b)
    ensures multiset(a[1..]) == multiset(b[..i] + b[i + 1..])
  {
    assert a == [a[0]] + a[1..];
    assert b == b[..i] + [b[i]] + b[i + 1..];
    assert multiset(a[1..]) == multiset(a) - multiset{a[0]};
    assert multiset(b[..i] + b[i + 1..]) == multiset(b[..i]) + multiset(b[i + 1..]) == multiset(b) - multiset{b[i]};
  }

  /** Independent assignments succeed together exactly when each of them would alone. */
  lemma {:induction false} FailsAlone(members: Members, plan: seq<Assignment>)
    requires Proper(plan) && Independent(plan)
    ensures ApplyAll(members, plan).Some? <==>
              forall i :: 0 <= i < |plan| ==> SetAt(members, plan[i].path, plan[i].value).Some?
    decreases |plan|
  {
    if plan != [] {
      var x, next := plan[0], SetAt(members, plan[0].path, plan[0].value);
      if next.Some? {
        FailsAlone(next.value, plan[1..]);
        forall i | 0 < i < |plan|
          ensures SetAt(next.value, plan[i].path, plan[i].value).Some? <==>
                    SetAt(members, plan[i].path, plan[i].value).Some?
        {
          var y := plan[i];
          StillApplies(members, x, y);
        }
        forall i | 0 < i < |plan| ensures plan[i] == plan[1..][i - 1] {
        }
      }
    }
  }

  lemma {:induction false} StillApplies(members: Members, x: Assignment, y: Assignment)
    requires x.path != [] && y.path != [] && Apart(x.path, y.path) && SetAt(members, x.path, x.value).Some?
    ensures SetAt(SetAt(members, x.path, x.value).value, y.path, y.value).Some? <==> SetAt(members, y.path, y.value).Some?
    decreases |x.path|
  {
    TailsApart(x.path, y.path);
    if x.path[0] != y.path[0] {
      SetElsewhere(members, x.path, x.value, y.path, y.value);
    } else {
      StillApplies(Inner(members, x.path[0]), x.(path := x.path[1..]), y.(path := y.path[1..]));
    }
  }

  lemma {:induction false} NothingInTheWay(path: seq<string>, value: Json)
    requires path != []
    ensures SetAt(map[], path, value).Some?
    decreases |path|
  {
    if |path| > 1 {
      NothingInTheWay(path[1..], value);
    }
  }

  /** Every assigned path reads back its value, and every path apart from them all what it did before. */
  lemma {:induction false} AllReadBack(members: Members, plan: seq<Assignment>)
    requires Proper(plan) && Independent(plan) && ApplyAll(members, plan).Some?
    ensures forall i :: 0 <= i < |plan| ==>
              ReadAt(Object(ApplyAll(members, plan).value), plan[i].path) == Found(plan[i].value)
    ensures forall other :: (forall i :: 0 <= i < |plan| ==> Apart(plan[i].path, other)) ==>
              ReadAt(Object(ApplyAll(members, plan).value), other) == ReadAt(Object(members), other)
    decreases |plan|
  {
    if plan != [] {
      var x, next := plan[0], SetAt(members, plan[0].path, plan[0].value).value;
      AllReadBack(next, plan[1..]);
      forall i | 0 < i < |plan| ensures plan[i] == plan[1..][i - 1] && Apart(plan[i].path, x.path) {
      }
      SetReadsBack(members, x.path, x.value);
      forall other | forall i :: 0 <= i < |plan| ==> Apart(plan[i].path, other)
        ensures ReadAt(Object(ApplyAll(members, plan).value), other) == ReadAt(Object(members), other)
      {
        assert Apart(plan[0].path, other);
        SetLeavesOthers(members, x.path, x.value, other);
      }
    }
  }

  // ---------- The order of application ----------

  /** The assignments to paths of one name, or those to longer paths. */
  function Chosen(plan: seq<Assignment>, single: bool): seq<Assignment> {
    if plan == [] then []
    else
      var rest := Chosen(plan[..|plan| - 1], single);
      var x := plan[|plan| - 1];
      if x.path != [] && single == (|x.path| == 1) then rest + [x] else rest
  }

  lemma {:induction false} ChosenIsProper(plan: seq<Assignment>, single: bool)
    ensures Proper(Chosen(plan, single))
  {
    if plan != [] {
      ChosenIsProper(plan[..|plan| - 1], single);
    }
  }

  /** The beginning of what is chosen from a plan is what is chosen from its beginning. */
  lemma {:induction false} ChosenBegins(plan: seq<Assignment>, n: nat, single: bool)
    requires n <= |plan|
    ensures Chosen(plan[..n], single) <= Chosen(plan, single)
    decreases |plan|
  {
    if n == |plan| {
      assert plan[..n] == plan;
    } else {
      ChosenBegins(plan[..|plan| - 1], n, single);
      assert plan[..|plan| - 1][..n] == plan[..n];
    }
  }

  function Arranged(plan: seq<Assignment>): seq<Assignment> {
    Chosen(plan, true) + Chosen(plan, false)
  }

  lemma {:induction false} ArrangedIsPermuted(plan: seq<Assignment>)
    requires Proper(plan)
    ensures Proper(Arranged(plan)) && multiset(Arranged(plan)) == multiset(plan)
  {
    ChosenIsProper(plan, true);
    ChosenIsProper(plan, false);
    if plan != [] {
      ArrangedIsPermuted(plan[..|plan| - 1]);
      assert plan == plan[..|plan| - 1] + [plan[|plan| - 1]];
    }
  }

  lemma {:induction false} ChosenAreOfOneKind(plan: seq<Assignment>, single: bool)
    ensures forall x :: x in Chosen(plan, single) ==> x.path != [] && (single <==> |x.path| == 1)
  {
    if plan != [] {
      ChosenAreOfOneKind(plan[..|plan| - 1], single);
    }
  }

  /** Paths of one name come first. */
  lemma SingleNamesFirst(plan: seq<Assignment>, i: nat, j: nat)
    requires i < j < |Arranged(plan)| && |Arranged(plan)[j].path| == 1
    ensures |Arranged(plan)[i].path| == 1
  {
    var one, other := Chosen(plan, true), Chosen(plan, false);
    assert j >= |one| ==> Arranged(plan)[j] == other[j - |one|] && other[j - |one|] in other;
    assert i < |one| ==> Arranged(plan)[i] == one[i] && one[i] in one;
    ChosenAreOfOneKind(plan, true);
    ChosenAreOfOneKind(plan, false);
  }

  lemma FailedStays(members: Members, whole: seq<Assignment>, start: seq<Assignment>)
    requires Proper(whole) && Proper(start) && start <= whole && ApplyAll(members, start).None?
    ensures ApplyAll(members, whole).None?
  {
    assert whole == start + whole[|start|..];
    ApplyAllAppend(members, start, whole[|start|..]);
  }

  method ApplyPlannedPaths(members: Members, plan: seq<Assignment>) returns (r: Option<Members>)
    ensures Proper(Arranged(plan)) && r == ApplyAll(members, Arranged(plan))
  {
    ChosenIsProper(plan, true);
    ChosenIsProper(plan, false);
    NothingChosen(members, plan);
    hide ApplyAll, Chosen;
    var document := members;
    for i := 0 to |plan|
      invariant Proper(Chosen(plan[..i], true)) && ApplyAll(members, Chosen(plan[..i], true)) == Some(document)
    {
      NextChosen(members, plan, i, true, document);
      if |plan[i].path| == 1 {
        document := document[plan[i].path[0] := plan[i].value];
      }
    }
    assert plan[..|plan|] == plan;
    ghost var tops := document;
    NothingChosen(tops, plan);
    for i := 0 to |plan|
      invariant Proper(Chosen(plan[..i], false)) && ApplyAll(tops, Chosen(plan[..i], false)) == Some(document)
    {
      NextChosen(tops, plan, i, false, document);
      if |plan[i].path| > 1 {
        var next := SetAt(document, plan[i].path, plan[i].value);
        if next.None? {
          ChosenBegins(plan, i + 1, false);
          FailedStays(tops, Chosen(plan, false), Chosen(plan[..i + 1], false));
          ApplyAllAppend(members, Chosen(plan, true), Chosen(plan, false));
          return None;
        }
        document := next.value;
      }
    }
    ApplyAllAppend(members, Chosen(plan, true), Chosen(plan, false));
    return Some(document);
  }

  lemma NothingChosen(members: Members, plan: seq<Assignment>)
    ensures Chosen(plan[..0], true) == Chosen(plan[..0], false) == []
    ensures ApplyAll(members, []) == Some(members)
  {
  }

  lemma NextChosen(members: Members, plan: seq<Assignment>, i: nat, single: bool, document: Members)
    requires i < |plan| && Proper(Chosen(plan[..i], single))
    requires ApplyAll(members, Chosen(plan[..i], single)) == Some(document)
    ensures Proper(Chosen(plan[..i + 1], single))
    ensures ApplyAll(members, Chosen(plan[..i + 1], single)) ==
              if plan[i].path != [] && single == (|plan[i].path| == 1) then SetAt(document, plan[i].path, plan[i].value)
              else Some(document)
  {
    assert plan[..i + 1][..i] == plan[..i];
    if plan[i].path != [] {
      ApplyAllAppend(members, Chosen(plan[..i], single), [plan[i]]);
    }
  }

  // ---------- Assignments to columns ----------

  /** The last column of the name. */
  function ColumnFor(columns: seq<Column>, key: string): Option<Column> {
    if columns == [] then None
    else if Upper(columns[|columns| - 1].name) == key then Some(columns[|columns| - 1])
    else ColumnFor(columns[..|columns| - 1], key)
  }

  lemma {:induction false} ColumnForMeans(columns: seq<Column>, key: string)
    ensures var c := ColumnFor(columns, key);
            && (c.Some? ==> c.value in columns && Upper(c.value.name) == key)
            && (c.None? ==> forall i :: 0 <= i < |columns| ==> Upper(columns[i].name) != key)
  {
    if columns != [] {
      ColumnForMeans(columns[..|columns| - 1], key);
    }
  }

  function KeyOf(field: string): string {
    Upper(Trim(field))
  }

  /** Space, tab, line feed, vertical tab, form feed and carriage return. */
  const BLANKS := " \t\n\U{00000B}\U{00000C}\r"

  /** A field names the column of its name, whatever its case and the blanks around it. */
  lemma FieldNamesColumn(columns: seq<Column>, before: string, name: string, after: string, i: nat)
    requires i < |columns| && forall j, k :: 0 <= j < k < |columns| ==> Upper(columns[j].name) != Upper(columns[k].name)
    requires forall c :: c in before + after ==> c in BLANKS
    requires name != "" ==> name[0] !in BLANKS && name[|name| - 1] !in BLANKS
    ensures KeyOf(before + name + after) == Upper(name)
    ensures EqualFold(name, columns[i].name) <==> ColumnFor(columns, KeyOf(before + name + after)) == Some(columns[i])
  {
    assert forall c: char :: c in BLANKS <==> BlankChar(c);
    assert forall i :: 0 <= i < |before| ==> before[i] in before + after;
    assert forall i :: 0 <= i < |after| ==> after[i] in before + after;
    PaddingIsTrimmed(before, name, after);
    ColumnForMeans(columns, Upper(name));
    hide Upper;
  }

  /** A field that names a column whose path is known. */
  predicate Assignable(columns: seq<Column>, field: string)
    requires forall i :: 0 <= i < |columns| ==> columns[i].path != []
  {
    var c := ColumnFor(columns, KeyOf(field));
    ColumnForMeans(columns, KeyOf(field));
    !Blank(field) && c.Some? && PlannedPath(c.value).Some?
  }

  function Planned(columns: seq<Column>, assignment: (string, Json)): Assignment
    requires forall i :: 0 <= i < |columns| ==> columns[i].path != []
    requires Assignable(columns, assignment.0)
  {
    var c := ColumnFor(columns, KeyOf(assignment.0));
    ColumnForMeans(columns, KeyOf(assignment.0));
    Assignment(PlannedPath(c.value).value, assignment.1)
  }

  /** Every assignment has a column, and no two have the same. */
  predicate Plannable(columns: seq<Column>, assignments: seq<(string, Json)>)
    requires forall i :: 0 <= i < |columns| ==> columns[i].path != []
  {
    && (forall i :: 0 <= i < |assignments| ==> Assignable(columns, assignments[i].0))
    && (forall i, j :: 0 <= i < j < |assignments| ==> KeyOf(assignments[i].0) != KeyOf(assignments[j].0))
  }

  /** The plan of plannable assignments. */
  predicate PlannedFrom(columns: seq<Column>, assignments: seq<(string, Json)>, plan: seq<Assignment>)
    requires forall i :: 0 <= i < |columns| ==> columns[i].path != []
  {
    && |plan| == |assignments| && Plannable(columns, assignments)
    && (forall i :: 0 <= i < |plan| ==> plan[i] == Planned(columns, assignments[i]))
  }

  function Keys(assignments: seq<(string, Json)>): set<string> {
    set i | 0 <= i < |assignments| :: KeyOf(assignments[i].0)
  }

  lemma PlanOneMore(columns: seq<Column>, assignments: seq<(string, Json)>, i: nat, planned: seq<Assignment>)
    requires forall k :: 0 <= k < |columns| ==> columns[k].path != []
    requires i < |assignments| && PlannedFrom(columns, assignments[..i], planned)
    ensures Keys(assignments[..i + 1]) == Keys(assignments[..i]) + {KeyOf(assignments[i].0)}
    ensures if Assignable(columns, assignments[i].0) && KeyOf(assignments[i].0) !in Keys(assignments[..i])
            then PlannedFrom(columns, assignments[..i + 1], planned + [Planned(columns, assignments[i])])
            else !Plannable(columns, assignments)
  {
    hide Assignable, Planned, KeyOf;
    var start, next := assignments[..i], assignments[..i + 1];
    assert next == start + [assignments[i]];
    forall k | 0 <= k < i ensures next[k] == start[k] && KeyOf(start[k].0) in Keys(start) {
    }
    assert next[i] == assignments[i] && KeyOf(next[i].0) in Keys(next);
  }

  /** Plans assignments unless there are none, one has no column or two have the same. */
  method PlanMutationAssignments(columns: seq<Column>, assignments: seq<(string, Json)>)
    returns (plan: Option<seq<Assignment>>)
    requires forall i :: 0 <= i < |columns| ==> columns[i].path != []
    ensures plan.Some? <==> assignments != [] && Plannable(columns, assignments)
    ensures plan.Some? ==> PlannedFrom(columns, assignments, plan.value)
  {
    if assignments == [] {
      return None;
    }
    hide Assignable, Planned, KeyOf;
    var planned: seq<Assignment>, seen: set<string> := [], {};
    for i := 0 to |assignments|
      invariant seen == Keys(assignments[..i]) && PlannedFrom(columns, assignments[..i], planned)
    {
      PlanOneMore(columns, assignments, i, planned);
      var key := KeyOf(assignments[i].0);
      if !Assignable(columns, assignments[i].0) || key in seen {
        return None;
      }
      planned := planned + [Planned(columns, assignments[i])];
      seen := seen + {key};
    }
    assert assignments[..|assignments|] == assignments;
    return Some(planned);
  }

  lemma DistinctColumnsApart(columns: seq<Column>, c: Column, o: Column)
    requires Expanded(columns) && c in columns && o in columns && Upper(c.name) != Upper(o.name)
    ensures Apart(c.path, o.path)
  {
  }

  /** The column of the field is one whose path an assignment is made at. */
  predicate PlainlyAssigned(columns: seq<Column>, field: string)
    requires forall i :: 0 <= i < |columns| ==> columns[i].path != []
    requires Assignable(columns, field)
  {
    ColumnForMeans(columns, KeyOf(field));
    var path := ColumnFor(columns, KeyOf(field)).value.path;
    Plain(path) && !Reserved(path)
  }

  /** The column an assignment is planned for, whose path it is made at. */
  lemma PlannedFor(columns: seq<Column>, assignment: (string, Json)) returns (c: Column)
    requires Expanded(columns) && Assignable(columns, assignment.0) && PlainlyAssigned(columns, assignment.0)
    ensures c in columns && Upper(c.name) == KeyOf(assignment.0)
    ensures Planned(columns, assignment) == Assignment(c.path, assignment.1)
  {
    ColumnForMeans(columns, KeyOf(assignment.0));
    c := ColumnFor(columns, KeyOf(assignment.0)).value;
    PlannedAtItsPath(c);
  }

  predicate ReadsBack(columns: seq<Column>, document: Members, assignment: (string, Json)) {
    exists c :: c in columns && Upper(c.name) == KeyOf(assignment.0)
        && ReadAt(Object(document), c.path) == Found(assignment.1)
  }

  lemma PlanIsIndependent(columns: seq<Column>, assignments: seq<(string, Json)>, plan: seq<Assignment>)
    requires Expanded(columns) && PlannedFrom(columns, assignments, plan)
    requires forall i :: 0 <= i < |assignments| ==> PlainlyAssigned(columns, assignments[i].0)
    ensures Proper(plan) && Independent(plan)
  {
    forall i | 0 <= i < |plan| ensures plan[i].path != [] {
      var c := PlannedFor(columns, assignments[i]);
    }
    forall i, j | 0 <= i < j < |plan| ensures Apart(plan[i].path, plan[j].path) {
      var c := PlannedFor(columns, assignments[i]);
      var o := PlannedFor(columns, assignments[j]);
      DistinctColumnsApart(columns, c, o);
    }
  }

  /**
    Any assignments to expanded columns, those assigned being of plain, unreserved paths, make a document out of nothing without
    failing, the same one in every order, from which each column's path reads back the assigned value.
   */
  lemma ExpandedAssignmentsApply(columns: seq<Column>, assignments: seq<(string, Json)>, plan: seq<Assignment>,
                                 other: seq<Assignment>)
    requires Expanded(columns) && PlannedFrom(columns, assignments, plan)
    requires forall i :: 0 <= i < |assignments| ==> PlainlyAssigned(columns, assignments[i].0)
    requires multiset(other) == multiset(plan)
    ensures Proper(other) && Proper(plan) && ApplyAll(map[], other).Some?
    ensures ApplyAll(map[], other) == ApplyAll(map[], plan)
    ensures forall i :: 0 <= i < |assignments| ==> ReadsBack(columns, ApplyAll(map[], other).value, assignments[i])
  {
    PlanIsIndependent(columns, assignments, plan);
    OrderDoesNotMatter(map[], plan, other);
    FailsAlone(map[], plan);
    forall i | 0 <= i < |plan| ensures SetAt(map[], plan[i].path, plan[i].value).Some? {
      NothingInTheWay(plan[i].path, plan[i].value);
    }
    AllReadBack(map[], plan);
    forall i | 0 <= i < |assignments| ensures ReadsBack(columns, ApplyAll(map[], other).value, assignments[i]) {
      var c := PlannedFor(columns, assignments[i]);
      assert plan[i] == Assignment(c.path, assignments[i].1);
    }
  }

  const LEAF := Node(ScalarShape, map[])
  const SPEC := Node(ObjectShape, map["x" := Some(LEAF)])

  /** A resource with a property Spec and a property of spec. */
  const SPEC_TWICE := Node(ObjectShape, map["Spec" := Some(LEAF), "spec" := Some(SPEC)])

  lemma LeavesOfSpecTwice(p: seq<string>)
    ensures RootLeaf(map[], SPEC_TWICE, p, 2) <==> p == ["Spec"] || p == ["spec", "x"]
  {
    SpecIsNoVersion();
    hide EqualFold;
    assert ["Spec"][1..] == [] && ["spec", "x"][1..] == ["x"];
    if p != [] {
      assert p == [p[0]] + p[1..];
      ScalarLeaf(1, p[1..]);
      SpecLeaf(p[1..]);
      hide Leaf;
    }
  }

  lemma ScalarLeaf(depth: nat, p: seq<string>)
    requires 0 < depth <= 2
    ensures Leaf(map[], Some(LEAF), depth, p, 2) <==> p == []
  {
  }

  lemma SpecLeaf(p: seq<string>)
    ensures Leaf(map[], Some(SPEC), 1, p, 2) <==> p == ["x"]
  {
    assert "x" in PropertiesOf(SPEC) && !Terminal(SPEC, 1, 2);
    assert ["x"][1..] == [];
    if p != [] {
      assert p == [p[0]] + p[1..];
      ScalarLeaf(2, p[1..]);
    }
  }

  lemma SpecIsNoVersion()
    ensures !EqualFold("Spec", "apiVersion") && !EqualFold("Spec", "kind")
    ensures !EqualFold("spec", "apiVersion") && !EqualFold("spec", "kind")
  {
    UpperKeeps("apiVersion", 0);
    UpperKeeps("kind", 0);
    UpperKeeps("Spec", 0);
    UpperKeeps("spec", 0);
  }

  lemma SpecNamesDiffer()
    ensures NameOf(["Spec"]) == "Spec" && NameOf(["spec", "x"]) == "spec__x" && Upper("Spec") != Upper("spec__x")
  {
    assert ["spec", "x"][1..] == ["x"] && NameOf(["x"]) == "x";
    assert "spec" + "__" + "x" == "spec__x";
    UpperKeeps("Spec", 0);
    UpperKeeps("spec__x", 0);
  }

  /** Expanding such a resource makes a column Spec and a column for the property of spec. */
  method ExpandSpecTwice() returns (columns: seq<Column>)
    ensures Column("Spec", ["Spec"]) in columns && Column("spec__x", ["spec", "x"]) in columns
  {
    var table := new ExpandedTable();
    ghost var added := table.ExpandRoot(map[], SPEC_TWICE, 2);
    columns := table.columns;
    assert columns == added;
    LeavesOfSpecTwice(["Spec"]);
    LeavesOfSpecTwice(["spec", "x"]);
    LeafIsColumn(columns, ["Spec"]);
    LeafIsColumn(columns, ["spec", "x"]);
    SpecNamesDiffer();
  }

  lemma LeafIsColumn(columns: seq<Column>, p: seq<string>)
    requires p != [] && RootLeaf(map[], SPEC_TWICE, p, 2) && TakenFor(columns, p)
    requires forall i :: 0 <= i < |columns| ==> IsRootColumn(map[], SPEC_TWICE, 2, columns[i])
    ensures Column(NameOf(p), p) in columns
  {
    LeavesOfSpecTwice(p);
    hide RootLeaf, Upper, PathBefore;
    var i :| 0 <= i < |columns| && Upper(columns[i].name) == Upper(NameOf(p));
    LeavesOfSpecTwice(columns[i].path);
    SpecNamesDiffer();
  }

  /** A root property Spec beside the properties of spec: the reserved name sends its value to the wrong place. */
  lemma ReservedNameFails()
    ensures PlannedPath(Column("Spec", ["Spec"])) == Some(["spec"])
    ensures PlannedPath(Column("spec__x", ["spec", "x"])) == Some(["spec", "x"])
    ensures ApplyAll(map[], [Assignment(["spec"], Scalar(1)), Assignment(["spec", "x"], Scalar(2))]).None?
  {
    assert PlannedPath(Column("Spec", ["Spec"])) == Some(["spec"]) by {
      assert Upper("Spec") == "SPEC";
    }
    hide Upper, NameOf, PlannedPath, ApplyAll;
    NestedIsPlanned();
    SecondIsRefused();
  }

  lemma NestedIsPlanned()
    ensures PlannedPath(Column("spec__x", ["spec", "x"])) == Some(["spec", "x"])
  {
    NestedIsUnreserved("spec", "x");
    PlainSpecX();
    assert ["spec", "x"][1..] == ["x"];
    assert NameOf(["spec", "x"]) == "spec" + "__" + "x" == "spec__x";
    hide Upper, NameOf, Plain, Reserved, PlannedPath;
    PlannedAtItsPath(Column("spec__x", ["spec", "x"]));
  }

  lemma SecondIsRefused()
    ensures ApplyAll(map[], [Assignment(["spec"], Scalar(1)), Assignment(["spec", "x"], Scalar(2))]).None?
  {
    var plan := [Assignment(["spec"], Scalar(1)), Assignment(["spec", "x"], Scalar(2))];
    var next: Members := map["spec" := Scalar(1)];
    assert SetAt(map[], plan[0].path, plan[0].value) == Some(next);
    assert Placed(next, ["spec", "x"], Scalar(2)).None?;
    assert plan[1..] == [plan[1]];
  }

  lemma {:induction false} UpperKeeps(s: string, i: nat)
    requires i < |s|
    ensures |Upper(s)| == |s| && Upper(s)[i] == UpperChar(s[i])
  {
    if i > 0 {
      UpperKeeps(s[1..], i - 1);
    } else if |s| > 1 {
      UpperKeeps(s[1..], 0);
    }
  }

  lemma NestedIsUnreserved(one: string, other: string)
    ensures !Reserved([one, other])
  {
    var name := one + "__" + other;
    assert [one, other][1..] == [other];
    assert NameOf([one, other]) == name;
    assert name[|one|] == '_';
    UpperKeeps(name, |one|);
  }

  lemma PlainSpecX()
    ensures Plain(["spec", "x"])
  {
    assert Join(["spec", "x"], '.') == "spec" + ['.'] + "x";
    assert "spec"[0] == 's' && "x"[0] == 'x';
  }
}
