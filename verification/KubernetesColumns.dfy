/**
  Columns made from the OpenAPI schema of a Kubernetes resource, and the source paths that assignments to such
  columns are made at.
 */
module KubernetesColumns {
  import opened Options
  import opened Texts

  // ---------- Schemas ----------

  /** What decides how a resolved schema is expanded. */
  datatype Shape = ScalarShape | CollectionShape | ChoiceShape | ObjectShape

  /** A reference into the document, one that leads out of it, a schema that only wraps another, or a real one. */
  datatype SchemaNode =
    | Ref(name: string)
    | ForeignRef
    | Wrapper(wrapped: Option<SchemaNode>)
    | Node(shape: Shape, properties: map<string, Option<SchemaNode>>)

  /** The named component schemas. */
  type Document = map<string, SchemaNode>

  /** Follows references and wrappers, on cyclic documents too; a reference followed before, or leading nowhere, stays. */
  function Resolve(d: Document, candidate: Option<SchemaNode>, seen: set<string>): Option<SchemaNode>
    decreases d.Keys - seen, candidate
  {
    match candidate
    case Some(Ref(name)) =>
      if name in seen || name !in d then candidate else Resolve(d, Some(d[name]), seen + {name})
    case Some(Wrapper(wrapped)) => Resolve(d, wrapped, seen)
    case _ => candidate
  }

  /** Nothing is left to follow. */
  predicate Settled(d: Document, candidate: Option<SchemaNode>) {
    candidate.None? || match candidate.value
                       case Ref(name) => name !in d
                       case Wrapper(_) => false
                       case _ => true
  }

  function Followed(d: Document, candidate: Option<SchemaNode>): Option<SchemaNode>
    requires !Settled(d, candidate)
  {
    match candidate.value
    case Ref(name) => Some(d[name])
    case Wrapper(wrapped) => wrapped
  }

  /** Following one step after another, without any memory, settles on the target after n steps. */
  predicate SettlesOn(d: Document, candidate: Option<SchemaNode>, n: nat, target: Option<SchemaNode>)
    decreases n
  {
    if Settled(d, candidate) then n == 0 && target == candidate
    else n > 0 && SettlesOn(d, Followed(d, candidate), n - 1, target)
  }

  lemma {:induction false} SettlesOnce(d: Document, candidate: Option<SchemaNode>, n: nat, m: nat,
                                       target: Option<SchemaNode>, other: Option<SchemaNode>)
    requires SettlesOn(d, candidate, n, target) && SettlesOn(d, candidate, m, other)
    ensures n == m && target == other
    decreases n
  {
    if !Settled(d, candidate) {
      SettlesOnce(d, Followed(d, candidate), n - 1, m - 1, target, other);
    }
  }

  lemma {:induction false} ResolveReaches(d: Document, candidate: Option<SchemaNode>, seen: set<string>, n: nat,
                                          target: Option<SchemaNode>)
    requires SettlesOn(d, candidate, n, target)
    requires forall name, m: nat, other :: name in seen && SettlesOn(d, Some(Ref(name)), m, other) ==> m > n
    ensures Resolve(d, candidate, seen) == target
    decreases n
  {
    if !Settled(d, candidate) {
      if candidate.value.Ref? {
        var name := candidate.value.name;
        assert name !in seen;
        forall x, m: nat, other | x in seen + {name} && SettlesOn(d, Some(Ref(x)), m, other) ensures m > n - 1 {
          if x == name {
            SettlesOnce(d, candidate, n, m, target, other);
          }
        }
        ResolveReaches(d, Followed(d, candidate), seen + {name}, n - 1, target);
      } else {
        ResolveReaches(d, Followed(d, candidate), seen, n - 1, target);
      }
    }
  }

  lemma {:induction false} ResolveSettles(d: Document, candidate: Option<SchemaNode>, seen: set<string>) returns (n: nat)
    requires Settled(d, Resolve(d, candidate, seen))
    ensures SettlesOn(d, candidate, n, Resolve(d, candidate, seen))
    decreases d.Keys - seen, candidate
  {
    n := 0;
    if !Settled(d, candidate) {
      if candidate.value.Ref? {
        n := ResolveSettles(d, Some(d[candidate.value.name]), seen + {candidate.value.name});
      } else {
        n := ResolveSettles(d, candidate.value.wrapped, seen);
      }
      n := n + 1;
    }
  }

  /** Resolution finds what blind following settles on, and stays unsettled exactly when that would go on forever. */
  lemma ResolveIsFollowing(d: Document, candidate: Option<SchemaNode>)
    ensures forall n: nat, target :: SettlesOn(d, candidate, n, target) ==> Resolve(d, candidate, {}) == target
    ensures Settled(d, Resolve(d, candidate, {})) <==> exists n: nat, target :: SettlesOn(d, candidate, n, target)
  {
    forall n: nat, target | SettlesOn(d, candidate, n, target)
      ensures Resolve(d, candidate, {}) == target && Settled(d, target)
    {
      ResolveReaches(d, candidate, {}, n, target);
      SettledAtLast(d, candidate, n, target);
    }
    if Settled(d, Resolve(d, candidate, {})) {
      var n := ResolveSettles(d, candidate, {});
      assert exists m: nat, target :: SettlesOn(d, candidate, m, target) by {
        assert SettlesOn(d, candidate, n, Resolve(d, candidate, {}));
      }
    }
  }

  lemma {:induction false} SettledAtLast(d: Document, candidate: Option<SchemaNode>, n: nat, target: Option<SchemaNode>)
    requires SettlesOn(d, candidate, n, target)
    ensures Settled(d, target)
    decreases n
  {
    if !Settled(d, candidate) {
      SettledAtLast(d, Followed(d, candidate), n - 1, target);
    }
  }

  /** A reference that could not be resolved counts as an object without properties. */
  function PropertiesOf(s: SchemaNode): map<string, Option<SchemaNode>> {
    if s.Node? then s.properties else map[]
  }

  /** A resolved schema that becomes one column rather than columns for its properties. */
  predicate Terminal(s: SchemaNode, depth: nat, maxDepth: nat) {
    (s.Node? && !s.shape.ObjectShape?) || depth == maxDepth || PropertiesOf(s) == map[]
  }

  // ---------- Leaves ----------

  /** The path leads from the schema, itself at the given depth, to one that becomes a column. */
  predicate Leaf(d: Document, candidate: Option<SchemaNode>, depth: nat, path: seq<string>, maxDepth: nat)
    decreases |path|
  {
    var s := Resolve(d, candidate, {});
    && s.Some? && 0 < depth <= maxDepth
    && if Terminal(s.value, depth, maxDepth) then path == []
       else
         && path != [] && path[0] in PropertiesOf(s.value)
         && Leaf(d, PropertiesOf(s.value)[path[0]], depth + 1, path[1..], maxDepth)
  }

  /** An object with properties, the only schema that is split into columns of its own. */
  predicate Splits(s: SchemaNode) {
    s.Node? && s.shape.ObjectShape? && s.properties != map[]
  }

  /** The resolved schemas along the path: all but the last are split above the depth allowed, and the last is not. */
  ghost predicate LeadsTo(d: Document, candidate: Option<SchemaNode>, depth: nat, path: seq<string>, maxDepth: nat,
                          chain: seq<SchemaNode>)
  {
    && |chain| == |path| + 1 && Resolve(d, candidate, {}) == Some(chain[0])
    && (forall i :: 0 <= i < |path| ==>
         && Splits(chain[i]) && path[i] in chain[i].properties
         && Resolve(d, chain[i].properties[path[i]], {}) == Some(chain[i + 1]))
    && 0 < depth && (depth + |path| == maxDepth || (depth + |path| < maxDepth && !Splits(chain[|path|])))
  }

  /** A path is a leaf's exactly if schemas lead along it to the first that is not split, or to the depth allowed. */
  lemma {:induction false} LeafExactlyWhen(d: Document, candidate: Option<SchemaNode>, depth: nat, path: seq<string>,
                                           maxDepth: nat)
    ensures Leaf(d, candidate, depth, path, maxDepth) <==>
              exists chain :: LeadsTo(d, candidate, depth, path, maxDepth, chain)
    decreases |path|
  {
    var r := Resolve(d, candidate, {});
    if r.Some? && path != [] && path[0] in PropertiesOf(r.value) {
      LeafExactlyWhen(d, PropertiesOf(r.value)[path[0]], depth + 1, path[1..], maxDepth);
    }
    if Leaf(d, candidate, depth, path, maxDepth) {
      if path == [] {
        assert LeadsTo(d, candidate, depth, path, maxDepth, [r.value]);
      } else {
        var rest :| LeadsTo(d, PropertiesOf(r.value)[path[0]], depth + 1, path[1..], maxDepth, rest);
        LeadsFurther(d, candidate, depth, path, maxDepth, [r.value] + rest);
      }
    }
    if chain :| LeadsTo(d, candidate, depth, path, maxDepth, chain) {
      if path != [] {
        assert chain == [chain[0]] + chain[1..];
        LeadsFurther(d, candidate, depth, path, maxDepth, chain);
      }
    }
  }

  lemma LeadsFurther(d: Document, candidate: Option<SchemaNode>, depth: nat, path: seq<string>, maxDepth: nat,
                     chain: seq<SchemaNode>)
    requires path != [] && chain != []
    ensures LeadsTo(d, candidate, depth, path, maxDepth, chain) <==>
              && 0 < depth < maxDepth && Resolve(d, candidate, {}) == Some(chain[0])
              && Splits(chain[0]) && path[0] in chain[0].properties
              && LeadsTo(d, chain[0].properties[path[0]], depth + 1, path[1..], maxDepth, chain[1..])
  {
    var rest := chain[1..];
    hide Resolve, Splits;
    assert forall i :: 0 < i < |path| ==> path[i] == path[1..][i - 1];
    assert forall i :: 0 <= i < |rest| ==> rest[i] == chain[i + 1];
    assert forall i :: 0 < i < |chain| ==> chain[i] == rest[i - 1];
  }

  /** A leaf below a property of the resource that is neither its version nor its kind. */
  predicate RootLeaf(d: Document, root: SchemaNode, path: seq<string>, maxDepth: nat) {
    && path != [] && path[0] in PropertiesOf(root)
    && !EqualFold(path[0], "apiVersion") && !EqualFold(path[0], "kind")
    && Leaf(d, PropertiesOf(root)[path[0]], 1, path[1..], maxDepth)
  }

  predicate Apart(p: seq<string>, q: seq<string>) {
    !(p <= q) && !(q <= p)
  }

  /** Two leaves are the same or neither continues the other, and they are no deeper than allowed. */
  lemma {:induction false} LeavesAreApart(d: Document, candidate: Option<SchemaNode>, depth: nat, p: seq<string>,
                                          q: seq<string>, maxDepth: nat)
    requires Leaf(d, candidate, depth, p, maxDepth) && Leaf(d, candidate, depth, q, maxDepth)
    ensures p == q || Apart(p, q)
    ensures depth + |p| <= maxDepth
    decreases |p|
  {
    var s := Resolve(d, candidate, {}).value;
    if !Terminal(s, depth, maxDepth) {
      var below := if p[0] == q[0] then q[1..] else p[1..];
      LeavesAreApart(d, PropertiesOf(s)[p[0]], depth + 1, p[1..], below, maxDepth);
      assert p == [p[0]] + p[1..] && q == [q[0]] + q[1..];
    }
  }

  lemma RootLeavesAreApart(d: Document, root: SchemaNode, p: seq<string>, q: seq<string>, maxDepth: nat)
    requires RootLeaf(d, root, p, maxDepth) && RootLeaf(d, root, q, maxDepth)
    ensures p == q || Apart(p, q)
    ensures |p| <= maxDepth
  {
    hide EqualFold, Leaf;
    var below := if p[0] == q[0] then q[1..] else p[1..];
    LeavesAreApart(d, PropertiesOf(root)[p[0]], 1, p[1..], below, maxDepth);
    assert p == [p[0]] + p[1..] && q == [q[0]] + q[1..];
  }

  // ---------- Columns ----------

  datatype Column = Column(name: string, path: seq<string>)

  function NameOf(path: seq<string>): string
    requires path != []
  {
    if |path| == 1 then path[0] else path[0] + "__" + NameOf(path[1..])
  }

  function TakenBy(columns: seq<Column>): set<string> {
    set i | 0 <= i < |columns| :: Upper(columns[i].name)
  }

  lemma TakenByBoth(one: seq<Column>, other: seq<Column>)
    ensures TakenBy(one + other) == TakenBy(one) + TakenBy(other)
  {
    var all := one + other;
    forall i | 0 <= i < |one| ensures Upper(one[i].name) in TakenBy(all) {
      assert all[i] == one[i];
    }
    forall i | 0 <= i < |other| ensures Upper(other[i].name) in TakenBy(all) {
      assert all[|one| + i] == other[i];
    }
  }

  /** Only leaves below the path became columns. */
  ghost predicate Sound(d: Document, candidate: Option<SchemaNode>, path: seq<string>, maxDepth: nat, added: seq<Column>) {
    forall i :: 0 <= i < |added| ==>
      && path <= added[i].path && added[i].path != [] && added[i].name == NameOf(added[i].path)
      && Leaf(d, candidate, |path|, added[i].path[|path|..], maxDepth)
  }

  /** The order of paths: the first names that differ decide. */
  ghost predicate PathBefore(p: seq<string>, q: seq<string>) {
    exists k :: ForksAt(p, q, k)
  }

  predicate ForksAt(p: seq<string>, q: seq<string>, k: int) {
    0 <= k < |p| && k < |q| && p[..k] == q[..k] && TextLess(p[k], q[k])
  }

  ghost predicate InPathOrder(added: seq<Column>) {
    forall i, j :: 0 <= i < j < |added| ==> PathBefore(added[i].path, added[j].path)
  }

  /** The column of the path's name is the path's own, or that of a path before it. */
  ghost predicate TakenFor(added: seq<Column>, p: seq<string>)
    requires p != []
  {
    exists i :: 0 <= i < |added| && Upper(added[i].name) == Upper(NameOf(p)) &&
                (added[i].path == p || PathBefore(added[i].path, p))
  }

  /** The name of every leaf below the path was taken, or is taken for it. */
  ghost predicate Complete(d: Document, candidate: Option<SchemaNode>, path: seq<string>, maxDepth: nat, taken: set<string>,
                           added: seq<Column>)
  {
    forall p :: Leaf(d, candidate, |path|, p, maxDepth) ==>
      path + p != [] && (Upper(NameOf(path + p)) in taken || TakenFor(added, path + p))
  }

  lemma TakenForLonger(one: seq<Column>, more: seq<Column>, p: seq<string>)
    requires p != []
    ensures TakenFor(one, p) || TakenFor(more, p) ==> TakenFor(one + more, p)
  {
    hide Upper, NameOf, PathBefore;
    var all := one + more;
    if i :| 0 <= i < |one| && Upper(one[i].name) == Upper(NameOf(p)) && (one[i].path == p || PathBefore(one[i].path, p)) {
      assert all[i] == one[i];
    }
    if i :| 0 <= i < |more| && Upper(more[i].name) == Upper(NameOf(p))
            && (more[i].path == p || PathBefore(more[i].path, p)) {
      assert all[|one| + i] == more[i];
    }
  }

  lemma CompleteLonger(d: Document, candidate: Option<SchemaNode>, path: seq<string>, maxDepth: nat, taken: set<string>,
                       one: seq<Column>, more: seq<Column>)
    requires Complete(d, candidate, path, maxDepth, taken, one)
    ensures Complete(d, candidate, path, maxDepth, taken, one + more)
  {
    hide Upper, NameOf, Leaf, TakenFor;
    forall p | Leaf(d, candidate, |path|, p, maxDepth)
      ensures path + p != [] && (Upper(NameOf(path + p)) in taken || TakenFor(one + more, path + p))
    {
      TakenForLonger(one, more, path + p);
    }
  }

  /** The columns are below the path, by way of one of the names. */
  ghost predicate Through(added: seq<Column>, path: seq<string>, names: seq<string>) {
    forall c :: c in added ==> |path| < |c.path| && path <= c.path && c.path[|path|] in names
  }

  lemma ForksAfter(path: seq<string>, p: seq<string>, q: seq<string>)
    requires path <= p && path <= q && |path| < |p| && |path| < |q| && TextLess(p[|path|], q[|path|])
    ensures PathBefore(p, q)
  {
    assert ForksAt(p, q, |path|);
  }

  lemma NamesBefore(names: seq<string>, i: nat, name: string)
    requires StrictlySorted(names) && i < |names| && name in names[..i]
    ensures TextLess(name, names[i])
  {
    var k :| 0 <= k < i && names[..i][k] == name;
  }

  /** The columns of one more name come after those of the names before. */
  lemma OrderedThrough(one: seq<Column>, more: seq<Column>, path: seq<string>, names: seq<string>, i: nat)
    requires StrictlySorted(names) && i < |names| && InPathOrder(one) && InPathOrder(more)
    requires Through(one, path, names[..i]) && Through(more, path, [names[i]])
    ensures InPathOrder(one + more) && Through(one + more, path, names[..i + 1])
  {
    var all := one + more;
    assert names[..i + 1] == names[..i] + [names[i]];
    hide PathBefore, TextLess;
    forall j, k | 0 <= j < k < |all| ensures PathBefore(all[j].path, all[k].path) {
      if j < |one| <= k {
        assert one[j] in one && more[k - |one|] in more;
        NamesBefore(names, i, one[j].path[|path|]);
        ForksAfter(path, one[j].path, more[k - |one|].path);
      }
    }
  }

  /** A name that the columns of names before have taken is taken for every leaf below the next. */
  lemma CompleteNext(d: Document, candidate: Option<SchemaNode>, path: seq<string>, names: seq<string>, i: nat,
                     maxDepth: nat,
                     taken: set<string>, one: seq<Column>, more: seq<Column>)
    requires StrictlySorted(names) && i < |names| && Through(one, path, names[..i])
    requires Complete(d, candidate, path + [names[i]], maxDepth, taken + TakenBy(one), more)
    ensures Complete(d, candidate, path + [names[i]], maxDepth, taken, one + more)
  {
    var below := path + [names[i]];
    hide Upper, NameOf, Leaf, TakenFor, Resolve;
    forall p | Leaf(d, candidate, |below|, p, maxDepth)
      ensures below + p != [] && (Upper(NameOf(below + p)) in taken || TakenFor(one + more, below + p))
    {
      if Upper(NameOf(below + p)) in TakenBy(one) {
        TakenBefore(path, names, i, one, below + p);
      }
      TakenForLonger(one, more, below + p);
    }
  }

  lemma TakenBefore(path: seq<string>, names: seq<string>, i: nat, one: seq<Column>, p: seq<string>)
    requires StrictlySorted(names) && i < |names| && Through(one, path, names[..i]) && path + [names[i]] <= p
    requires Upper(NameOf(p)) in TakenBy(one)
    ensures TakenFor(one, p)
  {
    hide Upper, NameOf, TextLess;
    var j :| 0 <= j < |one| && Upper(one[j].name) == Upper(NameOf(p));
    assert one[j] in one;
    NamesBefore(names, i, one[j].path[|path|]);
    assert p[|path|] == (path + [names[i]])[|path|] && p[..|path|] == path;
    ForksAfter(path, one[j].path, p);
  }

  lemma SoundIsThrough(d: Document, candidate: Option<SchemaNode>, path: seq<string>, name: string, maxDepth: nat,
                       more: seq<Column>)
    requires Sound(d, candidate, path + [name], maxDepth, more)
    ensures Through(more, path, [name])
  {
    forall c | c in more ensures |path| < |c.path| && path <= c.path && c.path[|path|] in [name] {
      assert path + [name] <= c.path && (path + [name])[|path|] == name;
      assert c.path[..|path| + 1] == path + [name];
    }
  }

  lemma SoundBelow(d: Document, candidate: Option<SchemaNode>, path: seq<string>, name: string, maxDepth: nat,
                   one: seq<Column>, more: seq<Column>)
    requires 0 < |path| <= maxDepth && Resolve(d, candidate, {}).Some?
    requires !Terminal(Resolve(d, candidate, {}).value, |path|, maxDepth)
    requires name in PropertiesOf(Resolve(d, candidate, {}).value)
    requires Sound(d, candidate, path, maxDepth, one)
    requires Sound(d, PropertiesOf(Resolve(d, candidate, {}).value)[name], path + [name], maxDepth, more)
    ensures Sound(d, candidate, path, maxDepth, one + more)
  {
    forall i | 0 <= i < |more|
      ensures path <= more[i].path && Leaf(d, candidate, |path|, more[i].path[|path|..], maxDepth)
    {
      var p := more[i].path;
      assert path + [name] <= p;
      assert p[|path|..][0] == (path + [name])[|path|] == name;
      assert p[|path|..][1..] == p[|path| + 1..];
    }
  }

  lemma CompleteAbove(d: Document, candidate: Option<SchemaNode>, path: seq<string>, maxDepth: nat, taken: set<string>,
                      added: seq<Column>)
    requires 0 < |path| <= maxDepth && Resolve(d, candidate, {}).Some?
    requires !Terminal(Resolve(d, candidate, {}).value, |path|, maxDepth)
    requires var below := PropertiesOf(Resolve(d, candidate, {}).value);
             forall name :: name in below ==> Complete(d, below[name], path + [name], maxDepth, taken, added)
    ensures Complete(d, candidate, path, maxDepth, taken, added)
  {
    hide Upper, NameOf, Terminal, Resolve, TakenFor;
    var below := PropertiesOf(Resolve(d, candidate, {}).value);
    forall p | Leaf(d, candidate, |path|, p, maxDepth)
      ensures path + p != [] && (Upper(NameOf(path + p)) in taken || TakenFor(added, path + p))
    {
      assert path + p == (path + [p[0]]) + p[1..];
      assert Complete(d, below[p[0]], path + [p[0]], maxDepth, taken, added);
      assert Leaf(d, below[p[0]], |path + [p[0]]|, p[1..], maxDepth);
    }
  }

  lemma NoColumns(d: Document, candidate: Option<SchemaNode>, path: seq<string>, maxDepth: nat, taken: set<string>)
    ensures Sound(d, candidate, path, maxDepth, []) && InPathOrder([])
    ensures Resolve(d, candidate, {}).None? || |path| == 0 || |path| > maxDepth ==>
              Complete(d, candidate, path, maxDepth, taken, [])
  {
  }

  lemma OneColumn(d: Document, candidate: Option<SchemaNode>, path: seq<string>, maxDepth: nat, taken: set<string>)
    requires 0 < |path| <= maxDepth && Resolve(d, candidate, {}).Some?
    requires Terminal(Resolve(d, candidate, {}).value, |path|, maxDepth)
    ensures Sound(d, candidate, path, maxDepth, [Column(NameOf(path), path)])
    ensures Complete(d, candidate, path, maxDepth, taken, [Column(NameOf(path), path)])
    ensures Upper(NameOf(path)) in taken ==> Complete(d, candidate, path, maxDepth, taken, [])
  {
    assert path + [] == path;
    assert TakenFor([Column(NameOf(path), path)], path) by { assert [Column(NameOf(path), path)][0].path == path; }
  }

  /** The columns of a table under expansion, and the names that are taken. */
  class ExpandedTable {
    var columns: seq<Column>
    var existing: set<string>

    /** Names are taken without regard to case, and no two columns share one. */
    ghost predicate Valid()
      reads this
    {
      && existing == TakenBy(columns)
      && (forall i, j :: 0 <= i < j < |columns| ==> Upper(columns[i].name) != Upper(columns[j].name))
    }

    constructor ()
      ensures Valid() && columns == []
    {
      columns, existing := [], {};
    }

    /** A column whose name is taken is left out. */
    method AppendColumn(path: seq<string>) returns (ghost added: seq<Column>)
      requires Valid() && path != []
      modifies this
      ensures Valid() && columns == old(columns) + added
      ensures added == if Upper(NameOf(path)) in old(existing) then [] else [Column(NameOf(path), path)]
      ensures Upper(NameOf(path)) in existing
    {
      var name := NameOf(path);
      var key := Upper(name);
      if key in existing {
        return [];
      }
      added := [Column(name, path)];
      TakenByBoth(columns, added);
      assert Upper(added[0].name) in TakenBy(added) && TakenBy(added) == {key};
      forall i | 0 <= i < |columns| ensures Upper(columns[i].name) in TakenBy(columns) {
      }
      columns := columns + [Column(name, path)];
      existing := existing + {key};
    }

    /** Names are handed out in the order of paths: each to the first leaf that bears it. */
    method AppendExpanded(d: Document, candidate: Option<SchemaNode>, path: seq<string>, maxDepth: nat)
      returns (ghost added: seq<Column>)
      requires Valid()
      modifies this
      ensures Valid() && columns == old(columns) + added && existing == old(existing) + TakenBy(added)
      ensures Sound(d, candidate, path, maxDepth, added) && InPathOrder(added)
      ensures Complete(d, candidate, path, maxDepth, old(existing), added)
      decreases maxDepth - |path|
    {
      NoColumns(d, candidate, path, maxDepth, existing);
      TakenByNone();
      hide Sound, Complete, Terminal, Leaf, InPathOrder, TakenBy;
      if candidate.None? || |path| == 0 || |path| > maxDepth {
        return [];
      }
      var resolved := Resolve(d, candidate, {});
      if resolved.None? {
        return [];
      }
      if Terminal(resolved.value, |path|, maxDepth) {
        OneColumn(d, candidate, path, maxDepth, existing);
        OneInOrder(Column(NameOf(path), path));
        added := AppendColumn(path);
        TakenByBoth(old(columns), added);
        return;
      }
      var properties := PropertiesOf(resolved.value);
      var names := SortedNames(properties.Keys);
      added := [];
      NoneThrough(path);
      for i := 0 to |names|
        invariant Valid() && columns == old(columns) + added && existing == old(existing) + TakenBy(added)
        invariant Sound(d, candidate, path, maxDepth, added) && InPathOrder(added) && Through(added, path, names[..i])
        invariant forall k :: 0 <= k < i ==>
            Complete(d, properties[names[k]], path + [names[k]], maxDepth, old(existing), added)
      {
        ghost var more := AppendExpanded(d, properties[names[i]], path + [names[i]], maxDepth);
        SoundBelow(d, candidate, path, names[i], maxDepth, added, more);
        SoundIsThrough(d, properties[names[i]], path, names[i], maxDepth, more);
        OrderedThrough(added, more, path, names, i);
        CompleteNext(d, properties[names[i]], path, names, i, maxDepth, old(existing), added, more);
        forall k | 0 <= k < i
          ensures Complete(d, properties[names[k]], path + [names[k]], maxDepth, old(existing), added + more)
        {
          CompleteLonger(d, properties[names[k]], path + [names[k]], maxDepth, old(existing), added, more);
        }
        TakenByBoth(added, more);
        assert old(columns) + added + more == old(columns) + (added + more);
        added := added + more;
      }
      forall name | name in properties
        ensures Complete(d, properties[name], path + [name], maxDepth, old(existing), added)
      {
        assert name in names;
      }
      CompleteAbove(d, candidate, path, maxDepth, old(existing), added);
    }

    /** Turns all properties of the resource but its version and kind into columns. */
    method ExpandRoot(d: Document, root: SchemaNode, maxDepth: nat) returns (ghost added: seq<Column>)
      requires Valid()
      modifies this
      ensures Valid() && columns == old(columns) + added
      ensures forall i :: 0 <= i < |added| ==> IsRootColumn(d, root, maxDepth, added[i])
      ensures forall p :: RootLeaf(d, root, p, maxDepth) ==> Upper(NameOf(p)) in old(existing) || TakenFor(added, p)
      ensures Expanded(added) && InPathOrder(added)
    {
      var properties := PropertiesOf(root);
      var names := SortedNames(properties.Keys);
      added := [];
      NoneThrough([]);
      TakenByNone();
      hide Complete, Sound, IsRootColumn, EqualFold, Expanded, InPathOrder, TakenBy;
      for i := 0 to |names|
        invariant Valid() && columns == old(columns) + added && existing == old(existing) + TakenBy(added)
        invariant forall k :: 0 <= k < |added| ==> IsRootColumn(d, root, maxDepth, added[k])
        invariant InPathOrder(added) && Through(added, [], names[..i])
        invariant forall k :: 0 <= k < i && !Skipped(names[k]) ==>
                    Complete(d, properties[names[k]], [] + [names[k]], maxDepth, old(existing), added)
      {
        hide Skipped;
        if !Skipped(names[i]) && properties[names[i]].Some? {
          ghost var more := AppendExpanded(d, properties[names[i]], [names[i]], maxDepth);
          assert [] + [names[i]] == [names[i]];
          RootSound(d, root, names[i], maxDepth, more);
          SoundIsThrough(d, properties[names[i]], [], names[i], maxDepth, more);
          OrderedThrough(added, more, [], names, i);
          CompleteNext(d, properties[names[i]], [], names, i, maxDepth, old(existing), added, more);
          forall k | 0 <= k < i && !Skipped(names[k])
            ensures Complete(d, properties[names[k]], [] + [names[k]], maxDepth, old(existing), added + more)
          {
            CompleteLonger(d, properties[names[k]], [] + [names[k]], maxDepth, old(existing), added, more);
          }
          TakenByBoth(added, more);
          assert old(columns) + added + more == old(columns) + (added + more);
          added := added + more;
        } else {
          if properties[names[i]].None? {
            NothingBelow(d, [] + [names[i]], maxDepth, old(existing), added);
          }
          NoMoreThrough(added, [], names, i);
        }
      }
      forall p | RootLeaf(d, root, p, maxDepth) ensures Upper(NameOf(p)) in old(existing) || TakenFor(added, p) {
        RootComplete(d, root, p, maxDepth, old(existing), added, names);
      }
      ghost var start := |old(columns)|;
      forall i, j | 0 <= i < j < |added| ensures Upper(added[i].name) != Upper(added[j].name) {
        assert columns[start + i] == added[i] && columns[start + j] == added[j];
      }
      RootColumnsExpanded(d, root, maxDepth, added);
    }
  }

  lemma TakenByNone()
    ensures TakenBy([]) == {}
  {
  }

  lemma OneInOrder(c: Column)
    ensures InPathOrder([c])
  {
  }

  lemma NoneThrough(path: seq<string>)
    ensures InPathOrder([]) && forall names: seq<string> :: Through([], path, names[..0])
  {
  }

  lemma NoMoreThrough(added: seq<Column>, path: seq<string>, names: seq<string>, i: nat)
    requires i < |names| && Through(added, path, names[..i])
    ensures Through(added, path, names[..i + 1])
  {
    assert names[..i + 1] == names[..i] + [names[i]];
  }

  predicate Skipped(name: string) {
    EqualFold(name, "apiVersion") || EqualFold(name, "kind")
  }

  /** A column of a leaf, named after its path. */
  predicate IsRootColumn(d: Document, root: SchemaNode, maxDepth: nat, c: Column) {
    RootLeaf(d, root, c.path, maxDepth) && c.name == NameOf(c.path)
  }

  lemma RootSound(d: Document, root: SchemaNode, name: string, maxDepth: nat, more: seq<Column>)
    requires name in PropertiesOf(root) && !Skipped(name)
    requires Sound(d, PropertiesOf(root)[name], [name], maxDepth, more)
    ensures forall i :: 0 <= i < |more| ==> IsRootColumn(d, root, maxDepth, more[i])
  {
    forall i | 0 <= i < |more| ensures IsRootColumn(d, root, maxDepth, more[i]) {
      assert [name] <= more[i].path && more[i].path[0] == [name][0];
    }
  }

  lemma NothingBelow(d: Document, path: seq<string>, maxDepth: nat, taken: set<string>, added: seq<Column>)
    ensures Complete(d, None, path, maxDepth, taken, added)
  {
  }

  lemma RootComplete(d: Document, root: SchemaNode, p: seq<string>, maxDepth: nat, taken: set<string>, added: seq<Column>,
                     names: seq<string>)
    requires RootLeaf(d, root, p, maxDepth)
    requires forall x :: x in names <==> x in PropertiesOf(root)
    requires forall k :: 0 <= k < |names| && !Skipped(names[k]) ==>
               Complete(d, PropertiesOf(root)[names[k]], [] + [names[k]], maxDepth, taken, added)
    ensures Upper(NameOf(p)) in taken || TakenFor(added, p)
  {
    assert p[0] in names;
    assert Complete(d, PropertiesOf(root)[p[0]], [] + [p[0]], maxDepth, taken, added);
    assert p == ([] + [p[0]]) + p[1..];
  }

  /** A table of expanded columns: distinct names, and no path a prefix of another. */
  ghost predicate Expanded(columns: seq<Column>) {
    && (forall i :: 0 <= i < |columns| ==> columns[i].path != [] && columns[i].name == NameOf(columns[i].path))
    && (forall i, j :: 0 <= i < j < |columns| ==> Apart(columns[i].path, columns[j].path))
    && (forall i, j :: 0 <= i < j < |columns| ==> Upper(columns[i].name) != Upper(columns[j].name))
  }

  lemma RootColumnsExpanded(d: Document, root: SchemaNode, maxDepth: nat, columns: seq<Column>)
    requires forall i :: 0 <= i < |columns| ==> IsRootColumn(d, root, maxDepth, columns[i])
    requires forall i, j :: 0 <= i < j < |columns| ==> Upper(columns[i].name) != Upper(columns[j].name)
    ensures Expanded(columns)
  {
    forall i, j | 0 <= i < j < |columns| ensures Apart(columns[i].path, columns[j].path) {
      RootLeavesAreApart(d, root, columns[i].path, columns[j].path, maxDepth);
    }
  }

  // ---------- Source paths ----------

  predicate BlankChar(c: char) {
    c == ' ' || '\t' <= c <= '\r'
  }

  predicate Blank(s: string) {
    forall i :: 0 <= i < |s| ==> BlankChar(s[i])
  }

  function Trim(s: string): (r: string)
    ensures |r| <= |s|
    decreases |s|
  {
    if s == "" then ""
    else if BlankChar(s[0]) then Trim(s[1..])
    else if BlankChar(s[|s| - 1]) then Trim(s[..|s| - 1])
    else s
  }

  predicate Unpadded(s: string) {
    s == "" || (!BlankChar(s[0]) && !BlankChar(s[|s| - 1]))
  }

  lemma {:induction false} TrimMeans(s: string)
    ensures Trim(s) == "" <==> Blank(s)
    ensures Trim(s) == s <==> Unpadded(s)
    decreases |s|
  {
    if s != "" {
      if BlankChar(s[0]) {
        TrimMeans(s[1..]);
        assert s == [s[0]] + s[1..];
      } else if BlankChar(s[|s| - 1]) {
        assert !Blank(s);
        TrimMeans(s[..|s| - 1]);
        assert s[..|s| - 1][0] == s[0];
      }
    }
  }

  /** Exactly the blanks around a text are trimmed. */
  lemma {:induction false} PaddingIsTrimmed(before: string, s: string, after: string)
    requires Blank(before) && Blank(after) && Unpadded(s)
    ensures Trim(before + s + after) == s
    decreases |before| + |after|
  {
    var all := before + s + after;
    if before != "" {
      assert all[1..] == before[1..] + s + after && all[0] == before[0];
      PaddingIsTrimmed(before[1..], s, after);
    } else if s == "" {
      assert all == after && Blank(all);
      TrimMeans(all);
    } else if after != "" {
      var n := |after| - 1;
      assert all[..|all| - 1] == before + s + after[..n] && all[|all| - 1] == after[n] && all[0] == s[0];
      PaddingIsTrimmed(before, s, after[..n]);
    } else {
      assert all == s;
      TrimMeans(s);
    }
  }

  /** A name with its double underscores turned to dots. */
  function Dotted(name: string): string {
    if |name| < 2 then name
    else if name[..2] == "__" then "." + Dotted(name[2..])
    else [name[0]] + Dotted(name[1..])
  }

  /** Two underscores stand there. */
  predicate DoubleAt(name: string, i: int) {
    0 <= i < |name| - 1 && name[i] == name[i + 1] == '_'
  }

  /** From the left, each double underscore becomes a dot, and nothing else changes. */
  lemma {:induction false} DottedMeans(name: string, i: int)
    ensures (forall j :: !DoubleAt(name, j)) ==> Dotted(name) == name
    ensures DoubleAt(name, i) && (forall j :: j < i ==> !DoubleAt(name, j)) ==>
              Dotted(name) == name[..i] + "." + Dotted(name[i + 2..])
    decreases |name|
  {
    if |name| >= 2 {
      var rest := name[1..];
      assert name[..2] == "__" <==> DoubleAt(name, 0);
      assert forall j :: j >= 0 ==> (DoubleAt(rest, j) <==> DoubleAt(name, j + 1));
      assert forall j :: j > 0 ==> (DoubleAt(name, j) <==> DoubleAt(rest, j - 1));
      if !DoubleAt(name, 0) {
        DottedMeans(rest, i - 1);
        if DoubleAt(name, i) && forall j :: j < i ==> !DoubleAt(name, j) {
          assert rest[..i - 1] == name[1..i] && rest[i + 1..] == name[i + 2..] && name[..i] == [name[0]] + name[1..i];
        }
      }
    }
  }

  lemma {:induction false} DottedBlank(name: string)
    requires Blank(name)
    ensures Dotted(name) == name
  {
    if |name| >= 2 {
      assert name[0] == name[..2][0];
      DottedBlank(name[1..]);
    }
  }

  predicate NoBlankPart(path: seq<string>) {
    forall i :: 0 <= i < |path| ==> Trim(path[i]) != ""
  }

  /** The source path that an assignment to a column of the given name and source name is made at. */
  function MutationColumnPath(name: string, sourceName: string): Option<seq<string>> {
    var given := Trim(sourceName);
    var source := if given == "" then Dotted(name) else given;
    if source == "" || source == "$" then None
    else
      var path := Split(source, '.');
      if NoBlankPart(path) then Some(path) else None
  }

  /** The path planned for an assignment to a column; three names are treated on their own. */
  function PlannedPath(c: Column): Option<seq<string>>
    requires c.path != []
  {
    var key := Upper(c.name);
    if key == "OBJECT" then Some([])
    else if key == "METADATA" then Some(["metadata"])
    else if key == "SPEC" then Some(["spec"])
    else MutationColumnPath(c.name, Join(c.path, '.'))
  }

  /** Names a source path survives. */
  predicate Plain(path: seq<string>)
    requires path != []
  {
    && FreeOf(path, '.')
    && (forall i :: 0 <= i < |path| ==> !Blank(path[i]))
    && Unpadded(Join(path, '.'))
    && path != ["$"]
  }

  predicate Reserved(path: seq<string>)
    requires path != []
  {
    var key := Upper(NameOf(path));
    || key == "OBJECT"
    || (key == "METADATA" && path != ["metadata"])
    || (key == "SPEC" && path != ["spec"])
  }

  lemma SourcePathReadsBack(path: seq<string>)
    requires path != []
    ensures MutationColumnPath(NameOf(path), Join(path, '.')) == Some(path) <==> Plain(path)
  {
    TrimMeans(Join(path, '.'));
    if Trim(Join(path, '.')) == "" {
      BlankPathIsRefused(path);
    } else {
      GivenPathReadsBack(path, Trim(Join(path, '.')));
    }
  }

  lemma BlankPathIsRefused(path: seq<string>)
    requires path != [] && Blank(Join(path, '.'))
    ensures !Plain(path) && MutationColumnPath(NameOf(path), Join(path, '.')).None?
  {
    BlankJoin(path);
    TrimMeans(path[0]);
    DottedBlank(path[0]);
    SplitFree(path[0]);
    assert Split(path[0], '.')[0] == path[0];
  }

  lemma NoBlankPartMeans(path: seq<string>)
    ensures NoBlankPart(path) <==> forall i :: 0 <= i < |path| ==> !Blank(path[i])
  {
    forall i | 0 <= i < |path| ensures Trim(path[i]) == "" <==> Blank(path[i]) {
      TrimMeans(path[i]);
    }
  }

  lemma GivenPathReadsBack(path: seq<string>, given: string)
    requires path != [] && given != "" && given == Trim(Join(path, '.'))
    ensures (given != "$" && Split(given, '.') == path && NoBlankPart(path)) <==> Plain(path)
  {
    var source := Join(path, '.');
    TrimMeans(source);
    NoBlankPartMeans(path);
    JoinSplit(given, '.');
    if FreeOf(path, '.') {
      SplitJoin(path, '.');
    }
    SplitFree("$");
    assert Join(["$"], '.') == "$";
  }

  lemma SplitFree(s: string)
    requires '.' !in s
    ensures Split(s, '.') == [s]
  {
    assert Join([s], '.') == s;
    SplitJoin([s], '.');
  }

  lemma JoinHasDot(path: seq<string>)
    requires |path| > 1
    ensures |path[0]| < |Join(path, '.')| && Join(path, '.')[|path[0]|] == '.'
  {
  }

  lemma BlankJoin(path: seq<string>)
    requires path != [] && Blank(Join(path, '.'))
    ensures |path| == 1 && Blank(path[0])
  {
    if |path| > 1 {
      JoinHasDot(path);
    }
  }

  /** An assignment to an expanded column is made at the column's own path, exactly for plain, unreserved paths. */
  lemma PlannedAtItsPath(c: Column)
    requires c.path != [] && c.name == NameOf(c.path)
    ensures PlannedPath(c) == Some(c.path) <==> !Reserved(c.path) && Plain(c.path)
  {
    SourcePathReadsBack(c.path);
    hide Upper, NameOf, MutationColumnPath, Join, Plain;
    WordsArePlain();
  }

  lemma WordsArePlain()
    ensures Plain(["metadata"]) && Plain(["spec"])
  {
    assert Join(["metadata"], '.') == "metadata" && Join(["spec"], '.') == "spec";
    assert "metadata"[0] == 'm' && "spec"[0] == 's';
  }
}
