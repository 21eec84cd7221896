/** The dependency graph between cached entities, and its expansion. */
module Dependencies {
  import opened CacheTypes

  /** For a changed entity, the entities whose cached results depend on it directly. */
  type Graph = map<Entity, seq<Entity>>

  function DependentsOf(graph: Graph, e: Entity): seq<Entity> {
    if e in graph then graph[e] else []
  }

  /** A chain of dependencies through named entities. */
  ghost predicate IsChain(graph: Graph, p: seq<Entity>) {
    && p != []
    && (forall i :: 0 <= i < |p| ==> p[i] != "")
    && (forall i :: 0 <= i < |p| - 1 ==> p[i + 1] in DependentsOf(graph, p[i]))
  }

  /** A change of `from` affects the results over `to`. Every named entity affects itself. */
  ghost predicate Reaches(graph: Graph, from: Entity, to: Entity) {
    exists p :: IsChain(graph, p) && p[0] == from && p[|p| - 1] == to
  }

  ghost function Universe(graph: Graph, es: set<Entity>): set<Entity> {
    es + set k, x | k in graph && x in graph[k] :: x
  }

  /** Everything a change of the given entities affects. */
  ghost function Affected(graph: Graph, es: set<Entity>): set<Entity> {
    set x | x in Universe(graph, es) && exists e :: e in es && Reaches(graph, e, x)
  }

  lemma ReachesItself(graph: Graph, e: Entity)
    requires e != ""
    ensures Reaches(graph, e, e)
  {
    assert IsChain(graph, [e]);
  }

  lemma ReachesOnward(graph: Graph, e: Entity, x: Entity, y: Entity)
    requires Reaches(graph, e, x) && y != "" && y in DependentsOf(graph, x)
    ensures Reaches(graph, e, y)
  {
    var p :| IsChain(graph, p) && p[0] == e && p[|p| - 1] == x;
    assert IsChain(graph, p + [y]);
  }

  /** A set of named entities that holds `from` and the named dependents of its members holds all that `from` reaches. */
  lemma {:induction false} ClosedHoldsReached(graph: Graph, s: set<Entity>, p: seq<Entity>)
    requires IsChain(graph, p) && p[0] in s
    requires forall x, y :: x in s && y in DependentsOf(graph, x) && y != "" ==> y in s
    ensures p[|p| - 1] in s
  {
    if |p| > 1 {
      assert p[1] in DependentsOf(graph, p[0]);
      ClosedHoldsReached(graph, s, p[1..]);
    }
  }

  lemma AffectedIsReachable(graph: Graph, es: set<Entity>, e: Entity, x: Entity)
    requires e in es && Reaches(graph, e, x)
    ensures x in Affected(graph, es)
  {
    var p :| IsChain(graph, p) && p[0] == e && p[|p| - 1] == x;
    if |p| > 1 {
      assert x in DependentsOf(graph, p[|p| - 2]);
      assert x in Universe(graph, es);
    }
  }

  function Elements(s: seq<Entity>): set<Entity> {
    set e | e in s
  }

  lemma ElementsGrow(s: seq<Entity>, e: Entity)
    ensures Elements(s + [e]) == Elements(s) + {e}
  {
  }

  ghost predicate Distinct<T>(s: seq<T>) {
    forall i, j :: 0 <= i < j < |s| ==> s[i] != s[j]
  }

  /** What the expansion loop keeps: found entities are affected, and nothing affected is lost from sight. */
  ghost predicate Expanding(graph: Graph, es: set<Entity>, queue: seq<Entity>, seen: set<Entity>) {
    && (forall e :: e in es && e != "" ==> e in seen || e in queue)
    && (forall x :: x in seen ==> x in Affected(graph, es))
    && (forall x :: x in queue && x != "" ==> x in Affected(graph, es))
    && (forall x, y :: x in seen && y in DependentsOf(graph, x) && y != "" ==> y in seen || y in queue)
  }

  lemma ExpandingStarts(graph: Graph, entities: seq<Entity>, es: set<Entity>)
    requires es == Elements(entities)
    ensures Expanding(graph, es, entities, {})
  {
    forall x | x in entities && x != ""
      ensures x in Affected(graph, es)
    {
      ReachesItself(graph, x);
      AffectedIsReachable(graph, es, x, x);
    }
  }

  lemma ExpandingSkips(graph: Graph, es: set<Entity>, queue: seq<Entity>, seen: set<Entity>)
    requires Expanding(graph, es, queue, seen) && queue != []
    requires queue[0] == "" || queue[0] in seen
    ensures Expanding(graph, es, queue[1..], seen)
  {
    assert forall x :: x in queue ==> x == queue[0] || x in queue[1..];
  }

  lemma DependentIsAffected(graph: Graph, es: set<Entity>, x: Entity, y: Entity)
    requires x in Affected(graph, es) && y in DependentsOf(graph, x) && y != ""
    ensures y in Affected(graph, es)
  {
    var e :| e in es && Reaches(graph, e, x);
    ReachesOnward(graph, e, x, y);
    AffectedIsReachable(graph, es, e, y);
  }

  lemma ExpandingVisits(graph: Graph, es: set<Entity>, queue: seq<Entity>, seen: set<Entity>)
    requires Expanding(graph, es, queue, seen) && queue != []
    requires queue[0] != "" && queue[0] !in seen
    ensures Expanding(graph, es, queue[1..] + DependentsOf(graph, queue[0]), seen + {queue[0]})
    ensures |seen| < |seen + {queue[0]}| <= |Affected(graph, es)|
  {
    var x := queue[0];
    var more := DependentsOf(graph, x);
    assert forall z :: z in queue ==> z == x || z in queue[1..];
    forall y | y in more && y != ""
      ensures y in Affected(graph, es)
    {
      DependentIsAffected(graph, es, x, y);
    }
    hide Affected, Reaches, Universe;
    SubsetSize(seen + {x}, Affected(graph, es));
  }

  lemma ExpandingEnds(graph: Graph, es: set<Entity>, seen: set<Entity>)
    requires Expanding(graph, es, [], seen)
    ensures seen == Affected(graph, es)
  {
    hide Reaches, Universe;
    forall x | x in Affected(graph, es)
      ensures x in seen
    {
      var e :| e in es && Reaches(graph, e, x);
      ClosedHoldsAffected(graph, es, seen, e, x);
    }
  }

  lemma ClosedHoldsAffected(graph: Graph, es: set<Entity>, seen: set<Entity>, e: Entity, x: Entity)
    requires Expanding(graph, es, [], seen) && e in es && Reaches(graph, e, x)
    ensures x in seen
  {
    var p :| IsChain(graph, p) && p[0] == e && p[|p| - 1] == x;
    assert p[0] != "";
    hide IsChain, Affected, Universe, DependentsOf;
    ClosedHoldsReached(graph, seen, p);
  }

  lemma SubsetSize<T>(s: set<T>, u: set<T>)
    requires s <= u
    ensures |s| <= |u|
  {
    if s != {} {
      var x :| x in s;
      SubsetSize(s - {x}, u - {x});
    }
  }

  /** The breadth-first expansion: on every graph, cyclic or not, it ends with each affected entity exactly once. */
  method ExpandEntities(graph: Graph, entities: seq<Entity>) returns (expanded: seq<Entity>)
    ensures Distinct(expanded)
    ensures Elements(expanded) == Affected(graph, Elements(entities))
  {
    hide Expanding, Affected, DependentsOf;
    ghost var es := Elements(entities);
    var queue := entities;
    var seen: set<Entity> := {};
    expanded := [];
    ExpandingStarts(graph, entities, es);
    while queue != []
      invariant Expanding(graph, es, queue, seen)
      invariant Distinct(expanded) && Elements(expanded) == seen
      decreases |Affected(graph, es)| - |seen|, |queue|
    {
      var entity := queue[0];
      if entity == "" || entity in seen {
        ExpandingSkips(graph, es, queue, seen);
        queue := queue[1..];
      } else {
        ExpandingVisits(graph, es, queue, seen);
        queue := queue[1..] + DependentsOf(graph, entity);
        seen := seen + {entity};
        ElementsGrow(expanded, entity);
        expanded := expanded + [entity];
      }
    }
    ExpandingEnds(graph, es, seen);
  }
}
