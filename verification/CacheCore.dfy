/**
  Generations, the store and the branch records of the query cache.

  The functions on Cache values say what one locked region does; class CacheState runs the regions in
  place and is proved against them.
 */
module CacheCore {
  import opened CacheTypes
  import opened Options
  import opened Dependencies
  import LruStore

  /** The key of a transaction branch. */
  type Branch = string

  /** Invalidation owed by a prepared branch: some entities, or everything. */
  datatype Retained = Retained(entities: set<Entity>, all: bool)

  datatype Config = Config(limits: LruStore.Limits, maxEntryBytes: nat, graph: Graph)

  datatype Cache = Cache(
    store: seq<LruStore.Entry>,
    global: nat,
    generations: map<Entity, nat>,
    branches: map<Branch, Retained>)

  const EMPTY := Cache([], 0, map[], map[])

  // ---------- The locked regions ----------

  function EntityGeneration(generations: map<Entity, nat>, e: Entity): nat {
    if e in generations then generations[e] else 0
  }

  function GenerationOf(c: Cache, e: Entity): Generation {
    Generation(c.global, EntityGeneration(c.generations, e))
  }

  function Lookup(c: Cache, q: Query, now: int): (Generation, Option<CachedResult>, Cache) {
    var generation := GenerationOf(c, q.entity);
    var (found, store) := LruStore.Get(c.store, KeyFor(q, generation), now);
    (generation, found, c.(store := store))
  }

  function StoreIfCurrent(config: Config, c: Cache, q: Query, captured: Generation, result: CachedResult, now: int): Cache {
    if result.size > config.maxEntryBytes || GenerationOf(c, q.entity) != captured then c
    else c.(store := LruStore.Set(c.store, KeyFor(q, captured), result, now, config.limits))
  }

  /** A lookup serves exactly the unexpired result of the query that is stored under the current generation. */
  lemma LookupServesExactlyWhen(c: Cache, q: Query, now: int, v: CachedResult)
    requires LruStore.DistinctKeys(c.store)
    ensures var (captured, found, after) := Lookup(c, q, now);
            && captured == GenerationOf(c, q.entity) && after.(store := c.store) == c
            && (found == Some(v) <==>
                 exists e :: e in c.store && QueryKey(q.entity, q.digest, captured) == e.key && e.result == v
                     && now < e.expiresAt)
  {
    LruStore.GetFacts(c.store, KeyFor(q, GenerationOf(c, q.entity)), now);
    hide LruStore.Get;
  }

  /**
    Only a result captured under the current generation enters the store, in front, under a key that a lookup now
    would use.
   */
  lemma OnlyCurrentResultsEnter(config: Config, c: Cache, q: Query, captured: Generation, result: CachedResult, now: int)
    requires LruStore.DistinctKeys(c.store) && config.limits.maxEntries >= 1
    ensures var after := StoreIfCurrent(config, c, q, captured, result, now);
            && after.(store := c.store) == c
            && (forall e :: e in after.store && e !in c.store ==>
                 e.key == KeyFor(q, GenerationOf(c, q.entity)) && e.result == result && result.size <= config.maxEntryBytes)
            && (captured == GenerationOf(c, q.entity) && result.size <= config.maxEntryBytes
                && result.size <= config.limits.maxBytes ==>
                 after.store != [] && after.store[0] == LruStore.Entry(KeyFor(q, captured), result, now + config.limits.ttl))
            && (captured != GenerationOf(c, q.entity) || result.size > config.maxEntryBytes ==> after == c)
  {
    LruStore.SetFacts(c.store, KeyFor(q, captured), result, now, config.limits);
    hide LruStore.Set, LruStore.Others, LruStore.Bytes, LruStore.Fits, LruStore.DistinctKeys;
  }

  /** A result under another key goes only for a stored one that leaves it no room. */
  lemma StoringSparesExactlyWhen(config: Config, c: Cache, q: Query, captured: Generation, result: CachedResult, now: int,
                                 i: nat)
    requires LruStore.DistinctKeys(c.store) && config.limits.maxEntries >= 1
    requires i < |c.store| && c.store[i].key != KeyFor(q, captured)
    ensures c.store[i] in StoreIfCurrent(config, c, q, captured, result, now).store <==>
              captured != GenerationOf(c, q.entity) || result.size > config.maxEntryBytes
              || result.size > config.limits.maxBytes
              || LruStore.LeavesRoom(c.store, i, LruStore.Entry(KeyFor(q, captured), result, now + config.limits.ttl), config.limits)
  {
    if result.size <= config.limits.maxBytes {
      LruStore.StaysExactlyWhen(c.store, i, KeyFor(q, captured), result, now, config.limits);
    } else {
      LruStore.SetFacts(c.store, KeyFor(q, captured), result, now, config.limits);
    }
    hide LruStore.Set, LruStore.Others, LruStore.Bytes, LruStore.Fits, LruStore.DistinctKeys, LruStore.LeavesRoom;
  }

  ghost function Raised(generations: map<Entity, nat>, es: set<Entity>): map<Entity, nat> {
    map e | e in generations.Keys + es :: EntityGeneration(generations, e) + (if e in es then 1 else 0)
  }

  ghost function InvalidateEntities(config: Config, c: Cache, es: set<Entity>): Cache {
    c.(generations := Raised(c.generations, Affected(config.graph, es)))
  }

  function InvalidateAll(c: Cache): Cache {
    c.(global := c.global + 1)
  }

  /** Discharges an obligation: everything, or the listed entities and what depends on them. */
  ghost function Discharge(config: Config, c: Cache, owed: Retained): Cache {
    if owed.all then InvalidateAll(c) else InvalidateEntities(config, c, owed.entities)
  }

  function Merge(previous: Option<Retained>, owed: Retained): Retained {
    if owed.all || (previous.Some? && previous.value.all) then Retained({}, true)
    else Retained((if previous.Some? then previous.value.entities else {}) + owed.entities, false)
  }

  function Record(c: Cache, b: Branch): Option<Retained> {
    if b in c.branches then Some(c.branches[b]) else None
  }

  function Retain(c: Cache, b: Branch, owed: Retained): Cache {
    c.(branches := c.branches[b := Merge(Record(c, b), owed)])
  }

  function DropRecord(c: Cache, b: Branch): Cache {
    c.(branches := c.branches - {b})
  }

  /** The second half of resolving a branch: the popped record, or everything when there was none. */
  ghost function DischargePopped(config: Config, c: Cache, popped: Option<Retained>): Cache {
    match popped
    case None => InvalidateAll(c)
    case Some(owed) => Discharge(config, c, owed)
  }

  ghost function Resolve(config: Config, c: Cache, b: Branch, invalidate: bool): Cache {
    if invalidate then DischargePopped(config, DropRecord(c, b), Record(c, b)) else DropRecord(c, b)
  }

  /** The obligation includes invalidating this entity. */
  predicate Covers(owed: Retained, e: Entity) {
    owed.all || e in owed.entities
  }

  ghost predicate GenerationLeq(g: Generation, h: Generation) {
    g.global <= h.global && g.entity <= h.entity
  }

  // ---------- What discharging an obligation means ----------

  lemma NothingAffected(graph: Graph)
    ensures Affected(graph, {}) == {}
  {
  }

  lemma NothingRaised(generations: map<Entity, nat>)
    ensures Raised(generations, {}) == generations
  {
  }

  lemma InvalidatingNothing(config: Config, c: Cache)
    ensures forall t :: GenerationOf(InvalidateEntities(config, c, {}), t) == GenerationOf(c, t)
  {
    NothingAffected(config.graph);
  }

  /** Discharging raises the generation of exactly the results the obligation affects, each once. */
  lemma DischargeRaises(config: Config, c: Cache, owed: Retained, t: Entity)
    ensures var before, after := GenerationOf(c, t), GenerationOf(Discharge(config, c, owed), t);
            && GenerationLeq(before, after)
            && (before != after <==> owed.all || exists e :: Covers(owed, e) && Reaches(config.graph, e, t))
            && (before != after ==> after.global + after.entity == before.global + before.entity + 1)
  {
    if !owed.all {
      if e :| Covers(owed, e) && Reaches(config.graph, e, t) {
        AffectedIsReachable(config.graph, owed.entities, e, t);
      }
    }
  }

  /**
    After a prepare the branch's record covers what it covered before
    and what the prepare owes, and nothing else changes.
   */
  lemma RetainCoversExactlyWhen(c: Cache, b: Branch, owed: Retained, e: Entity)
    ensures var after := Retain(c, b, owed);
            && b in after.branches && after.(branches := c.branches) == c && after.branches - {b} == c.branches - {b}
            && (Covers(after.branches[b], e) <==> Covers(owed, e) || (b in c.branches && Covers(c.branches[b], e)))
  {
  }

  /**
    Resolving with invalidation raises the generation of a result over `t` exactly when the branch has no
    record, or has one that covers something reaching `t`.
   */
  lemma ResolveRaisesExactlyWhen(config: Config, c: Cache, b: Branch, t: Entity)
    ensures GenerationOf(Resolve(config, c, b, true), t) != GenerationOf(c, t)
       <==> (b !in c.branches || c.branches[b].all ||
             exists e :: Covers(c.branches[b], e) && Reaches(config.graph, e, t))
  {
    if b in c.branches {
      DischargeRaises(config, DropRecord(c, b), c.branches[b], t);
    }
  }

  /**
    A commit that failed, a repeated prepare and a second, successful commit: the repeated prepare leaves
    an empty record, so the second commit invalidates nothing although the branch wrote `e`.
   */
  lemma RepeatedPrepareLosesInvalidation(config: Config, c: Cache, b: Branch, e: Entity)
    requires e != "" && b !in c.branches
    ensures var prepared := Retain(c, b, Retained({e}, false));
            var failedCommit := Resolve(config, prepared, b, true);
            var preparedAgain := Retain(failedCommit, b, Retained({}, false));
            var committed := Resolve(config, preparedAgain, b, true);
            && GenerationOf(failedCommit, e) != GenerationOf(prepared, e)
            && GenerationOf(committed, e) == GenerationOf(failedCommit, e)
  {
    var prepared := Retain(c, b, Retained({e}, false));
    ReachesItself(config.graph, e);
    assert Covers(prepared.branches[b], e);
    ResolveRaisesExactlyWhen(config, prepared, b, e);
    var failedCommit := Resolve(config, prepared, b, true);
    var preparedAgain := Retain(failedCommit, b, Retained({}, false));
    ResolveRaisesExactlyWhen(config, preparedAgain, b, e);
  }

  datatype BranchId = BranchId(resourceManager: string, id: string)

  const MAX_BRANCH_ID_BYTES := 256

  /** The branches a server lets through are its own recovery manager's, with an identifier of bounded size. */
  predicate LetThrough(own: string, b: BranchId) {
    b.resourceManager == own && 0 < |b.id| <= MAX_BRANCH_ID_BYTES
  }

  /** The branch key. Branch identifiers are uninterpreted bytes. */
  function CachedBranchKey(resourceManager: string, branchId: string): Branch {
    resourceManager + "\0" + branchId
  }

  /** Two resource managers have a key in common exactly if one, ended by the separator, begins the other. */
  lemma BranchKeysCollideExactlyWhen(m: string, n: string)
    ensures (exists x, y :: CachedBranchKey(m, x) == CachedBranchKey(n, y)) <==>
              m + "\0" <= n + "\0" || n + "\0" <= m + "\0"
  {
    var p, q := m + "\0", n + "\0";
    if x, y :| CachedBranchKey(m, x) == CachedBranchKey(n, y) {
      assert p + x == q + y;
      if |p| <= |q| {
        assert p == (p + x)[..|p|] && q[..|p|] == (q + y)[..|p|];
      } else {
        assert q == (q + y)[..|q|] && p[..|q|] == (p + x)[..|q|];
      }
    }
    if p <= q {
      assert CachedBranchKey(m, q[|p|..]) == q == CachedBranchKey(n, "");
    } else if q <= p {
      assert CachedBranchKey(n, p[|q|..]) == p == CachedBranchKey(m, "");
      assert CachedBranchKey(m, "") == CachedBranchKey(n, p[|q|..]);
    }
  }

  /** So the keys of two branches that a server lets through identify them. */
  lemma BranchKeysIdentifyBranches(own: string, one: BranchId, other: BranchId)
    requires LetThrough(own, one) && LetThrough(own, other)
    ensures CachedBranchKey(one.resourceManager, one.id) == CachedBranchKey(other.resourceManager, other.id) <==>
              one == other
  {
    var n := |own| + 1;
    assert CachedBranchKey(own, one.id)[n..] == one.id;
    assert CachedBranchKey(own, other.id)[n..] == other.id;
  }

  lemma ElementsEmpty()
    ensures Elements([]) == {}
  {
  }

  lemma RaiseOneMore(generations: map<Entity, nat>, es: seq<Entity>, i: nat)
    requires i < |es| && Distinct(es)
    ensures var before := Raised(generations, Elements(es[..i]));
            before[es[i] := EntityGeneration(before, es[i]) + 1] == Raised(generations, Elements(es[..i + 1]))
  {
    assert es[..i + 1] == es[..i] + [es[i]];
    ElementsGrow(es[..i], es[i]);
    assert es[i] !in es[..i];
  }

  // ---------- The state, updated in place ----------

  class CacheState {
    const config: Config
    const store: LruStore.MemoryStore
    var globalGeneration: nat
    var entityGenerations: map<Entity, nat>
    var branchInvalidations: map<Branch, Retained>

    ghost predicate Valid()
      reads this, store
    {
      store.Valid() && store.limits == config.limits
    }

    ghost function View(): Cache
      reads this, store
    {
      Cache(store.recency, globalGeneration, entityGenerations, branchInvalidations)
    }

    constructor (config: Config)
      requires config.limits.maxEntries >= 1
      ensures Valid() && View() == EMPTY && this.config == config && fresh(store)
    {
      this.config := config;
      store := new LruStore.MemoryStore(config.limits);
      globalGeneration := 0;
      entityGenerations := map[];
      branchInvalidations := map[];
    }

    function CurrentGeneration(e: Entity): Generation
      reads this
    {
      Generation(globalGeneration, EntityGeneration(entityGenerations, e))
    }

    method LookupQuery(q: Query, now: int) returns (captured: Generation, found: Option<CachedResult>)
      requires Valid()
      modifies this, store
      ensures Valid()
      ensures (captured, found, View()) == Lookup(old(View()), q, now)
    {
      captured := CurrentGeneration(q.entity);
      found := store.Lookup(KeyFor(q, captured), now);
    }

    method StoreCurrent(q: Query, captured: Generation, result: CachedResult, now: int)
      requires Valid()
      modifies this, store
      ensures Valid()
      ensures View() == StoreIfCurrent(config, old(View()), q, captured, result, now)
    {
      if result.size > config.maxEntryBytes {
        return;
      }
      if CurrentGeneration(q.entity) != captured {
        return;
      }
      store.Store(KeyFor(q, captured), result, now);
    }

    method Invalidate(entities: seq<Entity>)
      requires Valid()
      modifies this
      ensures Valid()
      ensures View() == InvalidateEntities(config, old(View()), Elements(entities))
    {
      var expanded := ExpandEntities(config.graph, entities);
      ghost var before := entityGenerations;
      assert Raised(before, {}) == before;
      hide Raised, Elements, Affected;
      var i := 0;
      assert Elements([]) == {} by { ElementsEmpty(); }
      assert expanded[..0] == [];
      while i < |expanded|
        invariant 0 <= i <= |expanded|
        invariant entityGenerations == Raised(before, Elements(expanded[..i]))
        invariant unchanged(store) && globalGeneration == old(globalGeneration)
        invariant branchInvalidations == old(branchInvalidations)
      {
        var entity := expanded[i];
        RaiseOneMore(before, expanded, i);
        entityGenerations := entityGenerations[entity := EntityGeneration(entityGenerations, entity) + 1];
        i := i + 1;
      }
      assert expanded[..i] == expanded;
    }

    method InvalidateEverything()
      requires Valid()
      modifies `globalGeneration
      ensures Valid()
      ensures View() == InvalidateAll(old(View()))
    {
      globalGeneration := globalGeneration + 1;
    }

    method RetainBranch(b: Branch, entities: set<Entity>, all: bool)
      requires Valid()
      modifies `branchInvalidations
      ensures Valid()
      ensures View() == Retain(old(View()), b, Retained(entities, all))
    {
      var previous := if b in branchInvalidations then branchInvalidations[b] else Retained({}, false);
      if all || previous.all {
        branchInvalidations := branchInvalidations[b := Retained({}, true)];
        return;
      }
      branchInvalidations := branchInvalidations[b := Retained(previous.entities + entities, false)];
    }

    method ResolveBranch(b: Branch, invalidate: bool)
      requires Valid()
      modifies this
      ensures Valid()
      ensures View() == Resolve(config, old(View()), b, invalidate)
    {
      hide Raised, Affected;
      var found := b in branchInvalidations;
      var pending := if found then branchInvalidations[b] else Retained({}, false);
      branchInvalidations := branchInvalidations - {b};
      if !invalidate {
        return;
      }
      if !found || pending.all {
        InvalidateEverything();
        return;
      }
      if |pending.entities| > 0 {
        var entities := AsSequence(pending.entities);
        Invalidate(entities);
      } else {
        NothingAffected(config.graph);
        NothingRaised(entityGenerations);
      }
    }

    method DiscardBranch(b: Branch)
      requires Valid()
      modifies `branchInvalidations
      ensures Valid()
      ensures View() == DropRecord(old(View()), b)
    {
      branchInvalidations := branchInvalidations - {b};
    }
  }

  /** The elements in some order, as iterating over a map yields them. */
  method AsSequence(es: set<Entity>) returns (s: seq<Entity>)
    ensures Elements(s) == es
  {
    s := [];
    var rest := es;
    while rest != {}
      invariant rest <= es && Elements(s) == es - rest
      decreases rest
    {
      var e :| e in rest;
      ElementsGrow(s, e);
      s := s + [e];
      rest := rest - {e};
    }
  }
}
