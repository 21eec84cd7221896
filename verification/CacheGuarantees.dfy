/** What the query cache guarantees over whole runs of the step system, and where it does not. */
module CacheGuarantees {
  import opened CacheTypes
  import opened Options
  import opened Dependencies
  import opened CacheCore
  import opened CachedConnections
  import opened CacheSystem
  import opened CacheObligations
  import opened CacheFreshness
  import LruStore

  const NO_MARK := Mark("", Generation(0, 0), 0)

  function Last(states: seq<Sys>): Sys
    requires states != []
  {
    states[|states| - 1]
  }

  // ---------- Invariants over runs ----------

  lemma {:induction false} EveryStateReadsOutside(w: World, states: seq<Sys>, i: nat)
    requires IsRun(w, states) && i < |states|
    ensures ReadsOutside(states[i]) && states[i].history != []
  {
    hide ReadsOutside, Enabled, Apply;
    if i == 0 {
      var source :| states[0] == Start(source);
      StartReadsOutside(source);
    } else {
      EveryStateReadsOutside(w, states, i - 1);
      assert IsStep(w, states[i - 1], states[i]);
      var a :| Enabled(w, states[i - 1], a) && states[i] == Apply(w, states[i - 1], a);
      StepOutside(w, states[i - 1], a);
      StepProgress(w, states[i - 1], a);
    }
  }

  lemma StartReadsOutside(source: Source)
    ensures ReadsOutside(Start(source))
  {
  }

  /** Freshness with respect to a mark is never lost. */
  lemma {:induction false} FreshOnward(w: World, m: Mark, states: seq<Sys>, j: nat, i: nat)
    requires w.config.limits.maxEntries >= 1 && IsRun(w, states)
    requires j <= i < |states| && Fresh(w, m, states[j])
    ensures Fresh(w, m, states[i])
  {
    hide ReadsOutside, Enabled, Apply, Fresh;
    if i > j {
      FreshOnward(w, m, states, j, i - 1);
      EveryStateReadsOutside(w, states, i - 1);
      assert IsStep(w, states[i - 1], states[i]);
      var a :| Enabled(w, states[i - 1], a) && states[i] == Apply(w, states[i - 1], a);
      StepFresh(w, m, states[i - 1], a);
    }
  }

  lemma EveryStateFresh(w: World, states: seq<Sys>, i: nat)
    requires w.config.limits.maxEntries >= 1 && IsRun(w, states) && i < |states|
    ensures Fresh(w, NO_MARK, states[i])
  {
    var source :| states[0] == Start(source);
    hide IsRun, TaskOk, EntryOk;
    FreshOnward(w, NO_MARK, states, 0, i);
  }

  /** Captures never run ahead: nothing yet carries a generation that is not reached yet. */
  lemma MarkAhead(w: World, s: Sys, t: Entity, g: Generation)
    requires Fresh(w, NO_MARK, s) && !GenerationLeq(g, GenerationOf(s.cache, t))
    ensures |s.history| > 0 && Fresh(w, Mark(t, g, |s.history| - 1), s)
  {
    var m := Mark(t, g, |s.history| - 1);
    hide Steady, IsDirty, FromReads, Ended;
    forall q, capture | CaptureOk(w, NO_MARK, s, q, capture)
      ensures CaptureOk(w, m, s, q, capture)
    {
    }
    hide CaptureOk;
    forall e | e in s.cache.store
      ensures EntryOk(w, m, s, e.key, e.result.batches)
    {
      assert EntryOk(w, NO_MARK, s, e.key, e.result.batches);
      var since: nat :| ResultOk(w, NO_MARK, s, QueryOf(e.key), Capture(e.key.generation, since), e.result.batches);
      assert ResultOk(w, m, s, QueryOf(e.key), Capture(e.key.generation, since), e.result.batches);
    }
    forall x | x in s.tasks
      ensures TaskOk(w, m, s, s.tasks[x])
    {
      assert TaskOk(w, NO_MARK, s, s.tasks[x]);
    }
  }

  // ---------- What a hit replays ----------

  /**
    The batches were read from the source, in order and to the end, in states from `since` on; and nothing
    the query depends on has changed since then, except what is dirty now.
   */
  ghost predicate ServedFrom(w: World, s: Sys, q: Query, since: nat, batches: seq<Batch>) {
    && FromReads(w, s.history, since, q, batches)
    && Ended(w, s.history, since, q, |batches|)
    && (forall e :: Reaches(w.config.graph, e, q.entity) && !IsDirty(s.dirty, e) ==> Steady(s.history, since, e))
  }

  lemma HitIsFresh(w: World, m: Mark, s: Sys, q: Query, now: int)
    requires Fresh(w, m, s) && Lookup(s.cache, q, now).1.Some?
    ensures exists since: nat ::
              && Floor(m, q.entity, GenerationOf(s.cache, q.entity)) <= since < |s.history|
              && ServedFrom(w, s, q, since, Lookup(s.cache, q, now).1.value.batches)
  {
    var key := KeyFor(q, GenerationOf(s.cache, q.entity));
    var batches := Lookup(s.cache, q, now).1.value.batches;
    LruStore.GetFacts(s.cache.store, key, now);
    hide LruStore.Get;
    assert EntryOk(w, m, s, key, batches);
    var since: nat :| ResultOk(w, m, s, QueryOf(key), Capture(key.generation, since), batches);
    assert QueryOf(key) == q;
    assert ServedFrom(w, s, q, since, batches);
  }

  /**
    In every reachable state, a hit replays batches read from the source
    since a point from which what matters is steady.
   */
  lemma HitReplaysReads(w: World, states: seq<Sys>, q: Query, now: int)
    requires w.config.limits.maxEntries >= 1 && IsRun(w, states) && Lookup(Last(states).cache, q, now).1.Some?
    ensures exists since: nat ::
              && since < |Last(states).history|
              && ServedFrom(w, Last(states), q, since, Lookup(Last(states).cache, q, now).1.value.batches)
  {
    EveryStateFresh(w, states, |states| - 1);
    HitIsFresh(w, NO_MARK, Last(states), q, now);
  }

  /**
    The reads a hit replays began after every completed invalidation of its entity, of anything it depends
    on, or of everything: step `j` is any step that raised the generation of the query's entity.
   */
  lemma HitReadsAfterInvalidation(w: World, states: seq<Sys>, j: nat, q: Query, now: int)
    requires w.config.limits.maxEntries >= 1 && IsRun(w, states) && j + 1 < |states|
    requires GenerationOf(states[j].cache, q.entity) != GenerationOf(states[j + 1].cache, q.entity)
    requires Lookup(Last(states).cache, q, now).1.Some?
    ensures exists since: nat ::
              && |states[j].history| - 1 <= since < |Last(states).history|
              && ServedFrom(w, Last(states), q, since, Lookup(Last(states).cache, q, now).1.value.batches)
  {
    hide IsRun, Fresh, ServedFrom, Lookup, GenerationOf, GenerationLeq;
    var t, g := q.entity, GenerationOf(states[j + 1].cache, q.entity);
    MarkedFrom(w, states, j, t);
    GenerationsOnlyRise(w, states, j + 1, |states| - 1, t);
    MarkedHit(w, Mark(t, g, |states[j].history| - 1), Last(states), q, now);
  }

  lemma MarkedHit(w: World, m: Mark, s: Sys, q: Query, now: int)
    requires Fresh(w, m, s) && m.entity == q.entity && GenerationLeq(m.generation, GenerationOf(s.cache, q.entity))
    requires Lookup(s.cache, q, now).1.Some?
    ensures exists since: nat ::
              m.index <= since < |s.history| && ServedFrom(w, s, q, since, Lookup(s.cache, q, now).1.value.batches)
  {
    hide Fresh, ServedFrom, Lookup, GenerationOf, GenerationLeq;
    HitIsFresh(w, m, s, q, now);
  }

  /** From a step that raises an entity's generation on, what is cached under it was read after the step. */
  lemma MarkedFrom(w: World, states: seq<Sys>, j: nat, t: Entity)
    requires w.config.limits.maxEntries >= 1 && IsRun(w, states) && j + 1 < |states|
    requires GenerationOf(states[j].cache, t) != GenerationOf(states[j + 1].cache, t)
    ensures |states[j].history| > 0
    ensures Fresh(w, Mark(t, GenerationOf(states[j + 1].cache, t), |states[j].history| - 1), Last(states))
  {
    hide IsRun, Fresh, GenerationOf, GenerationLeq;
    EveryStateFresh(w, states, j);
    GenerationsOnlyRise(w, states, j, j + 1, t);
    RaisedIsAhead(GenerationOf(states[j].cache, t), GenerationOf(states[j + 1].cache, t));
    MarkAhead(w, states[j], t, GenerationOf(states[j + 1].cache, t));
    FreshOnward(w, Mark(t, GenerationOf(states[j + 1].cache, t), |states[j].history| - 1), states, j, |states| - 1);
  }

  lemma RaisedIsAhead(g: Generation, h: Generation)
    requires GenerationLeq(g, h) && g != h
    ensures !GenerationLeq(h, g)
  {
  }

  lemma {:induction false} GenerationsOnlyRise(w: World, states: seq<Sys>, j: nat, i: nat, t: Entity)
    requires IsRun(w, states) && j <= i < |states|
    ensures GenerationLeq(GenerationOf(states[j].cache, t), GenerationOf(states[i].cache, t))
  {
    hide IsRun, Progress;
    if i > j {
      GenerationsOnlyRise(w, states, j, i - 1, t);
      OneStepProgress(w, states, i - 1);
      ProgressRaises(w, states[i - 1], states[i], t);
    }
  }

  lemma ProgressRaises(w: World, s: Sys, s': Sys, t: Entity)
    requires Progress(w, s, s')
    ensures GenerationLeq(GenerationOf(s.cache, t), GenerationOf(s'.cache, t))
    ensures forall e :: IsDirty(s.dirty, e) && !IsDirty(s'.dirty, e) && Reaches(w.config.graph, e, t) ==>
              GenerationOf(s.cache, t) != GenerationOf(s'.cache, t)
  {
  }

  lemma OneStepProgress(w: World, states: seq<Sys>, i: nat)
    requires IsRun(w, states) && i + 1 < |states|
    ensures Progress(w, states[i], states[i + 1])
  {
    hide Enabled, Apply, Progress;
    assert IsStep(w, states[i], states[i + 1]);
    var a :| Enabled(w, states[i], a) && states[i + 1] == Apply(w, states[i], a);
    StepProgress(w, states[i], a);
  }

  // ---------- When a hit is what the source would answer ----------

  /** The answer to a query depends only on the entities from which its entity is reached. */
  ghost predicate Framed(w: World) {
    forall q, a, b :: SameFor(w, q, a, b) ==> w.answer(q, a) == w.answer(q, b)
  }

  ghost predicate SameFor(w: World, q: Query, a: Source, b: Source) {
    forall e :: Reaches(w.config.graph, e, q.entity) ==> Content(a, e) == Content(b, e)
  }

  /** Nothing the query depends on has been changed without having been invalidated yet. */
  ghost predicate CleanFor(w: World, s: Sys, q: Query) {
    forall e :: Reaches(w.config.graph, e, q.entity) ==> !IsDirty(s.dirty, e)
  }

  lemma CleanReadsAreCurrent(w: World, s: Sys, q: Query, since: nat, batches: seq<Batch>)
    requires Framed(w) && s.history != [] && CleanFor(w, s, q) && since < |s.history|
    requires ServedFrom(w, s, q, since, batches)
    ensures batches == w.answer(q, Now(s))
  {
    forall i | since <= i < |s.history|
      ensures w.answer(q, s.history[i]) == w.answer(q, Now(s))
    {
      forall e | Reaches(w.config.graph, e, q.entity)
        ensures Content(s.history[i], e) == Content(Now(s), e)
      {
        assert Steady(s.history, since, e);
      }
      assert SameFor(w, q, s.history[i], Now(s));
    }
    hide Framed, SameFor, CleanFor, IsDirty, Steady;
    forall k | 0 <= k < |batches|
      ensures k < |w.answer(q, Now(s))| && w.answer(q, Now(s))[k] == batches[k]
    {
      assert FromRead(w, s.history, since, q, k, batches[k]);
    }
    var i: nat :| since <= i && EndAt(w, s.history, i, q, |batches|);
    assert w.answer(q, s.history[i]) == w.answer(q, Now(s));
    assert |w.answer(q, Now(s))| <= |batches|;
    assert batches != [] ==> FromRead(w, s.history, since, q, |batches| - 1, batches[|batches| - 1]);
  }

  /** In every reachable state, a hit on a clean query is exactly what the source would answer now. */
  lemma HitEqualsSource(w: World, states: seq<Sys>, q: Query, now: int)
    requires w.config.limits.maxEntries >= 1 && IsRun(w, states) && Framed(w)
    requires CleanFor(w, Last(states), q) && Lookup(Last(states).cache, q, now).1.Some?
    ensures Last(states).history != []
    ensures Lookup(Last(states).cache, q, now).1.value.batches == w.answer(q, Now(Last(states)))
  {
    var s := Last(states);
    EveryStateReadsOutside(w, states, |states| - 1);
    HitReplaysReads(w, states, q, now);
    var since: nat :| since < |s.history| && ServedFrom(w, s, q, since, Lookup(s.cache, q, now).1.value.batches);
    hide ServedFrom, IsRun, Framed, CleanFor;
    CleanReadsAreCurrent(w, s, q, since, Lookup(s.cache, q, now).1.value.batches);
  }

  // ---------- Which writes are owed ----------

  ghost const ALL: iset<Branch> := iset b: Branch | true

  /** The step ends a repeated prepare that loses the branch. */
  ghost predicate LosingStep(w: World, s: Sys, s': Sys, b: Branch) {
    s.history != [] && exists c :: LosesBranch(s, c, b) && s' == Apply(w, s, Calling(EndPreparing(c)))
  }

  ghost predicate NeverLoses(w: World, states: seq<Sys>, b: Branch) {
    forall i :: 0 <= i < |states| - 1 ==> !LosingStep(w, states[i], states[i + 1], b)
  }

  lemma {:induction false} EveryStateOwes(w: World, states: seq<Sys>, i: nat, lost: iset<Branch>)
    requires IsRun(w, states) && i < |states|
    requires forall b :: b !in lost ==> NeverLoses(w, states, b)
    ensures Owing(states[i], lost) && states[i].history != []
  {
    EveryStateReadsOutside(w, states, i);
    hide Owing, Enabled, Apply, LosesBranch;
    if i == 0 {
      var source :| states[0] == Start(source);
      StartOwes(source, lost);
    } else {
      EveryStateOwes(w, states, i - 1, lost);
      assert IsStep(w, states[i - 1], states[i]);
      var a :| Enabled(w, states[i - 1], a) && states[i] == Apply(w, states[i - 1], a);
      forall b | b !in lost ensures a.Calling? && a.call.EndPreparing? ==> !LosesBranch(states[i - 1], a.call.c, b) {
        assert NeverLoses(w, states, b) && !LosingStep(w, states[i - 1], states[i], b);
      }
      StepOwes(w, states[i - 1], a, lost);
    }
  }

  /** What connections owe does not depend on branches. */
  lemma EveryConnectionOwes(w: World, states: seq<Sys>, i: nat)
    requires IsRun(w, states) && i < |states|
    ensures Owing(states[i], ALL)
  {
    EveryStateOwes(w, states, i, ALL);
  }

  /**
    In a run, a branch's record covers what the branch may have written whenever there is one, so that the branch's
    writes stay owed, exactly if no repeated prepare of the branch ends with its record gone while it still has
    claims that the preparing connection does not cover.
   */
  lemma BranchStaysOwedExactlyWhen(w: World, states: seq<Sys>, b: Branch)
    requires IsRun(w, states)
    ensures (forall i :: 0 <= i < |states| ==> RecordCovers(states[i], b)) <==> NeverLoses(w, states, b)
  {
    hide IsRun, RecordCovers, LosesBranch, Apply;
    if NeverLoses(w, states, b) {
      var lost := ALL - iset{b};
      forall i | 0 <= i < |states| ensures RecordCovers(states[i], b) {
        EveryStateOwes(w, states, i, lost);
        assert BranchOk(states[i], b, lost);
      }
    } else {
      var i :| 0 <= i < |states| - 1 && LosingStep(w, states[i], states[i + 1], b);
      LosingStepUncovers(w, states[i], states[i + 1], b);
    }
  }

  lemma LosingStepUncovers(w: World, s: Sys, s': Sys, b: Branch)
    requires LosingStep(w, s, s', b)
    ensures !RecordCovers(s', b)
  {
    var c :| LosesBranch(s, c, b) && s' == Apply(w, s, Calling(EndPreparing(c)));
    LosingUncovers(s, c, b);
    hide RecordCovers;
  }

  /** Every connection is between calls and outside a transaction, and no branch or outside change is outstanding. */
  ghost predicate Quiet(s: Sys) {
    && (forall c :: c in s.connections ==> s.connections[c].call == NoCall && !s.connections[c].txn.active)
    && s.resolvers == map[]
    && (forall b :: At(s.dirty, OfBranch(b)) == {})
    && At(s.dirty, OfOutsider) == {}
  }

  /** Once all calls have returned and all transactions are over, every hit equals the source. */
  lemma QuietHitEqualsSource(w: World, states: seq<Sys>, q: Query, now: int)
    requires w.config.limits.maxEntries >= 1 && IsRun(w, states) && Framed(w)
    requires Quiet(Last(states)) && Lookup(Last(states).cache, q, now).1.Some?
    ensures Last(states).history != []
    ensures Lookup(Last(states).cache, q, now).1.value.batches == w.answer(q, Now(Last(states)))
  {
    EveryConnectionOwes(w, states, |states| - 1);
    QuietIsClean(w, Last(states), q);
    HitEqualsSource(w, states, q, now);
  }

  lemma QuietIsClean(w: World, s: Sys, q: Query)
    requires Owing(s, ALL) && Quiet(s)
    ensures CleanFor(w, s, q)
  {
    forall o ensures At(s.dirty, o) == {} {
      match o
      case OfConnection(c) =>
        if c in s.connections {
          assert ConnectionOk(s, c, ALL);
        } else {
          assert Claimed(s, o) == {};
        }
      case OfBranch(b) =>
      case OfResolver(k) =>
      case OfOutsider =>
    }
  }

  // ---------- Writes are invalidated ----------

  /** Whatever was dirty in one state and is clean in a later one has been invalidated in between. */
  lemma {:induction false} CleanedMeansInvalidated(w: World, states: seq<Sys>, j: nat, i: nat, e: Entity, t: Entity)
    requires IsRun(w, states) && j <= i < |states| && Reaches(w.config.graph, e, t)
    requires IsDirty(states[j].dirty, e) && !IsDirty(states[i].dirty, e)
    ensures GenerationOf(states[j].cache, t) != GenerationOf(states[i].cache, t)
  {
    hide Reaches, IsDirty, IsRun, Progress;
    if i > j {
      OneStepProgress(w, states, i - 1);
      GenerationsOnlyRise(w, states, j, i - 1, t);
      ProgressRaises(w, states[i - 1], states[i], t);
      if !IsDirty(states[i - 1].dirty, e) {
        CleanedMeansInvalidated(w, states, j, i - 1, e, t);
      }
    }
  }

  /** The owner for whose committed writes a returning call answers. */
  predicate AnswersFor(s: Sys, a: Action, o: Owner) {
    match a
    case Calling(EndMutation(c)) => c in s.connections && !s.connections[c].txn.active && o == OfConnection(c)
    case Calling(EndSettling(c)) => o == OfConnection(c)
    case Other(DischargeRecord(k)) => k in s.resolvers && s.resolvers[k].Popped? && o == OfResolver(k)
    case _ => false
  }

  /**
    When a mutation outside a transaction, a commit, a rollback, a close, an unsuccessful prepare or the
    resolution of a branch returns, nothing it answers for is still dirty; and where there was something,
    the generation of everything that depends on it has risen.
   */
  lemma ReturnLeavesNothingDirty(w: World, s: Sys, a: Action, o: Owner, lost: iset<Branch>)
    requires Owing(s, lost) && s.history != [] && Enabled(w, s, a) && AnswersFor(s, a, o)
    requires a.Other? && a.other.DischargeRecord? ==> s.resolvers[a.other.k].branch !in lost
    ensures At(Apply(w, s, a).dirty, o) == {}
    ensures AllRaised(w, s.cache, Apply(w, s, a).cache, At(s.dirty, o))
  {
    match a
    case Calling(EndMutation(c)) => MutationRaises(w, s, c, lost);
    case Calling(EndSettling(c)) => SettlingRaises(w, s, c, lost);
    case Other(DischargeRecord(k)) => ResolutionRaises(w, s, k, lost);
  }

  /** Every generation that depends on one of the entities is different. */
  ghost predicate AllRaised(w: World, c: Cache, c': Cache, es: set<Entity>) {
    forall e, t :: e in es && Reaches(w.config.graph, e, t) ==> GenerationOf(c, t) != GenerationOf(c', t)
  }

  lemma CoveredIsRaised(w: World, c: Cache, owed: Retained, es: set<Entity>)
    requires AllCovered(owed, es)
    ensures AllRaised(w, c, Discharge(w.config, c, owed), es)
  {
    forall e, t | e in es && Reaches(w.config.graph, e, t)
      ensures GenerationOf(c, t) != GenerationOf(Discharge(w.config, c, owed), t)
    {
      DischargeRaises(w.config, c, owed, t);
    }
  }

  lemma MutationRaises(w: World, s: Sys, c: nat, lost: iset<Branch>)
    requires c in s.connections && s.connections[c].call.Mutating? && ConnectionOk(s, c, lost)
    requires !s.connections[c].txn.active
    ensures At(ApplyEndMutation(w, s, c).dirty, OfConnection(c)) == {}
    ensures AllRaised(w, s.cache, ApplyEndMutation(w, s, c).cache, At(s.dirty, OfConnection(c)))
  {
    var call := s.connections[c].call;
    var owed := OwedFor(call.entity);
    WrittenIsCovered(owed, call.entity, call.touched, Claimed(s, OfConnection(c)));
    CoveredIsRaised(w, s.cache, owed, At(s.dirty, OfConnection(c)));
  }

  lemma SettlingRaises(w: World, s: Sys, c: nat, lost: iset<Branch>)
    requires c in s.connections && s.connections[c].call.Settling? && ConnectionOk(s, c, lost)
    ensures At(ApplyEndSettling(w, s, c).dirty, OfConnection(c)) == {}
    ensures AllRaised(w, s.cache, ApplyEndSettling(w, s, c).cache, At(s.dirty, OfConnection(c)))
  {
    CoveredIsRaised(w, s.cache, Owed(s.connections[c].txn), At(s.dirty, OfConnection(c)));
  }

  lemma ResolutionRaises(w: World, s: Sys, k: nat, lost: iset<Branch>)
    requires k in s.resolvers && s.resolvers[k].Popped? && ResolverOk(s, k, lost) && s.resolvers[k].branch !in lost
    ensures At(ApplyDischarge(w, s, k).dirty, OfResolver(k)) == {}
    ensures At(ApplyDischarge(w, s, k).dirty, OfBranch(s.resolvers[k].branch)) == At(s.dirty, OfBranch(s.resolvers[k].branch))
    ensures AllRaised(w, s.cache, ApplyDischarge(w, s, k).cache, At(s.dirty, OfResolver(k)))
  {
    DischargeOnly(w, s, k);
    CoveredIsRaised(w, s.cache, OwedByRecord(s.resolvers[k].record), At(s.dirty, OfResolver(k)));
  }

  /**
    In every reachable state each write that may be committed is owed: an idle connection's by its pending
    set, so outside a transaction it has none; a branch's by its record, or, without one, by the next
    invalidating resolution, which then raises every generation. For a branch this takes that no prepare lost it.
   */
  lemma EveryWriteIsOwed(w: World, states: seq<Sys>, c: nat, b: Branch)
    requires IsRun(w, states)
    ensures var s := Last(states);
            && (Idle(s, c) ==> AllCovered(Owed(s.connections[c].txn), Claimed(s, OfConnection(c))))
            && (Idle(s, c) && !s.connections[c].txn.active ==> Claimed(s, OfConnection(c)) == {})
            && (NeverLoses(w, states, b) ==>
                 AllRaised(w, s.cache, Resolve(w.config, s.cache, b, true), Claimed(s, OfBranch(b))))
  {
    var s := Last(states);
    EveryConnectionOwes(w, states, |states| - 1);
    assert Idle(s, c) ==> ConnectionOk(s, c, ALL);
    BranchStaysOwedExactlyWhen(w, states, b);
    if b in s.cache.branches && NeverLoses(w, states, b) {
      assert RecordCovers(s, b);
      CoveredIsRaised(w, DropRecord(s.cache, b), s.cache.branches[b], Claimed(s, OfBranch(b)));
    }
  }

  // ---------- Transactions keep out of the cache ----------

  /**
    In every reachable state, a query that looks up or has missed is on a connection outside a transaction and in no
    other call, and every stream that may be recorded was opened outside a transaction.
   */
  lemma RecordedOutsideTransactions(w: World, states: seq<Sys>, t: nat)
    requires IsRun(w, states) && t in Last(states).tasks
    ensures OutsideOk(Last(states), Last(states).tasks[t])
  {
    EveryStateReadsOutside(w, states, |states| - 1);
  }

  /** A result is on its way into the cache only from the closing of a stream that was opened outside a transaction. */
  lemma OnlyOutsideReadsArePublished(w: World, states: seq<Sys>, i: nat, t: nat)
    requires IsRun(w, states) && i + 1 < |states|
    requires t in states[i + 1].tasks && states[i + 1].tasks[t].Publishing?
    ensures t in states[i].tasks
    ensures states[i].tasks[t] == states[i + 1].tasks[t] || (states[i].tasks[t].Streaming? && states[i].tasks[t].outside)
  {
    var s, s' := states[i], states[i + 1];
    EveryStateReadsOutside(w, states, i);
    assert IsStep(w, s, s');
    var a :| Enabled(w, s, a) && s' == Apply(w, s, a);
    hide IsRun, IsStep;
    match a
    case Querying(step) => PublishingComesFrom(w, s, step, t);
    case Calling(call) => CallStepKeepsQueries(w, s, call); hide CallEnabled, ApplyCall;
    case Other(other) => OtherStepKeepsQueries(w, s, other); hide OtherEnabled, ApplyOther;
  }

  lemma PublishingComesFrom(w: World, s: Sys, a: QueryStep, t: nat)
    requires s.history != [] && QueryEnabled(w, s, a) && ReadsOutside(s)
    requires t in ApplyQuery(w, s, a).tasks && ApplyQuery(w, s, a).tasks[t].Publishing?
    ensures t in s.tasks
    ensures s.tasks[t] == ApplyQuery(w, s, a).tasks[t] || (s.tasks[t].Streaming? && s.tasks[t].outside)
  {
    assert forall x :: x in s.tasks && s.tasks[x].Streaming? ==> OutsideOk(s, s.tasks[x]) && s.tasks[x].outside;
    hide LegalReply, ResultStreams.Take, ApplyLookUp, ApplyPublish, ApplyCloseStream, ReadsOutside, OutsideOk, Idle;
    match a
    case LookUp(x, now) => OthersStay(w, s, x, now, false);
    case PublishResult(x, now) => OthersStay(w, s, x, now, false);
    case CloseStream(x, failed) => OthersStay(w, s, x, 0, failed);
    case _ =>
  }

  /** A lookup, a publication and a closing leave the other tasks alone, and only the last starts a publication. */
  lemma OthersStay(w: World, s: Sys, x: nat, now: int, failed: bool)
    requires x in s.tasks
    ensures s.tasks[x].Looking? && s.history != [] ==>
              forall t :: t in ApplyLookUp(s, x, now).tasks && ApplyLookUp(s, x, now).tasks[t].Publishing? ==>
                t in s.tasks && s.tasks[t] == ApplyLookUp(s, x, now).tasks[t]
    ensures s.tasks[x].Publishing? ==>
              forall t :: t in ApplyPublish(w, s, x, now).tasks ==> t in s.tasks
                                                                    && s.tasks[t] == ApplyPublish(w, s, x, now).tasks[t]
    ensures s.tasks[x].Streaming? ==>
              forall t :: t in ApplyCloseStream(s, x, failed).tasks && t != x ==>
                t in s.tasks && s.tasks[t] == ApplyCloseStream(s, x, failed).tasks[t]
  {
    hide Lookup, StoreIfCurrent, ResultStreams.Published;
  }

  /** An entry of the cache that was not there before a step is the result of a query that was being published. */
  lemma OnlyPublishedResultsEnter(w: World, states: seq<Sys>, i: nat, e: LruStore.Entry)
    requires w.config.limits.maxEntries >= 1 && IsRun(w, states) && i + 1 < |states|
    requires e in states[i + 1].cache.store && e !in states[i].cache.store
    ensures exists t ::
              && t in states[i].tasks && states[i].tasks[t].Publishing? && e.result == states[i].tasks[t].result
              && e.key == KeyFor(states[i].tasks[t].q, GenerationOf(states[i].cache, states[i].tasks[t].q.entity))
  {
    var s, s' := states[i], states[i + 1];
    EveryStateFresh(w, states, i);
    EveryStateReadsOutside(w, states, i);
    assert IsStep(w, s, s');
    var a :| Enabled(w, s, a) && s' == Apply(w, s, a);
    hide IsRun, IsStep;
    match a
    case Querying(step) => EntryComesFrom(w, s, step, e);
    case Calling(call) => CallStepKeepsQueries(w, s, call); hide CallEnabled, ApplyCall;
    case Other(other) => OtherStepKeepsQueries(w, s, other); hide OtherEnabled, ApplyOther;
  }

  lemma EntryComesFrom(w: World, s: Sys, a: QueryStep, e: LruStore.Entry)
    requires w.config.limits.maxEntries >= 1 && LruStore.DistinctKeys(s.cache.store)
    requires s.history != [] && QueryEnabled(w, s, a)
    requires e in ApplyQuery(w, s, a).cache.store && e !in s.cache.store
    ensures a.PublishResult? && e.result == s.tasks[a.t].result
    ensures e.key == KeyFor(s.tasks[a.t].q, GenerationOf(s.cache, s.tasks[a.t].q.entity))
  {
    hide LegalReply, ResultStreams.Take, ResultStreams.Published, LruStore.Get, LruStore.Set;
    match a
    case LookUp(t, now) =>
      var q := s.tasks[t].q;
      LruStore.GetAddsNothing(s.cache.store, KeyFor(q, GenerationOf(s.cache, q.entity)), now);
    case PublishResult(t, now) =>
      var task := s.tasks[t];
      OnlyCurrentResultsEnter(w.config, s.cache, task.q, task.capture.generation, task.result, now);
    case _ =>
  }

  // ---------- What is not guaranteed, and exactly when ----------

  /** The entities are none, or only the blank one, which stands for no entity. */
  predicate NamesNone(es: set<Entity>) {
    es <= {""}
  }

  /** Where no generation changes, all are raised only if there is nothing to raise. */
  lemma NothingRaisedExactlyWhen(w: World, c: Cache, c': Cache, es: set<Entity>)
    requires forall t :: GenerationOf(c, t) == GenerationOf(c', t)
    ensures AllRaised(w, c, c', es) <==> NamesNone(es)
  {
    if e :| e in es && e != "" {
      ReachesItself(w.config.graph, e);
    }
    assert NamesNone(es) ==> forall e, t :: e in es ==> !Reaches(w.config.graph, e, t);
  }

  /**
    Finishing a branch on its connection raises everything the branch may have written exactly if the answer makes the
    connection discharge and the branch was not prepared, or if there was nothing to raise.
   */
  lemma FinishingRaisesExactlyWhen(w: World, states: seq<Sys>, c: nat, b: Branch, ok: bool, state: BranchState)
    requires IsRun(w, states) && CallEnabled(Last(states), SourceFinishes(c, b, ok, state))
    ensures var s := Last(states);
            var txn := s.connections[c].txn;
            var written := if b in s.prepared then Claimed(s, OfBranch(b)) else Claimed(s, OfConnection(c));
            var after := Settled(w.config, s.cache, txn, BranchAnswered(ok, state)).0;
            AllRaised(w, s.cache, after, written) <==>
              NamesNone(written) || (b !in s.prepared && Discharges(txn, BranchAnswered(ok, state)))
  {
    var s := Last(states);
    var txn, a := s.connections[c].txn, BranchAnswered(ok, state);
    EveryConnectionOwes(w, states, |states| - 1);
    assert ConnectionOk(s, c, ALL);
    InvalidatingNothing(w.config, s.cache);
    if b !in s.prepared && Discharges(txn, a) {
      CoveredIsRaised(w, s.cache, Owed(txn), Claimed(s, OfConnection(c)));
    } else {
      var written := if b in s.prepared then Claimed(s, OfBranch(b)) else Claimed(s, OfConnection(c));
      NothingRaisedExactlyWhen(w, s.cache, Settled(w.config, s.cache, txn, a).0, written);
    }
  }

  /** What the branch has put into effect and its record will have invalidated. */
  function Secured(s: Sys, b: Branch): set<Entity> {
    if b in s.cache.branches then set e | e in At(s.dirty, OfBranch(b)) && Covers(s.cache.branches[b], e) else {}
  }

  /**
    Forgetting a branch raises nothing, so that what it has put into effect is raised exactly if there is nothing; and
    what its record secured is still secured exactly if there was no record or the record covers nothing that is in effect.
    For a branch that no prepare lost, that is to say nothing is in effect.
   */
  lemma ForgettingLosesExactlyWhen(w: World, states: seq<Sys>, b: Branch)
    requires IsRun(w, states)
    ensures var s, s', effect := Last(states), ApplyOther(w, Last(states), Forget(b)), At(Last(states).dirty, OfBranch(b));
            && (AllRaised(w, s.cache, s'.cache, effect) <==> NamesNone(effect))
            && (Secured(s', b) == Secured(s, b) <==>
                 b !in s.cache.branches || forall e :: e in effect ==> !Covers(s.cache.branches[b], e))
            && (NeverLoses(w, states, b) ==>
                 (Secured(s', b) == Secured(s, b) <==> b !in s.cache.branches || effect == {}))
  {
    var s := Last(states);
    var effect := At(s.dirty, OfBranch(b));
    BranchStaysOwedExactlyWhen(w, states, b);
    NothingRaisedExactlyWhen(w, s.cache, DropRecord(s.cache, b), effect);
    if b in s.cache.branches {
      assert Secured(s, b) == {} <==> forall e :: e in effect ==> !Covers(s.cache.branches[b], e) by {
        assert forall e :: e in effect && Covers(s.cache.branches[b], e) ==> e in Secured(s, b);
      }
      if NeverLoses(w, states, b) {
        assert RecordCovers(s, b);
        assert Secured(s, b) == effect;
      }
    }
  }

  /** No resolution of the branch is under way. */
  predicate Unresolved(s: Sys, b: Branch) {
    forall k :: k in s.resolvers ==> s.resolvers[k].branch != b
  }

  /** While nobody resolves a branch, forgotten or not, what it has put into effect stays dirty. */
  lemma {:induction false} StaysDirtyUnresolved(w: World, states: seq<Sys>, j: nat, i: nat, b: Branch)
    requires IsRun(w, states) && j <= i < |states|
    requires forall n :: j <= n <= i ==> Unresolved(states[n], b)
    ensures At(states[j].dirty, OfBranch(b)) <= At(states[i].dirty, OfBranch(b))
  {
    hide Unresolved, Enabled, Apply;
    if i > j {
      StaysDirtyUnresolved(w, states, j, i - 1, b);
      EveryStateReadsOutside(w, states, i - 1);
      assert IsStep(w, states[i - 1], states[i]);
      var a :| Enabled(w, states[i - 1], a) && states[i] == Apply(w, states[i - 1], a);
      StepKeepsDirt(w, states[i - 1], a, b);
    }
  }

  lemma StepKeepsDirt(w: World, s: Sys, a: Action, b: Branch)
    requires s.history != [] && Enabled(w, s, a) && Unresolved(s, b)
    ensures At(s.dirty, OfBranch(b)) <= At(Apply(w, s, a).dirty, OfBranch(b))
  {
    hide Discharge, DischargePopped, Mutated, Settled, Uncovered, LegalReply, Discharges, Ends;
    match a
    case Querying(step) => QueryStepSameObligations(w, s, step); hide ApplyQuery, QueryEnabled;
    case Calling(call) => CallKeepsDirt(w, s, call, b); hide ApplyCall, CallEnabled;
    case Other(other) => OtherKeepsDirt(w, s, other, b); hide ApplyOther, OtherEnabled;
  }

  lemma CallKeepsDirt(w: World, s: Sys, a: CallStep, b: Branch)
    requires CallEnabled(s, a)
    ensures At(s.dirty, OfBranch(b)) <= At(ApplyCall(w, s, a).dirty, OfBranch(b))
  {
    hide Discharge, Mutated, Settled, Uncovered, Discharges, Ends, NothingCommitted, Uncommitted;
  }

  lemma OtherKeepsDirt(w: World, s: Sys, a: OtherStep, b: Branch)
    requires OtherEnabled(s, a) && Unresolved(s, b)
    ensures At(s.dirty, OfBranch(b)) <= At(ApplyOther(w, s, a).dirty, OfBranch(b))
  {
    hide Discharge, DischargePopped, Uncovered;
  }
}
