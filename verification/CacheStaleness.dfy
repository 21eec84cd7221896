/** Runs that end in a stale hit although every call has returned: what the guarantees do not reach. */
module CacheStaleness {
  import opened CacheTypes
  import opened Options
  import opened Dependencies
  import opened CacheCore
  import opened CachedConnections
  import opened ResultStreams
  import opened CacheSystem
  import opened CacheObligations
  import opened CacheGuarantees
  import LruStore

  // ---------- Parts of runs ----------

  ghost predicate Joins(w: World, states: seq<Sys>, s: Sys, s': Sys) {
    && states != [] && states[0] == s && Last(states) == s'
    && (forall i :: 0 <= i < |states| - 1 ==> IsStep(w, states[i], states[i + 1]))
  }

  ghost predicate Leads(w: World, s: Sys, s': Sys) {
    exists states :: Joins(w, states, s, s')
  }

  lemma OneStep(w: World, s: Sys, a: Action) returns (s': Sys)
    requires Enabled(w, s, a) && s.history != []
    ensures s' == Apply(w, s, a) && Leads(w, s, s')
  {
    s' := Apply(w, s, a);
    assert Joins(w, [s, s'], s, s');
  }

  lemma OneQuery(w: World, s: Sys, a: QueryStep) returns (s': Sys)
    requires QueryEnabled(w, s, a) && s.history != []
    ensures s' == ApplyQuery(w, s, a) && Leads(w, s, s')
  {
    hide QueryEnabled, ApplyQuery, Leads;
    s' := OneStep(w, s, Querying(a));
  }

  lemma OneCall(w: World, s: Sys, a: CallStep) returns (s': Sys)
    requires CallEnabled(s, a) && s.history != []
    ensures s' == ApplyCall(w, s, a) && Leads(w, s, s')
  {
    hide CallEnabled, ApplyCall, Leads;
    s' := OneStep(w, s, Calling(a));
  }

  lemma OneOther(w: World, s: Sys, a: OtherStep) returns (s': Sys)
    requires OtherEnabled(s, a) && s.history != []
    ensures s' == ApplyOther(w, s, a) && Leads(w, s, s')
  {
    hide OtherEnabled, ApplyOther, Leads;
    s' := OneStep(w, s, Other(a));
  }

  lemma Onward(w: World, s: Sys, t: Sys, u: Sys)
    requires Leads(w, s, t) && Leads(w, t, u)
    ensures Leads(w, s, u)
  {
    hide IsStep;
    var one :| Joins(w, one, s, t);
    var other :| Joins(w, other, t, u);
    var all := one + other[1..];
    forall i | 0 <= i < |all| - 1 ensures IsStep(w, all[i], all[i + 1]) {
      if i < |one| - 1 {
        assert all[i] == one[i] && all[i + 1] == one[i + 1];
      } else {
        assert all[i] == other[i - (|one| - 1)] && all[i + 1] == other[i + 1 - (|one| - 1)];
      }
    }
    assert Joins(w, all, s, u);
  }

  lemma LeadsIsRun(w: World, source: Source, s: Sys) returns (states: seq<Sys>)
    requires Leads(w, Start(source), s)
    ensures IsRun(w, states) && Last(states) == s
  {
    states :| Joins(w, states, Start(source), s);
  }

  // ---------- A prepared branch ----------

  const CONNECTED: map<nat, Connection> := map[0 := Connection(IDLE, NoCall)]

  /** Nothing is under way and branch `b` has written `e`, which is not in effect yet. */
  ghost predicate Waiting(s: Sys, source: Source, e: Entity, b: Branch) {
    && s.connections == CONNECTED && s.tasks == map[] && s.resolvers == map[] && s.history == [source]
    && s.prepared == {b} && At(s.unsettled, OfBranch(b)) == {e}
    && At(s.unsettled, OfConnection(0)) == {} && (forall o :: At(s.dirty, o) == {})
  }

  /** A connection has written `e` in a transaction. */
  ghost predicate Written(s: Sys, source: Source, e: Entity) {
    && s.cache == EMPTY && s.connections == map[0 := Connection(Transaction(true, {e}, false), NoCall)]
    && s.tasks == map[] && s.resolvers == map[] && s.history == [source] && s.prepared == {}
    && s.unsettled == map[OfConnection(0) := {e}] && s.dirty == map[]
  }

  lemma WritesInTransaction(w: World, source: Source, e: Entity) returns (s: Sys)
    requires e != ""
    ensures Leads(w, Start(source), s) && Written(s, source, e)
  {
    var start := Start(source);
    hide Leads, InvalidateEntities;
    var s1 := OneCall(w, start, OpenConnection(0));
    var s2 := OneCall(w, s1, BeginTransaction(0));
    assert s2 == start.(connections := map[0 := Connection(Transaction(true, {}, false), NoCall)]);
    var s3 := OneCall(w, s2, StartMutation(0, e, {e}));
    assert {} + {e} == {e};
    assert s3 == s2.(connections := map[0 := Connection(Transaction(true, {}, false), Mutating(e, {e}))],
                     unsettled := map[OfConnection(0) := {e}]);
    s := OneCall(w, s3, EndMutation(0));
    Onward(w, start, s1, s2);
    Onward(w, start, s2, s3);
    Onward(w, start, s3, s);
  }

  /** A connection writes `e` in a transaction and prepares it as branch `b`. */
  lemma PreparesBranch(w: World, source: Source, e: Entity, b: Branch) returns (s: Sys)
    requires e != ""
    ensures Leads(w, Start(source), s) && Waiting(s, source, e, b)
    ensures s.cache == Cache([], 0, map[], map[b := Retained({e}, false)])
  {
    hide Leads;
    var s1 := WritesInTransaction(w, source, e);
    var s2 := OneCall(w, s1, SourcePrepares(0, b));
    s := OneCall(w, s2, EndPreparing(0));
    Onward(w, Start(source), s1, s2);
    Onward(w, Start(source), s2, s);
  }

  // ---------- A cached result ----------

  /** The result that caching the batch as the whole answer stores. */
  function ResultOf(batch: Batch): CachedResult {
    CachedResult([batch], Some(COMPLETE), batch.size + COMPLETE.size)
  }

  predicate Cacheable(w: World, batch: Batch) {
    && !batch.hasLob && batch.size + COMPLETE.size <= w.config.maxEntryBytes
    && batch.size + COMPLETE.size <= w.config.limits.maxBytes
    && w.config.limits.maxEntries >= 1 && w.config.limits.ttl > 0
  }

  lemma QueryIsCached(w: World, s: Sys, q: Query, batch: Batch, now: int) returns (s': Sys)
    requires s.connections == CONNECTED && s.tasks == map[] && s.history != [] && q.entity != ""
    requires Cacheable(w, batch) && w.answer(q, Now(s)) == [batch] && s.cache.store == []
    ensures Leads(w, s, s')
    ensures s' == s.(cache := s.cache.(store := s'.cache.store))
    ensures Lookup(s'.cache, q, now).1 == Some(ResultOf(batch))
  {
    var capture := Capture(GenerationOf(s.cache, q.entity), |s.history| - 1);
    hide Leads, GenerationOf, Cacheable, Lookup;
    var s1 := StreamOpens(w, s, q, now);
    var s2 := StreamDelivers(w, s, s1, q, batch, capture);
    var s3 := StreamEnds(w, s, s2, q, batch, capture);
    s' := StreamIsStored(w, s, s3, q, batch, capture, now);
    Onward(w, s, s1, s2);
    Onward(w, s, s2, s3);
    Onward(w, s, s3, s');
  }

  lemma StreamIsStored(w: World, s: Sys, s1: Sys, q: Query, batch: Batch, capture: Capture, now: int) returns (s': Sys)
    requires s.tasks == map[] && s.history != [] && s.cache.store == [] && Cacheable(w, batch)
    requires capture == Capture(GenerationOf(s.cache, q.entity), |s.history| - 1)
    requires s1 == s.(tasks := map[0 := Streaming(q, capture, ReadOf(batch, true), true)])
    ensures Leads(w, s1, s')
    ensures s' == s.(cache := s.cache.(store := s'.cache.store))
    ensures Lookup(s'.cache, q, now).1 == Some(ResultOf(batch))
  {
    hide Leads, GenerationOf, Cacheable;
    var s2 := OneQuery(w, s1, CloseStream(0, false));
    assert s2 == s.(tasks := map[0 := Publishing(q, capture, ResultOf(batch))]);
    hide Published, StoreIfCurrent, Lookup;
    s' := OneQuery(w, s2, PublishResult(0, now));
    Onward(w, s1, s2, s');
    StoredIsFound(w, s.cache, q, batch, now);
  }

  lemma StreamOpens(w: World, s: Sys, q: Query, now: int) returns (s': Sys)
    requires s.connections == CONNECTED && s.tasks == map[] && s.history != [] && q.entity != "" && s.cache.store == []
    ensures Leads(w, s, s')
    ensures var capture := Capture(GenerationOf(s.cache, q.entity), |s.history| - 1);
            s' == s.(tasks := map[0 := Streaming(q, capture, FRESH, true)])
  {
    hide Leads, GenerationOf;
    var s1 := OneQuery(w, s, BeginQuery(0, 0, q));
    assert s1 == s.(tasks := map[0 := Looking(0, q)]);
    var s2 := OneQuery(w, s1, LookUp(0, now));
    assert s2 == s.(tasks := map[0 := Missed(0, q, Capture(GenerationOf(s.cache, q.entity), |s.history| - 1))]);
    s' := OneQuery(w, s2, OpenSource(0));
    Onward(w, s, s1, s2);
    Onward(w, s, s2, s');
  }

  /** The stream has delivered the batch, and ended or not. */
  function ReadOf(batch: Batch, ended: bool): Recording {
    if ended then Recording([batch], Some(COMPLETE), ResultOf(batch).size, true, true, false)
    else Recording([batch], None, batch.size, true, false, false)
  }

  lemma StreamDelivers(w: World, s: Sys, s1: Sys, q: Query, batch: Batch, capture: Capture) returns (s': Sys)
    requires s.history != [] && Cacheable(w, batch) && w.answer(q, Now(s)) == [batch] && capture.since == |s.history| - 1
    requires s1 == s.(tasks := map[0 := Streaming(q, capture, FRESH, true)])
    ensures Leads(w, s1, s') && s' == s.(tasks := map[0 := Streaming(q, capture, ReadOf(batch, false), true)])
  {
    hide Leads;
    assert ReadAt(w, s.history, capture.since, q, 0, batch);
    assert [] + [batch] == [batch];
    assert Take(FRESH, Delivered(batch), w.config.maxEntryBytes) == ReadOf(batch, false);
    hide ReadAt, EndAt, Take;
    s' := OneQuery(w, s1, ReadSource(0, Delivered(batch)));
  }

  lemma StreamEnds(w: World, s: Sys, s1: Sys, q: Query, batch: Batch, capture: Capture) returns (s': Sys)
    requires s.history != [] && Cacheable(w, batch) && w.answer(q, Now(s)) == [batch] && capture.since == |s.history| - 1
    requires s1 == s.(tasks := map[0 := Streaming(q, capture, ReadOf(batch, false), true)])
    ensures Leads(w, s1, s') && s' == s.(tasks := map[0 := Streaming(q, capture, ReadOf(batch, true), true)])
  {
    hide Leads;
    var end := EndOfStream(CannotReport);
    assert EndAt(w, s.history, capture.since, q, 1);
    assert Take(ReadOf(batch, false), end, w.config.maxEntryBytes) == ReadOf(batch, true);
    hide ReadAt, EndAt, Take;
    s' := OneQuery(w, s1, ReadSource(0, end));
  }

  lemma StoredIsFound(w: World, c: Cache, q: Query, batch: Batch, now: int)
    requires c.store == [] && Cacheable(w, batch)
    ensures var after := StoreIfCurrent(w.config, c, q, GenerationOf(c, q.entity), ResultOf(batch), now);
            after == c.(store := after.store) && Lookup(after, q, now).1 == Some(ResultOf(batch))
  {
    var result := ResultOf(batch);
    var key := KeyFor(q, GenerationOf(c, q.entity));
    var entry := LruStore.Entry(key, result, now + w.config.limits.ttl);
    LruStore.SetFacts(c.store, key, result, now, w.config.limits);
    assert LruStore.Set(c.store, key, result, now, w.config.limits)[0] == entry;
  }

  // ---------- Stale hits ----------

  /** Every call has returned, no transaction is open and no resolution is under way. */
  predicate AllReturned(s: Sys) {
    && (forall c :: c in s.connections ==> s.connections[c] == Connection(IDLE, NoCall))
    && s.tasks == map[] && s.resolvers == map[]
  }

  /** The query is answered from the cache, and not with what the source would answer. */
  ghost predicate StaleHit(w: World, s: Sys, q: Query, now: int) {
    && s.history != [] && Lookup(s.cache, q, now).1.Some?
    && Lookup(s.cache, q, now).1.value.batches != w.answer(q, Now(s))
  }

  /** A change of `e` alone changes the answer from the one batch to another. */
  ghost predicate Changes(w: World, source: Source, next: Source, q: Query, e: Entity, batch: Batch) {
    && w.answer(q, source) == [batch] && w.answer(q, next) != [batch]
    && (forall x :: x != e ==> Content(next, x) == Content(source, x))
  }

  lemma SameFinding(c: Cache, c': Cache, q: Query, now: int)
    requires c'.store == c.store && c'.global == c.global && c'.generations == c.generations
    ensures Lookup(c', q, now).1 == Lookup(c, q, now).1
  {
  }

  /** The branch's write takes effect. */
  lemma BranchTakesEffect(w: World, s: Sys, source: Source, next: Source, q: Query, e: Entity, b: Branch, batch: Batch)
    returns (s': Sys)
    requires Waiting(s, source, e, b) && Changes(w, source, next, q, e, batch)
    ensures Leads(w, s, s') && s' == ApplyTakeEffect(s, OfBranch(b), {e}, next)
    ensures At(s'.dirty, OfBranch(b)) == {e} && At(s'.dirty, OfConnection(0)) == {} && Now(s') == next
  {
    assert Now(s) == source;
    SetClaims(s.dirty, OfBranch(b), At(s.dirty, OfBranch(b)) + {e});
    assert At(s.dirty, OfBranch(b)) == {} == At(s.dirty, OfConnection(0));
    hide At;
    s' := OneOther(w, s, TakeEffect(OfBranch(b), {e}, next));
  }

  /**
    A prepared branch is finished on its connection, which answers that it committed: the call returns, and the query is
    still answered from before the commit.
   */
  lemma FinishingPreparedBranchIsStale(w: World, source: Source, next: Source, q: Query, e: Entity, b: Branch, batch: Batch,
                                       now: int)
    returns (states: seq<Sys>)
    requires e != "" && q.entity != "" && Cacheable(w, batch) && Changes(w, source, next, q, e, batch)
    ensures IsRun(w, states) && AllReturned(Last(states)) && StaleHit(w, Last(states), q, now)
    ensures At(Last(states).dirty, OfBranch(b)) == {e}
  {
    var s1 := PreparesBranch(w, source, e, b);
    assert Now(s1) == source;
    var s2 := QueryIsCached(w, s1, q, batch, now);
    var s3 := BranchTakesEffect(w, s2, source, next, q, e, b, batch);
    hide Leads, Changes, Lookup;
    var s5 := FinishesOnConnection(w, s3, b);
    Onward(w, Start(source), s1, s2);
    Onward(w, Start(source), s2, s3);
    Onward(w, Start(source), s3, s5);
    SameFinding(s2.cache, s5.cache, q, now);
    states := LeadsIsRun(w, source, s5);
    StillStale(w, s5, source, next, q, e, batch, now);
  }

  lemma FinishesOnConnection(w: World, s: Sys, b: Branch) returns (s': Sys)
    requires s.connections == CONNECTED && s.tasks == map[] && s.resolvers == map[] && s.history != []
    requires At(s.dirty, OfConnection(0)) == {}
    ensures Leads(w, s, s') && AllReturned(s') && s'.history == s.history
    ensures s'.cache.store == s.cache.store && s'.cache.global == s.cache.global
              && s'.cache.generations == s.cache.generations
    ensures At(s'.dirty, OfBranch(b)) == At(s.dirty, OfBranch(b))
  {
    hide Leads, At, Uncommitted;
    assert !Uncommitted(Committed) by { CommittedIsNot(); }
    var s1 := OneCall(w, s, SourceFinishes(0, b, true, Committed));
    assert s1.connections == map[0 := Connection(IDLE, Settling(BranchAnswered(true, Committed)))];
    hide ApplySourceFinishes;
    s' := OneCall(w, s1, EndSettling(0));
    SettlingNothing(w, s1);
    Onward(w, s, s1, s');
  }

  lemma CommittedIsNot()
    ensures !Uncommitted(Committed)
  {
  }

  lemma StillStale(w: World, s: Sys, source: Source, next: Source, q: Query, e: Entity, batch: Batch, now: int)
    requires Changes(w, source, next, q, e, batch) && s.history != [] && Now(s) == next
    requires Lookup(s.cache, q, now).1 == Some(ResultOf(batch))
    ensures StaleHit(w, s, q, now)
  {
  }

  lemma SettlingNothing(w: World, s: Sys)
    requires 0 in s.connections && s.connections[0] == Connection(IDLE, Settling(BranchAnswered(true, Committed)))
    requires At(s.dirty, OfConnection(0)) == {}
    ensures var s' := ApplyEndSettling(w, s, 0);
            && s'.cache.store == s.cache.store && s'.cache.global == s.cache.global
            && s'.cache.generations == s.cache.generations && s'.connections == s.connections[0 := Connection(IDLE, NoCall)]
            && s'.tasks == s.tasks && s'.resolvers == s.resolvers && s'.history == s.history
            && (forall b :: At(s'.dirty, OfBranch(b)) == At(s.dirty, OfBranch(b)))
  {
    NothingAffected(w.config.graph);
    NothingRaised(s.cache.generations);
  }

  /** A prepared branch commits on its own and is forgotten: nothing is owed any more, and the query is stale. */
  lemma ForgettingCommittedBranchIsStale(w: World, source: Source, next: Source, q: Query, e: Entity, b: Branch,
                                         batch: Batch,
                                         now: int)
    returns (states: seq<Sys>)
    requires e != "" && q.entity != "" && Cacheable(w, batch) && Changes(w, source, next, q, e, batch)
    ensures IsRun(w, states) && AllReturned(Last(states)) && StaleHit(w, Last(states), q, now)
    ensures Last(states).cache.branches == map[] && At(Last(states).dirty, OfBranch(b)) == {e}
  {
    var s1 := PreparesBranch(w, source, e, b);
    assert Now(s1) == source;
    var s2 := QueryIsCached(w, s1, q, batch, now);
    var s3 := BranchTakesEffect(w, s2, source, next, q, e, b, batch);
    hide Leads, Changes, Lookup;
    var s4 := OneOther(w, s3, Forget(b));
    Onward(w, Start(source), s1, s2);
    Onward(w, Start(source), s2, s3);
    Onward(w, Start(source), s3, s4);
    SameFinding(s2.cache, s4.cache, q, now);
    states := LeadsIsRun(w, source, s4);
    StillStale(w, s4, source, next, q, e, batch, now);
  }

  // ---------- A repeated prepare ----------

  /** A commit fails without effect, and the branch is prepared again: its record is empty now. */
  lemma PreparesAgain(w: World, s: Sys, source: Source, e: Entity, b: Branch) returns (s': Sys)
    requires Waiting(s, source, e, b) && s.cache.branches == map[b := Retained({e}, false)]
    ensures Leads(w, s, s') && Waiting(s', source, e, b)
    ensures s'.cache.branches == map[b := NOTHING] && s'.cache.store == s.cache.store
  {
    hide Leads;
    var s1 := CommitFails(w, s, source, e, b);
    var s2 := OneCall(w, s1, SourcePrepares(0, b));
    assert s2 == s1.(connections := map[0 := Connection(IDLE, Preparing(b, false))]);
    assert Merge(None, Owed(IDLE)) == NOTHING;
    s' := OneCall(w, s2, EndPreparing(0));
    Onward(w, s, s1, s2);
    Onward(w, s, s2, s');
  }

  lemma CommitFails(w: World, s: Sys, source: Source, e: Entity, b: Branch) returns (s': Sys)
    requires Waiting(s, source, e, b) && s.cache.branches == map[b := Retained({e}, false)]
    ensures Leads(w, s, s') && Waiting(s', source, e, b)
    ensures s'.cache.branches == map[] && s'.cache.store == s.cache.store
  {
    hide Leads, Discharge;
    var s1 := OneOther(w, s, SourceResolves(0, b, Resolution(false, Unspecified), false));
    assert s1 == s.(resolvers := map[0 := Answered(b, true)]);
    var s2 := OneOther(w, s1, PopRecord(0));
    PoppedClean(s1, b);
    s' := OneOther(w, s2, DischargeRecord(0));
    DischargedClean(w, s2, b);
    Onward(w, s, s1, s2);
    Onward(w, s, s2, s');
  }

  lemma PoppedClean(s: Sys, b: Branch)
    requires s.resolvers == map[0 := Answered(b, true)] && (forall o :: At(s.dirty, o) == {}) && b in s.cache.branches
    ensures var s' := ApplyPop(s, 0);
            && s'.resolvers == map[0 := Popped(b, Some(s.cache.branches[b]))] && (forall o :: At(s'.dirty, o) == {})
            && s' == s.(resolvers := s'.resolvers, dirty := s'.dirty, cache := DropRecord(s.cache, b))
  {
    MovedClaims(s.dirty, OfBranch(b), OfResolver(0));
    hide At, Moved;
  }

  lemma DischargedClean(w: World, s: Sys, b: Branch)
    requires 0 in s.resolvers && s.resolvers[0].Popped? && s.resolvers[0].branch == b && s.resolvers.Keys == {0}
               && (forall o :: At(s.dirty, o) == {})
    ensures var s' := ApplyDischarge(w, s, 0);
            && s'.resolvers == map[] && (forall o :: At(s'.dirty, o) == {})
            && s'.cache.store == s.cache.store && s'.cache.branches == s.cache.branches
            && s' == s.(resolvers := map[], dirty := s'.dirty, cache := s'.cache)
  {
    var more := At(s.dirty, OfBranch(b)) + Uncovered(At(s.dirty, OfResolver(0)), OwedByRecord(s.resolvers[0].record));
    SetClaims(s.dirty, OfBranch(b), more);
    SetClaims(s.dirty[OfBranch(b) := more], OfResolver(0), {});
    assert more == {};
    hide Raised, Affected, At;
    forall o ensures At(ApplyDischarge(w, s, 0).dirty, o) == {} {
      assert At(s.dirty, o) == {};
    }
  }

  lemma CommitSucceeds(w: World, s: Sys, e: Entity, b: Branch) returns (s': Sys)
    requires s.history != [] && s.connections == CONNECTED && s.tasks == map[] && s.resolvers == map[]
    requires s.cache.branches == map[b := NOTHING] && At(s.dirty, OfBranch(b)) == {e}
    ensures Leads(w, s, s') && AllReturned(s') && s'.history == s.history
    ensures s'.cache == s.cache.(branches := map[])
  {
    NothingAffected(w.config.graph);
    NothingRaised(s.cache.generations);
    hide Leads, Raised, Affected;
    var s1 := OneOther(w, s, SourceResolves(0, b, Resolution(true, Committed), true));
    var s2 := OneOther(w, s1, PopRecord(0));
    s' := OneOther(w, s2, DischargeRecord(0));
    Onward(w, s, s1, s2);
    Onward(w, s, s2, s');
  }

  /**
    A branch's commit fails, the branch is prepared again and committed: the second commit invalidates nothing, and the
    query is answered from before it.
   */
  lemma RepeatedPrepareIsStale(w: World, source: Source, next: Source, q: Query, e: Entity, b: Branch, batch: Batch,
                               now: int)
    returns (states: seq<Sys>)
    requires e != "" && q.entity != "" && Cacheable(w, batch) && Changes(w, source, next, q, e, batch)
    ensures IsRun(w, states) && AllReturned(Last(states)) && StaleHit(w, Last(states), q, now)
    ensures Last(states).cache.branches == map[]
  {
    var s1 := PreparesBranch(w, source, e, b);
    var s2 := PreparesAgain(w, s1, source, e, b);
    assert Now(s2) == source;
    var s3 := QueryIsCached(w, s2, q, batch, now);
    var s4 := BranchTakesEffect(w, s3, source, next, q, e, b, batch);
    hide Leads, Changes, Lookup;
    var s5 := CommitSucceeds(w, s4, e, b);
    Onward(w, Start(source), s1, s2);
    Onward(w, Start(source), s2, s3);
    Onward(w, Start(source), s3, s4);
    Onward(w, Start(source), s4, s5);
    SameFinding(s3.cache, s5.cache, q, now);
    states := LeadsIsRun(w, source, s5);
    StillStale(w, s5, source, next, q, e, batch, now);
  }
}
