/** In every run, what the cache serves was read from the source after the last completed invalidation. */
module CacheFreshness {
  import opened CacheTypes
  import opened Options
  import opened Dependencies
  import opened CacheCore
  import opened CachedConnections
  import opened ResultStreams
  import opened CacheSystem
  import opened CacheObligations
  import LruStore

  /** A write of the entity has taken effect and its invalidation is still outstanding. */
  ghost predicate IsDirty(dirty: map<Owner, set<Entity>>, e: Entity) {
    exists o :: e in At(dirty, o)
  }

  /** No state since `since` differs on the entity from the state then. */
  ghost predicate Steady(history: seq<Source>, since: nat, e: Entity) {
    since < |history| && forall i :: since <= i < |history| ==> Content(history[i], e) == Content(history[since], e)
  }

  /** At this generation of the entity, or any later one, only source states from this index on are read. */
  datatype Mark = Mark(entity: Entity, generation: Generation, index: nat)

  ghost function Floor(m: Mark, e: Entity, g: Generation): nat {
    if e == m.entity && GenerationLeq(m.generation, g) then m.index else 0
  }

  /**
    While the captured generation is current, everything the result depends on has stayed as it was at
    the lookup, except for what is still dirty.
   */
  ghost predicate CaptureOk(w: World, m: Mark, s: Sys, q: Query, capture: Capture) {
    && Floor(m, q.entity, capture.generation) <= capture.since < |s.history|
    && GenerationLeq(capture.generation, GenerationOf(s.cache, q.entity))
    && (capture.generation == GenerationOf(s.cache, q.entity) ==>
         forall e :: Reaches(w.config.graph, e, q.entity) && !IsDirty(s.dirty, e) ==> Steady(s.history, capture.since, e))
  }

  /** Each batch was in the source's answer, at its place, in some state since `since`. */
  ghost predicate FromReads(w: World, history: seq<Source>, since: nat, q: Query, batches: seq<Batch>) {
    forall k :: 0 <= k < |batches| ==> FromRead(w, history, since, q, k, batches[k])
  }

  ghost predicate FromRead(w: World, history: seq<Source>, since: nat, q: Query, k: nat, batch: Batch) {
    exists i: nat :: since <= i && ReadAt(w, history, i, q, k, batch)
  }

  ghost predicate Ended(w: World, history: seq<Source>, since: nat, q: Query, n: nat) {
    exists i: nat :: since <= i && EndAt(w, history, i, q, n)
  }

  ghost predicate RecordingOk(w: World, history: seq<Source>, since: nat, q: Query, r: Recording) {
    && !r.closed
    && (r.cacheable ==> FromReads(w, history, since, q, r.batches))
    && (r.cacheable && r.complete ==> Ended(w, history, since, q, |r.batches|))
  }

  ghost predicate ResultOk(w: World, m: Mark, s: Sys, q: Query, capture: Capture, batches: seq<Batch>) {
    && CaptureOk(w, m, s, q, capture)
    && FromReads(w, s.history, capture.since, q, batches)
    && Ended(w, s.history, capture.since, q, |batches|)
  }

  ghost predicate TaskOk(w: World, m: Mark, s: Sys, task: Task) {
    match task
    case Looking(_, q) => q.entity != ""
    case Missed(_, q, capture) => q.entity != "" && CaptureOk(w, m, s, q, capture)
    case Streaming(q, capture, r, _) =>
      q.entity != "" && CaptureOk(w, m, s, q, capture) && RecordingOk(w, s.history, capture.since, q, r)
    case Publishing(q, capture, result) => q.entity != "" && ResultOk(w, m, s, q, capture, result.batches)
  }

  function QueryOf(key: QueryKey): Query {
    Query(key.entity, key.digest)
  }

  ghost predicate EntryOk(w: World, m: Mark, s: Sys, key: QueryKey, batches: seq<Batch>) {
    exists since: nat :: ResultOk(w, m, s, QueryOf(key), Capture(key.generation, since), batches)
  }

  ghost predicate Fresh(w: World, m: Mark, s: Sys) {
    && m.index < |s.history|
    && LruStore.DistinctKeys(s.cache.store)
    && (forall t :: t in s.tasks ==> TaskOk(w, m, s, s.tasks[t]))
    && (forall e :: e in s.cache.store ==> e.key.entity != "" && EntryOk(w, m, s, e.key, e.result.batches))
  }

  // ---------- What a step may do ----------

  /**
    History only grows, generations only rise, an entity changes only by becoming dirty, and it stops
    being dirty only when the generations of everything it affects rise.
   */
  ghost predicate Progress(w: World, s: Sys, s': Sys) {
    && s.history != [] && s.history <= s'.history
    && (forall t :: GenerationLeq(GenerationOf(s.cache, t), GenerationOf(s'.cache, t)))
    && (forall e, t :: IsDirty(s.dirty, e) && !IsDirty(s'.dirty, e) && Reaches(w.config.graph, e, t) ==>
         GenerationOf(s.cache, t) != GenerationOf(s'.cache, t))
    && (forall e, i :: !IsDirty(s'.dirty, e) && |s.history| <= i < |s'.history| ==>
         Content(s'.history[i], e) == Content(Now(s), e))
  }

  lemma CaptureKept(w: World, m: Mark, s: Sys, s': Sys, q: Query, capture: Capture)
    requires Progress(w, s, s') && CaptureOk(w, m, s, q, capture)
    ensures CaptureOk(w, m, s', q, capture)
  {
    var before, after := GenerationOf(s.cache, q.entity), GenerationOf(s'.cache, q.entity);
    assert GenerationLeq(before, after);
    if capture.generation == after {
      assert before == after;
      forall e | Reaches(w.config.graph, e, q.entity) && !IsDirty(s'.dirty, e)
        ensures Steady(s'.history, capture.since, e)
      {
        assert !IsDirty(s.dirty, e);
        assert Steady(s.history, capture.since, e);
        forall i | capture.since <= i < |s'.history|
          ensures Content(s'.history[i], e) == Content(s'.history[capture.since], e)
        {
          if i < |s.history| {
            assert s'.history[i] == s.history[i];
          }
          assert s'.history[capture.since] == s.history[capture.since];
        }
      }
    }
  }

  lemma ReadsKept(w: World, h: seq<Source>, h': seq<Source>, since: nat, q: Query, batches: seq<Batch>, n: nat)
    requires h <= h'
    ensures FromReads(w, h, since, q, batches) ==> FromReads(w, h', since, q, batches)
    ensures Ended(w, h, since, q, n) ==> Ended(w, h', since, q, n)
  {
    if FromReads(w, h, since, q, batches) {
      forall k | 0 <= k < |batches|
        ensures FromRead(w, h', since, q, k, batches[k])
      {
        assert FromRead(w, h, since, q, k, batches[k]);
        var i: nat :| since <= i && ReadAt(w, h, i, q, k, batches[k]);
        assert ReadAt(w, h', i, q, k, batches[k]);
      }
    }
    if Ended(w, h, since, q, n) {
      var i: nat :| since <= i && EndAt(w, h, i, q, n);
      assert EndAt(w, h', i, q, n);
    }
  }

  lemma ResultKept(w: World, m: Mark, s: Sys, s': Sys, q: Query, capture: Capture, batches: seq<Batch>)
    requires Progress(w, s, s') && ResultOk(w, m, s, q, capture, batches)
    ensures ResultOk(w, m, s', q, capture, batches)
  {
    CaptureKept(w, m, s, s', q, capture);
    ReadsKept(w, s.history, s'.history, capture.since, q, batches, |batches|);
  }

  lemma TaskKept(w: World, m: Mark, s: Sys, s': Sys, task: Task)
    requires Progress(w, s, s') && TaskOk(w, m, s, task)
    ensures TaskOk(w, m, s', task)
  {
    match task
    case Looking(_, _) =>
    case Missed(_, q, capture) => CaptureKept(w, m, s, s', q, capture);
    case Streaming(q, capture, r, _) =>
      CaptureKept(w, m, s, s', q, capture);
      ReadsKept(w, s.history, s'.history, capture.since, q, r.batches, |r.batches|);
    case Publishing(q, capture, result) => ResultKept(w, m, s, s', q, capture, result.batches);
  }

  lemma EntryKept(w: World, m: Mark, s: Sys, s': Sys, key: QueryKey, batches: seq<Batch>)
    requires Progress(w, s, s') && EntryOk(w, m, s, key, batches)
    ensures EntryOk(w, m, s', key, batches)
  {
    var since: nat :| ResultOk(w, m, s, QueryOf(key), Capture(key.generation, since), batches);
    ResultKept(w, m, s, s', QueryOf(key), Capture(key.generation, since), batches);
  }

  /** After a step that makes progress, only a new task or a new entry needs an argument. */
  lemma FreshKept(w: World, m: Mark, s: Sys, s': Sys)
    requires Fresh(w, m, s) && Progress(w, s, s')
    requires LruStore.DistinctKeys(s'.cache.store)
    requires forall t :: t in s'.tasks ==> (t in s.tasks && s'.tasks[t] == s.tasks[t]) || TaskOk(w, m, s', s'.tasks[t])
    requires forall e :: e in s'.cache.store ==>
               e in s.cache.store || (e.key.entity != "" && EntryOk(w, m, s', e.key, e.result.batches))
    ensures Fresh(w, m, s')
  {
    forall t | t in s'.tasks
      ensures TaskOk(w, m, s', s'.tasks[t])
    {
      if t in s.tasks && s'.tasks[t] == s.tasks[t] {
        TaskKept(w, m, s, s', s.tasks[t]);
      }
    }
    forall e | e in s'.cache.store
      ensures e.key.entity != "" && EntryOk(w, m, s', e.key, e.result.batches)
    {
      if e in s.cache.store {
        EntryKept(w, m, s, s', e.key, e.result.batches);
      }
    }
  }

  // ---------- Progress, step by step ----------

  ghost predicate SameGenerations(c: Cache, c': Cache) {
    c.global == c'.global && c.generations == c'.generations
  }

  lemma QuietProgress(w: World, s: Sys, s': Sys)
    requires s.history != [] && s'.history == s.history && SameGenerations(s.cache, s'.cache)
    requires forall e :: IsDirty(s.dirty, e) ==> IsDirty(s'.dirty, e)
    ensures Progress(w, s, s')
  {
    assert forall t :: GenerationOf(s.cache, t) == GenerationOf(s'.cache, t);
  }

  /** Discharging an obligation may clean what it covers. */
  lemma DischargeProgress(w: World, s: Sys, s': Sys, owed: Retained)
    requires s.history != [] && s'.history == s.history
    requires SameGenerations(s'.cache, Discharge(w.config, s.cache, owed))
    requires forall e :: IsDirty(s.dirty, e) && !Covers(owed, e) ==> IsDirty(s'.dirty, e)
    ensures Progress(w, s, s')
  {
    forall t
      ensures GenerationOf(s'.cache, t) == GenerationOf(Discharge(w.config, s.cache, owed), t)
      ensures GenerationLeq(GenerationOf(s.cache, t), GenerationOf(s'.cache, t))
      ensures (exists e :: Covers(owed, e) && Reaches(w.config.graph, e, t)) ==>
                GenerationOf(s.cache, t) != GenerationOf(s'.cache, t)
    {
      DischargeRaises(w.config, s.cache, owed, t);
    }
  }

  /** Replacing one owner's dirty entities by a part of them cleans only the others. */
  lemma CleaningOne(dirty: map<Owner, set<Entity>>, o: Owner, rest: set<Entity>, e: Entity)
    requires IsDirty(dirty, e) && (e in At(dirty, o) ==> e in rest)
    ensures IsDirty(dirty[o := rest], e)
  {
    var p :| e in At(dirty, p);
    assert e in At(dirty[o := rest], if p == o then o else p);
  }

  lemma MovingDirt(dirty: map<Owner, set<Entity>>, from: Owner, to: Owner, e: Entity)
    requires IsDirty(dirty, e) && from != to
    ensures IsDirty(Moved(dirty, from, to), e)
  {
    var p :| e in At(dirty, p);
    var moved := Moved(dirty, from, to);
    assert e in At(moved, if p == from then to else p);
  }

  lemma EffectProgress(w: World, s: Sys, o: Owner, changed: set<Entity>, next: Source)
    requires s.history != []
    requires forall e :: e !in changed ==> Content(next, e) == Content(Now(s), e)
    ensures Progress(w, s, ApplyTakeEffect(s, o, changed, next))
  {
    var s' := ApplyTakeEffect(s, o, changed, next);
    forall e
      ensures IsDirty(s.dirty, e) ==> IsDirty(s'.dirty, e)
      ensures e in changed ==> IsDirty(s'.dirty, e)
    {
      if p :| e in At(s.dirty, p) {
        assert e in At(s'.dirty, p);
      }
      if e in changed {
        assert e in At(s'.dirty, o);
      }
    }
    assert forall t :: GenerationOf(s.cache, t) == GenerationOf(s'.cache, t);
  }

  lemma CleaningCovered(dirty: map<Owner, set<Entity>>, o: Owner, owed: Retained)
    ensures forall e :: IsDirty(dirty, e) && !Covers(owed, e) ==> IsDirty(dirty[o := Uncovered(At(dirty, o), owed)], e)
  {
    forall e | IsDirty(dirty, e) && !Covers(owed, e) ensures IsDirty(dirty[o := Uncovered(At(dirty, o), owed)], e) {
      CleaningOne(dirty, o, Uncovered(At(dirty, o), owed), e);
    }
  }

  /** Discharging an obligation makes progress while cleaning what it covers of an owner's dirty entities. */
  lemma OwnerDischarged(w: World, s: Sys, s': Sys, o: Owner, owed: Retained)
    requires s.history != [] && s'.history == s.history
    requires s'.cache.global == Discharge(w.config, s.cache, owed).global
    requires s'.cache.generations == Discharge(w.config, s.cache, owed).generations
    requires s'.dirty == s.dirty[o := Uncovered(At(s.dirty, o), owed)]
    ensures Progress(w, s, s')
  {
    CleaningCovered(s.dirty, o, owed);
    hide Progress, Discharge, IsDirty, Uncovered;
    DischargeProgress(w, s, s', owed);
  }

  lemma EndMutationProgress(w: World, s: Sys, c: nat)
    requires s.history != [] && c in s.connections && s.connections[c].call.Mutating?
    ensures Progress(w, s, ApplyEndMutation(w, s, c))
  {
    hide Progress, Raised, Affected, Uncovered;
    var s' := ApplyEndMutation(w, s, c);
    var k := s.connections[c];
    if k.txn.active {
      QuietProgress(w, s, s');
    } else {
      OwnerDischarged(w, s, s', OfConnection(c), OwedFor(k.call.entity));
    }
  }

  lemma EndSettlingProgress(w: World, s: Sys, c: nat)
    requires s.history != [] && c in s.connections && s.connections[c].call.Settling?
    ensures Progress(w, s, ApplyEndSettling(w, s, c))
  {
    hide Progress, Discharge, Uncovered;
    var s' := ApplyEndSettling(w, s, c);
    var k := s.connections[c];
    if Discharges(k.txn, k.call.answer) {
      OwnerDischarged(w, s, s', OfConnection(c), Owed(k.txn));
    } else {
      QuietProgress(w, s, s');
    }
  }

  lemma ControllerProgress(w: World, s: Sys, owed: Retained)
    requires s.history != []
    ensures Progress(w, s, ApplyController(w, s, owed))
  {
    hide Progress, Discharge, Uncovered;
    OwnerDischarged(w, s, ApplyController(w, s, owed), OfOutsider, owed);
  }

  lemma SourcePreparesProgress(w: World, s: Sys, c: nat, b: Branch)
    requires s.history != [] && c in s.connections
    ensures Progress(w, s, ApplySourcePrepares(s, c, b))
  {
    var s' := ApplySourcePrepares(s, c, b);
    if b !in s.prepared {
      forall e | IsDirty(s.dirty, e) ensures IsDirty(s'.dirty, e) {
        MovingDirt(s.dirty, OfConnection(c), OfBranch(b), e);
      }
    }
    hide Progress, IsDirty;
    QuietProgress(w, s, s');
  }

  lemma PopProgress(w: World, s: Sys, k: nat)
    requires s.history != [] && k in s.resolvers && s.resolvers[k].Answered?
    ensures Progress(w, s, ApplyPop(s, k))
  {
    var s' := ApplyPop(s, k);
    forall e | IsDirty(s.dirty, e) ensures IsDirty(s'.dirty, e) {
      MovingDirt(s.dirty, OfBranch(s.resolvers[k].branch), OfResolver(k), e);
    }
    hide Progress, IsDirty;
    QuietProgress(w, s, s');
  }

  /** What a popped record does not cover stays dirty, for its branch. */
  lemma ReturnedDirt(dirty: map<Owner, set<Entity>>, k: nat, b: Branch, owed: Retained, e: Entity)
    requires IsDirty(dirty, e) && !Covers(owed, e)
    ensures IsDirty(dirty[OfBranch(b) := At(dirty, OfBranch(b)) + Uncovered(At(dirty, OfResolver(k)), owed)][OfResolver(k) := {}], e)
  {
    var more := At(dirty, OfBranch(b)) + Uncovered(At(dirty, OfResolver(k)), owed);
    var p :| e in At(dirty, p);
    assert e in At(dirty[OfBranch(b) := more][OfResolver(k) := {}], if p == OfResolver(k) then OfBranch(b) else p);
  }

  /** A resolving call discharges the record it popped, or everything when there was none. */
  lemma DischargeRecordProgress(w: World, s: Sys, k: nat)
    requires s.history != [] && k in s.resolvers && s.resolvers[k].Popped?
    ensures Progress(w, s, ApplyDischarge(w, s, k))
  {
    var owed := OwedByRecord(s.resolvers[k].record);
    forall e | IsDirty(s.dirty, e) && !Covers(owed, e) ensures IsDirty(ApplyDischarge(w, s, k).dirty, e) {
      ReturnedDirt(s.dirty, k, s.resolvers[k].branch, owed, e);
    }
    hide Progress, Raised, Affected, IsDirty, Uncovered;
    DischargeProgress(w, s, ApplyDischarge(w, s, k), owed);
  }

  lemma QueryStepProgress(w: World, s: Sys, a: QueryStep)
    requires s.history != [] && QueryEnabled(w, s, a)
    ensures Progress(w, s, ApplyQuery(w, s, a))
  {
    QueryStepSameObligations(w, s, a);
    hide Progress, IsDirty, ApplyQuery, QueryEnabled;
    QuietProgress(w, s, ApplyQuery(w, s, a));
  }

  lemma CallStepProgress(w: World, s: Sys, a: CallStep)
    requires s.history != [] && CallEnabled(s, a)
    ensures Progress(w, s, ApplyCall(w, s, a))
  {
    hide Progress, IsDirty, Discharge, Mutated, Settled, Uncovered;
    match a
    case EndMutation(c) => EndMutationProgress(w, s, c);
    case EndSettling(c) => EndSettlingProgress(w, s, c);
    case SourcePrepares(c, b) => SourcePreparesProgress(w, s, c, b);
    case _ => QuietProgress(w, s, ApplyCall(w, s, a));
  }

  lemma OtherStepProgress(w: World, s: Sys, a: OtherStep)
    requires s.history != [] && OtherEnabled(s, a)
    ensures Progress(w, s, ApplyOther(w, s, a))
  {
    hide Progress, IsDirty, Discharge, DischargePopped, Uncovered;
    match a
    case TakeEffect(o, changed, next) => EffectProgress(w, s, o, changed, next);
    case ControllerInvalidates(owed) => ControllerProgress(w, s, owed);
    case PopRecord(k) => PopProgress(w, s, k);
    case DischargeRecord(k) => DischargeRecordProgress(w, s, k);
    case _ => QuietProgress(w, s, ApplyOther(w, s, a));
  }

  lemma StepProgress(w: World, s: Sys, a: Action)
    requires s.history != [] && Enabled(w, s, a)
    ensures Progress(w, s, Apply(w, s, a))
  {
    hide Progress, QueryEnabled, CallEnabled, OtherEnabled, ApplyQuery, ApplyCall, ApplyOther;
    match a
    case Querying(step) => QueryStepProgress(w, s, step);
    case Calling(call) => CallStepProgress(w, s, call);
    case Other(other) => OtherStepProgress(w, s, other);
  }

  // ---------- What is read outside transactions ----------

  /**
    While a query is between its check for a transaction and the opening of its stream, its connection is outside
    any; and every stream that records was opened outside a transaction.
   */
  ghost predicate OutsideOk(s: Sys, task: Task) {
    match task
    case Looking(c, _) => c in s.connections && s.connections[c] == Connection(IDLE, NoCall)
    case Missed(c, _, _) => c in s.connections && s.connections[c] == Connection(IDLE, NoCall)
    case Streaming(_, _, _, outside) => outside
    case Publishing(_, _, _) => true
  }

  ghost predicate ReadsOutside(s: Sys) {
    && (forall c :: c in s.connections ==> WellFormed(s.connections[c].txn))
    && (forall t :: t in s.tasks ==> OutsideOk(s, s.tasks[t]))
  }

  lemma QueryStepOutside(w: World, s: Sys, a: QueryStep)
    requires ReadsOutside(s) && s.history != [] && QueryEnabled(w, s, a)
    ensures ReadsOutside(ApplyQuery(w, s, a))
  {
    QueryStepSameObligations(w, s, a);
    QueryStepTasks(w, s, a);
    hide SameObligations, QueryEnabled, ApplyQuery;
  }

  /** The tasks are as they were, but that one may be gone or be another, in order outside transactions. */
  ghost predicate TaskStep(s: Sys, s': Sys) {
    forall t :: t in s'.tasks ==> (t in s.tasks && s'.tasks[t] == s.tasks[t]) || OutsideOk(s, s'.tasks[t])
  }

  lemma LookUpTasks(s: Sys, t: nat, now: int)
    requires ReadsOutside(s) && s.history != [] && t in s.tasks && s.tasks[t].Looking?
    ensures TaskStep(s, ApplyLookUp(s, t, now))
  {
    assert OutsideOk(s, s.tasks[t]);
    hide Lookup, ReadsOutside;
  }

  lemma CloseTasks(w: World, s: Sys, t: nat, now: int, failed: bool)
    requires t in s.tasks
    ensures s.tasks[t].Streaming? ==> TaskStep(s, ApplyCloseStream(s, t, failed))
    ensures s.tasks[t].Publishing? ==> TaskStep(s, ApplyPublish(w, s, t, now))
  {
    hide Published, StoreIfCurrent;
  }

  lemma QueryStepTasks(w: World, s: Sys, a: QueryStep)
    requires ReadsOutside(s) && s.history != [] && QueryEnabled(w, s, a)
    ensures TaskStep(s, ApplyQuery(w, s, a))
  {
    hide LegalReply, Take, ApplyLookUp, ApplyCloseStream, ApplyPublish;
    match a
    case LookUp(t, now) => LookUpTasks(s, t, now);
    case CloseStream(t, failed) => CloseTasks(w, s, t, 0, failed);
    case PublishResult(t, now) => CloseTasks(w, s, t, now, false);
    case BeginQuery(t, c, q) => assert WellFormed(s.connections[c].txn);
    case OpenSource(t) => assert OutsideOk(s, s.tasks[t]);
    case ReadSource(t, reply) => assert OutsideOk(s, s.tasks[t]);
    case Abandon(t) =>
  }

  /** A call changes its own connection only, which has no query under way. */
  lemma CallStepOutside(w: World, s: Sys, a: CallStep)
    requires ReadsOutside(s) && CallEnabled(s, a)
    ensures ReadsOutside(ApplyCall(w, s, a))
  {
    CallStepKeepsQueries(w, s, a);
    CallChangesOne(w, s, a);
    CallerIsFree(s, a);
    hide CallEnabled, ApplyCall;
    var s' := ApplyCall(w, s, a);
    forall t | t in s'.tasks ensures OutsideOk(s', s'.tasks[t]) {
      assert OutsideOk(s, s.tasks[t]);
    }
  }

  /** The connection a call is of. */
  function CallerOf(a: CallStep): nat {
    match a
    case OpenConnection(c) => c
    case StartMutation(c, _, _) => c
    case EndMutation(c) => c
    case BeginTransaction(c) => c
    case SourceSettles(c, _) => c
    case SourceFinishes(c, _, _, _) => c
    case EndSettling(c) => c
    case SourcePrepares(c, _) => c
    case EndPreparing(c) => c
  }

  /** Only the connection's own part changes, into a well-formed one. */
  ghost predicate ChangesOne(s: Sys, s': Sys, c: nat) {
    && s'.connections.Keys == s.connections.Keys + {c} && WellFormed(s'.connections[c].txn)
    && (forall d :: d in s.connections && d != c ==> s'.connections[d] == s.connections[d])
  }

  lemma MutationChangesOne(w: World, s: Sys, c: nat)
    requires c in s.connections && WellFormed(s.connections[c].txn) && s.connections[c].call.Mutating?
    ensures ChangesOne(s, ApplyEndMutation(w, s, c), c)
  {
    hide InvalidateEntities, Uncovered, At;
  }

  lemma SettlingChangesOne(w: World, s: Sys, c: nat)
    requires c in s.connections && WellFormed(s.connections[c].txn) && s.connections[c].call.Settling?
    ensures ChangesOne(s, ApplyEndSettling(w, s, c), c)
  {
    hide Discharge, Uncovered, At, Discharges, Ends;
  }

  lemma PreparingChangesOne(s: Sys, c: nat, b: Branch)
    requires c in s.connections && WellFormed(s.connections[c].txn)
    ensures ChangesOne(s, ApplySourcePrepares(s, c, b), c)
    ensures s.connections[c].call.Preparing? ==> ChangesOne(s, ApplyEndPreparing(s, c), c)
  {
    hide Merge, Moved, At;
  }

  lemma StartChangesOne(s: Sys, c: nat, e: Entity, touched: set<Entity>)
    requires c in s.connections && WellFormed(s.connections[c].txn)
    ensures ChangesOne(s, ApplyStartMutation(s, c, e, touched), c) && ChangesOne(s, ApplyBegin(s, c), c)
  {
    hide At;
  }

  lemma AnswerChangesOne(s: Sys, c: nat, a: Answer, b: Branch, ok: bool, state: BranchState)
    requires c in s.connections && WellFormed(s.connections[c].txn)
    ensures ChangesOne(s, ApplySourceSettles(s, c, a), c) && ChangesOne(s, ApplySourceFinishes(s, c, b, ok, state), c)
  {
    hide At, Ends;
  }

  lemma CallChangesOne(w: World, s: Sys, a: CallStep)
    requires CallEnabled(s, a) && forall c :: c in s.connections ==> WellFormed(s.connections[c].txn)
    ensures ChangesOne(s, ApplyCall(w, s, a), CallerOf(a))
  {
    hide ApplyStartMutation, ApplyEndMutation, ApplyBegin, ApplySourceSettles, ApplySourceFinishes, ApplyEndSettling;
    hide ApplySourcePrepares, ApplyEndPreparing, NothingCommitted, Uncommitted, At, WellFormed, Owed;
    match a
    case OpenConnection(c) => assert WellFormed(IDLE) by { IdleIsWellFormed(); }
    case StartMutation(c, e, touched) => StartChangesOne(s, c, e, touched);
    case BeginTransaction(c) => StartChangesOne(s, c, "", {});
    case EndMutation(c) => MutationChangesOne(w, s, c);
    case SourceSettles(c, answer) => AnswerChangesOne(s, c, answer, "", false, Active);
    case SourceFinishes(c, b, ok, state) => AnswerChangesOne(s, c, CloseAnswered, b, ok, state);
    case EndSettling(c) => SettlingChangesOne(w, s, c);
    case SourcePrepares(c, b) => PreparingChangesOne(s, c, b);
    case EndPreparing(c) => PreparingChangesOne(s, c, "");
  }

  lemma IdleIsWellFormed()
    ensures WellFormed(IDLE)
  {
  }

  /** A call starts while no query of its connection is under way, and otherwise another call is. */
  lemma CallerIsFree(s: Sys, a: CallStep)
    requires CallEnabled(s, a)
    ensures var c := CallerOf(a);
            c !in s.connections || s.connections[c].call != NoCall || forall t :: t in s.tasks ==> !InQuery(s.tasks[t], c)
  {
    hide NothingCommitted, Uncommitted, At;
  }

  lemma StepOutside(w: World, s: Sys, a: Action)
    requires ReadsOutside(s) && s.history != [] && Enabled(w, s, a)
    ensures ReadsOutside(Apply(w, s, a))
  {
    hide QueryEnabled, CallEnabled, ApplyQuery, ApplyCall;
    match a
    case Querying(step) => QueryStepOutside(w, s, step);
    case Calling(call) => CallStepOutside(w, s, call);
    case Other(other) =>
      OtherStepKeepsQueries(w, s, other);
      OtherKeepsConnections(w, s, other);
      hide OtherEnabled, ApplyOther;
  }

  lemma OtherKeepsConnections(w: World, s: Sys, a: OtherStep)
    requires OtherEnabled(s, a)
    ensures ApplyOther(w, s, a).connections == s.connections
  {
    hide Discharge, DischargePopped, Moved, Uncovered, At;
  }

  // ---------- New tasks and entries, step by step ----------

  lemma LookUpFresh(w: World, m: Mark, s: Sys, t: nat, now: int)
    requires Fresh(w, m, s) && t in s.tasks && s.tasks[t].Looking?
    requires Progress(w, s, ApplyLookUp(s, t, now))
    ensures Fresh(w, m, ApplyLookUp(s, t, now))
  {
    hide Progress, Steady, IsDirty, EntryOk;
    var s' := ApplyLookUp(s, t, now);
    var q := s.tasks[t].q;
    assert TaskOk(w, m, s, s.tasks[t]);
    LruStore.GetAddsNothing(s.cache.store, KeyFor(q, GenerationOf(s.cache, q.entity)), now);
    NewCaptureOk(w, m, s', q);
    hide LruStore.Get, LruStore.DistinctKeys, CaptureOk;
    FreshKept(w, m, s, s');
  }

  /** A capture taken now has seen nothing change yet. */
  lemma NewCaptureOk(w: World, m: Mark, s: Sys, q: Query)
    requires m.index < |s.history|
    ensures CaptureOk(w, m, s, q, Capture(GenerationOf(s.cache, q.entity), |s.history| - 1))
  {
  }

  lemma ReadFresh(w: World, m: Mark, s: Sys, t: nat, reply: Reply)
    requires Fresh(w, m, s) && ReadsOutside(s) && QueryEnabled(w, s, ReadSource(t, reply))
    requires Progress(w, s, ApplyQuery(w, s, ReadSource(t, reply)))
    ensures Fresh(w, m, ApplyQuery(w, s, ReadSource(t, reply)))
  {
    hide Progress, Take, EntryOk, CaptureOk;
    assert TaskOk(w, m, s, s.tasks[t]) && OutsideOk(s, s.tasks[t]);
    var task := s.tasks[t];
    RecordingGrows(w, s.history, task, reply);
    hide RecordingOk, LegalReply;
    var s' := ApplyQuery(w, s, ReadSource(t, reply));
    SameCapture(w, m, s, s', task.q, task.capture);
    FreshKept(w, m, s, s');
  }

  lemma SameCapture(w: World, m: Mark, s: Sys, s': Sys, q: Query, capture: Capture)
    requires s'.history == s.history && s'.cache == s.cache && s'.dirty == s.dirty
    ensures CaptureOk(w, m, s, q, capture) <==> CaptureOk(w, m, s', q, capture)
  {
  }

  lemma RecordingGrows(w: World, history: seq<Source>, task: Task, reply: Reply)
    requires task.Streaming? && task.outside && RecordingOk(w, history, task.capture.since, task.q, task.recording)
    requires LegalReply(w, history, task, reply)
    ensures RecordingOk(w, history, task.capture.since, task.q, Take(task.recording, reply, w.config.maxEntryBytes))
  {
    var r := task.recording;
    if r.cacheable && !r.complete && reply.Delivered? {
      assert FromRead(w, history, task.capture.since, task.q, |r.batches|, reply.batch);
    }
  }

  lemma PublishFresh(w: World, m: Mark, s: Sys, t: nat, now: int)
    requires w.config.limits.maxEntries >= 1
    requires Fresh(w, m, s) && t in s.tasks && s.tasks[t].Publishing?
    requires Progress(w, s, ApplyPublish(w, s, t, now))
    ensures Fresh(w, m, ApplyPublish(w, s, t, now))
  {
    var task := s.tasks[t];
    var s' := ApplyPublish(w, s, t, now);
    var key := KeyFor(task.q, task.capture.generation);
    assert TaskOk(w, m, s, task);
    ResultKept(w, m, s, s', task.q, task.capture, task.result.batches);
    LruStore.SetFacts(s.cache.store, key, task.result, now, w.config.limits);
    hide Progress, ResultOk, LruStore.Set;
    assert Capture(key.generation, task.capture.since) == task.capture && QueryOf(key) == task.q;
    assert EntryOk(w, m, s', key, task.result.batches);
    FreshKept(w, m, s, s');
  }

  lemma CloseFresh(w: World, m: Mark, s: Sys, t: nat, failed: bool)
    requires Fresh(w, m, s) && t in s.tasks && s.tasks[t].Streaming?
    requires Progress(w, s, ApplyCloseStream(s, t, failed))
    ensures Fresh(w, m, ApplyCloseStream(s, t, failed))
  {
    assert TaskOk(w, m, s, s.tasks[t]);
    hide Progress, EntryOk, FromReads, Ended, IsDirty, Steady;
    FreshKept(w, m, s, ApplyCloseStream(s, t, failed));
  }

  lemma OpenFresh(w: World, m: Mark, s: Sys, t: nat)
    requires Fresh(w, m, s) && t in s.tasks && s.tasks[t].Missed? && s.tasks[t].c in s.connections
    requires Progress(w, s, ApplyQuery(w, s, OpenSource(t)))
    ensures Fresh(w, m, ApplyQuery(w, s, OpenSource(t)))
  {
    assert TaskOk(w, m, s, s.tasks[t]);
    hide Progress, EntryOk, IsDirty, Steady;
    FreshKept(w, m, s, ApplyQuery(w, s, OpenSource(t)));
  }

  lemma QueryStepFresh(w: World, m: Mark, s: Sys, a: QueryStep)
    requires w.config.limits.maxEntries >= 1
    requires Fresh(w, m, s) && ReadsOutside(s) && QueryEnabled(w, s, a) && Progress(w, s, ApplyQuery(w, s, a))
    ensures Fresh(w, m, ApplyQuery(w, s, a))
  {
    hide Progress, EntryOk, CaptureOk, ResultOk, RecordingOk, LegalReply, LruStore.Get, LruStore.Set, ReadsOutside;
    match a
    case LookUp(t, now) => LookUpFresh(w, m, s, t, now);
    case OpenSource(t) => OpenFresh(w, m, s, t);
    case ReadSource(t, reply) => ReadFresh(w, m, s, t, reply);
    case CloseStream(t, failed) => CloseFresh(w, m, s, t, failed);
    case PublishResult(t, now) => PublishFresh(w, m, s, t, now);
    case _ => FreshKept(w, m, s, ApplyQuery(w, s, a));
  }

  /** No invalidation touches the store. */
  lemma InvalidationKeepsStore(w: World, c: Cache, txn: Transaction)
    ensures forall e :: Mutated(w.config, c, txn, e).0.store == c.store
    ensures forall a :: Settled(w.config, c, txn, a).0.store == c.store
    ensures forall owed :: Discharge(w.config, c, owed).store == c.store
    ensures forall popped :: DischargePopped(w.config, c, popped).store == c.store
  {
  }

  ghost predicate SameQueries(s: Sys, s': Sys) {
    s'.tasks == s.tasks && s'.cache.store == s.cache.store
  }

  lemma EndMutationKeepsQueries(w: World, s: Sys, c: nat)
    requires c in s.connections && s.connections[c].call.Mutating?
    ensures SameQueries(s, ApplyEndMutation(w, s, c))
  {
    InvalidationKeepsStore(w, s.cache, s.connections[c].txn);
    hide Mutated;
  }

  lemma EndSettlingKeepsQueries(w: World, s: Sys, c: nat)
    requires c in s.connections && s.connections[c].call.Settling?
    ensures SameQueries(s, ApplyEndSettling(w, s, c))
  {
    InvalidationKeepsStore(w, s.cache, s.connections[c].txn);
    hide Settled, Discharges;
  }

  lemma CallStepKeepsQueries(w: World, s: Sys, a: CallStep)
    requires CallEnabled(s, a)
    ensures SameQueries(s, ApplyCall(w, s, a))
  {
    hide ApplyEndMutation, ApplyEndSettling, Merge, Moved, At;
    match a
    case EndMutation(c) => EndMutationKeepsQueries(w, s, c);
    case EndSettling(c) => EndSettlingKeepsQueries(w, s, c);
    case _ =>
  }

  lemma OtherStepKeepsQueries(w: World, s: Sys, a: OtherStep)
    requires OtherEnabled(s, a)
    ensures SameQueries(s, ApplyOther(w, s, a))
  {
    match a
    case ControllerInvalidates(owed) => DischargeKeepsStore(w, s.cache, owed);
    case DischargeRecord(k) => DischargeKeepsStore(w, s.cache, OwedByRecord(s.resolvers[k].record));
    case _ =>
      hide Discharge, DischargePopped, Moved, At, Content;
  }

  lemma DischargeKeepsStore(w: World, c: Cache, owed: Retained)
    ensures Discharge(w.config, c, owed).store == c.store
  {
  }

  lemma SameQueriesFresh(w: World, m: Mark, s: Sys, s': Sys)
    requires Fresh(w, m, s) && Progress(w, s, s') && SameQueries(s, s')
    ensures Fresh(w, m, s')
  {
    hide Progress, TaskOk, EntryOk;
    FreshKept(w, m, s, s');
  }

  /** Every step keeps what is cached, and what is on its way into the cache, fresh. */
  lemma StepFresh(w: World, m: Mark, s: Sys, a: Action)
    requires w.config.limits.maxEntries >= 1
    requires Fresh(w, m, s) && ReadsOutside(s) && s.history != [] && Enabled(w, s, a)
    ensures Fresh(w, m, Apply(w, s, a))
  {
    StepProgress(w, s, a);
    hide Progress, ReadsOutside, Fresh, QueryEnabled, CallEnabled, OtherEnabled, ApplyQuery, ApplyCall, ApplyOther, SameQueries;
    match a
    case Querying(step) => QueryStepFresh(w, m, s, step);
    case Calling(call) =>
      CallStepKeepsQueries(w, s, call);
      SameQueriesFresh(w, m, s, Apply(w, s, a));
    case Other(other) =>
      OtherStepKeepsQueries(w, s, other);
      SameQueriesFresh(w, m, s, Apply(w, s, a));
  }
}
