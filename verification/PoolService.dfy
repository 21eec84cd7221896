/** What each call gets from the session pool, in every reachable state. */
module PoolService {
  import opened Options
  import opened SessionPool
  import opened PoolSystem
  import opened PoolSafety
  import opened PoolGuarantees

  /** The session was created for the entry. */
  predicate Belongs(st: State, s: Session, e: EntryId) {
    s in st.home && st.home[s] == e
  }

  /** The call now holds the session, which the pool counts once more; nothing else has changed in the pool. */
  ghost predicate Joins(st: State, st': State, t: CallId, user: User, ns: Namespace, s: Session) {
    && At(st', t) == Holding(user, ns, s) && HomesOk(st) && HomesOk(st')
    && st'.home == st.home && st'.pool.current == st.pool.current
    && (forall x :: x in st.home ==> References(st', x) == References(st, x) + (if x == s then 1 else 0))
  }

  // ---------- Creations that have failed ----------

  predicate IsFailed(st: State, e: EntryId) {
    e in st.pool.entries && st.pool.entries[e].Failed?
  }

  /** The call that was to create the entry's session returned without one. */
  ghost predicate MadeNothing(locked: bool, states: seq<State>, e: EntryId) {
    exists i, u :: ReturnsNothingAt(locked, states, i, u, e)
  }

  ghost predicate ReturnsNothingAt(locked: bool, states: seq<State>, i: int, u: CallId, e: EntryId) {
    0 <= i < |states| - 1 && ReturnsNothing(locked, states[i], states[i + 1], u, e)
  }

  ghost predicate ReturnsNothing(locked: bool, st: State, st': State, u: CallId, e: EntryId) {
    && At(st, u).Making? && At(st, u).entry == e
    && st' == Apply(locked, st, Pooling(SessionMade(u, None)))
  }

  lemma StepFails(locked: bool, st: State, a: Step, e: EntryId)
    requires PoolOk(st) && Enabled(locked, st, a)
    ensures IsFailed(st, e) ==> IsFailed(Apply(locked, st, a), e)
    ensures IsFailed(Apply(locked, st, a), e) && !IsFailed(st, e) ==>
              exists u :: ReturnsNothing(locked, st, Apply(locked, st, a), u, e)
  {
    if a.Pooling? {
      PoolStepFails(locked, st, a.poolStep, e);
      hide Apply, ApplyPool, PoolOk, IsFailed, ReturnsNothing;
    } else {
      OtherStepKeepsPool(locked, st, a);
      hide Apply, PoolOk;
    }
  }

  lemma OtherStepKeepsPool(locked: bool, st: State, a: Step)
    requires Enabled(locked, st, a) && !a.Pooling?
    ensures Apply(locked, st, a).pool == st.pool
  {
    match a
    case Operating(step) => OperationKeepsPool(locked, st, step);
    case Caching(_) =>
    case Closing(_) => hide OperationEnabled, ApplyOperation, CacheEnabled, ApplyCache;
  }

  lemma OperationKeepsPool(locked: bool, st: State, a: OperationStep)
    requires OperationEnabled(locked, st, a)
    ensures ApplyOperation(locked, st, a).pool == st.pool
  {
  }

  lemma PoolStepFails(locked: bool, st: State, a: PoolStep, e: EntryId)
    requires WellFormed(st.pool) && MakersOk(st) && PoolEnabled(st, a)
    ensures IsFailed(st, e) ==> IsFailed(ApplyPool(st, a), e)
    ensures IsFailed(ApplyPool(st, a), e) && !IsFailed(st, e) ==>
              ReturnsNothing(locked, st, Apply(locked, st, Pooling(a)), a.t, e)
  {
    assert At(st, a.t).Making? ==>
        At(st, a.t).entry in st.pool.entries && st.pool.entries[At(st, a.t).entry].Creating?;
    hide MakersOk;
  }

  /** In every run, an entry has failed exactly if its creating call returned without a session. */
  lemma {:induction false} FailedExactlyWhen(locked: bool, states: seq<State>, e: EntryId)
    requires IsRun(locked, states)
    ensures IsFailed(Last(states), e) <==> MadeNothing(locked, states, e)
  {
    var n := |states| - 1;
    hide PoolOk, Enabled, Apply, IsFailed;
    if n == 0 {
      assert !IsFailed(START, e) by { NothingHasFailed(e); }
    } else {
      var before := states[..n];
      FailedExactlyWhen(locked, before, e);
      EveryStateSound(locked, states, n - 1);
      assert IsStep(locked, states[n - 1], states[n]);
      var a :| Enabled(locked, states[n - 1], a) && states[n] == Apply(locked, states[n - 1], a);
      StepFails(locked, states[n - 1], a, e);
      hide ReturnsNothing;
      assert forall i, u :: i < n - 1 ==>
          (ReturnsNothingAt(locked, before, i, u, e) <==> ReturnsNothingAt(locked, states, i, u, e));
      var now, next := states[n - 1], states[n];
      if u :| ReturnsNothing(locked, now, next, u, e) {
        assert ReturnsNothingAt(locked, states, n - 1, u, e);
        ReturningNothingFails(locked, states[n - 1], states[n], u, e);
      }
    }
  }

  lemma NothingHasFailed(e: EntryId)
    ensures !IsFailed(START, e)
  {
  }

  lemma ReturningNothingFails(locked: bool, st: State, st': State, u: CallId, e: EntryId)
    requires ReturnsNothing(locked, st, st', u, e)
    ensures IsFailed(st', e)
  {
  }

  // ---------- What calls get ----------

  lemma OneMoreReference(st: State, e: EntryId)
    requires HomesOk(st) && e in st.pool.entries && st.pool.entries[e].Ready?
    ensures var st', s := st.(pool := Referenced(st.pool, e)), st.pool.entries[e].session;
            && HomesOk(st') && Belongs(st, s, e)
            && (forall x :: x in st.home ==> References(st', x) == References(st, x) + (if x == s then 1 else 0))
  {
  }

  /**
    A call woken for an entry gets no session exactly if the creating call returned none. If that created one, the call gets
    it when it is still the namespace's, and otherwise starts over.
   */
  lemma WakingCallGets(locked: bool, states: seq<State>, t: CallId)
    requires IsRun(locked, states) && PoolEnabled(Last(states), WakeUp(t))
    ensures var st, st', p := Last(states), ApplyPool(Last(states), WakeUp(t)), At(Last(states), t);
            && (MadeNothing(locked, states, p.entry) <==> forall s :: !Belongs(st, s, p.entry))
            && (At(st', t) == Resumed(p.user) <==> MadeNothing(locked, states, p.entry))
            && (forall s :: Belongs(st, s, p.entry) ==>
                 if LiveAt(st, p.ns, s) then Joins(st, st', t, p.user, p.ns, s)
                 else At(st', t) == Acquiring(p.user, p.ns) && st'.pool == st.pool)
  {
    var st, e := Last(states), At(Last(states), t).entry;
    EveryStateSound(locked, states, |states| - 1);
    FailedExactlyWhen(locked, states, e);
    hide ApplyPool;
    WokenGets(st, t);
    hide MadeNothing, IsFailed, PoolOk, KnownOk, DrainsOk, LocksOk, PoolEnabled, Joins, LiveAt, Belongs;
  }

  lemma WokenGets(st: State, t: CallId)
    requires WellFormed(st.pool) && HomesOk(st) && PoolEnabled(st, WakeUp(t))
    ensures var st', p := ApplyPool(st, WakeUp(t)), At(st, t);
            && (IsFailed(st, p.entry) <==> forall s :: !Belongs(st, s, p.entry))
            && (At(st', t) == Resumed(p.user) <==> IsFailed(st, p.entry))
            && (forall s :: Belongs(st, s, p.entry) ==>
                 if LiveAt(st, p.ns, s) then Joins(st, st', t, p.user, p.ns, s)
                 else At(st', t) == Acquiring(p.user, p.ns) && st'.pool == st.pool)
  {
    var e := At(st, t).entry;
    if st.pool.entries[e].Ready? {
      OneMoreReference(st, e);
      assert Belongs(st, st.pool.entries[e].session, e);
    }
  }

  /** The call is creating the namespace's session. */
  predicate Creates(st: State, u: CallId, ns: Namespace) {
    At(st, u).Making? && At(st, u).ns == ns
  }

  lemma EnteringShares(st: State, t: CallId, added: EntryId)
    requires WellFormed(st.pool) && HomesOk(st) && MakersOk(st) && PoolEnabled(st, EnterPool(t, added))
    requires var ns := At(st, t).ns; ns in st.pool.current && st.pool.entries[st.pool.current[ns]].Ready?
    ensures var p, st' := At(st, t), ApplyPool(st, EnterPool(t, added));
            && (exists s :: LiveAt(st, p.ns, s)) && (forall u :: !Creates(st, u, p.ns))
            && (forall s :: LiveAt(st, p.ns, s) ==> Joins(st, st', t, p.user, p.ns, s))
  {
    OneMoreReference(st, st.pool.current[At(st, t).ns]);
    SharedIsLive(st, At(st, t).ns);
  }

  lemma EnteringWaits(st: State, t: CallId, added: EntryId)
    requires WellFormed(st.pool) && HomesOk(st) && MakersOk(st) && PoolEnabled(st, EnterPool(t, added))
    requires var ns := At(st, t).ns; ns in st.pool.current && !st.pool.entries[st.pool.current[ns]].Ready?
    ensures var p, st' := At(st, t), ApplyPool(st, EnterPool(t, added));
            && (forall s :: !LiveAt(st, p.ns, s)) && (exists u :: Creates(st, u, p.ns))
            && (forall u :: Creates(st, u, p.ns) ==>
                 At(st', t) == Waiting(p.user, p.ns, At(st, u).entry) && st'.pool == st.pool)
  {
    var e := st.pool.current[At(st, t).ns];
    var u :| At(st, u).Making? && At(st, u).entry == e;
    assert Creates(st, u, At(st, t).ns);
  }

  lemma EnteringCreates(st: State, t: CallId, added: EntryId)
    requires WellFormed(st.pool) && MakersOk(st) && PoolEnabled(st, EnterPool(t, added))
    requires At(st, t).ns !in st.pool.current
    ensures var p, st' := At(st, t), ApplyPool(st, EnterPool(t, added));
            && (forall s :: !LiveAt(st, p.ns, s)) && (forall u :: !Creates(st, u, p.ns))
            && At(st', t) == Making(p.user, p.ns, added) && Creates(st', t, p.ns)
            && st'.pool.current == st.pool.current[p.ns := added]
  {
  }

  /**
    A call that enters the pool shares the namespace's session if there is one, waits if another call is creating one, and
    otherwise goes on to create it.
   */
  lemma EnteringCallGets(locked: bool, states: seq<State>, t: CallId, added: EntryId)
    requires IsRun(locked, states) && PoolEnabled(Last(states), EnterPool(t, added))
    ensures var st, st', p := Last(states), ApplyPool(Last(states), EnterPool(t, added)), At(Last(states), t);
            && (forall s :: LiveAt(st, p.ns, s) ==> Joins(st, st', t, p.user, p.ns, s))
            && (forall u :: Creates(st, u, p.ns) ==>
                 At(st', t) == Waiting(p.user, p.ns, At(st, u).entry) && st'.pool == st.pool)
            && ((forall s :: !LiveAt(st, p.ns, s)) && (forall u :: !Creates(st, u, p.ns)) ==>
                 At(st', t) == Making(p.user, p.ns, added) && Creates(st', t, p.ns)
                 && st'.pool.current == st.pool.current[p.ns := added])
  {
    var st, ns := Last(states), At(Last(states), t).ns;
    EveryStateSound(locked, states, |states| - 1);
    hide KnownOk, DrainsOk, LocksOk, CountsOk, ClosesOk, ApplyPool;
    if ns !in st.pool.current {
      EnteringCreates(st, t, added);
    } else if st.pool.entries[st.pool.current[ns]].Ready? {
      EnteringShares(st, t, added);
    } else {
      EnteringWaits(st, t, added);
    }
    hide HomesOk, MakersOk, Joins, LiveAt, Creates;
  }

  /**
    A created session becomes the namespace's, held by the creating call alone; without one the namespace is free again.
   */
  lemma CreatingCallGets(locked: bool, states: seq<State>, t: CallId, made: Option<Session>)
    requires IsRun(locked, states) && PoolEnabled(Last(states), SessionMade(t, made))
    ensures var st, st', p := Last(states), ApplyPool(Last(states), SessionMade(t, made)), At(Last(states), t);
            && (forall ns :: ns != p.ns ==> (ns in st'.pool.current <==> ns in st.pool.current))
            && (made.None? ==> At(st', t) == Resumed(p.user) && p.ns !in st'.pool.current && st'.home == st.home)
            && (made.Some? ==>
                 && At(st', t) == Holding(p.user, p.ns, made.value) && HomesOk(st')
                 && LiveAt(st', p.ns, made.value) && References(st', made.value) == 1
                 && st'.home == st.home[made.value := p.entry])
  {
    EveryStateSound(locked, states, |states| - 1);
    MadeHomes(Last(states), ApplyMade(Last(states), t, made), t, made);
    hide HomesOk, CountsOk, ClosesOk, MakersOk, KnownOk, DrainsOk, LocksOk, WellFormed, LiveAt, References;
  }

  /** A session that others hold as well stays with them; the last one to give it back frees the namespace and closes it. */
  lemma ReleasingCallGets(locked: bool, states: seq<State>, t: CallId)
    requires IsRun(locked, states) && PoolEnabled(Last(states), ReleaseRegion(t))
    ensures var st, st', p := Last(states), ApplyPool(Last(states), ReleaseRegion(t)), At(Last(states), t);
            && Holders(st', p.session) == Holders(st, p.session) - 1
            && GoesOn(p, At(st', t))
            && (if Holders(st, p.session) > 1 then At(st', t) == Continued(p.after) && st'.pool.current == st.pool.current
                else At(st', t) == ClosingSession(p.session, p.after) && st'.pool.current == st.pool.current - {p.ns})
  {
    var st, p := Last(states), At(Last(states), t);
    EveryStateSound(locked, states, |states| - 1);
    assert LiveAt(st, p.ns, p.session) by { assert Held(p).Some?; }
    assert References(st, p.session) == Holders(st, p.session) > 0;
    hide Sound, PoolOk, Holders;
    assert WellFormed(st.pool) && HomesOk(st) by { SoundPool(locked, st); }
    ReleaseGets(st, t);
  }

  lemma SoundPool(locked: bool, st: State)
    requires Sound(locked, st)
    ensures WellFormed(st.pool) && HomesOk(st)
  {
  }

  lemma ReleaseGets(st: State, t: CallId)
    requires WellFormed(st.pool) && HomesOk(st) && At(st, t).Releasing?
    requires LiveAt(st, At(st, t).ns, At(st, t).session) && References(st, At(st, t).session) > 0
    ensures var st', p := ApplyRelease(st, t), At(st, t);
            && Holders(st', p.session) == Holders(st, p.session) - 1
            && GoesOn(p, At(st', t))
            && (if References(st, p.session) > 1 then At(st', t) == Continued(p.after)
                && st'.pool.current == st.pool.current
                else At(st', t) == ClosingSession(p.session, p.after) && st'.pool.current == st.pool.current - {p.ns})
  {
    MovedHolders(st, ApplyRelease(st, t), t, At(ApplyRelease(st, t), t));
    hide Holders;
  }

  /** The call still holds the locks it held, and uses or goes on to use the session it was to use. */
  predicate GoesOn(p: Phase, q: Phase) {
    Reads(q) == Reads(p) && Writes(q) == Writes(p) && InUse(q) == InUse(p)
  }

  /** Closing a session closes it, and the call goes on as after giving it back. */
  lemma ClosingCallGoesOn(st: State, t: CallId)
    requires PoolEnabled(st, CloseSession(t))
    ensures var st', p := ApplyPool(st, CloseSession(t)), At(st, t);
            && st'.log == st.log + [p.session] && st'.pool == st.pool && st'.caches == st.caches
            && GoesOn(p, At(st', t)) && Held(At(st', t)).None? && !At(st', t).ClosingSession?
  {
  }

  // ---------- What operations use ----------

  /**
    An operation that stops using its session, or gives up waiting for one, goes on without one, under the lock it has, until
    it ends; a metadata read that gives up ends, and one that is done gives its session back.
   */
  lemma OperationGoesOn(locked: bool, st: State, a: OperationStep)
    requires OperationEnabled(locked, st, a)
    ensures var st', p, q := ApplyOperation(locked, st, a), At(st, a.t), At(ApplyOperation(locked, st, a), a.t);
            && st'.pool == st.pool && st'.caches == st.caches
            && (a.EndUse? || (a.GiveUp? && p.user.ForConnection?) ==> q.InOperation? && Some(q.c) == Reads(p))
            && (a.EndOperation? || (a.GiveUp? && p.user.ForMetadata?) ==> q.Idle?)
            && (a.EndMetadata? ==> q.Releasing? && q.session == p.session && q.ns == p.ns && q.after.ThenReturn?)
            && (a.StartMetadata? ==> q == Acquiring(ForMetadata, a.ns))
  {
  }

  /**
    An operation whose connection is open goes on, once it holds a session, to use the one its connection caches, which is
    the one the pool shares; it gives its own back if the connection had cached one meanwhile, or has been closed.
   */
  lemma KeepingCallUses(locked: bool, states: seq<State>, t: CallId)
    requires IsRun(locked, states) && CacheEnabled(Last(states), KeepSession(t))
    ensures var st, st', p := Last(states), ApplyCache(Last(states), KeepSession(t)), At(Last(states), t);
            var slot := Slot(p.user.c, p.ns);
            && (InUse(At(st', t)).Some? <==> slot.c !in st.closed)
            && (slot.c !in st.closed ==>
                 && slot in st'.caches && InUse(At(st', t)) == Some((slot, st'.caches[slot]))
                 && LiveAt(st', p.ns, st'.caches[slot]))
            && (slot in st.caches ==> st'.caches == st.caches)
            && (Held(At(st', t)) == if slot.c in st.closed || slot in st.caches then Some(p.session) else None)
  {
    var st, p := Last(states), At(Last(states), t);
    EveryStateSound(locked, states, |states| - 1);
    assert CountsOk(st);
    hide Sound, PoolOk, IsRun, Holders, HomesOk, References, ApplyCache;
    KeepingUses(st, t);
  }

  lemma KeepingUses(st: State, t: CallId)
    requires CacheEnabled(st, KeepSession(t)) && LiveAt(st, At(st, t).ns, At(st, t).session)
    requires forall k :: k in st.caches ==> LiveAt(st, k.ns, st.caches[k])
    ensures var st', p := ApplyCache(st, KeepSession(t)), At(st, t);
            var slot := Slot(p.user.c, p.ns);
            && (InUse(At(st', t)).Some? <==> slot.c !in st.closed)
            && (slot.c !in st.closed ==>
                 && slot in st'.caches && InUse(At(st', t)) == Some((slot, st'.caches[slot]))
                 && LiveAt(st', p.ns, st'.caches[slot]))
            && (slot in st.caches ==> st'.caches == st.caches)
            && (Held(At(st', t)) == if slot.c in st.closed || slot in st.caches then Some(p.session) else None)
  {
  }

  /** An operation that needs a session uses the one its open connection caches, or turns to the pool for want of one. */
  lemma StartingCallUses(st: State, t: CallId, ns: Namespace)
    requires CacheEnabled(st, StartSession(t, ns))
    ensures var st', slot := ApplyCache(st, StartSession(t, ns)), Slot(At(st, t).c, ns);
            && st'.pool == st.pool && st'.caches == st.caches
            && (slot in st.caches ==> (slot.c !in st.closed <==> InUse(At(st', t)) == Some((slot, st.caches[slot]))))
            && (slot.c !in st.closed && slot !in st.caches <==> At(st', t) == Acquiring(ForConnection(slot.c), ns))
            && (slot.c in st.closed <==> st' == st)
  {
  }
}
