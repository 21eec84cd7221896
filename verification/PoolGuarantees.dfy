/** What the session pool and the registry of connections guarantee together, over whole runs. */
module PoolGuarantees {
  import opened Options
  import opened SessionPool
  import opened PoolSystem
  import opened PoolSafety

  // ---------- Closing is kept apart from operations ----------

  /** The cached session an operation uses, or will use after giving another one back. */
  function InUse(p: Phase): Option<(Slot, Session)> {
    match p
    case Using(c, ns, s) => Some((Slot(c, ns), s))
    case Releasing(_, _, ThenUse(c, ns, s)) => Some((Slot(c, ns), s))
    case ClosingSession(_, ThenUse(c, ns, s)) => Some((Slot(c, ns), s))
    case _ => None
  }

  predicate UseOk(st: State, p: Phase) {
    InUse(p).Some? ==> InUse(p).value.0 in st.caches && st.caches[InUse(p).value.0] == InUse(p).value.1
  }

  /** The call reads a connection that is not refused, and uses what the connection caches. */
  predicate ReaderOk(st: State, p: Phase) {
    (Reads(p).Some? ==> Reads(p).value !in st.refused) && UseOk(st, p)
  }

  predicate Apart(p: Phase, q: Phase) {
    Reads(p).Some? ==> Reads(p) != Writes(q)
  }

  ghost predicate LocksOk(st: State) {
    && (forall t, u :: Apart(At(st, t), At(st, u)))
    && (forall t :: ReaderOk(st, At(st, t)))
    && st.closed <= st.refused
  }

  lemma UserReads(p: Phase)
    requires InUse(p).Some?
    ensures Reads(p) == Some(InUse(p).value.0.c)
  {
  }

  /** A call that takes no new lock, and changes only slots of a connection nobody reads, disturbs nobody. */
  lemma LocksFrame(st: State, st': State, t: CallId)
    requires LocksOk(st) && OnlyCall(st, st', t)
    requires Reads(At(st', t)).None? || Reads(At(st', t)) == Reads(At(st, t))
    requires Writes(At(st', t)).None? || Writes(At(st', t)) == Writes(At(st, t))
    requires st'.refused == st.refused && st'.closed <= st.refused
    requires forall k :: k in st.caches && (k !in st'.caches || st'.caches[k] != st.caches[k]) ==>
               Writes(At(st, t)) == Some(k.c)
    requires UseOk(st', At(st', t))
    ensures LocksOk(st')
  {
    forall u | u != t ensures ReaderOk(st', At(st', u)) {
      var p := At(st, u);
      assert At(st', u) == p && ReaderOk(st, p) && Apart(p, At(st, t));
      if InUse(p).Some? {
        UserReads(p);
      }
    }
    assert ReaderOk(st, At(st, t));
    forall u, v ensures Apart(At(st', u), At(st', v)) {
      assert Apart(At(st, u), At(st, v)) && Apart(At(st, t), At(st, v)) && Apart(At(st, u), At(st, t));
    }
  }

  lemma LockSharedLocks(st: State, t: CallId)
    requires LocksOk(st) && OperationEnabled(true, st, LockShared(t))
    ensures LocksOk(ApplyOperation(true, st, LockShared(t)))
  {
    var st' := ApplyOperation(true, st, LockShared(t));
    forall u | u != t ensures At(st', u) == At(st, u) && ReaderOk(st', At(st', u)) {
      assert ReaderOk(st, At(st, u));
    }
    forall u, v ensures Apart(At(st', u), At(st', v)) {
      assert Apart(At(st, u), At(st, v));
    }
  }

  lemma LockExclusiveLocks(st: State, t: CallId)
    requires LocksOk(st) && ClosingEnabled(true, st, LockExclusive(t))
    ensures LocksOk(ApplyClosing(true, st, LockExclusive(t)))
  {
    var st', c := ApplyLockExclusive(st, t), At(st, t).todo[0];
    ExclusivelyLocked(st, t);
    hide ClosingEnabled, ApplyLockExclusive, ApplyClosing;
    forall u | u != t ensures At(st', u) == At(st, u) && ReaderOk(st', At(st', u)) {
      assert ReaderOk(st, At(st, u)) && Reads(At(st, u)) != Some(c);
    }
    forall u, v ensures Apart(At(st', u), At(st', v)) {
      assert Apart(At(st, u), At(st, v));
    }
  }

  lemma ExclusivelyLocked(st: State, t: CallId)
    requires ClosingEnabled(true, st, LockExclusive(t))
    ensures var st', c := ApplyLockExclusive(st, t), At(st, t).todo[0];
            && st' == ApplyClosing(true, st, LockExclusive(t)) && OnlyCall(st, st', t)
            && st'.caches == st.caches && st'.closed == st.closed && st.refused <= st'.refused <= st.refused + {c}
            && Reads(At(st', t)).None? && InUse(At(st', t)).None?
            && (Writes(At(st', t)).None? || Writes(At(st', t)) == Some(c))
            && (forall u :: Reads(At(st, u)) != Some(c))
  {
  }

  /** A closing call has its connection refused before it closes it. */
  ghost predicate ClosersOk(st: State) {
    forall t :: Writes(At(st, t)).Some? ==> Writes(At(st, t)).value in st.refused
  }

  /** A step on the pool: the call keeps or drops what its phase stands for, and nothing else changes. */
  ghost predicate PhaseKept(st: State, st': State, t: CallId) {
    && OnlyCall(st, st', t)
    && st'.caches == st.caches && st'.refused == st.refused && st'.closed == st.closed
    && st'.known == st.known && st'.registered == st.registered
    && NoMore(At(st, t), At(st', t))
  }

  predicate NoMore(p: Phase, q: Phase) {
    && (Reads(q).None? || Reads(q) == Reads(p)) && !q.Found?
    && Writes(q) == Writes(p) && (q.ClosingConnection? <==> p.ClosingConnection?)
    && (InUse(q).None? || InUse(q) == InUse(p))
  }

  lemma EnterPhase(st: State, t: CallId, added: EntryId)
    requires At(st, t).Acquiring? && WellFormed(st.pool)
    ensures PhaseKept(st, ApplyEnter(st, t, added), t)
  {
    hide WellFormed;
  }

  lemma MadePhase(st: State, t: CallId, made: Option<Session>)
    requires At(st, t).Making?
    ensures PhaseKept(st, ApplyMade(st, t, made), t)
  {
    hide Finish;
  }

  lemma WakePhase(st: State, t: CallId)
    requires At(st, t).Waiting?
    requires At(st, t).entry in st.pool.entries && !st.pool.entries[At(st, t).entry].Creating?
    ensures PhaseKept(st, ApplyWake(st, t), t)
  {
    hide Recheck;
  }

  lemma ReleasePhase(st: State, t: CallId)
    requires At(st, t).Releasing? && WellFormed(st.pool)
    ensures PhaseKept(st, ApplyRelease(st, t), t)
  {
    hide Release, WellFormed;
  }

  lemma PoolStepPhase(st: State, a: PoolStep)
    requires PoolEnabled(st, a)
    ensures PhaseKept(st, ApplyPool(st, a), a.t)
  {
    hide ApplyEnter, ApplyMade, ApplyWake, ApplyRelease, WellFormed;
    match a
    case EnterPool(t, added) => EnterPhase(st, t, added);
    case SessionMade(t, made) => MadePhase(st, t, made);
    case WakeUp(t) => WakePhase(st, t);
    case ReleaseRegion(t) => ReleasePhase(st, t);
    case CloseSession(t) =>
  }

  /** What a step that takes no lock does to the locks, for the call that takes it. */
  ghost predicate KeepsLocks(st: State, st': State, t: CallId) {
    && OnlyCall(st, st', t)
    && (Reads(At(st', t)).None? || Reads(At(st', t)) == Reads(At(st, t)))
    && (Writes(At(st', t)).None? || Writes(At(st', t)) == Writes(At(st, t)))
    && st'.refused == st.refused && st'.closed <= st.refused
    && (forall k :: k in st.caches && (k !in st'.caches || st'.caches[k] != st.caches[k]) ==>
         Writes(At(st, t)) == Some(k.c))
    && UseOk(st', At(st', t))
  }

  lemma PoolStepLocks(st: State, a: PoolStep)
    requires UseOk(st, At(st, a.t)) && st.closed <= st.refused && PoolEnabled(st, a)
    ensures KeepsLocks(st, ApplyPool(st, a), a.t)
  {
    PoolStepPhase(st, a);
    hide PoolEnabled, ApplyPool;
  }

  lemma CacheStepLocks(st: State, a: CacheStep)
    requires UseOk(st, At(st, a.t)) && st.closed <= st.refused && CacheEnabled(st, a)
    ensures KeepsLocks(st, ApplyCache(st, a), a.t)
  {
  }

  lemma OperationStepLocks(st: State, a: OperationStep)
    requires UseOk(st, At(st, a.t)) && st.closed <= st.refused && OperationEnabled(true, st, a) && !a.LockShared?
    ensures KeepsLocks(st, ApplyOperation(true, st, a), a.t)
  {
  }

  lemma ClosingStepLocks(st: State, a: ClosingStep)
    requires ClosersOk(st) && UseOk(st, At(st, a.t)) && st.closed <= st.refused
    requires ClosingEnabled(true, st, a) && !a.LockExclusive?
    ensures KeepsLocks(st, ApplyClosing(true, st, a), a.t)
  {
  }

  /** Every step keeps operations and closing calls apart, connection by connection. */
  lemma StepLocks(st: State, a: Step)
    requires LocksOk(st) && ClosersOk(st) && Enabled(true, st, a)
    ensures LocksOk(Apply(true, st, a))
  {
    assert ReaderOk(st, At(st, CallOf(a)));
    hide OperationEnabled, CacheEnabled, PoolEnabled, ClosingEnabled, ClosersOk, KeepsLocks, LocksOk;
    hide ApplyOperation, ApplyCache, ApplyPool, ApplyClosing;
    match a
    case Operating(step) =>
      if step.LockShared? {
        LockSharedLocks(st, step.t);
      } else {
        OperationStepLocks(st, step);
        LocksKept(st, Apply(true, st, a), step.t);
      }
    case Caching(step) =>
      CacheStepLocks(st, step);
      LocksKept(st, Apply(true, st, a), step.t);
    case Pooling(step) =>
      PoolStepLocks(st, step);
      LocksKept(st, Apply(true, st, a), step.t);
    case Closing(step) =>
      if step.LockExclusive? {
        LockExclusiveLocks(st, step.t);
      } else {
        ClosingStepLocks(st, step);
        LocksKept(st, Apply(true, st, a), step.t);
      }
  }

  lemma LocksKept(st: State, st': State, t: CallId)
    requires LocksOk(st) && KeepsLocks(st, st', t)
    ensures LocksOk(st')
  {
    hide LocksOk;
    LocksFrame(st, st', t);
  }

  // ---------- Closing calls ----------

  /** The call has the connection's sessions in hand and is giving them back. */
  predicate Drains(p: Phase, c: Conn) {
    !p.ClosingConnection? && Writes(p) == Some(c)
  }

  /** The sessions a closed connection had cached are being given back; and the closing calls are in order. */
  ghost predicate DrainsOk(st: State) {
    && ClosersOk(st)
    && (forall k :: k in st.caches && k.c in st.closed ==> exists t :: Drains(At(st, t), k.c))
  }

  /** What a step does for the closing of connections. */
  ghost predicate KeepsDraining(st: State, st': State, t: CallId) {
    && OnlyCall(st, st', t) && st.refused <= st'.refused
    && (Writes(At(st', t)).Some? ==>
         Writes(At(st', t)) == Writes(At(st, t)) || Writes(At(st', t)).value in st'.refused)
    && (forall k :: k in st'.caches && k.c in st'.closed ==>
         || Drains(At(st', t), k.c)
         || (k in st.caches && k.c in st.closed && !Drains(At(st, t), k.c)))
  }

  lemma DrainsFrame(st: State, st': State, t: CallId)
    requires DrainsOk(st) && KeepsDraining(st, st', t)
    ensures DrainsOk(st')
  {
    forall k | k in st'.caches && k.c in st'.closed
      ensures exists u :: Drains(At(st', u), k.c)
    {
      if !Drains(At(st', t), k.c) {
        var u :| Drains(At(st, u), k.c);
        assert At(st', u) == At(st, u);
      }
    }
  }

  lemma PoolStepDrains(st: State, a: PoolStep)
    requires PoolEnabled(st, a)
    ensures KeepsDraining(st, ApplyPool(st, a), a.t)
  {
    PoolStepPhase(st, a);
    hide PoolEnabled, ApplyPool;
  }

  lemma CacheStepDrains(st: State, a: CacheStep)
    requires CacheEnabled(st, a)
    ensures KeepsDraining(st, ApplyCache(st, a), a.t)
  {
  }

  lemma OperationStepDrains(locked: bool, st: State, a: OperationStep)
    requires OperationEnabled(locked, st, a)
    ensures KeepsDraining(st, ApplyOperation(locked, st, a), a.t)
  {
  }

  lemma ClosingStepDrains(locked: bool, st: State, a: ClosingStep)
    requires ClosingEnabled(locked, st, a)
    ensures KeepsDraining(st, ApplyClosing(locked, st, a), a.t)
  {
  }

  /** Every step keeps the sessions of closed connections in the hands of their closing calls. */
  lemma StepDrains(locked: bool, st: State, a: Step)
    requires DrainsOk(st) && Enabled(locked, st, a)
    ensures DrainsOk(Apply(locked, st, a))
  {
    hide OperationEnabled, CacheEnabled, PoolEnabled, ClosingEnabled, DrainsOk, KeepsDraining;
    hide ApplyOperation, ApplyCache, ApplyPool, ApplyClosing;
    match a {
      case Operating(step) => OperationStepDrains(locked, st, step);
      case Caching(step) => CacheStepDrains(st, step);
      case Pooling(step) => PoolStepDrains(st, step);
      case Closing(step) => ClosingStepDrains(locked, st, step);
    }
    DrainsFrame(st, Apply(locked, st, a), CallOf(a));
  }

  // ---------- Only opened connections are used ----------

  function Seen(p: Phase): Option<Conn> {
    if p.Found? then Some(p.c) else Reads(p)
  }

  ghost predicate KnownOk(st: State) {
    && st.registered <= st.known
    && (forall t :: Seen(At(st, t)).Some? ==> Seen(At(st, t)).value in st.known)
    && (forall k :: k in st.caches ==> k.c in st.known)
  }

  ghost predicate KeepsKnown(st: State, st': State, t: CallId) {
    && OnlyCall(st, st', t) && st.known <= st'.known && st'.registered <= st'.known
    && (Seen(At(st', t)).Some? ==> Seen(At(st', t)).value in st.known)
    && (forall k :: k in st'.caches ==> k in st.caches || k.c in st.known)
  }

  lemma PoolStepKnown(st: State, a: PoolStep)
    requires KnownOk(st) && PoolEnabled(st, a)
    ensures KeepsKnown(st, ApplyPool(st, a), a.t)
  {
    PoolStepPhase(st, a);
    hide PoolEnabled, ApplyPool;
  }

  lemma CacheStepKnown(st: State, a: CacheStep)
    requires KnownOk(st) && CacheEnabled(st, a)
    ensures KeepsKnown(st, ApplyCache(st, a), a.t)
  {
    assert Seen(At(st, a.t)).Some? ==> Seen(At(st, a.t)).value in st.known;
  }

  lemma OperationStepKnown(locked: bool, st: State, a: OperationStep)
    requires KnownOk(st) && OperationEnabled(locked, st, a)
    ensures KeepsKnown(st, ApplyOperation(locked, st, a), a.t)
  {
    assert Seen(At(st, a.t)).Some? ==> Seen(At(st, a.t)).value in st.known;
  }

  lemma ClosingStepKnown(locked: bool, st: State, a: ClosingStep)
    requires KnownOk(st) && ClosingEnabled(locked, st, a)
    ensures KeepsKnown(st, ApplyClosing(locked, st, a), a.t)
  {
  }

  lemma KnownFrame(st: State, st': State, t: CallId)
    requires KnownOk(st) && KeepsKnown(st, st', t)
    ensures KnownOk(st')
  {
    forall u | Seen(At(st', u)).Some? ensures Seen(At(st', u)).value in st'.known {
      assert u != t ==> At(st', u) == At(st, u);
    }
  }

  /** Every step keeps to connections that were opened. */
  lemma StepKnown(locked: bool, st: State, a: Step)
    requires KnownOk(st) && Enabled(locked, st, a)
    ensures KnownOk(Apply(locked, st, a))
  {
    hide OperationEnabled, CacheEnabled, PoolEnabled, ClosingEnabled, KnownOk, KeepsKnown;
    hide ApplyOperation, ApplyCache, ApplyPool, ApplyClosing;
    match a {
      case Operating(step) => OperationStepKnown(locked, st, step);
      case Caching(step) => CacheStepKnown(st, step);
      case Pooling(step) => PoolStepKnown(st, step);
      case Closing(step) => ClosingStepKnown(locked, st, step);
    }
    KnownFrame(st, Apply(locked, st, a), CallOf(a));
  }

  // ---------- Whole runs ----------

  function Last(states: seq<State>): State
    requires states != []
  {
    states[|states| - 1]
  }

  /** What holds in every reachable state. */
  ghost predicate Sound(locked: bool, st: State) {
    PoolOk(st) && DrainsOk(st) && KnownOk(st) && (locked ==> LocksOk(st))
  }

  lemma OneStepSound(locked: bool, st: State, st': State)
    requires Sound(locked, st) && IsStep(locked, st, st')
    ensures Sound(locked, st')
  {
    var a :| Enabled(locked, st, a) && st' == Apply(locked, st, a);
    hide Enabled, Apply, PoolOk, DrainsOk, KnownOk, LocksOk;
    StepOk(locked, st, a);
    StepDrains(locked, st, a);
    StepKnown(locked, st, a);
    if locked {
      StepLocks(st, a) by { DrainsHaveClosers(st); }
    }
  }

  lemma StartApart()
    ensures DrainsOk(START) && KnownOk(START) && LocksOk(START)
  {
  }

  lemma StartSound(locked: bool)
    ensures Sound(locked, START)
  {
    StartOk();
    hide At, PoolOk, LocksOk, DrainsOk, KnownOk;
    StartApart();
  }

  lemma {:induction false} EveryStateSound(locked: bool, states: seq<State>, i: nat)
    requires IsRun(locked, states) && i < |states|
    ensures Sound(locked, states[i])
  {
    hide Sound, IsStep;
    if i == 0 {
      StartSound(locked);
    } else {
      EveryStateSound(locked, states, i - 1);
      OneStepSound(locked, states[i - 1], states[i]);
    }
  }

  lemma DrainsHaveClosers(st: State)
    requires DrainsOk(st)
    ensures ClosersOk(st)
  {
  }

  lemma SharedIsLive(st: State, ns: Namespace)
    requires WellFormed(st.pool) && HomesOk(st)
    requires ns in st.pool.current && st.pool.entries[st.pool.current[ns]].Ready?
    ensures LiveAt(st, ns, st.pool.entries[st.pool.current[ns]].session)
  {
    var e := st.pool.current[ns];
    assert e in st.pool.entries && st.pool.entries[e].Ready?;
  }

  /**
    In every run the reference count of each entry in the pool is the number of calls and connection
    caches that hold its session, and at least one does.
   */
  lemma ReferencesAreHolders(locked: bool, states: seq<State>, ns: Namespace)
    requires IsRun(locked, states) && ns in Last(states).pool.current
    ensures var st := Last(states);
            var e := st.pool.current[ns];
            && e in st.pool.entries
            && (st.pool.entries[e].Ready? ==>
                 st.pool.entries[e].references == Holders(st, st.pool.entries[e].session) > 0)
  {
    EveryStateSound(locked, states, |states| - 1);
    var st := Last(states);
    if st.pool.entries[st.pool.current[ns]].Ready? {
      SharedIsLive(st, ns);
    }
  }

  /** In every run a session that a call or an open connection's cache holds has not been closed and is not being closed. */
  lemma HeldIsOpen(locked: bool, states: seq<State>, s: Session)
    requires IsRun(locked, states) && Holders(Last(states), s) > 0
    ensures s !in Last(states).log && !IsClosing(Last(states), s)
  {
    EveryStateSound(locked, states, |states| - 1);
    HolderIsLive(Last(states), s);
    hide Holders;
    assert References(Last(states), s) == Holders(Last(states), s);
  }

  /** In every run no session is closed twice, or without having been created. */
  lemma NeverClosedTwice(locked: bool, states: seq<State>)
    requires IsRun(locked, states)
    ensures forall i, j :: 0 <= i < j < |Last(states).log| ==> Last(states).log[i] != Last(states).log[j]
    ensures forall s :: s in Last(states).log ==> s in Last(states).home
  {
    EveryStateSound(locked, states, |states| - 1);
  }

  /** With the registry's lock, an operation never uses a session that has been closed or is being closed. */
  lemma UsedIsOpen(states: seq<State>, t: CallId)
    requires IsRun(true, states)
    requires At(Last(states), t).Using? || At(Last(states), t).Holding?
    ensures At(Last(states), t).session !in Last(states).log
    ensures !IsClosing(Last(states), At(Last(states), t).session)
  {
    var st := Last(states);
    EveryStateSound(true, states, |states| - 1);
    var p := At(st, t);
    assert ReaderOk(st, p);
    assert LiveAt(st, p.ns, p.session) by {
      if p.Holding? { assert Held(p).Some?; }
    }
    assert References(st, p.session) > 0;
  }

  /** With no call in progress, every entry in the pool is ready and has references. */
  lemma CurrentIsShared(st: State, ns: Namespace)
    requires PoolOk(st) && ns in st.pool.current && forall t :: At(st, t).Idle?
    ensures exists s :: s in st.home && References(st, s) > 0
  {
    var e := st.pool.current[ns];
    assert e in st.pool.entries && !st.pool.entries[e].Creating?;
    SharedIsLive(st, ns);
  }

  /** Once every connection is closed and every call has returned, the pool is empty and every session is closed. */
  lemma AllClosedIsEmpty(locked: bool, states: seq<State>)
    requires IsRun(locked, states)
    requires Last(states).known <= Last(states).closed && forall t :: At(Last(states), t).Idle?
    ensures Last(states).pool.current == map[] && Last(states).caches == map[]
    ensures forall s :: s in Last(states).home ==> s in Last(states).log
  {
    var st := Last(states);
    EveryStateSound(locked, states, |states| - 1);
    assert forall t, c :: !Drains(At(st, t), c);
    assert st.caches.Keys == {};
    assert forall t :: t in st.threads ==> At(st, t).Idle?;
    forall s | s in st.home ensures References(st, s) == 0 && s in st.log {
      NobodyHolds(st, s);
    }
    forall ns ensures ns !in st.pool.current {
      if ns in st.pool.current {
        CurrentIsShared(st, ns);
        assert false;
      }
    }
  }

  // ---------- Without the registry's lock ----------

  lemma OperationIsStep(st: State, a: OperationStep, st': State)
    requires OperationEnabled(false, st, a) && st' == ApplyOperation(false, st, a)
    ensures IsStep(false, st, st')
  {
    assert Enabled(false, st, Operating(a)) && st' == Apply(false, st, Operating(a));
  }

  lemma CacheIsStep(st: State, a: CacheStep, st': State)
    requires CacheEnabled(st, a) && st' == ApplyCache(st, a)
    ensures IsStep(false, st, st')
  {
    assert Enabled(false, st, Caching(a)) && st' == Apply(false, st, Caching(a));
  }

  lemma PoolIsStep(st: State, a: PoolStep, st': State)
    requires PoolEnabled(st, a) && st' == ApplyPool(st, a)
    ensures IsStep(false, st, st')
  {
    assert Enabled(false, st, Pooling(a)) && st' == Apply(false, st, Pooling(a));
  }

  lemma ClosingIsStep(st: State, a: ClosingStep, st': State)
    requires ClosingEnabled(false, st, a) && st' == ApplyClosing(false, st, a)
    ensures IsStep(false, st, st')
  {
    assert Enabled(false, st, Closing(a)) && st' == Apply(false, st, Closing(a));
  }

  /** Call 1 works on the only connection, 1. */
  function Opened(phase: Phase, pool: Pool, caches: map<Slot, Session>, home: map<Session, EntryId>): State {
    State(pool, caches, map[1 := phase], {1}, {1}, {}, {}, home, [])
  }

  /** Call 2 closes the connection while call 1 still uses its session. */
  function BothRunning(phase: Phase, pool: Pool, caches: map<Slot, Session>, refused: set<Conn>, closed: set<Conn>,
                       log: seq<Session>): State {
    State(pool, caches, map[1 := Using(1, "n", 7), 2 := phase], {}, {1}, refused, closed, map[7 := 5], log)
  }

  const MADE := Pool(map[5 := Ready("n", 7, 1)], map["n" := 5])
  const GONE := Pool(map[5 := Ready("n", 7, 0)], map[])
  const CACHED: map<Slot, Session> := map[Slot(1, "n") := 7]

  const S1 := Opened(Idle, EMPTY_POOL, map[], map[])
  const S2 := Opened(Found(1), EMPTY_POOL, map[], map[])
  const S3 := Opened(InOperation(1), EMPTY_POOL, map[], map[])
  const S4 := Opened(Acquiring(ForConnection(1), "n"), EMPTY_POOL, map[], map[])
  const S5 := Opened(Making(ForConnection(1), "n", 5), Pool(map[5 := Creating("n")], map["n" := 5]), map[], map[])
  const S6 := Opened(Holding(ForConnection(1), "n", 7), MADE, map[], map[7 := 5])
  const S7 := Opened(Using(1, "n", 7), MADE, CACHED, map[7 := 5])
  const S8 := BothRunning(WantsLock([1]), MADE, CACHED, {}, {}, [])
  const S9 := BothRunning(ClosingConnection([1]), MADE, CACHED, {1}, {}, [])
  const S10 := BothRunning(Draining([1]), MADE, CACHED, {1}, {1}, [])
  const S11 := BothRunning(Releasing("n", 7, ThenDrain([1])), MADE, map[], {1}, {1}, [])
  const S12 := BothRunning(ClosingSession(7, ThenDrain([1])), GONE, map[], {1}, {1}, [])
  const S13 := BothRunning(Draining([1]), GONE, map[], {1}, {1}, [7])

  lemma OpenAndStart()
    ensures IsStep(false, START, S1) && IsStep(false, S1, S2) && IsStep(false, S2, S3) && IsStep(false, S3, S4)
  {
    hide IsStep, Enabled, Apply;
    OperationIsStep(START, OpenConnection(1, 1), S1);
    OperationIsStep(S1, FindConnection(1, 1), S2);
    OperationIsStep(S2, LockShared(1), S3);
    CacheIsStep(S3, StartSession(1, "n"), S4);
  }

  lemma MakeAndKeep()
    ensures IsStep(false, S4, S5) && IsStep(false, S5, S6) && IsStep(false, S6, S7)
  {
    hide IsStep, Enabled, Apply;
    PoolIsStep(S4, EnterPool(1, 5), S5);
    PoolIsStep(S5, SessionMade(1, Some(7)), S6);
    CacheIsStep(S6, KeepSession(1), S7);
  }

  lemma CloseMeanwhile()
    ensures IsStep(false, S7, S8) && IsStep(false, S8, S9) && IsStep(false, S9, S10)
  {
    hide IsStep, Enabled, Apply;
    ClosingIsStep(S7, CloseOne(2, 1), S8);
    ClosingIsStep(S8, LockExclusive(2), S9);
    ClosingIsStep(S9, CloseConnection(2), S10);
  }

  lemma DrainMeanwhile()
    ensures IsStep(false, S10, S11) && IsStep(false, S11, S12)
  {
    hide IsStep, Enabled, Apply;
    CacheIsStep(S10, DrainOne(2, "n"), S11);
    PoolIsStep(S11, ReleaseRegion(2), S12);
  }

  lemma CloseSessionMeanwhile()
    ensures IsStep(false, S12, S13) && At(S13, 1) == Using(1, "n", 7) && S13.log == [7]
  {
    hide IsStep, Enabled, Apply;
    PoolIsStep(S12, CloseSession(2), S13);
  }

  /** Without the lock there is a run in which an operation still uses a session that has been closed. */
  lemma WithoutLockClosedIsUsed() returns (states: seq<State>, t: CallId)
    ensures IsRun(false, states) && At(Last(states), t).Using? && At(Last(states), t).session in Last(states).log
  {
    hide IsStep, Opened, BothRunning, At;
    OpenAndStart();
    MakeAndKeep();
    CloseMeanwhile();
    DrainMeanwhile();
    CloseSessionMeanwhile();
    states, t := [START, S1, S2, S3, S4, S5, S6, S7, S8, S9, S10, S11, S12, S13], 1;
  }
}
