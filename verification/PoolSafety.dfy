/**
  In every run of the session pool: an entry's reference count is the number of its holders, each created
  session is closed at most once and only when nobody holds it, no operation uses a closed session, and
  when everything is closed the pool is empty.
 */
module PoolSafety {
  import opened Options
  import opened SessionPool
  import opened PoolSystem

  // ---------- Holders ----------

  /** The session a call holds a reference to. */
  function Held(p: Phase): Option<Session> {
    match p
    case Holding(_, _, s) => Some(s)
    case Releasing(_, s, _) => Some(s)
    case _ => None
  }

  ghost function SlotsOf(caches: map<Slot, Session>, s: Session): set<Slot> {
    set k | k in caches && caches[k] == s
  }

  ghost function CallsOf(threads: map<CallId, Phase>, s: Session): set<CallId> {
    set t | t in threads && Held(threads[t]) == Some(s)
  }

  /** The number of connection caches and calls that hold the session. */
  ghost function Holders(st: State, s: Session): nat {
    |SlotsOf(st.caches, s)| + |CallsOf(st.threads, s)|
  }

  lemma CallsChange(threads: map<CallId, Phase>, t: CallId, p: Phase, s: Session)
    ensures |CallsOf(threads[t := p], s)| ==
            |CallsOf(threads, s)|
            - (if t in threads && Held(threads[t]) == Some(s) then 1 else 0)
            + (if Held(p) == Some(s) then 1 else 0)
  {
    var rest := CallsOf(threads, s) - {t};
    hide Held;
    assert CallsOf(threads[t := p], s) == if Held(p) == Some(s) then rest + {t} else rest;
  }

  lemma SlotAdded(caches: map<Slot, Session>, k: Slot, v: Session, s: Session)
    requires k !in caches
    ensures |SlotsOf(caches[k := v], s)| == |SlotsOf(caches, s)| + (if v == s then 1 else 0)
  {
    assert SlotsOf(caches[k := v], s) == if v == s then SlotsOf(caches, s) + {k} else SlotsOf(caches, s);
  }

  lemma SlotRemoved(caches: map<Slot, Session>, k: Slot, s: Session)
    requires k in caches
    ensures |SlotsOf(caches - {k}, s)| == |SlotsOf(caches, s)| - (if caches[k] == s then 1 else 0)
  {
    assert SlotsOf(caches - {k}, s) == SlotsOf(caches, s) - {k};
  }

  // ---------- The invariant of the pool ----------

  function References(st: State, s: Session): nat
    requires s in st.home && st.home[s] in st.pool.entries && st.pool.entries[st.home[s]].Ready?
  {
    st.pool.entries[st.home[s]].references
  }

  /** Each created session has one entry, and each ready entry is the entry of its session. */
  ghost predicate HomesOk(st: State) {
    && (forall s :: s in st.home ==>
         && st.home[s] in st.pool.entries
         && st.pool.entries[st.home[s]].Ready? && st.pool.entries[st.home[s]].session == s)
    && (forall e :: e in st.pool.entries && st.pool.entries[e].Ready? ==>
         st.pool.entries[e].session in st.home && st.home[st.pool.entries[e].session] == e)
  }

  /** The session is the one the pool shares for the namespace now. */
  predicate LiveAt(st: State, ns: Namespace, s: Session) {
    s in st.home && ns in st.pool.current && st.pool.current[ns] == st.home[s]
  }

  /** References count holders; an entry in the pool has some, and every holder's entry is in the pool. */
  ghost predicate CountsOk(st: State)
    requires HomesOk(st)
  {
    && (forall s :: s in st.home ==> References(st, s) == Holders(st, s))
    && (forall ns, s :: LiveAt(st, ns, s) ==> References(st, s) > 0)
    && (forall k :: k in st.caches ==> LiveAt(st, k.ns, st.caches[k]))
    && (forall t :: Held(At(st, t)).Some? ==> LiveAt(st, At(st, t).ns, At(st, t).session))
  }

  predicate SameMaking(p: Phase, q: Phase) {
    p.Making? && q.Making? && p.entry == q.entry
  }

  predicate SameClosing(p: Phase, q: Phase) {
    p.ClosingSession? && q.ClosingSession? && p.session == q.session
  }

  /** An entry under creation is in the pool and has exactly one creating call; awaited entries exist. */
  ghost predicate MakersOk(st: State) {
    && (forall t :: At(st, t).Making? ==>
         var p := At(st, t);
         && p.ns in st.pool.current && st.pool.current[p.ns] == p.entry
         && p.entry in st.pool.entries && st.pool.entries[p.entry].Creating?)
    && (forall t, u :: SameMaking(At(st, t), At(st, u)) ==> t == u)
    && (forall e :: e in st.pool.entries && st.pool.entries[e].Creating? ==>
         exists t :: At(st, t).Making? && At(st, t).entry == e)
    && (forall t :: At(st, t).Waiting? ==>
         At(st, t).entry in st.pool.entries && st.pool.entries[At(st, t).entry].ns == At(st, t).ns)
  }

  ghost predicate IsClosing(st: State, s: Session) {
    exists t :: At(st, t).ClosingSession? && At(st, t).session == s
  }

  /** A session is being closed by one call, or has been closed once, exactly when it has no references. */
  ghost predicate ClosesOk(st: State)
    requires HomesOk(st)
  {
    && (forall t :: At(st, t).ClosingSession? ==>
         var s := At(st, t).session;
         s in st.home && References(st, s) == 0 && s !in st.log)
    && (forall t, u :: SameClosing(At(st, t), At(st, u)) ==> t == u)
    && (forall s :: s in st.log ==> s in st.home && References(st, s) == 0)
    && (forall i, j :: 0 <= i < j < |st.log| ==> st.log[i] != st.log[j])
    && (forall s :: s in st.home && References(st, s) == 0 ==> s in st.log || IsClosing(st, s))
  }

  ghost predicate PoolOk(st: State) {
    WellFormed(st.pool) && HomesOk(st) && CountsOk(st) && MakersOk(st) && ClosesOk(st)
  }

  lemma StartOk()
    ensures PoolOk(START)
  {
    assert forall s :: SlotsOf(START.caches, s) == {} && CallsOf(START.threads, s) == {};
  }

  // ---------- What each part depends on ----------

  /** Only one call moves. */
  ghost predicate OnlyCall(st: State, st': State, t: CallId) {
    forall u :: u != t ==> At(st', u) == At(st, u)
  }

  ghost predicate WaitingOk(pool: Pool, p: Phase) {
    p.Waiting? ==> p.entry in pool.entries && pool.entries[p.entry].ns == p.ns
  }

  /** Entries under creation are the same, in the same places. */
  ghost predicate SameCreating(p: Pool, p': Pool) {
    && (forall e :: e in p.entries ==> e in p'.entries && p'.entries[e].ns == p.entries[e].ns)
    && (forall e :: e in p.entries && p.entries[e].Creating? ==> p'.entries[e].Creating?)
    && (forall e :: e in p'.entries && p'.entries[e].Creating? ==> e in p.entries && p.entries[e].Creating?)
    && (forall ns :: ns in p.current && p.current[ns] in p.entries && p.entries[p.current[ns]].Creating? ==>
         ns in p'.current && p'.current[ns] == p.current[ns])
  }

  lemma MakersFrame(st: State, st': State, t: CallId)
    requires MakersOk(st) && OnlyCall(st, st', t) && SameCreating(st.pool, st'.pool)
    requires !At(st, t).Making? && !At(st', t).Making? && WaitingOk(st'.pool, At(st', t))
    ensures MakersOk(st')
  {
    forall e | e in st'.pool.entries && st'.pool.entries[e].Creating?
      ensures exists u :: At(st', u).Making? && At(st', u).entry == e
    {
      var u :| At(st, u).Making? && At(st, u).entry == e;
      assert At(st', u) == At(st, u);
    }
  }

  lemma ClosesFrame(st: State, st': State, t: CallId)
    requires HomesOk(st) && ClosesOk(st) && HomesOk(st') && OnlyCall(st, st', t)
    requires st'.log == st.log && !At(st, t).ClosingSession? && !At(st', t).ClosingSession?
    requires forall s :: s in st.home ==> s in st'.home && (References(st', s) == 0 <==> References(st, s) == 0)
    requires forall s :: s in st'.home && s !in st.home ==> References(st', s) > 0
    ensures ClosesOk(st')
  {
    forall s | s in st'.home && References(st', s) == 0
      ensures s in st'.log || IsClosing(st', s)
    {
      if u :| At(st, u).ClosingSession? && At(st, u).session == s {
        assert At(st', u) == At(st, u);
      }
    }
  }

  /** What a phase that holds a session relies on. */
  predicate HeldOk(st: State, p: Phase) {
    Held(p).Some? ==> LiveAt(st, p.ns, p.session)
  }

  lemma CountsFrame(st: State, st': State, t: CallId)
    requires HomesOk(st) && CountsOk(st) && HomesOk(st') && OnlyCall(st, st', t) && HeldOk(st', At(st', t))
    requires forall s :: s in st'.home ==> References(st', s) == Holders(st', s)
    requires forall ns, s :: LiveAt(st, ns, s) ==> LiveAt(st', ns, s)
    requires forall ns, s :: LiveAt(st', ns, s) ==> References(st', s) > 0
    requires forall k :: k in st'.caches ==> LiveAt(st', k.ns, st'.caches[k])
    ensures CountsOk(st')
  {
    forall u | Held(At(st', u)).Some?
      ensures LiveAt(st', At(st', u).ns, At(st', u).session)
    {
      if u != t {
        assert Held(At(st, u)).Some? && LiveAt(st, At(st, u).ns, At(st, u).session);
      }
    }
  }

  // ---------- Steps that leave the pool alone ----------

  /** A call moves on, or passes a reference between itself and a cache slot. */
  ghost predicate Quiet(st: State, st': State, t: CallId) {
    && st'.pool == st.pool && st'.home == st.home && st'.log == st.log
    && OnlyCall(st, st', t)
    && (forall s :: Holders(st', s) == Holders(st, s))
    && (forall k :: k in st'.caches ==> LiveAt(st, k.ns, st'.caches[k]))
    && HeldOk(st, At(st', t)) && WaitingOk(st.pool, At(st', t))
    && Unobtrusive(At(st, t)) && Unobtrusive(At(st', t))
  }

  predicate Unobtrusive(p: Phase) {
    !p.Making? && !p.ClosingSession?
  }

  lemma QuietOk(st: State, st': State, t: CallId)
    requires PoolOk(st) && Quiet(st, st', t)
    ensures PoolOk(st')
  {
    hide Holders;
    assert HomesOk(st');
    assert forall ns, s :: LiveAt(st', ns, s) <==> LiveAt(st, ns, s);
    forall s | s in st'.home ensures References(st', s) == Holders(st', s) {
      assert References(st, s) == Holders(st, s);
    }
    CountsFrame(st, st', t);
    MakersFrame(st, st', t);
    ClosesFrame(st, st', t);
  }

  lemma MovedHolders(st: State, st': State, t: CallId, p: Phase)
    requires st'.threads == st.threads[t := p] && st'.caches == st.caches
    ensures OnlyCall(st, st', t) && At(st', t) == p
    ensures forall s :: Holders(st', s) == Holders(st, s)
              - (if Held(At(st, t)) == Some(s) then 1 else 0) + (if Held(p) == Some(s) then 1 else 0)
  {
    forall s
      ensures Holders(st', s) == Holders(st, s)
                - (if Held(At(st, t)) == Some(s) then 1 else 0) + (if Held(p) == Some(s) then 1 else 0)
    {
      CallsChange(st.threads, t, p, s);
    }
  }

  /** The common case: a call moves on, holding what it held. */
  lemma MoveOk(st: State, st': State, t: CallId, p: Phase)
    requires PoolOk(st) && st'.threads == st.threads[t := p]
    requires st'.pool == st.pool && st'.home == st.home && st'.log == st.log && st'.caches == st.caches
    requires Held(p) == Held(At(st, t)) && (Held(p).Some? ==> p.ns == At(st, t).ns)
    requires WaitingOk(st.pool, p) && Unobtrusive(At(st, t)) && Unobtrusive(p)
    ensures PoolOk(st')
  {
    MovedHolders(st, st', t, p);
    assert HeldOk(st, At(st, t));
    hide Holders;
    QuietOk(st, st', t);
  }

  // ---------- Steps on the pool ----------

  /** The pool after one more reference to an entry, or one less while some remain. */
  ghost predicate Counted(st: State, st': State, e: EntryId, delta: int) {
    && e in st.pool.entries && st.pool.entries[e].Ready? && st.pool.entries[e].references + delta >= 0
    && st'.pool == st.pool.(entries := st.pool.entries[e :=
         st.pool.entries[e].(references := st.pool.entries[e].references + delta)])
    && st'.home == st.home && st'.log == st.log
  }

  lemma CountedPool(st: State, st': State, e: EntryId, delta: int)
    requires WellFormed(st.pool) && HomesOk(st) && Counted(st, st', e, delta)
    ensures WellFormed(st'.pool) && HomesOk(st') && SameCreating(st.pool, st'.pool)
    ensures forall ns, s :: LiveAt(st', ns, s) <==> LiveAt(st, ns, s)
    ensures forall s :: s in st.home ==>
              References(st', s) == References(st, s) + (if s == st.pool.entries[e].session then delta else 0)
  {
  }

  /** Counting in step with the holders keeps the pool in order, as long as some references remain. */
  lemma CountedOk(st: State, st': State, t: CallId, e: EntryId, delta: int)
    requires PoolOk(st) && Counted(st, st', e, delta) && OnlyCall(st, st', t) && st'.caches == st.caches
    requires st.pool.entries[e].references > 0 && st.pool.entries[e].references + delta > 0
    requires forall s :: Holders(st', s) == Holders(st, s) + (if s == st.pool.entries[e].session then delta else 0)
    requires HeldOk(st, At(st', t)) && WaitingOk(st.pool, At(st', t))
    requires Unobtrusive(At(st, t)) && Unobtrusive(At(st', t))
    ensures PoolOk(st')
  {
    hide Holders;
    CountedPool(st, st', e, delta);
    assert CountsOk(st') by {
      hide ClosesOk, MakersOk, SameCreating, WellFormed;
      CountsFrame(st, st', t);
    }
    assert ClosesOk(st') by {
      hide CountsOk, MakersOk, SameCreating, WellFormed;
      ClosesFrame(st, st', t);
    }
    hide ClosesOk, CountsOk, HomesOk, SameCreating;
    MakersFrame(st, st', t);
  }

  /** A call that holds nothing takes one more reference to the session the pool shares. */
  lemma GainOk(st: State, t: CallId, user: User, ns: Namespace, e: EntryId)
    requires PoolOk(st) && ns in st.pool.current && st.pool.current[ns] == e && st.pool.entries[e].Ready?
    requires Held(At(st, t)).None? && Unobtrusive(At(st, t))
    ensures PoolOk(Moved(st.(pool := Referenced(st.pool, e)), t, Holding(user, ns, st.pool.entries[e].session)))
  {
    var s := st.pool.entries[e].session;
    var p := Holding(user, ns, s);
    var st' := Moved(st.(pool := Referenced(st.pool, e)), t, p);
    MovedHolders(st, st', t, p);
    assert LiveAt(st, ns, s) && References(st, s) > 0;
    hide Holders, CountsOk, HomesOk, MakersOk, ClosesOk, WellFormed, OnlyCall;
    CountedOk(st, st', t, e, 1);
  }

  lemma EnterOk(st: State, t: CallId, added: EntryId)
    requires PoolOk(st) && At(st, t).Acquiring? && added !in st.pool.entries
    ensures PoolOk(ApplyEnter(st, t, added))
  {
    var p := At(st, t);
    if p.ns in st.pool.current {
      var e := st.pool.current[p.ns];
      if st.pool.entries[e].Ready? {
        GainOk(st, t, p.user, p.ns, e);
      } else {
        MoveOk(st, ApplyEnter(st, t, added), t, Waiting(p.user, p.ns, e));
      }
    } else {
      CreateOk(st, t, added);
    }
  }

  lemma CreateOk(st: State, t: CallId, added: EntryId)
    requires PoolOk(st) && At(st, t).Acquiring? && added !in st.pool.entries && At(st, t).ns !in st.pool.current
    ensures PoolOk(ApplyEnter(st, t, added))
  {
    var p, st' := At(st, t), ApplyEnter(st, t, added);
    MovedHolders(st, st', t, Making(p.user, p.ns, added));
    hide Holders;
    CreateHomes(st, st', t, added);
    assert MakersOk(st') by { hide HomesOk, CountsOk, ClosesOk, LiveAt; CreateMakers(st, st', t, added); }
    assert ClosesOk(st') by { hide CountsOk, MakersOk; ClosesFrame(st, st', t); }
    hide MakersOk, ClosesOk;
    forall s | s in st'.home ensures References(st', s) == Holders(st', s) {
      assert References(st', s) == References(st, s) == Holders(st, s);
    }
    CountsFrame(st, st', t);
  }

  lemma CreateHomes(st: State, st': State, t: CallId, added: EntryId)
    requires WellFormed(st.pool) && HomesOk(st) && added !in st.pool.entries
    requires At(st, t).Acquiring? && At(st, t).ns !in st.pool.current && st' == ApplyEnter(st, t, added)
    ensures WellFormed(st'.pool) && HomesOk(st')
    ensures forall s :: s in st.home ==> References(st', s) == References(st, s)
    ensures forall ns, s :: LiveAt(st', ns, s) <==> LiveAt(st, ns, s)
  {
  }

  lemma CreateMakers(st: State, st': State, t: CallId, added: EntryId)
    requires WellFormed(st.pool) && MakersOk(st) && OnlyCall(st, st', t) && added !in st.pool.entries
    requires At(st, t).Acquiring? && At(st', t) == Making(At(st, t).user, At(st, t).ns, added)
    requires At(st, t).ns !in st.pool.current
    requires st'.pool.entries == st.pool.entries[added := Creating(At(st, t).ns)]
    requires st'.pool.current == st.pool.current[At(st, t).ns := added]
    ensures MakersOk(st')
  {
    forall e | e in st'.pool.entries && st'.pool.entries[e].Creating?
      ensures exists u :: At(st', u).Making? && At(st', u).entry == e
    {
      if e == added {
        assert At(st', t).Making? && At(st', t).entry == e;
      } else {
        var u :| At(st, u).Making? && At(st, u).entry == e;
        assert At(st', u) == At(st, u);
      }
    }
  }

  /** The making call is done: its entry has failed, or is ready with a new session and one reference. */
  lemma MadeOk(st: State, t: CallId, made: Option<Session>)
    requires PoolOk(st) && At(st, t).Making? && (made.Some? ==> made.value !in st.home)
    ensures PoolOk(ApplyMade(st, t, made))
  {
    var st' := ApplyMade(st, t, made);
    MadeHomes(st, st', t, made);
    MadeMoves(st, st', t, made);
    assert MakersOk(st') by { hide CountsOk, ClosesOk, HomesOk, Holders, LiveAt; MadeMakers(st, st', t); }
    assert ClosesOk(st') by { hide CountsOk, MakersOk, Holders, LiveAt, OnlyCall; ClosesFrame(st, st', t); }
    hide MakersOk, ClosesOk, OnlyCall, Holders, LiveAt;
    MadeCounts(st, st', t, made);
  }

  lemma MadeMoves(st: State, st': State, t: CallId, made: Option<Session>)
    requires At(st, t).Making? && st' == ApplyMade(st, t, made)
    ensures OnlyCall(st, st', t) && Held(At(st', t)) == made && !At(st', t).Making? && !At(st', t).Waiting?
    ensures !At(st', t).ClosingSession? && st'.log == st.log
    ensures forall s :: Holders(st', s) == Holders(st, s) + (if made == Some(s) then 1 else 0)
  {
    MovedHolders(st, st', t, At(st', t));
    hide Holders, Finish;
  }

  lemma MadeHomes(st: State, st': State, t: CallId, made: Option<Session>)
    requires WellFormed(st.pool) && HomesOk(st) && MakersOk(st)
    requires At(st, t).Making? && (made.Some? ==> made.value !in st.home) && st' == ApplyMade(st, t, made)
    ensures WellFormed(st'.pool) && HomesOk(st')
    ensures forall s :: s in st.home ==> s in st'.home && References(st', s) == References(st, s)
    ensures forall s :: s in st'.home && s !in st.home ==> References(st', s) == 1 && made == Some(s)
    ensures made.Some? ==> LiveAt(st', At(st, t).ns, made.value)
    ensures forall ns, s :: LiveAt(st, ns, s) ==> LiveAt(st', ns, s)
    ensures forall ns, s :: LiveAt(st', ns, s) ==> LiveAt(st, ns, s) || made == Some(s)
  {
    hide SameMaking, WaitingOk;
    var p := At(st, t);
    assert st.pool.entries[p.entry].Creating? && st.pool.entries[p.entry].ns == p.ns;
  }

  lemma MadeCounts(st: State, st': State, t: CallId, made: Option<Session>)
    requires HomesOk(st) && CountsOk(st) && HomesOk(st') && OnlyCall(st, st', t)
    requires At(st, t).Making? && st' == ApplyMade(st, t, made)
    requires made.Some? ==> made.value !in st.home && LiveAt(st', At(st, t).ns, made.value)
    requires forall s :: s in st.home ==> s in st'.home && References(st', s) == References(st, s)
    requires forall s :: s in st'.home && s !in st.home ==> References(st', s) == 1 && made == Some(s)
    requires forall ns, s :: LiveAt(st, ns, s) ==> LiveAt(st', ns, s)
    requires forall ns, s :: LiveAt(st', ns, s) ==> LiveAt(st, ns, s) || made == Some(s)
    requires forall s :: Holders(st', s) == Holders(st, s) + (if made == Some(s) then 1 else 0)
    ensures CountsOk(st')
  {
    if made.Some? {
      if Holders(st, made.value) > 0 { HolderIsLive(st, made.value); }
    }
    hide Holders, HomesOk, OnlyCall;
    forall s | s in st'.home ensures References(st', s) == Holders(st', s) {
      if s in st.home {
        assert References(st', s) == References(st, s) == Holders(st, s);
      }
    }
    CountsFrame(st, st', t);
  }

  lemma NobodyHolds(st: State, s: Session)
    requires forall k :: k in st.caches ==> st.caches[k] != s
    requires forall t :: t in st.threads ==> Held(st.threads[t]) != Some(s)
    ensures Holders(st, s) == 0
  {
    var calls := CallsOf(st.threads, s);
    assert SlotsOf(st.caches, s) == {};
    assert forall t :: t !in calls;
    assert |calls| == 0;
  }

  lemma HolderIsLive(st: State, s: Session)
    requires HomesOk(st) && CountsOk(st) && Holders(st, s) > 0
    ensures s in st.home
  {
    if k :| k in st.caches && st.caches[k] == s {
      assert LiveAt(st, k.ns, st.caches[k]);
    } else if t :| t in st.threads && Held(st.threads[t]) == Some(s) {
      assert Held(At(st, t)).Some?;
    } else {
      NobodyHolds(st, s);
    }
  }

  lemma MadeMakers(st: State, st': State, t: CallId)
    requires WellFormed(st.pool) && MakersOk(st) && OnlyCall(st, st', t)
    requires At(st, t).Making? && !At(st', t).Making? && !At(st', t).Waiting?
    requires var p := At(st, t);
             && (forall e :: e in st'.pool.entries <==> e in st.pool.entries)
             && (forall e :: e in st.pool.entries && e != p.entry ==> st'.pool.entries[e] == st.pool.entries[e])
             && !st'.pool.entries[p.entry].Creating? && st'.pool.entries[p.entry].ns == p.ns
             && (forall ns :: ns in st.pool.current && ns != p.ns ==>
                  ns in st'.pool.current && st'.pool.current[ns] == st.pool.current[ns])
    ensures MakersOk(st')
  {
    forall e | e in st'.pool.entries && st'.pool.entries[e].Creating?
      ensures exists u :: At(st', u).Making? && At(st', u).entry == e
    {
      var u :| At(st, u).Making? && At(st, u).entry == e;
      assert At(st', u) == At(st, u);
    }
    forall u | At(st', u).Making?
      ensures At(st, u).entry != At(st, t).entry && At(st, u).ns != At(st, t).ns
    {
      assert !SameMaking(At(st, u), At(st, t));
    }
  }

  lemma WakeOk(st: State, t: CallId)
    requires PoolOk(st) && At(st, t).Waiting?
    requires At(st, t).entry in st.pool.entries && !st.pool.entries[At(st, t).entry].Creating?
    ensures PoolOk(ApplyWake(st, t))
  {
    var p := At(st, t);
    var entry := st.pool.entries[p.entry];
    if entry.Failed? {
      MoveOk(st, ApplyWake(st, t), t, Resumed(p.user));
    } else if p.ns !in st.pool.current || st.pool.current[p.ns] != p.entry {
      MoveOk(st, ApplyWake(st, t), t, Acquiring(p.user, p.ns));
    } else {
      GainOk(st, t, p.user, p.ns, p.entry);
    }
  }

  /** A held session is the one the pool shares, so giving it back is never a no-op. */
  lemma ReleaseOk(st: State, t: CallId)
    requires PoolOk(st) && At(st, t).Releasing?
    ensures PoolOk(ApplyRelease(st, t))
  {
    var p, st' := At(st, t), ApplyRelease(st, t);
    assert LiveAt(st, p.ns, p.session) by { assert Held(p).Some?; }
    var e := st.home[p.session];
    assert st.pool.entries[e].ns == p.ns && References(st, p.session) > 0;
    MovedHolders(st, st', t, At(st', t));
    hide Holders, CountsOk, MakersOk, ClosesOk, OnlyCall;
    if References(st, p.session) > 1 {
      CountedOk(st, st', t, e, -1);
    } else {
      LastReleaseOk(st, st', t, e);
    }
  }

  lemma LastReleaseOk(st: State, st': State, t: CallId, e: EntryId)
    requires PoolOk(st) && At(st, t).Releasing? && st' == ApplyRelease(st, t) && OnlyCall(st, st', t)
    requires LiveAt(st, At(st, t).ns, At(st, t).session) && References(st, At(st, t).session) == 1
    requires e == st.home[At(st, t).session] && st.pool.entries[e].ns == At(st, t).ns
    requires forall s :: Holders(st', s) == Holders(st, s) - (if s == At(st, t).session then 1 else 0)
    ensures PoolOk(st')
  {
    LastReleasePool(st, st', t, e);
    hide Holders;
    forall s | s in st'.home
      ensures References(st', s) == References(st, s) - (if s == At(st, t).session then 1 else 0) == Holders(st', s)
    {
      assert References(st, s) == Holders(st, s);
    }
    assert ClosesOk(st') by { hide CountsOk, MakersOk; LastReleaseCloses(st, st', t); }
    assert MakersOk(st') by { hide CountsOk, ClosesOk, HomesOk; MakersFrame(st, st', t); }
    hide MakersOk, ClosesOk;
    LastReleaseCounts(st, st', t);
  }

  /** The last reference takes the entry out of the pool and makes its caller the closer. */
  lemma LastReleasePool(st: State, st': State, t: CallId, e: EntryId)
    requires WellFormed(st.pool) && HomesOk(st) && At(st, t).Releasing? && st' == ApplyRelease(st, t)
    requires LiveAt(st, At(st, t).ns, At(st, t).session) && References(st, At(st, t).session) == 1
    requires e == st.home[At(st, t).session] && st.pool.entries[e].ns == At(st, t).ns
    ensures WellFormed(st'.pool) && HomesOk(st') && SameCreating(st.pool, st'.pool)
    ensures At(st', t) == ClosingSession(At(st, t).session, At(st, t).after)
    ensures st'.home == st.home && st'.log == st.log && st'.caches == st.caches
    ensures forall s :: s in st.home ==>
              References(st', s) == References(st, s) - (if s == At(st, t).session then 1 else 0)
  {
    var counted := st'.(pool := st'.pool.(current := st.pool.current));
    assert Counted(st, counted, e, -1);
    CountedPool(st, counted, e, -1);
    forall s | s in st'.home ensures References(st', s) == References(counted, s) {}
  }

  lemma NoHolders(st: State, s: Session)
    requires Holders(st, s) == 0
    ensures forall k :: k in st.caches ==> st.caches[k] != s
    ensures forall t :: Held(At(st, t)) != Some(s)
  {
    forall k | k in st.caches ensures st.caches[k] != s {
      assert k !in SlotsOf(st.caches, s);
    }
    forall t ensures Held(At(st, t)) != Some(s) {
      assert t !in CallsOf(st.threads, s);
    }
  }

  lemma LastReleaseCloses(st: State, st': State, t: CallId)
    requires HomesOk(st) && ClosesOk(st) && HomesOk(st') && OnlyCall(st, st', t) && st'.log == st.log
    requires At(st, t).Releasing? && At(st, t).session in st.home && References(st, At(st, t).session) == 1
    requires At(st', t) == ClosingSession(At(st, t).session, At(st, t).after) && st'.home == st.home
    requires forall s :: s in st'.home ==>
               References(st', s) == References(st, s) - (if s == At(st, t).session then 1 else 0)
    ensures ClosesOk(st')
  {
    forall s | s in st'.home && References(st', s) == 0
      ensures s in st'.log || IsClosing(st', s)
    {
      if s == At(st, t).session {
        assert At(st', t).ClosingSession?;
      } else if u :| At(st, u).ClosingSession? && At(st, u).session == s {
        assert At(st', u) == At(st, u);
      }
    }
  }

  /** Nobody else holds the session, so the others' sessions are still shared. */
  lemma LastReleaseCounts(st: State, st': State, t: CallId)
    requires PoolOk(st) && HomesOk(st') && At(st, t).Releasing? && st' == ApplyRelease(st, t)
    requires LiveAt(st, At(st, t).ns, At(st, t).session) && References(st, At(st, t).session) == 1
    requires OnlyCall(st, st', t) && At(st', t).ClosingSession?
    requires forall s :: s in st'.home ==>
               References(st', s) == References(st, s) - (if s == At(st, t).session then 1 else 0) == Holders(st', s)
    ensures CountsOk(st')
  {
    var s, ns := At(st, t).session, At(st, t).ns;
    NoHolders(st', s);
    forall m, x | LiveAt(st, m, x) && x != s ensures LiveAt(st', m, x) {
      assert m != ns;
    }
    forall m, x | LiveAt(st', m, x) ensures LiveAt(st, m, x) && x != s {}
    forall k | k in st'.caches ensures LiveAt(st', k.ns, st'.caches[k]) {
      assert LiveAt(st, k.ns, st.caches[k]);
    }
    forall u | Held(At(st', u)).Some? ensures LiveAt(st', At(st', u).ns, At(st', u).session) {
      assert Held(At(st, u)).Some?;
    }
  }

  lemma CloseSessionOk(st: State, t: CallId)
    requires PoolOk(st) && At(st, t).ClosingSession?
    ensures PoolOk(Moved(st.(log := st.log + [At(st, t).session]), t, Continued(At(st, t).after)))
  {
    var s, q := At(st, t).session, Continued(At(st, t).after);
    var st' := Moved(st.(log := st.log + [s]), t, q);
    MovedHolders(st, st', t, q);
    hide Holders;
    assert HomesOk(st');
    assert MakersOk(st') by { hide CountsOk, ClosesOk, HomesOk; MakersFrame(st, st', t); }
    assert CountsOk(st') by {
      hide MakersOk, ClosesOk;
      assert forall ns, x :: LiveAt(st', ns, x) <==> LiveAt(st, ns, x);
      forall x | x in st'.home ensures References(st', x) == Holders(st', x) {
        assert References(st, x) == Holders(st, x);
      }
      CountsFrame(st, st', t);
    }
    hide MakersOk, CountsOk;
    ClosedOnce(st, st', t);
  }

  lemma ClosedOnce(st: State, st': State, t: CallId)
    requires HomesOk(st) && ClosesOk(st) && HomesOk(st') && OnlyCall(st, st', t)
    requires At(st, t).ClosingSession? && !At(st', t).ClosingSession?
    requires st'.pool == st.pool && st'.home == st.home && st'.log == st.log + [At(st, t).session]
    ensures ClosesOk(st')
  {
    var s := At(st, t).session;
    forall u | At(st', u).ClosingSession? ensures At(st', u).session != s {
      assert !SameClosing(At(st, u), At(st, t));
    }
    forall x | x in st'.home && References(st', x) == 0
      ensures x in st'.log || IsClosing(st', x)
    {
      if x == s {
        assert st'.log[|st.log|] == s;
      } else if x in st.log {
        assert x in st'.log;
      } else {
        var u :| At(st, u).ClosingSession? && At(st, u).session == x;
        assert At(st', u) == At(st, u);
      }
    }
  }

  /** Storing the session in the connection's cache passes the call's reference to the slot. */
  lemma KeepOk(st: State, t: CallId)
    requires PoolOk(st) && At(st, t).Holding? && At(st, t).user.ForConnection?
    ensures PoolOk(ApplyKeep(st, t))
  {
    var p, st' := At(st, t), ApplyKeep(st, t);
    var slot := Slot(p.user.c, p.ns);
    if p.user.c in st.closed || slot in st.caches {
      MoveOk(st, st', t, At(st', t));
    } else {
      StoreOk(st, st', t, slot);
    }
  }

  lemma StoreOk(st: State, st': State, t: CallId, slot: Slot)
    requires PoolOk(st) && At(st, t).Holding? && At(st, t).user.ForConnection?
    requires slot == Slot(At(st, t).user.c, At(st, t).ns) && slot !in st.caches
    requires st' == Moved(st.(caches := st.caches[slot := At(st, t).session]), t, Using(slot.c, slot.ns, At(st, t).session))
    ensures PoolOk(st')
  {
    StoreQuiet(st, st', t, slot);
    hide PoolOk, Quiet;
    QuietOk(st, st', t);
  }

  lemma StoreQuiet(st: State, st': State, t: CallId, slot: Slot)
    requires HomesOk(st) && CountsOk(st) && At(st, t).Holding? && At(st, t).user.ForConnection?
    requires slot == Slot(At(st, t).user.c, At(st, t).ns) && slot !in st.caches
    requires st' == Moved(st.(caches := st.caches[slot := At(st, t).session]), t, Using(slot.c, slot.ns, At(st, t).session))
    ensures Quiet(st, st', t)
  {
    KeepHolders(st, st', t, slot);
    hide Holders, HomesOk, LiveAt;
    assert LiveAt(st, slot.ns, At(st, t).session) by { assert Held(At(st, t)).Some?; }
  }

  lemma KeepHolders(st: State, st': State, t: CallId, slot: Slot)
    requires slot !in st.caches && At(st, t).Holding? && st'.caches == st.caches[slot := At(st, t).session]
    requires st'.threads == st.threads[t := At(st', t)] && Held(At(st', t)).None?
    ensures forall s :: Holders(st', s) == Holders(st, s)
  {
    hide SlotsOf, CallsOf;
    forall s ensures Holders(st', s) == Holders(st, s) {
      CallsChange(st.threads, t, At(st', t), s);
      SlotAdded(st.caches, slot, At(st, t).session, s);
    }
  }

  lemma DrainOk(st: State, t: CallId, ns: Namespace)
    requires PoolOk(st) && At(st, t).Draining? && At(st, t).todo != [] && Slot(At(st, t).todo[0], ns) in st.caches
    ensures PoolOk(ApplyDrain(st, t, ns))
  {
    DrainQuiet(st, t, ns);
    hide PoolOk, Quiet, ApplyDrain;
    QuietOk(st, ApplyDrain(st, t, ns), t);
  }

  lemma DrainQuiet(st: State, t: CallId, ns: Namespace)
    requires HomesOk(st) && CountsOk(st)
    requires At(st, t).Draining? && At(st, t).todo != [] && Slot(At(st, t).todo[0], ns) in st.caches
    ensures Quiet(st, ApplyDrain(st, t, ns), t)
  {
    var st' := ApplyDrain(st, t, ns);
    var slot := Slot(At(st, t).todo[0], ns);
    DrainHolders(st, st', t, slot);
    hide Holders, HomesOk, LiveAt;
    assert LiveAt(st, slot.ns, st.caches[slot]);
  }

  lemma DrainHolders(st: State, st': State, t: CallId, slot: Slot)
    requires slot in st.caches && st'.caches == st.caches - {slot} && Held(At(st, t)).None?
    requires st'.threads == st.threads[t := At(st', t)] && Held(At(st', t)) == Some(st.caches[slot])
    ensures forall s :: Holders(st', s) == Holders(st, s)
  {
    hide Held, SlotsOf, CallsOf;
    forall s ensures Holders(st', s) == Holders(st, s) {
      CallsChange(st.threads, t, At(st', t), s);
      SlotRemoved(st.caches, slot, s);
    }
  }

  lemma OperationStepOk(locked: bool, st: State, a: OperationStep)
    requires PoolOk(st) && OperationEnabled(locked, st, a)
    ensures PoolOk(ApplyOperation(locked, st, a))
  {
    hide PoolOk;
    var st' := ApplyOperation(locked, st, a);
    MoveOk(st, st', a.t, At(st', a.t));
  }

  lemma ClosingStepOk(locked: bool, st: State, a: ClosingStep)
    requires PoolOk(st) && ClosingEnabled(locked, st, a)
    ensures PoolOk(ApplyClosing(locked, st, a))
  {
    hide PoolOk;
    var st' := ApplyClosing(locked, st, a);
    MoveOk(st, st', a.t, At(st', a.t));
  }

  lemma PoolStepOk(st: State, a: PoolStep)
    requires PoolOk(st) && PoolEnabled(st, a)
    ensures PoolOk(ApplyPool(st, a))
  {
    hide PoolOk, ApplyEnter, ApplyMade, ApplyWake, ApplyRelease;
    match a
    case EnterPool(t, added) => EnterOk(st, t, added);
    case SessionMade(t, made) => MadeOk(st, t, made);
    case WakeUp(t) => WakeOk(st, t);
    case ReleaseRegion(t) => ReleaseOk(st, t);
    case CloseSession(t) => CloseSessionOk(st, t);
  }

  lemma CacheStepOk(st: State, a: CacheStep)
    requires PoolOk(st) && CacheEnabled(st, a)
    ensures PoolOk(ApplyCache(st, a))
  {
    hide PoolOk, ApplyKeep, ApplyDrain, ApplyStartSession;
    match a
    case StartSession(t, ns) => StartSessionOk(st, t, ns);
    case KeepSession(t) => KeepOk(st, t);
    case DrainOne(t, ns) => DrainOk(st, t, ns);
  }

  /** Every step keeps the pool in order, whether or not closing is kept apart from operations. */
  lemma StepOk(locked: bool, st: State, a: Step)
    requires PoolOk(st) && Enabled(locked, st, a)
    ensures PoolOk(Apply(locked, st, a))
  {
    hide PoolOk, OperationEnabled, CacheEnabled, PoolEnabled, ClosingEnabled;
    hide ApplyOperation, ApplyCache, ApplyPool, ApplyClosing;
    match a
    case Operating(step) => OperationStepOk(locked, st, step);
    case Caching(step) => CacheStepOk(st, step);
    case Pooling(step) => PoolStepOk(st, step);
    case Closing(step) => ClosingStepOk(locked, st, step);
  }

  lemma StartSessionOk(st: State, t: CallId, ns: Namespace)
    requires PoolOk(st) && At(st, t).InOperation?
    ensures PoolOk(ApplyStartSession(st, t, ns))
  {
    var st' := ApplyStartSession(st, t, ns);
    if At(st, t).c !in st.closed {
      MoveOk(st, st', t, At(st', t));
    }
  }
}
