/** That closing calls close all they set out to close, and that nothing else keeps an operation from its connection. */
module PoolClosing {
  import opened Options
  import opened SessionPool
  import opened PoolSystem
  import opened PoolSafety
  import opened PoolGuarantees

  /** The connections a closing call is still to deal with, the one it is at first. */
  function Todo(p: Phase): seq<Conn> {
    match p
    case WantsLock(todo) => todo
    case ClosingConnection(todo) => todo
    case Draining(todo) => todo
    case Releasing(_, _, ThenDrain(todo)) => todo
    case ClosingSession(_, ThenDrain(todo)) => todo
    case _ => []
  }

  /** The call has marked the connection as refusing operations, and is about to close it. */
  predicate AboutToClose(p: Phase, c: Conn) {
    p.ClosingConnection? && Head(p.todo) == Some(c)
  }

  /**
    Every connection that was opened is registered, closed or on some call's list; one that refuses operations is closed or
    about to be; and sessions are given back only of closed ones.
   */
  ghost predicate ClosingOk(st: State) {
    && (forall c :: c in st.known ==> c in st.registered || c in st.closed || OnAList(st, c))
    && (forall c :: c in st.refused ==> c in st.closed || IsAboutToClose(st, c))
    && (forall t :: DrainsClosed(st, At(st, t)))
  }

  ghost predicate OnAList(st: State, c: Conn) {
    exists t :: c in Todo(At(st, t))
  }

  ghost predicate IsAboutToClose(st: State, c: Conn) {
    exists t :: AboutToClose(At(st, t), c)
  }

  predicate DrainsClosed(st: State, p: Phase) {
    Todo(p) != [] && !p.WantsLock? && !p.ClosingConnection? ==> Todo(p)[0] in st.closed
  }

  /** What a step may do: open, close or refuse connections, and take off its list what is closed or another's to close. */
  ghost predicate Advances(st: State, st': State, t: CallId) {
    && OnlyCall(st, st', t) && st.closed <= st'.closed && DrainsClosed(st', At(st', t))
    && (forall c :: c in st'.known && c !in st.known ==> c in st'.registered)
    && (forall c :: c in st.registered && c !in st'.registered ==> c in Todo(At(st', t)))
    && (forall c :: c in Todo(At(st, t)) && c !in Todo(At(st', t)) ==> c in st'.closed
                                                                       || (c in st.refused && !AboutToClose(At(st, t), c)))
    && (forall c :: AboutToClose(At(st, t), c) ==> c in st'.closed)
    && (forall c :: c in st'.refused && c !in st.refused ==> AboutToClose(At(st', t), c))
  }

  lemma AdvancesOk(st: State, st': State, t: CallId)
    requires ClosingOk(st) && Advances(st, st', t)
    ensures ClosingOk(st')
  {
    hide AboutToClose, Todo, DrainsClosed;
    forall c | c in st'.refused ensures c in st'.closed || IsAboutToClose(st', c) {
      if c in st.refused && c !in st.closed {
        var u :| AboutToClose(At(st, u), c);
        assert u != t ==> AboutToClose(At(st', u), c);
      }
    }
    forall c | c in st'.known ensures c in st'.registered || c in st'.closed || OnAList(st', c) {
      if c in st.known && c !in st.registered && c !in st.closed {
        var u :| c in Todo(At(st, u));
        assert u != t ==> c in Todo(At(st', u));
        if u == t && c !in Todo(At(st', t)) && c !in st'.closed {
          assert IsAboutToClose(st, c);
          var v :| AboutToClose(At(st, v), c);
          HeadIsListed(At(st, v), c);
          assert c in Todo(At(st', v));
        }
      }
    }
    assert forall u :: u != t ==> DrainsClosed(st, At(st, u)) && At(st', u) == At(st, u);
    DrainsOn(st, st');
  }

  lemma HeadIsListed(p: Phase, c: Conn)
    requires AboutToClose(p, c)
    ensures c in Todo(p)
  {
  }

  lemma DrainsOn(st: State, st': State)
    requires st.closed <= st'.closed
    ensures forall p :: DrainsClosed(st, p) ==> DrainsClosed(st', p)
  {
  }

  lemma StepAdvances(locked: bool, st: State, a: Step)
    requires ClosingOk(st) && KnownOk(st) && Enabled(locked, st, a)
    ensures Advances(st, Apply(locked, st, a), CallOf(a))
  {
    assert DrainsClosed(st, At(st, CallOf(a)));
    hide ClosingOk, KnownOk, PoolEnabled, CacheEnabled, OperationEnabled, ClosingEnabled, Advances, DrainsClosed;
    hide ApplyOperation, ApplyCache, ApplyPool, ApplyClosing;
    match a
    case Operating(step) => OperationAdvances(locked, st, step);
    case Caching(step) => CacheAdvances(st, step);
    case Pooling(step) => PoolAdvances(st, step);
    case Closing(step) => ClosingAdvances(locked, st, step);
  }

  lemma OperationAdvances(locked: bool, st: State, a: OperationStep)
    requires OperationEnabled(locked, st, a)
    ensures Advances(st, ApplyOperation(locked, st, a), a.t)
  {
  }

  lemma CacheAdvances(st: State, a: CacheStep)
    requires DrainsClosed(st, At(st, a.t)) && CacheEnabled(st, a)
    ensures Advances(st, ApplyCache(st, a), a.t)
  {
  }

  lemma PoolAdvances(st: State, a: PoolStep)
    requires DrainsClosed(st, At(st, a.t)) && PoolEnabled(st, a)
    ensures Advances(st, ApplyPool(st, a), a.t)
  {
    hide WellFormed, Enter, Finish, Recheck, Release;
  }

  lemma ClosingAdvances(locked: bool, st: State, a: ClosingStep)
    requires DrainsClosed(st, At(st, a.t)) && ClosingEnabled(locked, st, a)
    ensures Advances(st, ApplyClosing(locked, st, a), a.t)
  {
  }

  lemma StartIsClosingOk()
    ensures ClosingOk(START)
  {
  }

  lemma {:induction false} EveryStateCloses(locked: bool, states: seq<State>, i: nat)
    requires IsRun(locked, states) && i < |states|
    ensures ClosingOk(states[i])
  {
    hide ClosingOk, Enabled, Apply, Sound;
    if i == 0 {
      StartIsClosingOk();
    } else {
      EveryStateCloses(locked, states, i - 1);
      EveryStateSound(locked, states, i - 1);
      assert KnownOk(states[i - 1]) by { SoundIsKnown(locked, states[i - 1]); }
      assert IsStep(locked, states[i - 1], states[i]);
      var a :| Enabled(locked, states[i - 1], a) && states[i] == Apply(locked, states[i - 1], a);
      StepAdvances(locked, states[i - 1], a);
      AdvancesOk(states[i - 1], states[i], CallOf(a));
    }
  }

  lemma SoundIsKnown(locked: bool, st: State)
    requires Sound(locked, st)
    ensures KnownOk(st)
  {
  }

  /** In every run, once all calls have returned, every connection that was opened is still registered or closed. */
  lemma AllReturnedIsClosed(locked: bool, states: seq<State>)
    requires IsRun(locked, states) && forall t :: At(Last(states), t).Idle?
    ensures Last(states).known <= Last(states).registered + Last(states).closed
  {
    EveryStateCloses(locked, states, |states| - 1);
    var st := Last(states);
    forall c | c in st.known ensures c in st.registered + st.closed {
      assert !OnAList(st, c) by {
        forall t ensures c !in Todo(At(st, t)) {
          assert At(st, t).Idle?;
        }
      }
    }
  }

  /** So a registry that has been emptied leaves the pool empty and every session closed when all calls have returned. */
  lemma EmptiedRegistryClosesAll(locked: bool, states: seq<State>)
    requires IsRun(locked, states) && Last(states).registered == {} && forall t :: At(Last(states), t).Idle?
    ensures Last(states).pool.current == map[] && Last(states).caches == map[]
    ensures forall s :: s in Last(states).home ==> s in Last(states).log
  {
    AllReturnedIsClosed(locked, states);
    AllClosedIsEmpty(locked, states);
  }

  /** An operation that has its connection's shared lock goes ahead unless the connection is closed or about to be. */
  lemma OperationGoesAhead(locked: bool, states: seq<State>, t: CallId)
    requires IsRun(locked, states) && OperationEnabled(locked, Last(states), LockShared(t))
    ensures var st, st', c := Last(states), ApplyOperation(locked, Last(states), LockShared(t)), At(Last(states), t).c;
            && (At(st', t) == InOperation(c) || At(st', t).Idle?)
            && (At(st', t).Idle? <==> c in st.refused)
            && (At(st', t).Idle? ==> c in st.closed || IsAboutToClose(st, c))
  {
    EveryStateCloses(locked, states, |states| - 1);
  }
}
