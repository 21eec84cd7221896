/**
  The session pool under any number of concurrent calls. Each region between taking and giving up a lock is
  one step; creating and closing a driver session, which happen outside the pool's lock, are steps of their
  own.

  Beside the code's state it records which entry each created session belongs to, and every close of a
  driver session in order.
 */
module PoolSystem {
  import opened Options
  import opened SessionPool

  type Conn = int

  /** A call in progress. */
  type CallId = int

  /** A connection's cached session for a namespace. When the connection closes, its slots are the closing call's. */
  datatype Slot = Slot(c: Conn, ns: Namespace)

  datatype User = ForConnection(c: Conn) | ForMetadata

  /** What a call that gives a session back goes on with. */
  datatype After =
    | ThenUse(c: Conn, ns: Namespace, existing: Session)
    | ThenFail(c: Conn)
    | ThenReturn
    | ThenDrain(todo: seq<Conn>)

  /** Where a call is. The closing calls carry the connections still to be closed, the current one first. */
  datatype Phase =
    | Idle
    | Found(c: Conn)
    | InOperation(c: Conn)
    | Using(c: Conn, ns: Namespace, session: Session)
    | Acquiring(user: User, ns: Namespace)
    | Waiting(user: User, ns: Namespace, entry: EntryId)
    | Making(user: User, ns: Namespace, entry: EntryId)
    | Holding(user: User, ns: Namespace, session: Session)
    | Releasing(ns: Namespace, session: Session, after: After)
    | ClosingSession(session: Session, after: After)
    | WantsLock(todo: seq<Conn>)
    | ClosingConnection(todo: seq<Conn>)
    | Draining(todo: seq<Conn>)

  /** `refused` and `closed` are the closed marks of the registry's entry and of the connection itself. */
  datatype State = State(
    pool: Pool,
    caches: map<Slot, Session>,
    threads: map<CallId, Phase>,
    registered: set<Conn>,
    known: set<Conn>,
    refused: set<Conn>,
    closed: set<Conn>,
    home: map<Session, EntryId>,
    log: seq<Session>)

  const START := State(EMPTY_POOL, map[], map[], {}, {}, {}, {}, map[], [])

  function At(st: State, t: CallId): Phase {
    if t in st.threads then st.threads[t] else Idle
  }

  function Moved(st: State, t: CallId, phase: Phase): State {
    st.(threads := st.threads[t := phase])
  }

  /** A call that got no session ends, within its operation if it has one. */
  function Resumed(user: User): Phase {
    if user.ForConnection? then InOperation(user.c) else Idle
  }

  function Continued(after: After): Phase {
    match after
    case ThenUse(c, ns, s) => Using(c, ns, s)
    case ThenFail(c) => InOperation(c)
    case ThenReturn => Idle
    case ThenDrain(todo) => Draining(todo)
  }

  function NextToClose(todo: seq<Conn>): Phase {
    if |todo| <= 1 then Idle else WantsLock(todo[1..])
  }

  /** The connection whose shared lock the call holds. */
  function Reads(p: Phase): Option<Conn> {
    match p
    case InOperation(c) => Some(c)
    case Using(c, _, _) => Some(c)
    case Acquiring(ForConnection(c), _) => Some(c)
    case Waiting(ForConnection(c), _, _) => Some(c)
    case Making(ForConnection(c), _, _) => Some(c)
    case Holding(ForConnection(c), _, _) => Some(c)
    case Releasing(_, _, ThenUse(c, _, _)) => Some(c)
    case Releasing(_, _, ThenFail(c)) => Some(c)
    case ClosingSession(_, ThenUse(c, _, _)) => Some(c)
    case ClosingSession(_, ThenFail(c)) => Some(c)
    case _ => None
  }

  function Head(todo: seq<Conn>): Option<Conn> {
    if todo == [] then None else Some(todo[0])
  }

  /** The connection whose exclusive lock the call holds. */
  function Writes(p: Phase): Option<Conn> {
    match p
    case ClosingConnection(todo) => Head(todo)
    case Draining(todo) => Head(todo)
    case Releasing(_, _, ThenDrain(todo)) => Head(todo)
    case ClosingSession(_, ThenDrain(todo)) => Head(todo)
    case _ => None
  }

  /** Steps of operations and of metadata reads that leave the pool alone. */
  datatype OperationStep =
    | OpenConnection(t: CallId, c: Conn)
    | FindConnection(t: CallId, c: Conn)
    | LockShared(t: CallId)
    | EndUse(t: CallId)
    | EndOperation(t: CallId)
    | StartMetadata(t: CallId, ns: Namespace)
    | GiveUp(t: CallId)
    | EndMetadata(t: CallId)

  /** Steps on a connection's own cache. */
  datatype CacheStep =
    | StartSession(t: CallId, ns: Namespace)
    | KeepSession(t: CallId)
    | DrainOne(t: CallId, ns: Namespace)

  /** Steps on the pool, and closing a driver session. */
  datatype PoolStep =
    | EnterPool(t: CallId, added: EntryId)
    | SessionMade(t: CallId, made: Option<Session>)
    | WakeUp(t: CallId)
    | ReleaseRegion(t: CallId)
    | CloseSession(t: CallId)

  /** Steps of the calls that close connections. */
  datatype ClosingStep =
    | CloseOne(t: CallId, c: Conn)
    | CloseEvery(t: CallId, order: seq<Conn>)
    | LockExclusive(t: CallId)
    | CloseConnection(t: CallId)
    | EndDrain(t: CallId)

  datatype Step =
    | Operating(operationStep: OperationStep)
    | Caching(cacheStep: CacheStep)
    | Pooling(poolStep: PoolStep)
    | Closing(closingStep: ClosingStep)

  /** The call that takes the step. */
  function CallOf(a: Step): CallId {
    match a
    case Operating(step) => step.t
    case Caching(step) => step.t
    case Pooling(step) => step.t
    case Closing(step) => step.t
  }

  // With `locked`, connections are closed through the registry, whose per-connection lock keeps closing and
  // operations apart. Without it a connection may be closed while operations run on it. The factory returns
  // a new session each time.

  ghost predicate OperationEnabled(locked: bool, st: State, a: OperationStep) {
    match a
    case OpenConnection(t, c) => At(st, t).Idle? && c !in st.known
    case FindConnection(t, c) => At(st, t).Idle? && c in st.registered
    case LockShared(t) =>
      At(st, t).Found? && (locked ==> forall u :: Writes(At(st, u)) != Some(At(st, t).c))
    case EndUse(t) => At(st, t).Using?
    case EndOperation(t) => At(st, t).InOperation?
    case StartMetadata(t, _) => At(st, t).Idle?
    case GiveUp(t) => At(st, t).Waiting?
    case EndMetadata(t) => At(st, t).Holding? && At(st, t).user.ForMetadata?
  }

  ghost predicate CacheEnabled(st: State, a: CacheStep) {
    match a
    case StartSession(t, _) => At(st, t).InOperation?
    case KeepSession(t) => At(st, t).Holding? && At(st, t).user.ForConnection?
    case DrainOne(t, ns) =>
      At(st, t).Draining? && At(st, t).todo != [] && Slot(At(st, t).todo[0], ns) in st.caches
  }

  ghost predicate PoolEnabled(st: State, a: PoolStep) {
    match a
    case EnterPool(t, added) => At(st, t).Acquiring? && added !in st.pool.entries && WellFormed(st.pool)
    case SessionMade(t, made) => At(st, t).Making? && (made.Some? ==> made.value !in st.home)
    case WakeUp(t) =>
      var p := At(st, t);
      p.Waiting? && p.entry in st.pool.entries && !st.pool.entries[p.entry].Creating?
    case ReleaseRegion(t) => At(st, t).Releasing? && WellFormed(st.pool)
    case CloseSession(t) => At(st, t).ClosingSession?
  }

  ghost predicate ClosingEnabled(locked: bool, st: State, a: ClosingStep) {
    match a
    case CloseOne(t, c) => At(st, t).Idle? && c in st.registered
    case CloseEvery(t, order) => At(st, t).Idle? && (set c | c in order) == st.registered
    case LockExclusive(t) =>
      && At(st, t).WantsLock? && At(st, t).todo != []
      && (locked ==> forall u ::
           Reads(At(st, u)) != Some(At(st, t).todo[0]) && Writes(At(st, u)) != Some(At(st, t).todo[0]))
    case CloseConnection(t) => At(st, t).ClosingConnection? && At(st, t).todo != []
    case EndDrain(t) =>
      At(st, t).Draining? && At(st, t).todo != [] && forall ns :: Slot(At(st, t).todo[0], ns) !in st.caches
  }

  ghost predicate Enabled(locked: bool, st: State, a: Step) {
    match a
    case Operating(step) => OperationEnabled(locked, st, step)
    case Caching(step) => CacheEnabled(st, step)
    case Pooling(step) => PoolEnabled(st, step)
    case Closing(step) => ClosingEnabled(locked, st, step)
  }

  function ApplyStartSession(st: State, t: CallId, ns: Namespace): State
    requires At(st, t).InOperation?
  {
    var c := At(st, t).c;
    if c in st.closed then st
    else if Slot(c, ns) in st.caches then Moved(st, t, Using(c, ns, st.caches[Slot(c, ns)]))
    else Moved(st, t, Acquiring(ForConnection(c), ns))
  }

  function ApplyEnter(st: State, t: CallId, added: EntryId): State
    requires At(st, t).Acquiring? && WellFormed(st.pool)
  {
    var p := At(st, t);
    var (entered, pool) := Enter(st.pool, p.ns, added);
    var st' := st.(pool := pool);
    match entered
    case Shared(s) => Moved(st', t, Holding(p.user, p.ns, s))
    case MustWait(e) => Moved(st', t, Waiting(p.user, p.ns, e))
    case MustCreate(e) => Moved(st', t, Making(p.user, p.ns, e))
  }

  function ApplyMade(st: State, t: CallId, made: Option<Session>): State
    requires At(st, t).Making?
  {
    var p := At(st, t);
    var st' := st.(pool := Finish(st.pool, p.ns, p.entry, made));
    match made
    case None => Moved(st', t, Resumed(p.user))
    case Some(s) => Moved(st'.(home := st.home[s := p.entry]), t, Holding(p.user, p.ns, s))
  }

  function ApplyWake(st: State, t: CallId): State
    requires At(st, t).Waiting?
    requires At(st, t).entry in st.pool.entries && !st.pool.entries[At(st, t).entry].Creating?
  {
    var p := At(st, t);
    var (woken, pool) := Recheck(st.pool, p.ns, p.entry);
    var st' := st.(pool := pool);
    match woken
    case CreationFailed => Moved(st', t, Resumed(p.user))
    case TryAgain => Moved(st', t, Acquiring(p.user, p.ns))
    case Joined(s) => Moved(st', t, Holding(p.user, p.ns, s))
  }

  function ApplyKeep(st: State, t: CallId): State
    requires At(st, t).Holding? && At(st, t).user.ForConnection?
  {
    var p := At(st, t);
    var c := p.user.c;
    var slot := Slot(c, p.ns);
    if c in st.closed then Moved(st, t, Releasing(p.ns, p.session, ThenFail(c)))
    else if slot in st.caches then Moved(st, t, Releasing(p.ns, p.session, ThenUse(c, p.ns, st.caches[slot])))
    else Moved(st.(caches := st.caches[slot := p.session]), t, Using(c, p.ns, p.session))
  }

  function ApplyRelease(st: State, t: CallId): State
    requires At(st, t).Releasing? && WellFormed(st.pool)
  {
    var p := At(st, t);
    var (mustClose, pool) := Release(st.pool, p.ns, p.session);
    Moved(st.(pool := pool), t, if mustClose then ClosingSession(p.session, p.after) else Continued(p.after))
  }

  function ApplyLockExclusive(st: State, t: CallId): State
    requires At(st, t).WantsLock? && At(st, t).todo != []
  {
    var todo := At(st, t).todo;
    if todo[0] in st.refused then Moved(st, t, NextToClose(todo))
    else Moved(st.(refused := st.refused + {todo[0]}), t, ClosingConnection(todo))
  }

  function ApplyCloseConnection(st: State, t: CallId): State
    requires At(st, t).ClosingConnection? && At(st, t).todo != []
  {
    var todo := At(st, t).todo;
    if todo[0] in st.closed then Moved(st, t, NextToClose(todo))
    else Moved(st.(closed := st.closed + {todo[0]}), t, Draining(todo))
  }

  function ApplyDrain(st: State, t: CallId, ns: Namespace): State
    requires At(st, t).Draining? && At(st, t).todo != [] && Slot(At(st, t).todo[0], ns) in st.caches
  {
    var todo := At(st, t).todo;
    var slot := Slot(todo[0], ns);
    Moved(st.(caches := st.caches - {slot}), t, Releasing(ns, st.caches[slot], ThenDrain(todo)))
  }

  ghost function ApplyOperation(locked: bool, st: State, a: OperationStep): State
    requires OperationEnabled(locked, st, a)
  {
    match a
    case OpenConnection(t, c) =>
      Moved(st.(known := st.known + {c}, registered := st.registered + {c}), t, Idle)
    case FindConnection(t, c) => Moved(st, t, Found(c))
    case LockShared(t) =>
      var c := At(st, t).c;
      Moved(st, t, if c in st.refused then Idle else InOperation(c))
    case EndUse(t) => Moved(st, t, InOperation(At(st, t).c))
    case EndOperation(t) => Moved(st, t, Idle)
    case StartMetadata(t, ns) => Moved(st, t, Acquiring(ForMetadata, ns))
    case GiveUp(t) => Moved(st, t, Resumed(At(st, t).user))
    case EndMetadata(t) => Moved(st, t, Releasing(At(st, t).ns, At(st, t).session, ThenReturn))
  }

  ghost function ApplyCache(st: State, a: CacheStep): State
    requires CacheEnabled(st, a)
  {
    match a
    case StartSession(t, ns) => ApplyStartSession(st, t, ns)
    case KeepSession(t) => ApplyKeep(st, t)
    case DrainOne(t, ns) => ApplyDrain(st, t, ns)
  }

  ghost function ApplyPool(st: State, a: PoolStep): State
    requires PoolEnabled(st, a)
  {
    match a
    case EnterPool(t, added) => ApplyEnter(st, t, added)
    case SessionMade(t, made) => ApplyMade(st, t, made)
    case WakeUp(t) => ApplyWake(st, t)
    case ReleaseRegion(t) => ApplyRelease(st, t)
    case CloseSession(t) =>
      Moved(st.(log := st.log + [At(st, t).session]), t, Continued(At(st, t).after))
  }

  ghost function ApplyClosing(locked: bool, st: State, a: ClosingStep): State
    requires ClosingEnabled(locked, st, a)
  {
    match a
    case CloseOne(t, c) => Moved(st.(registered := st.registered - {c}), t, WantsLock([c]))
    case CloseEvery(t, order) =>
      Moved(st.(registered := {}), t, if order == [] then Idle else WantsLock(order))
    case LockExclusive(t) => ApplyLockExclusive(st, t)
    case CloseConnection(t) => ApplyCloseConnection(st, t)
    case EndDrain(t) => Moved(st, t, NextToClose(At(st, t).todo))
  }

  ghost function Apply(locked: bool, st: State, a: Step): State
    requires Enabled(locked, st, a)
  {
    match a
    case Operating(step) => ApplyOperation(locked, st, step)
    case Caching(step) => ApplyCache(st, step)
    case Pooling(step) => ApplyPool(st, step)
    case Closing(step) => ApplyClosing(locked, st, step)
  }

  ghost predicate IsStep(locked: bool, st: State, st': State) {
    exists a :: Enabled(locked, st, a) && st' == Apply(locked, st, a)
  }

  ghost predicate IsRun(locked: bool, states: seq<State>) {
    && states != [] && states[0] == START
    && (forall i :: 0 <= i < |states| - 1 ==> IsStep(locked, states[i], states[i + 1]))
  }
}
