/**
  The query cache as a step system: any number of queries, connections, branch resolutions and outside
  changes, interleaved step by step. Each locked region of the cache is one step, and so is each answer of
  the wrapped source.

  Beside the cache the state carries a history the code does not have: every source state so far, which
  writes may still take effect, and which have taken effect and await invalidation.
 */
module CacheSystem {
  import opened CacheTypes
  import opened Options
  import opened Dependencies
  import opened CacheCore
  import opened CachedConnections
  import opened ResultStreams
  import LruStore

  // ---------- State ----------

  /** The committed content of the source, by entity. */
  type Source = map<Entity, int>

  function Content(source: Source, e: Entity): int {
    if e in source then source[e] else 0
  }

  /** The configuration, and what the source answers to a query in each committed state. */
  datatype World = World(config: Config, answer: (Query, Source) -> seq<Batch>)

  /** Whose writes: a connection's, a prepared branch's, those a resolving call took over, or an outsider's. */
  datatype Owner = OfConnection(c: nat) | OfBranch(b: Branch) | OfResolver(k: nat) | OfOutsider

  /** The call a connection is in: between the source's answer and the cache's reaction to it. */
  datatype Call =
    | NoCall
    | Mutating(entity: Entity, touched: set<Entity>)
    | Settling(answer: Answer)
    | Preparing(branch: Branch, first: bool)

  datatype Connection = Connection(txn: Transaction, call: Call)

  /** The generation at lookup, and the index of the source state at that time. */
  datatype Capture = Capture(generation: Generation, since: nat)

  /** A query on a connection, until its result is stored; a stream knows whether it was opened outside a transaction. */
  datatype Task =
    | Looking(c: nat, q: Query)
    | Missed(c: nat, q: Query, capture: Capture)
    | Streaming(q: Query, capture: Capture, recording: Recording, outside: bool)
    | Publishing(q: Query, capture: Capture, result: CachedResult)

  datatype Resolver = Answered(branch: Branch, invalidate: bool) | Popped(branch: Branch, record: Option<Retained>)

  datatype Sys = Sys(
    cache: Cache,
    connections: map<nat, Connection>,
    tasks: map<nat, Task>,
    resolvers: map<nat, Resolver>,
    history: seq<Source>,
    unsettled: map<Owner, set<Entity>>,
    dirty: map<Owner, set<Entity>>,
    prepared: set<Branch>)

  const NOTHING := Retained({}, false)

  function At(m: map<Owner, set<Entity>>, o: Owner): set<Entity> {
    if o in m then m[o] else {}
  }

  /** The committed source state. */
  function Now(s: Sys): Source
    requires s.history != []
  {
    s.history[|s.history| - 1]
  }

  function Start(source: Source): Sys {
    Sys(EMPTY, map[], map[], map[], [source], map[], map[], {})
  }

  // ---------- Steps ----------

  /** The steps of a query. */
  datatype QueryStep =
    | BeginQuery(t: nat, c: nat, q: Query)
    | LookUp(t: nat, now: int)
    | OpenSource(t: nat)
    | ReadSource(t: nat, reply: Reply)
    | CloseStream(t: nat, failed: bool)
    | PublishResult(t: nat, now: int)
    | Abandon(t: nat)

  /** The steps of a connection's other calls. */
  datatype CallStep =
    | OpenConnection(c: nat)
    | StartMutation(c: nat, e: Entity, touched: set<Entity>)
    | EndMutation(c: nat)
    | BeginTransaction(c: nat)
    | SourceSettles(c: nat, a: Answer)
    | SourceFinishes(c: nat, b: Branch, ok: bool, state: BranchState)
    | EndSettling(c: nat)
    | SourcePrepares(c: nat, b: Branch)
    | EndPreparing(c: nat)

  /** The steps of the source, the controller and the recovery manager. */
  datatype OtherStep =
    | TakeEffect(o: Owner, changed: set<Entity>, next: Source)
    | ControllerInvalidates(owed: Retained)
    | SourceResolves(k: nat, b: Branch, r: Resolution, final: bool)
    | PopRecord(k: nat)
    | DischargeRecord(k: nat)
    | Forget(b: Branch)

  datatype Action = Querying(step: QueryStep) | Calling(call: CallStep) | Other(other: OtherStep)

  /** Batch number `k` of the answer in source state `i` is `batch`. */
  ghost predicate ReadAt(w: World, history: seq<Source>, i: nat, q: Query, k: nat, batch: Batch) {
    i < |history| && k < |w.answer(q, history[i])| && w.answer(q, history[i])[k] == batch
  }

  ghost predicate EndAt(w: World, history: seq<Source>, i: nat, q: Query, n: nat) {
    i < |history| && |w.answer(q, history[i])| <= n
  }

  /**
    A stream opened outside a transaction reads committed states only, each batch from some state since
    the stream's lookup. Nothing is assumed of other streams, or of one that has stopped recording.
   */
  ghost predicate LegalReply(w: World, history: seq<Source>, task: Task, reply: Reply)
    requires task.Streaming?
  {
    var r := task.recording;
    task.outside && r.cacheable && !r.complete ==>
      match reply
      case Delivered(batch) =>
        exists i: nat :: task.capture.since <= i && ReadAt(w, history, i, task.q, |r.batches|, batch)
      case EndOfStream(_) =>
        exists i: nat :: task.capture.since <= i && EndAt(w, history, i, task.q, |r.batches|)
      case _ => true
  }

  /** The query's own call, from its check for a transaction to the opening of its stream, has not returned. */
  predicate InQuery(task: Task, c: nat) {
    (task.Looking? || task.Missed?) && task.c == c
  }

  /** No call of the connection is under way; its calls do not overlap. */
  predicate Idle(s: Sys, c: nat) {
    && c in s.connections && s.connections[c].call == NoCall
    && (forall t :: t in s.tasks ==> !InQuery(s.tasks[t], c))
  }

  ghost predicate QueryEnabled(w: World, s: Sys, a: QueryStep) {
    match a
    case BeginQuery(t, c, q) =>
      t !in s.tasks && Idle(s, c) && !s.connections[c].txn.active && q.entity != ""
    case LookUp(t, _) => t in s.tasks && s.tasks[t].Looking?
    case OpenSource(t) => t in s.tasks && s.tasks[t].Missed? && s.tasks[t].c in s.connections
    case ReadSource(t, reply) =>
      t in s.tasks && s.tasks[t].Streaming? && LegalReply(w, s.history, s.tasks[t], reply)
    case CloseStream(t, _) => t in s.tasks && s.tasks[t].Streaming?
    case PublishResult(t, _) => t in s.tasks && s.tasks[t].Publishing?
    case Abandon(t) => t in s.tasks
  }

  predicate CallEnabled(s: Sys, a: CallStep) {
    match a
    case OpenConnection(c) => c !in s.connections
    case StartMutation(c, e, touched) =>
      // A mutation of a known entity writes that entity only.
      Idle(s, c) && (e != "" ==> touched <= {e})
    case EndMutation(c) => c in s.connections && s.connections[c].call.Mutating?
    case BeginTransaction(c) => Idle(s, c)
    case SourceSettles(c, a) =>
      // The source says the truth about what it has committed.
      Idle(s, c) && !a.BranchAnswered? && (NothingCommitted(a) ==> At(s.dirty, OfConnection(c)) == {})
    case SourceFinishes(c, b, ok, state) =>
      // So it does about a branch, of which the connection's pending set owes nothing once it is prepared.
      && Idle(s, c)
      && (ok && Uncommitted(state) ==> At(s.dirty, OfConnection(c)) == {} == At(s.dirty, OfBranch(b)))
      && (b in s.prepared ==> Owed(s.connections[c].txn) == NOTHING)
    case EndSettling(c) => c in s.connections && s.connections[c].call.Settling?
    case SourcePrepares(c, b) =>
      // A branch takes writes in its first prepare only.
      && Idle(s, c)
      && (b in s.prepared ==> At(s.unsettled, OfConnection(c)) == {} == At(s.dirty, OfConnection(c)))
    case EndPreparing(c) => c in s.connections && s.connections[c].call.Preparing?
  }

  ghost predicate OtherEnabled(s: Sys, a: OtherStep) {
    match a
    case TakeEffect(o, changed, next) =>
      // Writes take effect at any time until they are settled; outsiders change what they like.
      && (o.OfOutsider? || changed <= At(s.unsettled, o))
      && s.history != []
      && (forall e :: e !in changed ==> Content(next, e) == Content(Now(s), e))
    case ControllerInvalidates(_) => true
    case SourceResolves(k, b, r, _) =>
      k !in s.resolvers && (r.ok && Uncommitted(r.state) ==> At(s.dirty, OfBranch(b)) == {})
    case PopRecord(k) => k in s.resolvers && s.resolvers[k].Answered?
    case DischargeRecord(k) => k in s.resolvers && s.resolvers[k].Popped?
    case Forget(_) => true
  }

  ghost predicate Enabled(w: World, s: Sys, a: Action) {
    match a
    case Querying(step) => QueryEnabled(w, s, step)
    case Calling(call) => CallEnabled(s, call)
    case Other(other) => OtherEnabled(s, other)
  }

  function WithTask(s: Sys, t: nat, task: Task): Sys {
    s.(tasks := s.tasks[t := task])
  }

  function WithoutTask(s: Sys, t: nat): Sys {
    s.(tasks := s.tasks - {t})
  }

  function WithCall(s: Sys, c: nat, call: Call): Sys
    requires c in s.connections
  {
    s.(connections := s.connections[c := s.connections[c].(call := call)])
  }

  function ApplyLookUp(s: Sys, t: nat, now: int): Sys
    requires t in s.tasks && s.tasks[t].Looking? && s.history != []
  {
    var Looking(c, q) := s.tasks[t];
    var (generation, found, cache) := Lookup(s.cache, q, now);
    var s' := s.(cache := cache);
    if found.Some? then WithoutTask(s', t)
    else WithTask(s', t, Missed(c, q, Capture(generation, |s.history| - 1)))
  }

  function ApplyCloseStream(s: Sys, t: nat, failed: bool): Sys
    requires t in s.tasks && s.tasks[t].Streaming?
  {
    var task := s.tasks[t];
    match Published(task.recording, failed)
    case None => WithoutTask(s, t)
    case Some(result) => WithTask(s, t, Publishing(task.q, task.capture, result))
  }

  function ApplyPublish(w: World, s: Sys, t: nat, now: int): Sys
    requires t in s.tasks && s.tasks[t].Publishing?
  {
    var task := s.tasks[t];
    WithoutTask(
      s.(cache := StoreIfCurrent(w.config, s.cache, task.q, task.capture.generation, task.result, now)), t)
  }

  function ApplyStartMutation(s: Sys, c: nat, e: Entity, touched: set<Entity>): Sys
    requires c in s.connections
  {
    var o := OfConnection(c);
    WithCall(s, c, Mutating(e, touched)).(unsettled := s.unsettled[o := At(s.unsettled, o) + touched])
  }

  /** What an obligation leaves out. */
  function Uncovered(es: set<Entity>, owed: Retained): set<Entity> {
    set e | e in es && !Covers(owed, e)
  }

  /** What a mutation outside a transaction invalidates. */
  function OwedFor(e: Entity): Retained {
    Retained({e}, e == "")
  }

  /** Outside a transaction the write is settled when the call returns, and what the call invalidates is clean. */
  ghost function ApplyEndMutation(w: World, s: Sys, c: nat): Sys
    requires c in s.connections && s.connections[c].call.Mutating?
  {
    var connection := s.connections[c];
    var (cache, txn) := Mutated(w.config, s.cache, connection.txn, connection.call.entity);
    var s' := s.(cache := cache, connections := s.connections[c := Connection(txn, NoCall)]);
    if connection.txn.active then s'
    else
      s'.(unsettled := s.unsettled[OfConnection(c) := {}],
          dirty := s.dirty[OfConnection(c) := Uncovered(At(s.dirty, OfConnection(c)), OwedFor(connection.call.entity))])
  }

  function ApplyTakeEffect(s: Sys, o: Owner, changed: set<Entity>, next: Source): Sys {
    s.(history := s.history + [next], dirty := s.dirty[o := At(s.dirty, o) + changed])
  }

  ghost function ApplyController(w: World, s: Sys, owed: Retained): Sys {
    s.(cache := Discharge(w.config, s.cache, owed),
       dirty := s.dirty[OfOutsider := Uncovered(At(s.dirty, OfOutsider), owed)])
  }

  function ApplyBegin(s: Sys, c: nat): Sys
    requires c in s.connections
  {
    s.(connections := s.connections[c := s.connections[c].(txn := Begun(s.connections[c].txn))])
  }

  /** When the source says the transaction is over, none of its writes takes effect any more. */
  function ApplySourceSettles(s: Sys, c: nat, a: Answer): Sys
    requires c in s.connections
  {
    WithCall(s, c, Settling(a)).(unsettled := if Ends(a) then s.unsettled[OfConnection(c) := {}] else s.unsettled)
  }

  /** When the source says that a branch is over, none of its writes takes effect any more, prepared or not. */
  function ApplySourceFinishes(s: Sys, c: nat, b: Branch, ok: bool, state: BranchState): Sys
    requires c in s.connections
  {
    var unsettled :=
      if !ok then s.unsettled
      else if b in s.prepared then s.unsettled[OfConnection(c) := {}][OfBranch(b) := {}]
      else s.unsettled[OfConnection(c) := {}];
    WithCall(s, c, Settling(BranchAnswered(ok, state))).(unsettled := unsettled)
  }

  ghost function ApplyEndSettling(w: World, s: Sys, c: nat): Sys
    requires c in s.connections && s.connections[c].call.Settling?
  {
    var connection := s.connections[c];
    var (cache, txn) := Settled(w.config, s.cache, connection.txn, connection.call.answer);
    var s' := s.(cache := cache, connections := s.connections[c := Connection(txn, NoCall)]);
    if Discharges(connection.txn, connection.call.answer) then
      s'.(dirty := s.dirty[OfConnection(c) := Uncovered(At(s.dirty, OfConnection(c)), Owed(connection.txn))])
    else s'
  }

  /** The first owner's claims become the second's. */
  function Moved(claims: map<Owner, set<Entity>>, from: Owner, to: Owner): map<Owner, set<Entity>> {
    claims[to := At(claims, to) + At(claims, from)][from := {}]
  }

  /** The first prepare of a branch moves the connection's writes to the branch. */
  function ApplySourcePrepares(s: Sys, c: nat, b: Branch): Sys
    requires c in s.connections
  {
    var first := b !in s.prepared;
    s.(connections := s.connections[c := s.connections[c].(call := Preparing(b, first))],
       prepared := s.prepared + {b},
       unsettled := if first then Moved(s.unsettled, OfConnection(c), OfBranch(b)) else s.unsettled,
       dirty := if first then Moved(s.dirty, OfConnection(c), OfBranch(b)) else s.dirty)
  }

  function ApplyEndPreparing(s: Sys, c: nat): Sys
    requires c in s.connections && s.connections[c].call.Preparing?
  {
    var connection := s.connections[c];
    s.(cache := Retain(s.cache, connection.call.branch, Owed(connection.txn)),
       connections := s.connections[c := Connection(IDLE, NoCall)])
  }

  function ApplySourceResolves(s: Sys, k: nat, b: Branch, r: Resolution, final: bool): Sys {
    s.(resolvers := s.resolvers[k := Answered(b, Invalidates(r))],
       unsettled := if final then s.unsettled[OfBranch(b) := {}] else s.unsettled)
  }

  /** A resolution that invalidates takes over, with the record, what the branch has put into effect. */
  function ApplyPop(s: Sys, k: nat): Sys
    requires k in s.resolvers && s.resolvers[k].Answered?
  {
    var r := s.resolvers[k];
    var record := CacheCore.Record(s.cache, r.branch);
    s.(cache := DropRecord(s.cache, r.branch),
       resolvers := if r.invalidate then s.resolvers[k := Popped(r.branch, record)] else s.resolvers - {k},
       dirty := if r.invalidate then Moved(s.dirty, OfBranch(r.branch), OfResolver(k)) else s.dirty)
  }

  /** A branch without a record owes everything. */
  function OwedByRecord(record: Option<Retained>): Retained {
    if record.Some? then record.value else Retained({}, true)
  }

  /** What the popped record does not cover stays with the branch. */
  ghost function ApplyDischarge(w: World, s: Sys, k: nat): Sys
    requires k in s.resolvers && s.resolvers[k].Popped?
  {
    var r := s.resolvers[k];
    var rest := Uncovered(At(s.dirty, OfResolver(k)), OwedByRecord(r.record));
    s.(cache := DischargePopped(w.config, s.cache, r.record),
       dirty := s.dirty[OfBranch(r.branch) := At(s.dirty, OfBranch(r.branch)) + rest][OfResolver(k) := {}],
       resolvers := s.resolvers - {k})
  }

  function ApplyQuery(w: World, s: Sys, a: QueryStep): Sys
    requires QueryEnabled(w, s, a) && s.history != []
  {
    match a
    case BeginQuery(t, c, q) => WithTask(s, t, Looking(c, q))
    case LookUp(t, now) => ApplyLookUp(s, t, now)
    case OpenSource(t) =>
      var Missed(c, q, capture) := s.tasks[t];
      WithTask(s, t, Streaming(q, capture, FRESH, !s.connections[c].txn.active))
    case ReadSource(t, reply) =>
      WithTask(s, t, s.tasks[t].(recording := Take(s.tasks[t].recording, reply, w.config.maxEntryBytes)))
    case CloseStream(t, failed) => ApplyCloseStream(s, t, failed)
    case PublishResult(t, now) => ApplyPublish(w, s, t, now)
    case Abandon(t) => WithoutTask(s, t)
  }

  ghost function ApplyCall(w: World, s: Sys, a: CallStep): Sys
    requires CallEnabled(s, a)
  {
    match a
    case OpenConnection(c) => s.(connections := s.connections[c := Connection(IDLE, NoCall)])
    case StartMutation(c, e, touched) => ApplyStartMutation(s, c, e, touched)
    case EndMutation(c) => ApplyEndMutation(w, s, c)
    case BeginTransaction(c) => ApplyBegin(s, c)
    case SourceSettles(c, a) => ApplySourceSettles(s, c, a)
    case SourceFinishes(c, b, ok, state) => ApplySourceFinishes(s, c, b, ok, state)
    case EndSettling(c) => ApplyEndSettling(w, s, c)
    case SourcePrepares(c, b) => ApplySourcePrepares(s, c, b)
    case EndPreparing(c) => ApplyEndPreparing(s, c)
  }

  ghost function ApplyOther(w: World, s: Sys, a: OtherStep): Sys
    requires OtherEnabled(s, a)
  {
    match a
    case TakeEffect(o, changed, next) => ApplyTakeEffect(s, o, changed, next)
    case ControllerInvalidates(owed) => ApplyController(w, s, owed)
    case SourceResolves(k, b, r, final) => ApplySourceResolves(s, k, b, r, final)
    case PopRecord(k) => ApplyPop(s, k)
    case DischargeRecord(k) => ApplyDischarge(w, s, k)
    case Forget(b) => s.(cache := DropRecord(s.cache, b))
  }

  ghost function Apply(w: World, s: Sys, a: Action): Sys
    requires Enabled(w, s, a) && s.history != []
  {
    match a
    case Querying(step) => ApplyQuery(w, s, step)
    case Calling(call) => ApplyCall(w, s, call)
    case Other(other) => ApplyOther(w, s, other)
  }

  /** The states a run of steps goes through, from a fresh cache over some source. */
  ghost predicate IsRun(w: World, states: seq<Sys>) {
    && states != []
    && (exists source :: states[0] == Start(source))
    && (forall i :: 0 <= i < |states| - 1 ==> IsStep(w, states[i], states[i + 1]))
  }

  ghost predicate IsStep(w: World, s: Sys, s': Sys) {
    s.history != [] && exists a :: Enabled(w, s, a) && s' == Apply(w, s, a)
  }
}
