/** Transactions over the query cache: the per-connection obligations and the branch recovery manager. */
module CachedConnections {
  import opened CacheTypes
  import opened Options
  import opened Dependencies
  import opened CacheCore
  import ResultStreams

  datatype BranchState =
    | Unspecified | Active | Prepared | Committed | RolledBack | ReadOnly
    | HeuristicCommit | HeuristicRollback | HeuristicMixed | HeuristicHazard | NotFound

  predicate MayHaveCommitted(s: BranchState) {
    s.Committed? || s.HeuristicCommit? || s.HeuristicMixed? || s.HeuristicHazard? || s.NotFound?
  }

  /** The states of a branch of which nothing is committed. */
  predicate Uncommitted(s: BranchState) {
    s.Unspecified? || s.Active? || s.Prepared? || s.RolledBack? || s.ReadOnly? || s.HeuristicRollback?
  }

  /** What a connection remembers of its transaction: the entities written, or that everything may have been. */
  datatype Transaction = Transaction(active: bool, pending: set<Entity>, pendingAll: bool)

  const IDLE := Transaction(false, {}, false)

  function Owed(t: Transaction): Retained {
    Retained(t.pending, t.pendingAll)
  }

  /** Obligations exist only inside a transaction. */
  predicate WellFormed(t: Transaction) {
    !t.active ==> t == IDLE
  }

  function Begun(t: Transaction): Transaction {
    if t.active then t else Transaction(true, {}, false)
  }

  ghost function Mutated(config: Config, c: Cache, t: Transaction, e: Entity): (Cache, Transaction) {
    if !t.active then
      (if e == "" then InvalidateAll(c) else InvalidateEntities(config, c, {e}), t)
    else if e == "" then (c, Transaction(true, {}, true))
    else if t.pendingAll then (c, t)
    else (c, t.(pending := t.pending + {e}))
  }

  /** A prepare other than a successful one: it failed, it had nothing to prepare, or it answered neither. */
  datatype PrepareOutcome = PrepareFailed | PreparedReadOnly | PrepareUndetermined

  /** What the wrapped connection answered to a call that may settle the transaction. */
  datatype Answer =
    | CommitAnswered(ok: bool)
    | RollbackAnswered(ok: bool)
    | ReportedInactive
    | CloseAnswered
    | PrepareAnswered(outcome: PrepareOutcome)
    | BranchAnswered(ok: bool, state: BranchState)

  /** The obligations are discharged before the call returns. */
  predicate Discharges(t: Transaction, a: Answer) {
    match a
    case CommitAnswered(_) => true
    case RollbackAnswered(ok) => !ok
    case ReportedInactive => t.active
    case CloseAnswered => t.active
    case PrepareAnswered(outcome) => !outcome.PreparedReadOnly?
    case BranchAnswered(ok, state) => !ok || MayHaveCommitted(state)
  }

  /** The connection is out of its transaction when the call returns. */
  predicate Ends(a: Answer) {
    match a
    case CommitAnswered(ok) => ok
    case RollbackAnswered(ok) => ok
    case ReportedInactive => true
    case CloseAnswered => true
    case PrepareAnswered(outcome) => outcome.PreparedReadOnly?
    case BranchAnswered(ok, _) => ok
  }

  /** The answers that say that none of the transaction's writes is committed. */
  predicate NothingCommitted(a: Answer) {
    || a == RollbackAnswered(true)
    || a == PrepareAnswered(PreparedReadOnly)
    || (a.BranchAnswered? && a.ok && Uncommitted(a.state))
  }

  /** Inside a transaction, the obligations are kept back exactly when the answer says that nothing is committed. */
  lemma DischargesExactlyWhenCommitted(t: Transaction, a: Answer)
    requires t.active
    ensures Discharges(t, a) <==> !NothingCommitted(a)
    ensures Discharges(t, a) || Ends(a)
  {
  }

  ghost function Settled(config: Config, c: Cache, t: Transaction, a: Answer): (Cache, Transaction) {
    (if Discharges(t, a) then Discharge(config, c, Owed(t)) else c,
     if Ends(a) then IDLE else t)
  }

  /**
    Outside a transaction a mutation raises at once exactly the results that its entity reaches, or all if that is unknown.
    Inside, it raises nothing, and adds exactly its entity, or everything, to what the transaction owes.
   */
  lemma MutationRaisesExactlyWhen(config: Config, c: Cache, t: Transaction, e: Entity, x: Entity)
    ensures var (after, txn) := Mutated(config, c, t, e);
            && after.store == c.store && after.branches == c.branches && txn.active == t.active
            && (GenerationOf(after, x) != GenerationOf(c, x) <==> !t.active && (e == "" || Reaches(config.graph, e, x)))
            && (Covers(Owed(txn), x) <==> Covers(Owed(t), x) || (t.active && (e == "" || x == e)))
  {
    if !t.active && e != "" {
      DischargeRaises(config, c, Retained({e}, false), x);
    }
  }

  /** The answers that leave the connection in its transaction: what was asked for has failed. */
  predicate Failure(a: Answer) {
    match a
    case CommitAnswered(ok) => !ok
    case RollbackAnswered(ok) => !ok
    case PrepareAnswered(outcome) => !outcome.PreparedReadOnly?
    case BranchAnswered(ok, _) => !ok
    case _ => false
  }

  /**
    An answer raises exactly the results reached by what the transaction owes, unless it says that nothing is committed; and
    it ends the transaction exactly if it is no failure.
   */
  lemma SettlingRaisesExactlyWhen(config: Config, c: Cache, t: Transaction, a: Answer, x: Entity)
    requires WellFormed(t)
    ensures var (after, txn) := Settled(config, c, t, a);
            && after.store == c.store && after.branches == c.branches
            && (GenerationOf(after, x) != GenerationOf(c, x) <==>
                 t.active && !NothingCommitted(a)
                     && (t.pendingAll || exists e :: e in t.pending && Reaches(config.graph, e, x)))
            && txn == if Failure(a) then t else IDLE
  {
    DischargeRaises(config, c, Owed(t), x);
    if e :| e in t.pending && Reaches(config.graph, e, x) {
      assert Covers(Owed(t), e);
    }
  }

  /** What a query does about the cache: nothing, replay a cached result, or record the source's. */
  datatype Plan = PassThrough | Replay(result: CachedResult) | Record(captured: Generation)

  class CachedConnection {
    const state: CacheState
    var transactionActive: bool
    var pendingEntities: set<Entity>
    var pendingAll: bool

    ghost function View(): Transaction
      reads this
    {
      Transaction(transactionActive, pendingEntities, pendingAll)
    }

    ghost predicate Valid()
      reads this, state, state.store
    {
      state.Valid() && WellFormed(View())
    }

    constructor (state: CacheState)
      requires state.Valid()
      ensures Valid() && View() == IDLE && this.state == state
    {
      this.state := state;
      transactionActive, pendingEntities, pendingAll := false, {}, false;
    }

    method Query(q: Query, now: int) returns (plan: Plan)
      requires Valid()
      modifies state, state.store
      ensures Valid()
      ensures transactionActive || q.entity == "" ==> plan == PassThrough && state.View() == old(state.View())
      ensures !transactionActive && q.entity != "" ==>
                var (captured, found, after) := Lookup(old(state.View()), q, now);
                && state.View() == after
                && plan == (if found.Some? then Replay(found.value) else Record(captured))
    {
      if transactionActive {
        return PassThrough;
      }
      if q.entity == "" {
        return PassThrough;
      }
      var captured, found := state.LookupQuery(q, now);
      if found.Some? {
        return Replay(found.value);
      }
      return Record(captured);
    }

    /** A mutation of the given entity that the source accepted or refused. */
    method Mutate(e: Entity, accepted: bool)
      requires Valid()
      modifies this, state
      ensures Valid()
      ensures (state.View(), View()) ==
              if accepted then Mutated(state.config, old(state.View()), old(View()), e)
              else (old(state.View()), old(View()))
    {
      if accepted {
        RecordMutation(e);
      }
    }

    method RecordMutation(e: Entity)
      requires Valid()
      modifies this, state
      ensures Valid()
      ensures (state.View(), View()) == Mutated(state.config, old(state.View()), old(View()), e)
    {
      if transactionActive {
        if e == "" {
          pendingAll := true;
          pendingEntities := {};
          return;
        }
        if pendingAll {
          return;
        }
        pendingEntities := pendingEntities + {e};
        return;
      }
      if e == "" {
        state.InvalidateEverything();
        return;
      }
      state.Invalidate([e]);
      assert Elements([e]) == {e};
    }

    method Begin(ok: bool) returns (failed: bool)
      requires Valid()
      modifies this
      ensures Valid() && failed == !ok
      ensures View() == if ok then Begun(old(View())) else old(View())
    {
      var wasActive := transactionActive;
      if !ok {
        return true;
      }
      transactionActive := true;
      if !wasActive {
        ClearPending();
      }
      return false;
    }

    method Commit(ok: bool) returns (failed: bool)
      requires Valid()
      modifies this, state
      ensures Valid() && failed == !ok
      ensures (state.View(), View()) == Settled(state.config, old(state.View()), old(View()), CommitAnswered(ok))
    {
      InvalidatePending();
      if !ok {
        return true;
      }
      transactionActive := false;
      ClearPending();
      return false;
    }

    method Rollback(ok: bool) returns (failed: bool)
      requires Valid()
      modifies this, state
      ensures Valid() && failed == !ok
      ensures (state.View(), View()) == Settled(state.config, old(state.View()), old(View()), RollbackAnswered(ok))
    {
      if !ok {
        InvalidatePending();
        return true;
      }
      transactionActive := false;
      ClearPending();
      return false;
    }

    /** `reported` is the source's own view of the transaction, or None when asking it failed. */
    method InTransaction(reported: Option<bool>) returns (active: Option<bool>)
      requires Valid()
      modifies this, state
      ensures Valid() && active == reported
      ensures (state.View(), View()) ==
              if reported == Some(false) then Settled(state.config, old(state.View()), old(View()), ReportedInactive)
              else (old(state.View()), if reported.None? then old(View()) else old(View()).(active := true))
    {
      if reported.None? {
        return None;
      }
      if transactionActive && !reported.value {
        InvalidatePending();
      }
      transactionActive := reported.value;
      if !reported.value {
        ClearPending();
      }
      return reported;
    }

    method Close()
      requires Valid()
      modifies this, state
      ensures Valid()
      ensures (state.View(), View()) == Settled(state.config, old(state.View()), old(View()), CloseAnswered)
    {
      if transactionActive {
        InvalidatePending();
      }
      transactionActive := false;
      ClearPending();
    }

    /** A successful prepare, None, hands the obligations to the branch's record; other outcomes settle or keep them. */
    method PrepareBranch(b: Branch, otherwise: Option<PrepareOutcome>)
      requires Valid()
      modifies this, state
      ensures Valid()
      ensures (state.View(), View()) ==
              match otherwise
              case None => (Retain(old(state.View()), b, Owed(old(View()))), IDLE)
              case Some(outcome) => Settled(state.config, old(state.View()), old(View()), PrepareAnswered(outcome))
    {
      if otherwise == Some(PrepareFailed) {
        InvalidatePending();
      } else if otherwise.None? {
        state.RetainBranch(b, pendingEntities, pendingAll);
        transactionActive := false;
        ClearPending();
      } else if otherwise.value.PreparedReadOnly? {
        transactionActive := false;
        ClearPending();
      } else {
        InvalidatePending();
      }
    }

    /** A one-phase commit or a rollback of the branch this connection still hosts. */
    method FinishBranch(ok: bool, answered: BranchState)
      requires Valid()
      modifies this, state
      ensures Valid()
      ensures (state.View(), View()) ==
              Settled(state.config, old(state.View()), old(View()), BranchAnswered(ok, answered))
    {
      hide Discharge;
      if !ok {
        InvalidatePending();
        return;
      }
      if MayHaveCommitted(answered) {
        InvalidatePending();
      }
      transactionActive := false;
      ClearPending();
    }

    method InvalidatePending()
      requires state.Valid()
      modifies state
      ensures state.Valid()
      ensures state.View() == Discharge(state.config, old(state.View()), Owed(View()))
    {
      if pendingAll {
        state.InvalidateEverything();
        return;
      }
      if |pendingEntities| == 0 {
        NothingAffected(state.config.graph);
        assert Raised(state.entityGenerations, {}) == state.entityGenerations;
        return;
      }
      var entities := AsSequence(pendingEntities);
      state.Invalidate(entities);
    }

    method ClearPending()
      modifies `pendingEntities, `pendingAll
      ensures pendingEntities == {} && !pendingAll
    {
      pendingEntities := {};
      pendingAll := false;
    }
  }

  /** What the source's recovery manager answered to a commit or rollback of a prepared branch. */
  datatype Resolution = Resolution(ok: bool, state: BranchState)

  predicate Invalidates(r: Resolution) {
    !r.ok || MayHaveCommitted(r.state)
  }

  /**
    The answer to a resolution raises a result exactly if it leaves open that the branch has committed, and the branch has
    no record, or one that covers something the result depends on. The record is gone in any case.
   */
  lemma ResolutionRaisesExactlyWhen(config: Config, c: Cache, b: Branch, r: Resolution, x: Entity)
    ensures var after := Resolve(config, c, b, Invalidates(r));
            && after.store == c.store && after.branches == c.branches - {b}
            && (GenerationOf(after, x) != GenerationOf(c, x) <==>
                 !(r.ok && Uncommitted(r.state)) &&
                 (b in c.branches ==> c.branches[b].all || exists e :: Covers(c.branches[b], e)
                                                                       && Reaches(config.graph, e, x)))
  {
    ResolveRaisesExactlyWhen(config, c, b, x);
  }

  class CachedRecoveryManager {
    const state: CacheState

    constructor (state: CacheState)
      ensures this.state == state
    {
      this.state := state;
    }

    /** CommitBranch and RollbackBranch treat the source's answer alike. */
    method FinishBranch(b: Branch, answered: Resolution)
      requires state.Valid()
      modifies state
      ensures state.Valid()
      ensures state.View() == Resolve(state.config, old(state.View()), b, Invalidates(answered))
    {
      if !answered.ok {
        state.ResolveBranch(b, true);
        return;
      }
      state.ResolveBranch(b, MayHaveCommitted(answered.state));
    }

    method ForgetBranch(b: Branch, ok: bool)
      requires state.Valid()
      modifies state
      ensures state.Valid()
      ensures state.View() == if ok then DropRecord(old(state.View()), b) else old(state.View())
    {
      if ok {
        state.DiscardBranch(b);
      }
    }
  }

  /** Invalidation on request, for changes made behind the provider's back. */
  class Controller {
    const state: CacheState

    constructor (state: CacheState)
      ensures this.state == state
    {
      this.state := state;
    }

    /** An empty request, or one naming an entity that cannot be normalized, is refused and changes nothing. */
    method Invalidate(entities: seq<Entity>) returns (ok: bool)
      requires state.Valid()
      modifies state
      ensures state.Valid()
      ensures ok <==> entities != [] && "" !in entities
      ensures state.View() ==
              if ok then InvalidateEntities(state.config, old(state.View()), Elements(entities))
              else old(state.View())
    {
      if entities == [] || "" in entities {
        return false;
      }
      state.Invalidate(entities);
      return true;
    }
  }
}
