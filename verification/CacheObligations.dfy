/**
  In every run, each write that may be committed without having been invalidated is owed: by the pending
  set of its connection, by the record of its branch, or by the rule that a branch without a record
  invalidates everything. Only writes of a branch that a repeated prepare lost are not.
 */
module CacheObligations {
  import opened CacheTypes
  import opened Options
  import opened Dependencies
  import opened CacheCore
  import opened CachedConnections
  import opened CacheSystem
  import LruStore
  import ResultStreams

  /** The owner's writes that may still take effect, or have and await invalidation. */
  function Claimed(s: Sys, o: Owner): set<Entity> {
    At(s.unsettled, o) + At(s.dirty, o)
  }

  ghost predicate AllCovered(owed: Retained, es: set<Entity>) {
    forall e :: e in es ==> Covers(owed, e)
  }

  /** What a connection owes against its claims: outside a call, its writes are all in its pending set. */
  ghost predicate CallOk(k: Connection, unsettled: set<Entity>, dirty: set<Entity>) {
    && WellFormed(k.txn)
    && match k.call
       case NoCall => AllCovered(Owed(k.txn), unsettled + dirty)
       case Mutating(e, touched) =>
         (e != "" ==> touched <= {e}) && AllCovered(Owed(k.txn), unsettled + dirty - touched)
       case Settling(a) =>
         && AllCovered(Owed(k.txn), unsettled + dirty)
         && (Ends(a) ==> unsettled == {})
         && (!Discharges(k.txn, a) ==> dirty == {})
       case Preparing(_, _) => unsettled + dirty == {}
  }

  /** While a branch is being prepared for the first time, its connection still covers what it took over. */
  ghost predicate ConnectionOk(s: Sys, c: nat, lost: iset<Branch>)
    requires c in s.connections
  {
    var k := s.connections[c];
    && CallOk(k, At(s.unsettled, OfConnection(c)), At(s.dirty, OfConnection(c)))
    && (k.call.Preparing? ==>
         && k.call.branch in s.prepared
         && (k.call.first && k.call.branch !in lost ==> AllCovered(Owed(k.txn), Claimed(s, OfBranch(k.call.branch)))))
  }

  /** A retained record covers all its branch may have written, unless the branch is among the lost. */
  ghost predicate RecordCovers(s: Sys, b: Branch) {
    b in s.cache.branches ==> AllCovered(s.cache.branches[b], Claimed(s, OfBranch(b)))
  }

  /** A branch never prepared has written nothing. */
  ghost predicate BranchOk(s: Sys, b: Branch, lost: iset<Branch>) {
    && (b !in lost ==> RecordCovers(s, b))
    && (b !in s.prepared ==> b !in s.cache.branches && Claimed(s, OfBranch(b)) == {})
  }

  /** What a resolving call took over is covered by the record it popped. */
  ghost predicate ResolverOk(s: Sys, k: nat, lost: iset<Branch>)
    requires k in s.resolvers
  {
    var taken := At(s.dirty, OfResolver(k));
    match s.resolvers[k]
    case Answered(_, _) => taken == {}
    case Popped(b, record) =>
      (b !in s.prepared ==> taken == {}) && (b !in lost ==> AllCovered(OwedByRecord(record), taken))
  }

  /** Only connections, branches, resolving calls and outsiders that exist have claims. */
  ghost predicate NoStrayClaims(s: Sys) {
    && (forall c: nat :: c !in s.connections ==> Claimed(s, OfConnection(c)) == {})
    && (forall k: nat :: At(s.unsettled, OfResolver(k)) == {})
    && (forall k: nat :: k !in s.resolvers ==> At(s.dirty, OfResolver(k)) == {})
  }

  /** Every write is owed, but for those of the lost branches. */
  ghost predicate Owing(s: Sys, lost: iset<Branch>) {
    && (forall c :: c in s.connections ==> ConnectionOk(s, c, lost))
    && (forall b :: BranchOk(s, b, lost))
    && (forall k :: k in s.resolvers ==> ResolverOk(s, k, lost))
    && NoStrayClaims(s)
  }

  // ---------- What each part depends on ----------

  ghost predicate SameClaims(s: Sys, s': Sys, o: Owner) {
    At(s'.unsettled, o) == At(s.unsettled, o) && At(s'.dirty, o) == At(s.dirty, o)
  }

  // ---------- What a step leaves alone ----------

  predicate Touched(o: Owner, c: Option<nat>, b: Option<Branch>, k: Option<nat>) {
    match o
    case OfConnection(d) => c == Some(d)
    case OfBranch(x) => b == Some(x)
    case OfResolver(j) => k == Some(j)
    case OfOutsider => true
  }

  /** Apart from outsiders, only the named connection, branch and resolving call change or have their claims changed. */
  ghost predicate Only(s: Sys, s': Sys, c: Option<nat>, b: Option<Branch>, k: Option<nat>) {
    && (forall o :: !Touched(o, c, b, k) ==> SameClaims(s, s', o))
    && (forall d :: c != Some(d) ==> (d in s'.connections <==> d in s.connections))
    && (forall d :: c != Some(d) && d in s.connections ==> s'.connections[d] == s.connections[d])
    && (forall j :: k != Some(j) ==> (j in s'.resolvers <==> j in s.resolvers))
    && (forall j :: k != Some(j) && j in s.resolvers ==> s'.resolvers[j] == s.resolvers[j])
    && (forall x :: b != Some(x) && x in s'.cache.branches ==> SameRecord(s, s', x))
    && s.prepared <= s'.prepared
  }

  ghost predicate SameRecord(s: Sys, s': Sys, x: Branch)
    requires x in s'.cache.branches
  {
    x in s.cache.branches && s'.cache.branches[x] == s.cache.branches[x]
  }

  /** The claims of the branch have not grown, unless it is lost or prepared for the first time. */
  ghost predicate BranchShrinks(s: Sys, s': Sys, b: Branch, lost: iset<Branch>) {
    b in lost || b !in s.prepared || Claimed(s', OfBranch(b)) <= Claimed(s, OfBranch(b))
  }

  lemma OtherConnection(s: Sys, s': Sys, c: Option<nat>, b: Option<Branch>, k: Option<nat>, d: nat, lost: iset<Branch>)
    requires Only(s, s', c, b, k) && c != Some(d) && d in s.connections && ConnectionOk(s, d, lost)
    requires b.Some? ==> BranchShrinks(s, s', b.value, lost)
    ensures d in s'.connections && ConnectionOk(s', d, lost)
  {
    assert SameClaims(s, s', OfConnection(d));
    var call := s.connections[d].call;
    if call.Preparing? && b != Some(call.branch) {
      assert SameClaims(s, s', OfBranch(call.branch));
    }
    hide Only, CallOk;
    assert s'.connections[d] == s.connections[d] && s.prepared <= s'.prepared by { OnlyElsewhere(s, s', c, b, k, d); }
  }

  lemma OnlyElsewhere(s: Sys, s': Sys, c: Option<nat>, b: Option<Branch>, k: Option<nat>, d: nat)
    requires Only(s, s', c, b, k) && c != Some(d) && d in s.connections
    ensures d in s'.connections && s'.connections[d] == s.connections[d] && s.prepared <= s'.prepared
  {
  }

  lemma OtherBranch(s: Sys, s': Sys, c: Option<nat>, b: Option<Branch>, k: Option<nat>, x: Branch, lost: iset<Branch>)
    requires Only(s, s', c, b, k) && b != Some(x) && BranchOk(s, x, lost)
    requires x !in s'.prepared <== x !in s.prepared
    ensures BranchOk(s', x, lost)
  {
    assert SameClaims(s, s', OfBranch(x));
    hide AllCovered;
  }

  lemma OtherResolver(s: Sys, s': Sys, c: Option<nat>, b: Option<Branch>, k: Option<nat>, j: nat, lost: iset<Branch>)
    requires Only(s, s', c, b, k) && k != Some(j) && j in s.resolvers && ResolverOk(s, j, lost)
    ensures j in s'.resolvers && ResolverOk(s', j, lost)
  {
    assert SameClaims(s, s', OfResolver(j));
    hide AllCovered, SameClaims;
  }

  /** A step that is in order for what it touches keeps everything in order. */
  lemma Kept(s: Sys, s': Sys, c: Option<nat>, b: Option<Branch>, k: Option<nat>, lost: iset<Branch>)
    requires Owing(s, lost) && Only(s, s', c, b, k)
    requires c.Some? ==> c.value in s'.connections && ConnectionOk(s', c.value, lost)
    requires b.Some? ==> BranchOk(s', b.value, lost) && BranchShrinks(s, s', b.value, lost)
    requires forall x :: x in s'.prepared && x !in s.prepared ==> b == Some(x)
    requires k.Some? ==> At(s'.unsettled, OfResolver(k.value)) == {}
    requires k.Some? ==> if k.value in s'.resolvers then ResolverOk(s', k.value, lost) else At(s'.dirty, OfResolver(k.value)) == {}
    ensures Owing(s', lost)
  {
    hide ConnectionOk, BranchOk, ResolverOk, BranchShrinks;
    forall d | d in s'.connections ensures ConnectionOk(s', d, lost) {
      if c != Some(d) { OtherConnection(s, s', c, b, k, d, lost); }
    }
    forall x ensures BranchOk(s', x, lost) {
      assert BranchOk(s, x, lost);
      if b != Some(x) { OtherBranch(s, s', c, b, k, x, lost); }
    }
    forall j | j in s'.resolvers ensures ResolverOk(s', j, lost) {
      if k != Some(j) { OtherResolver(s, s', c, b, k, j, lost); }
    }
    hide Owing;
    StrayKept(s, s', c, b, k);
  }

  lemma StrayKept(s: Sys, s': Sys, c: Option<nat>, b: Option<Branch>, k: Option<nat>)
    requires NoStrayClaims(s) && Only(s, s', c, b, k) && (c.Some? ==> c.value in s'.connections)
    requires k.Some? ==> At(s'.unsettled, OfResolver(k.value)) == {}
    requires k.Some? && k.value !in s'.resolvers ==> At(s'.dirty, OfResolver(k.value)) == {}
    ensures NoStrayClaims(s')
  {
    forall d: nat | d !in s'.connections ensures Claimed(s', OfConnection(d)) == {} {
      assert SameClaims(s, s', OfConnection(d));
    }
    forall j: nat
      ensures At(s'.unsettled, OfResolver(j)) == {} && (j !in s'.resolvers ==> At(s'.dirty, OfResolver(j)) == {})
    {
      assert k != Some(j) ==> SameClaims(s, s', OfResolver(j));
    }
  }

  lemma StartOwes(source: Source, lost: iset<Branch>)
    ensures Owing(Start(source), lost)
  {
  }

  ghost predicate SameObligations(s: Sys, s': Sys) {
    && s'.connections == s.connections && s'.resolvers == s.resolvers
    && s'.unsettled == s.unsettled && s'.dirty == s.dirty && s'.prepared == s.prepared
    && s'.cache.branches == s.cache.branches && s'.history == s.history
    && s'.cache.global == s.cache.global && s'.cache.generations == s.cache.generations
  }

  lemma SameObligationsKept(s: Sys, s': Sys, lost: iset<Branch>)
    requires Owing(s, lost) && SameObligations(s, s')
    ensures Owing(s', lost)
  {
    hide Owing;
    Kept(s, s', None, None, None, lost);
  }

  // ---------- Steps of a connection ----------

  /** A step of one connection that touches its own claims only. */
  ghost predicate OwnStep(s: Sys, s': Sys, c: nat) {
    && c in s'.connections && s'.connections == s.connections[c := s'.connections[c]]
    && s'.resolvers == s.resolvers && s'.prepared == s.prepared && s'.cache.branches == s.cache.branches
    && (forall o :: o != OfConnection(c) ==> SameClaims(s, s', o))
  }

  lemma OwnStepKept(s: Sys, s': Sys, c: nat, lost: iset<Branch>)
    requires Owing(s, lost) && OwnStep(s, s', c)
    requires ConnectionOk(s', c, lost)
    ensures Owing(s', lost)
  {
    hide Owing, ConnectionOk, SameClaims;
    assert forall o :: !Touched(o, Some(c), None, None) ==> o != OfConnection(c);
    Kept(s, s', Some(c), None, None, lost);
  }

  lemma OpenOwes(s: Sys, c: nat, lost: iset<Branch>)
    requires Owing(s, lost) && c !in s.connections
    ensures Owing(s.(connections := s.connections[c := Connection(IDLE, NoCall)]), lost)
  {
    assert Claimed(s, OfConnection(c)) == {};
    hide Owing;
    OwnStepKept(s, s.(connections := s.connections[c := Connection(IDLE, NoCall)]), c, lost);
  }

  lemma StartMutationOwes(s: Sys, c: nat, e: Entity, touched: set<Entity>, lost: iset<Branch>)
    requires Owing(s, lost) && Idle(s, c) && (e != "" ==> touched <= {e})
    ensures Owing(ApplyStartMutation(s, c, e, touched), lost)
  {
    assert ConnectionOk(s, c, lost);
    var s' := ApplyStartMutation(s, c, e, touched);
    assert ConnectionOk(s', c, lost);
    hide Owing, ConnectionOk;
    OwnStepKept(s, s', c, lost);
  }

  lemma PendingTakesMutation(w: World, c: Cache, t: Transaction, e: Entity, touched: set<Entity>, claimed: set<Entity>)
    requires t.active && (e != "" ==> touched <= {e}) && AllCovered(Owed(t), claimed - touched)
    ensures AllCovered(Owed(Mutated(w.config, c, t, e).1), claimed)
  {
    assert forall x :: x in claimed ==> x in touched || x in claimed - touched;
  }

  lemma SetClaims(claims: map<Owner, set<Entity>>, o: Owner, es: set<Entity>)
    ensures At(claims[o := es], o) == es
    ensures forall p :: p != o ==> At(claims[o := es], p) == At(claims, p)
  {
  }

  lemma EndMutationOwes(w: World, s: Sys, c: nat, lost: iset<Branch>)
    requires Owing(s, lost) && c in s.connections && s.connections[c].call.Mutating?
    ensures Owing(ApplyEndMutation(w, s, c), lost)
  {
    MutatedConnectionOk(w, s, c, lost);
    hide Owing, ConnectionOk, ApplyEndMutation, OwnStep;
    EndMutationIsOwn(w, s, c);
    OwnStepKept(s, ApplyEndMutation(w, s, c), c, lost);
  }

  lemma EndMutationIsOwn(w: World, s: Sys, c: nat)
    requires c in s.connections && s.connections[c].call.Mutating?
    ensures OwnStep(s, ApplyEndMutation(w, s, c), c)
  {
    SetClaims(s.unsettled, OfConnection(c), {});
    SetClaims(s.dirty, OfConnection(c), Uncovered(At(s.dirty, OfConnection(c)), OwedFor(s.connections[c].call.entity)));
    hide Raised, Affected, At, Uncovered;
  }

  lemma MutatedConnectionOk(w: World, s: Sys, c: nat, lost: iset<Branch>)
    requires c in s.connections && s.connections[c].call.Mutating? && ConnectionOk(s, c, lost)
    ensures ConnectionOk(ApplyEndMutation(w, s, c), c, lost)
  {
    var k, s' := s.connections[c], ApplyEndMutation(w, s, c);
    if k.txn.active {
      PendingTakesMutation(w, s.cache, k.txn, k.call.entity, k.call.touched, Claimed(s, OfConnection(c)));
      assert Claimed(s', OfConnection(c)) == Claimed(s, OfConnection(c));
    } else {
      WrittenIsCovered(OwedFor(k.call.entity), k.call.entity, k.call.touched, Claimed(s, OfConnection(c)));
      assert Claimed(s', OfConnection(c)) == {};
      NothingToCover(Owed(k.txn));
    }
  }

  /** What a mutation outside a transaction wrote is what it invalidates. */
  lemma WrittenIsCovered(owed: Retained, e: Entity, touched: set<Entity>, claimed: set<Entity>)
    requires owed == OwedFor(e)
    requires (e != "" ==> touched <= {e}) && AllCovered(Owed(IDLE), claimed - touched)
    ensures AllCovered(owed, claimed)
  {
    assert forall x :: x in claimed ==> x in touched || Covers(Owed(IDLE), x);
  }

  lemma NothingToCover(owed: Retained)
    ensures AllCovered(owed, {})
  {
  }

  lemma BeginOwes(s: Sys, c: nat, lost: iset<Branch>)
    requires Owing(s, lost) && Idle(s, c)
    ensures Owing(ApplyBegin(s, c), lost)
  {
    assert ConnectionOk(s, c, lost);
    assert ConnectionOk(ApplyBegin(s, c), c, lost);
    hide Owing, ConnectionOk;
    OwnStepKept(s, ApplyBegin(s, c), c, lost);
  }

  lemma SourceSettlesOwes(s: Sys, c: nat, a: Answer, lost: iset<Branch>)
    requires Owing(s, lost) && Idle(s, c)
    requires NothingCommitted(a) ==> At(s.dirty, OfConnection(c)) == {}
    ensures Owing(ApplySourceSettles(s, c, a), lost)
  {
    var s' := ApplySourceSettles(s, c, a);
    var before := At(s.unsettled, OfConnection(c));
    assert ConnectionOk(s, c, lost);
    SettlingOk(s.connections[c], before, At(s.dirty, OfConnection(c)), a);
    assert ConnectionOk(s', c, lost) by { hide CallOk; }
    hide Owing, ConnectionOk;
    OwnStepKept(s, s', c, lost);
  }

  /** When the source answers, an ended transaction has nothing left that may take effect. */
  lemma SettlingOk(k: Connection, unsettled: set<Entity>, dirty: set<Entity>, a: Answer)
    requires k.call == NoCall && CallOk(k, unsettled, dirty) && (NothingCommitted(a) ==> dirty == {})
    ensures CallOk(k.(call := Settling(a)), if Ends(a) then {} else unsettled, dirty)
  {
    if k.txn.active {
      DischargesExactlyWhenCommitted(k.txn, a);
    } else {
      assert forall e :: e in unsettled + dirty ==> Covers(Owed(k.txn), e);
    }
  }

  lemma EndSettlingOwes(w: World, s: Sys, c: nat, lost: iset<Branch>)
    requires Owing(s, lost) && c in s.connections && s.connections[c].call.Settling?
    ensures Owing(ApplyEndSettling(w, s, c), lost)
  {
    SettledConnectionOk(w, s, c, lost);
    hide Owing, ConnectionOk, ApplyEndSettling, OwnStep;
    EndSettlingIsOwn(w, s, c);
    OwnStepKept(s, ApplyEndSettling(w, s, c), c, lost);
  }

  lemma SettledConnectionOk(w: World, s: Sys, c: nat, lost: iset<Branch>)
    requires c in s.connections && s.connections[c].call.Settling? && ConnectionOk(s, c, lost)
    ensures ConnectionOk(ApplyEndSettling(w, s, c), c, lost)
  {
    var rest := Uncovered(At(s.dirty, OfConnection(c)), Owed(s.connections[c].txn));
    SettledOk(s.connections[c], At(s.unsettled, OfConnection(c)), At(s.dirty, OfConnection(c)));
    SetClaims(s.dirty, OfConnection(c), rest);
    hide Discharge, CallOk, Discharges, Ends, At, Uncovered;
  }

  lemma EndSettlingIsOwn(w: World, s: Sys, c: nat)
    requires c in s.connections && s.connections[c].call.Settling?
    ensures OwnStep(s, ApplyEndSettling(w, s, c), c)
  {
    SetClaims(s.dirty, OfConnection(c), Uncovered(At(s.dirty, OfConnection(c)), Owed(s.connections[c].txn)));
    hide Raised, Affected, At, Discharges, Ends, Uncovered;
  }

  /** A connection that settled has no claims; one that did not keeps its pending set. */
  lemma SettledOk(k: Connection, unsettled: set<Entity>, dirty: set<Entity>)
    requires k.call.Settling? && CallOk(k, unsettled, dirty)
    ensures CallOk(Connection(if Ends(k.call.answer) then IDLE else k.txn, NoCall), unsettled,
                   if Discharges(k.txn, k.call.answer) then Uncovered(dirty, Owed(k.txn)) else dirty)
  {
  }

  lemma SourceFinishesOwes(s: Sys, c: nat, b: Branch, ok: bool, state: BranchState, lost: iset<Branch>)
    requires Owing(s, lost) && CallEnabled(s, SourceFinishes(c, b, ok, state))
    ensures Owing(ApplySourceFinishes(s, c, b, ok, state), lost)
  {
    var s', a := ApplySourceFinishes(s, c, b, ok, state), BranchAnswered(ok, state);
    assert ConnectionOk(s, c, lost) && BranchOk(s, b, lost);
    SettlingOk(s.connections[c], At(s.unsettled, OfConnection(c)), At(s.dirty, OfConnection(c)), a);
    FinishedClaims(s, c, b, ok, state);
    assert ConnectionOk(s', c, lost) by { hide CallOk; }
    assert BranchOk(s', b, lost) && BranchShrinks(s, s', b, lost);
    hide Owing, ConnectionOk, BranchOk, BranchShrinks, Only, ApplySourceFinishes;
    Kept(s, s', Some(c), Some(b), None, lost);
  }

  lemma FinishedClaims(s: Sys, c: nat, b: Branch, ok: bool, state: BranchState)
    requires c in s.connections
    ensures var s' := ApplySourceFinishes(s, c, b, ok, state);
            && Only(s, s', Some(c), Some(b), None) && s'.prepared == s.prepared && s'.cache == s.cache
            && c in s'.connections && s'.connections[c] == s.connections[c].(call := Settling(BranchAnswered(ok, state)))
            && At(s'.unsettled, OfConnection(c)) == (if ok then {} else At(s.unsettled, OfConnection(c)))
            && At(s'.dirty, OfConnection(c)) == At(s.dirty, OfConnection(c))
            && Claimed(s', OfBranch(b)) <= Claimed(s, OfBranch(b))
  {
    var s' := ApplySourceFinishes(s, c, b, ok, state);
    SetClaims(s.unsettled, OfConnection(c), {});
    SetClaims(s.unsettled[OfConnection(c) := {}], OfBranch(b), {});
    hide At;
    forall o | !Touched(o, Some(c), Some(b), None) ensures SameClaims(s, s', o) {
      assert o != OfBranch(b) && o != OfConnection(c);
    }
    hide SameClaims;
  }

  // ---------- Effects and outside changes ----------

  /** An effect only moves an entity from what may happen to what has happened. */
  ghost predicate SameWholeClaims(s: Sys, s': Sys, p: Owner) {
    && Claimed(s', p) == Claimed(s, p) && At(s'.unsettled, p) == At(s.unsettled, p)
    && (At(s.unsettled, p) == {} ==> At(s'.dirty, p) == At(s.dirty, p))
  }

  lemma TakeEffectClaims(s: Sys, o: Owner, changed: set<Entity>, next: Source, p: Owner)
    requires (o.OfOutsider? || changed <= At(s.unsettled, o)) && p != OfOutsider
    ensures SameWholeClaims(s, ApplyTakeEffect(s, o, changed, next), p)
  {
    SetClaims(s.dirty, o, At(s.dirty, o) + changed);
    hide At;
  }

  lemma ConnectionTakesEffect(s: Sys, s': Sys, c: nat, lost: iset<Branch>)
    requires c in s.connections && ConnectionOk(s, c, lost)
    requires s'.connections == s.connections && s'.prepared == s.prepared
    requires SameWholeClaims(s, s', OfConnection(c))
    requires s.connections[c].call.Preparing? ==> SameWholeClaims(s, s', OfBranch(s.connections[c].call.branch))
    ensures ConnectionOk(s', c, lost)
  {
    hide AllCovered, At, Owed;
  }

  lemma TakeEffectOwes(s: Sys, o: Owner, changed: set<Entity>, next: Source, lost: iset<Branch>)
    requires Owing(s, lost) && (o.OfOutsider? || changed <= At(s.unsettled, o))
    ensures Owing(ApplyTakeEffect(s, o, changed, next), lost)
  {
    var s' := ApplyTakeEffect(s, o, changed, next);
    hide AllCovered, CallOk;
    forall p | p != OfOutsider ensures SameWholeClaims(s, s', p) {
      TakeEffectClaims(s, o, changed, next, p);
    }
    forall c | c in s'.connections ensures ConnectionOk(s', c, lost) {
      ConnectionTakesEffect(s, s', c, lost);
    }
    hide ConnectionOk;
    forall b ensures BranchOk(s', b, lost) {
      assert BranchOk(s, b, lost) && SameWholeClaims(s, s', OfBranch(b));
    }
    forall k: nat
      ensures At(s'.dirty, OfResolver(k)) == At(s.dirty, OfResolver(k)) && At(s'.unsettled, OfResolver(k)) == {}
    {
      assert SameWholeClaims(s, s', OfResolver(k)) && At(s.unsettled, OfResolver(k)) == {};
    }
    hide BranchOk;
    forall k | k in s'.resolvers ensures ResolverOk(s', k, lost) { assert ResolverOk(s, k, lost); }
    hide ResolverOk;
    forall c: nat | c !in s'.connections ensures Claimed(s', OfConnection(c)) == {} {
      assert SameWholeClaims(s, s', OfConnection(c));
    }
  }

  lemma ControllerOwes(w: World, s: Sys, owed: Retained, lost: iset<Branch>)
    requires Owing(s, lost)
    ensures Owing(ApplyController(w, s, owed), lost)
  {
    hide Owing, Raised, Affected, Covers;
    Kept(s, ApplyController(w, s, owed), None, None, None, lost);
  }

  // ---------- Branches ----------

  lemma RepeatedPrepareOwes(s: Sys, c: nat, b: Branch, lost: iset<Branch>)
    requires Owing(s, lost) && Idle(s, c) && b in s.prepared && Claimed(s, OfConnection(c)) == {}
    ensures Owing(ApplySourcePrepares(s, c, b), lost)
  {
    assert ConnectionOk(s, c, lost);
    var s' := ApplySourcePrepares(s, c, b);
    assert s'.prepared == s.prepared && ConnectionOk(s', c, lost);
    hide Owing, ConnectionOk;
    OwnStepKept(s, s', c, lost);
  }

  lemma MovedClaims(claims: map<Owner, set<Entity>>, from: Owner, to: Owner)
    requires from != to
    ensures At(Moved(claims, from, to), from) == {}
    ensures At(Moved(claims, from, to), to) == At(claims, to) + At(claims, from)
    ensures forall o :: o != from && o != to ==> At(Moved(claims, from, to), o) == At(claims, o)
  {
  }

  lemma FirstPrepareOwes(s: Sys, c: nat, b: Branch, lost: iset<Branch>)
    requires Owing(s, lost) && Idle(s, c) && b !in s.prepared
    ensures Owing(ApplySourcePrepares(s, c, b), lost)
  {
    var s' := ApplySourcePrepares(s, c, b);
    MovedClaims(s.unsettled, OfConnection(c), OfBranch(b));
    MovedClaims(s.dirty, OfConnection(c), OfBranch(b));
    assert ConnectionOk(s, c, lost) && BranchOk(s, b, lost);
    hide Owing, Moved, At, AllCovered;
    assert Claimed(s', OfBranch(b)) == Claimed(s, OfConnection(c));
    assert ConnectionOk(s', c, lost) && BranchOk(s', b, lost);
    hide BranchOk, ConnectionOk, BranchShrinks, Only, ApplySourcePrepares;
    FirstPrepareOnly(s, c, b, lost);
    Kept(s, s', Some(c), Some(b), None, lost);
  }

  lemma FirstPrepareOnly(s: Sys, c: nat, b: Branch, lost: iset<Branch>)
    requires Idle(s, c) && b !in s.prepared
    ensures var s' := ApplySourcePrepares(s, c, b);
            && Only(s, s', Some(c), Some(b), None) && BranchShrinks(s, s', b, lost)
            && c in s'.connections && s'.prepared == s.prepared + {b} && s'.cache == s.cache
  {
    MovedClaims(s.unsettled, OfConnection(c), OfBranch(b));
    MovedClaims(s.dirty, OfConnection(c), OfBranch(b));
    hide Moved, At;
  }

  lemma SourcePreparesOwes(s: Sys, c: nat, b: Branch, lost: iset<Branch>)
    requires Owing(s, lost) && Idle(s, c)
    requires b in s.prepared ==> Claimed(s, OfConnection(c)) == {}
    ensures Owing(ApplySourcePrepares(s, c, b), lost)
  {
    if b in s.prepared {
      RepeatedPrepareOwes(s, c, b, lost);
    } else {
      FirstPrepareOwes(s, c, b, lost);
    }
  }

  lemma MergeCovers(previous: Option<Retained>, owed: Retained, es: set<Entity>)
    ensures AllCovered(owed, es) ==> AllCovered(Merge(previous, owed), es)
    ensures previous.Some? && AllCovered(previous.value, es) ==> AllCovered(Merge(previous, owed), es)
    ensures previous.None? && AllCovered(Merge(previous, owed), es) ==> AllCovered(owed, es)
  {
  }

  /**
    The connection ends a repeated prepare of the branch when its record is gone, while the branch still has claims
    that the connection's own pending set does not cover.
   */
  ghost predicate LosesBranch(s: Sys, c: nat, b: Branch) {
    && c in s.connections && s.connections[c].call == Preparing(b, false)
    && b !in s.cache.branches && !AllCovered(Owed(s.connections[c].txn), Claimed(s, OfBranch(b)))
  }

  /** Ending a prepare keeps a covering record, or the fallback, exactly if it does not lose the branch. */
  lemma PrepareKeepsCoverExactlyWhen(s: Sys, c: nat, lost: iset<Branch>)
    requires c in s.connections && s.connections[c].call.Preparing? && ConnectionOk(s, c, lost)
    requires s.connections[c].call.branch !in lost && RecordCovers(s, s.connections[c].call.branch)
    ensures var b := s.connections[c].call.branch;
            RecordCovers(ApplyEndPreparing(s, c), b) <==> !LosesBranch(s, c, b)
  {
    var b := s.connections[c].call.branch;
    MergeCovers(CacheCore.Record(s.cache, b), Owed(s.connections[c].txn), Claimed(s, OfBranch(b)));
    assert Claimed(ApplyEndPreparing(s, c), OfBranch(b)) == Claimed(s, OfBranch(b));
    hide AllCovered, Merge;
  }

  /** A step that loses a branch leaves it with a record that does not cover what the branch may have written. */
  lemma LosingUncovers(s: Sys, c: nat, b: Branch)
    requires LosesBranch(s, c, b)
    ensures !RecordCovers(ApplyEndPreparing(s, c), b)
  {
    MergeCovers(None, Owed(s.connections[c].txn), Claimed(s, OfBranch(b)));
    assert Claimed(ApplyEndPreparing(s, c), OfBranch(b)) == Claimed(s, OfBranch(b));
    hide AllCovered, Merge;
  }

  lemma EndPreparingOwes(s: Sys, c: nat, lost: iset<Branch>)
    requires Owing(s, lost) && c in s.connections && s.connections[c].call.Preparing?
    requires s.connections[c].call.branch in lost || !LosesBranch(s, c, s.connections[c].call.branch)
    ensures Owing(ApplyEndPreparing(s, c), lost)
  {
    var s' := ApplyEndPreparing(s, c);
    var b := s.connections[c].call.branch;
    assert ConnectionOk(s, c, lost) && BranchOk(s, b, lost);
    if b !in lost {
      PrepareKeepsCoverExactlyWhen(s, c, lost);
    }
    assert BranchOk(s', b, lost) by { hide RecordCovers; }
    assert ConnectionOk(s', c, lost);
    hide Owing, BranchOk, ConnectionOk, ResolverOk, Merge;
    Kept(s, s', Some(c), Some(b), None, lost);
  }

  lemma SourceResolvesOwes(s: Sys, k: nat, b: Branch, r: Resolution, final: bool, lost: iset<Branch>)
    requires Owing(s, lost) && k !in s.resolvers
    ensures Owing(ApplySourceResolves(s, k, b, r, final), lost)
  {
    var s' := ApplySourceResolves(s, k, b, r, final);
    assert BranchOk(s, b, lost) && At(s.unsettled, OfResolver(k)) == {} == At(s.dirty, OfResolver(k));
    ResolvedOnly(s, k, b, r, final);
    assert BranchOk(s', b, lost) && ResolverOk(s', k, lost) && BranchShrinks(s, s', b, lost);
    hide Owing, BranchOk, ResolverOk, ConnectionOk, Only, BranchShrinks, ApplySourceResolves;
    Kept(s, s', None, Some(b), Some(k), lost);
  }

  lemma ResolvedOnly(s: Sys, k: nat, b: Branch, r: Resolution, final: bool)
    ensures var s' := ApplySourceResolves(s, k, b, r, final);
            && Only(s, s', None, Some(b), Some(k)) && Claimed(s', OfBranch(b)) <= Claimed(s, OfBranch(b))
            && At(s'.unsettled, OfResolver(k)) == At(s.unsettled, OfResolver(k))
            && s'.prepared == s.prepared && s'.cache == s.cache && s'.dirty == s.dirty
            && k in s'.resolvers && s'.resolvers[k] == Answered(b, Invalidates(r))
  {
    SetClaims(s.unsettled, OfBranch(b), {});
    hide Invalidates, At;
  }

  lemma PoppedOnly(s: Sys, k: nat)
    requires k in s.resolvers && s.resolvers[k].Answered?
    ensures var s', b := ApplyPop(s, k), s.resolvers[k].branch;
            && Only(s, s', None, Some(b), Some(k)) && b !in s'.cache.branches
            && s'.unsettled == s.unsettled && s'.prepared == s.prepared
  {
    var s', b := ApplyPop(s, k), s.resolvers[k].branch;
    MovedClaims(s.dirty, OfBranch(b), OfResolver(k));
    hide At, Moved;
    forall o | !Touched(o, None, Some(b), Some(k)) ensures SameClaims(s, s', o) {
      assert o != OfBranch(b) && o != OfResolver(k);
    }
    hide SameClaims;
    assert s'.cache.branches == s.cache.branches - {b};
  }

  lemma PoppedTakes(s: Sys, k: nat)
    requires k in s.resolvers && s.resolvers[k].Answered?
    ensures var s', b := ApplyPop(s, k), s.resolvers[k].branch;
            && Claimed(s', OfBranch(b)) <= Claimed(s, OfBranch(b))
            && (if s.resolvers[k].invalidate then
                  && k in s'.resolvers && s'.resolvers[k] == Popped(b, CacheCore.Record(s.cache, b))
                  && At(s'.dirty, OfResolver(k)) == At(s.dirty, OfResolver(k)) + At(s.dirty, OfBranch(b))
                else k !in s'.resolvers && s'.dirty == s.dirty)
  {
    MovedClaims(s.dirty, OfBranch(s.resolvers[k].branch), OfResolver(k));
    hide At, Moved;
  }

  lemma PopOwes(s: Sys, k: nat, lost: iset<Branch>)
    requires Owing(s, lost) && k in s.resolvers && s.resolvers[k].Answered?
    ensures Owing(ApplyPop(s, k), lost)
  {
    var s', b := ApplyPop(s, k), s.resolvers[k].branch;
    assert ResolverOk(s, k, lost) && BranchOk(s, b, lost) && At(s.unsettled, OfResolver(k)) == {};
    PoppedOnly(s, k);
    PoppedTakes(s, k);
    hide Only, ApplyPop;
    assert BranchOk(s', b, lost) && BranchShrinks(s, s', b, lost);
    assert if k in s'.resolvers then ResolverOk(s', k, lost) else At(s'.dirty, OfResolver(k)) == {};
    hide Owing, BranchOk, ResolverOk, BranchShrinks;
    Kept(s, s', None, Some(b), Some(k), lost);
  }

  lemma DischargeOnly(w: World, s: Sys, k: nat)
    requires k in s.resolvers && s.resolvers[k].Popped?
    ensures var s', b := ApplyDischarge(w, s, k), s.resolvers[k].branch;
            && Only(s, s', None, Some(b), Some(k)) && s'.unsettled == s.unsettled && s'.prepared == s.prepared
            && k !in s'.resolvers && At(s'.dirty, OfResolver(k)) == {} && s'.cache.branches == s.cache.branches
            && At(s'.dirty, OfBranch(b)) ==
                 At(s.dirty, OfBranch(b)) + Uncovered(At(s.dirty, OfResolver(k)), OwedByRecord(s.resolvers[k].record))
  {
    var b := s.resolvers[k].branch;
    var more := At(s.dirty, OfBranch(b)) + Uncovered(At(s.dirty, OfResolver(k)), OwedByRecord(s.resolvers[k].record));
    SetClaims(s.dirty, OfBranch(b), more);
    SetClaims(s.dirty[OfBranch(b) := more], OfResolver(k), {});
    hide Raised, Affected, At, Uncovered;
  }

  lemma DischargeOwes(w: World, s: Sys, k: nat, lost: iset<Branch>)
    requires Owing(s, lost) && k in s.resolvers && s.resolvers[k].Popped?
    ensures Owing(ApplyDischarge(w, s, k), lost)
  {
    var s', b := ApplyDischarge(w, s, k), s.resolvers[k].branch;
    assert ResolverOk(s, k, lost) && BranchOk(s, b, lost) && At(s.unsettled, OfResolver(k)) == {};
    DischargeOnly(w, s, k);
    hide ApplyDischarge, Only, At, OwedByRecord;
    assert b !in lost || b !in s.prepared ==> Claimed(s', OfBranch(b)) == Claimed(s, OfBranch(b));
    assert BranchOk(s', b, lost) && BranchShrinks(s, s', b, lost);
    hide Owing, BranchOk, BranchShrinks;
    Kept(s, s', None, Some(b), Some(k), lost);
  }

  lemma ForgetOwes(s: Sys, b: Branch, lost: iset<Branch>)
    requires Owing(s, lost)
    ensures Owing(s.(cache := DropRecord(s.cache, b)), lost)
  {
    var s' := s.(cache := DropRecord(s.cache, b));
    assert BranchOk(s, b, lost);
    assert BranchOk(s', b, lost);
    hide Owing, BranchOk;
    Kept(s, s', None, Some(b), None, lost);
  }

  lemma LookUpSameObligations(s: Sys, t: nat, now: int)
    requires t in s.tasks && s.tasks[t].Looking? && s.history != []
    ensures SameObligations(s, ApplyLookUp(s, t, now))
  {
    hide LruStore.Get;
  }

  lemma PublishSameObligations(w: World, s: Sys, t: nat, now: int)
    requires t in s.tasks && s.tasks[t].Publishing?
    ensures SameObligations(s, ApplyPublish(w, s, t, now))
  {
    hide LruStore.Set;
  }

  lemma CloseSameObligations(s: Sys, t: nat, failed: bool)
    requires t in s.tasks && s.tasks[t].Streaming?
    ensures SameObligations(s, ApplyCloseStream(s, t, failed))
  {
    hide ResultStreams.Published;
  }

  lemma QueryStepSameObligations(w: World, s: Sys, a: QueryStep)
    requires s.history != [] && QueryEnabled(w, s, a)
    ensures SameObligations(s, ApplyQuery(w, s, a))
  {
    hide LegalReply, ResultStreams.Take, ApplyLookUp, ApplyPublish, ApplyCloseStream;
    match a
    case LookUp(t, now) => LookUpSameObligations(s, t, now);
    case PublishResult(t, now) => PublishSameObligations(w, s, t, now);
    case CloseStream(t, failed) => CloseSameObligations(s, t, failed);
    case _ =>
  }

  lemma QueryStepOwes(w: World, s: Sys, a: QueryStep, lost: iset<Branch>)
    requires Owing(s, lost) && s.history != [] && QueryEnabled(w, s, a)
    ensures Owing(ApplyQuery(w, s, a), lost)
  {
    QueryStepSameObligations(w, s, a);
    hide Owing, SameObligations, QueryEnabled, ApplyQuery;
    SameObligationsKept(s, ApplyQuery(w, s, a), lost);
  }

  /** The step loses no branch but those given up as lost. */
  ghost predicate LosesOnly(s: Sys, a: Action, lost: iset<Branch>) {
    a.Calling? && a.call.EndPreparing? ==> forall b :: b !in lost ==> !LosesBranch(s, a.call.c, b)
  }

  lemma CallStepOwes(w: World, s: Sys, a: CallStep, lost: iset<Branch>)
    requires Owing(s, lost) && CallEnabled(s, a) && LosesOnly(s, Calling(a), lost)
    ensures Owing(ApplyCall(w, s, a), lost)
  {
    hide Owing, ConnectionOk, BranchOk, ResolverOk;
    hide ApplyStartMutation, ApplyEndMutation, ApplyBegin, ApplySourceSettles, ApplyEndSettling;
    hide ApplySourcePrepares, ApplyEndPreparing, ApplySourceFinishes, LosesBranch;
    match a
    case OpenConnection(c) => OpenOwes(s, c, lost);
    case StartMutation(c, e, touched) => StartMutationOwes(s, c, e, touched, lost);
    case EndMutation(c) => EndMutationOwes(w, s, c, lost);
    case BeginTransaction(c) => BeginOwes(s, c, lost);
    case SourceSettles(c, answer) => SourceSettlesOwes(s, c, answer, lost);
    case SourceFinishes(c, b, ok, state) => SourceFinishesOwes(s, c, b, ok, state, lost);
    case EndSettling(c) => EndSettlingOwes(w, s, c, lost);
    case SourcePrepares(c, b) => SourcePreparesOwes(s, c, b, lost);
    case EndPreparing(c) => EndPreparingOwes(s, c, lost);
  }

  lemma OtherStepOwes(w: World, s: Sys, a: OtherStep, lost: iset<Branch>)
    requires Owing(s, lost) && OtherEnabled(s, a)
    ensures Owing(ApplyOther(w, s, a), lost)
  {
    hide Owing, ConnectionOk, BranchOk, ResolverOk;
    hide ApplyTakeEffect, ApplyController, ApplySourceResolves, ApplyPop, ApplyDischarge;
    match a
    case TakeEffect(o, changed, next) => TakeEffectOwes(s, o, changed, next, lost);
    case ControllerInvalidates(owed) => ControllerOwes(w, s, owed, lost);
    case SourceResolves(k, b, r, final) => SourceResolvesOwes(s, k, b, r, final, lost);
    case PopRecord(k) => PopOwes(s, k, lost);
    case DischargeRecord(k) => DischargeOwes(w, s, k, lost);
    case Forget(b) => ForgetOwes(s, b, lost);
  }

  /** Every step keeps every write owed, but for those of branches that it loses. */
  lemma StepOwes(w: World, s: Sys, a: Action, lost: iset<Branch>)
    requires Owing(s, lost) && s.history != [] && Enabled(w, s, a) && LosesOnly(s, a, lost)
    ensures Owing(Apply(w, s, a), lost)
  {
    hide Owing, QueryEnabled, CallEnabled, OtherEnabled, ApplyQuery, ApplyCall, ApplyOther, LosesOnly;
    match a
    case Querying(step) => QueryStepOwes(w, s, step, lost);
    case Calling(call) => CallStepOwes(w, s, call, lost);
    case Other(other) => OtherStepOwes(w, s, other, lost);
  }
}
