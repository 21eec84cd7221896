/**
  The pool of shared driver sessions, the per-connection session cache, and the registry of connections:
  what each of their locked regions does. The classes run the regions in place.
 */
module SessionPool {
  import opened Options

  /** The identity of a driver session. */
  type Session = int

  /** The identity of a pool entry; entries outlive their place in the pool while a call still waits on them. */
  type EntryId = int

  /** A namespace's data source. */
  type Namespace = string

  datatype Entry =
    | Creating(ns: Namespace)
    | Failed(ns: Namespace)
    | Ready(ns: Namespace, session: Session, references: nat)

  datatype Pool = Pool(entries: map<EntryId, Entry>, current: map<Namespace, EntryId>)

  const EMPTY_POOL := Pool(map[], map[])

  predicate WellFormed(p: Pool) {
    forall ns :: ns in p.current ==>
      p.current[ns] in p.entries && p.entries[p.current[ns]].ns == ns && !p.entries[p.current[ns]].Failed?
  }

  // ---------- The pool's locked regions ----------

  datatype Entered = Shared(session: Session) | MustWait(entry: EntryId) | MustCreate(entry: EntryId)

  /** One more reference to a ready entry. */
  function Referenced(p: Pool, e: EntryId): Pool
    requires e in p.entries && p.entries[e].Ready?
  {
    p.(entries := p.entries[e := p.entries[e].(references := p.entries[e].references + 1)])
  }

  /** The top of the acquire loop; `added` is the identity of an entry it may have to add. */
  function Enter(p: Pool, ns: Namespace, added: EntryId): (Entered, Pool)
    requires WellFormed(p)
  {
    if ns in p.current then
      var e := p.current[ns];
      if p.entries[e].Ready? then (Shared(p.entries[e].session), Referenced(p, e))
      else (MustWait(e), p)
    else (MustCreate(added), Pool(p.entries[added := Creating(ns)], p.current[ns := added]))
  }

  /** The creating call returns to the pool with a session, or with none. */
  function Finish(p: Pool, ns: Namespace, e: EntryId, made: Option<Session>): Pool {
    match made
    case None => Pool(p.entries[e := Failed(ns)], p.current - {ns})
    case Some(s) => p.(entries := p.entries[e := Ready(ns, s, 1)])
  }

  datatype Woken = CreationFailed | TryAgain | Joined(session: Session)

  /** A waiting call looks at its entry again. */
  function Recheck(p: Pool, ns: Namespace, e: EntryId): (Woken, Pool)
    requires e in p.entries && !p.entries[e].Creating?
  {
    if p.entries[e].Failed? then (CreationFailed, p)
    else if ns !in p.current || p.current[ns] != e then (TryAgain, p)
    else (Joined(p.entries[e].session), Referenced(p, e))
  }

  /** Gives a reference back; the result says whether the caller must close the session. */
  function Release(p: Pool, ns: Namespace, s: Session): (bool, Pool)
    requires WellFormed(p)
  {
    if ns !in p.current then (false, p)
    else
      var e := p.current[ns];
      var entry := p.entries[e];
      if !entry.Ready? || entry.session != s || entry.references == 0 then (false, p)
      else
        var entries := p.entries[e := entry.(references := entry.references - 1)];
        if entry.references > 1 then (false, p.(entries := entries))
        else (true, Pool(entries, p.current - {ns}))
  }

  /** The pool, updated in place. */
  class Provider {
    var entries: map<EntryId, Entry>
    var sessions: map<Namespace, EntryId>

    ghost function View(): Pool
      reads this
    {
      Pool(entries, sessions)
    }

    ghost predicate Valid()
      reads this
    {
      WellFormed(View())
    }

    constructor ()
      ensures Valid() && View() == EMPTY_POOL
    {
      entries, sessions := map[], map[];
    }

    method EnterAcquire(ns: Namespace, added: EntryId) returns (r: Entered)
      requires Valid() && added !in entries
      modifies this
      ensures Valid() && (r, View()) == Enter(old(View()), ns, added)
    {
      if ns in sessions {
        var e := sessions[ns];
        if entries[e].Ready? {
          entries := entries[e := entries[e].(references := entries[e].references + 1)];
          return Shared(entries[e].session);
        }
        return MustWait(e);
      }
      entries := entries[added := Creating(ns)];
      sessions := sessions[ns := added];
      return MustCreate(added);
    }

    method FinishCreate(ns: Namespace, e: EntryId, made: Option<Session>)
      requires Valid() && ns in sessions && sessions[ns] == e
      modifies this
      ensures Valid() && View() == Finish(old(View()), ns, e, made)
    {
      if made.None? {
        entries := entries[e := Failed(ns)];
        sessions := sessions - {ns};
        return;
      }
      entries := entries[e := Ready(ns, made.value, 1)];
    }

    method RecheckEntry(ns: Namespace, e: EntryId) returns (r: Woken)
      requires Valid() && e in entries && !entries[e].Creating?
      modifies this
      ensures Valid() && (r, View()) == Recheck(old(View()), ns, e)
    {
      if entries[e].Failed? {
        return CreationFailed;
      }
      if ns !in sessions || sessions[ns] != e {
        return TryAgain;
      }
      entries := entries[e := entries[e].(references := entries[e].references + 1)];
      return Joined(entries[e].session);
    }

    method ReleaseSession(ns: Namespace, s: Session) returns (close: bool)
      requires Valid()
      modifies this
      ensures Valid() && (close, View()) == Release(old(View()), ns, s)
    {
      if ns !in sessions {
        return false;
      }
      var e := sessions[ns];
      if !entries[e].Ready? || entries[e].session != s || entries[e].references == 0 {
        return false;
      }
      entries := entries[e := entries[e].(references := entries[e].references - 1)];
      if entries[e].references > 0 {
        return false;
      }
      sessions := sessions - {ns};
      return true;
    }
  }

  // ---------- A connection's own cache ----------

  datatype Checked = Refused | Cached(session: Session) | Absent

  datatype Kept = ClosedMeanwhile | Superseded(existing: Session) | Stored

  class Connection {
    var sessions: map<Namespace, Session>
    var closed: bool

    constructor ()
      ensures sessions == map[] && !closed
    {
      sessions, closed := map[], false;
    }

    /** The first look, under the shared lock. */
    method Check(ns: Namespace) returns (r: Checked)
      ensures r == if closed then Refused else if ns in sessions then Cached(sessions[ns]) else Absent
    {
      if closed {
        return Refused;
      }
      if ns in sessions {
        return Cached(sessions[ns]);
      }
      return Absent;
    }

    /** The second look, under the exclusive lock, with an acquired session in hand. */
    method Keep(ns: Namespace, session: Session) returns (r: Kept)
      modifies this
      ensures r == if closed then ClosedMeanwhile
                   else if ns in old(sessions) then Superseded(old(sessions)[ns]) else Stored
      ensures closed == old(closed)
      ensures sessions == if r.Stored? then old(sessions)[ns := session] else old(sessions)
    {
      if closed {
        return ClosedMeanwhile;
      }
      if ns in sessions {
        return Superseded(sessions[ns]);
      }
      sessions := sessions[ns := session];
      return Stored;
    }

    /** Hands the cached sessions to the closing call, once. */
    method Close() returns (handed: map<Namespace, Session>)
      modifies this
      ensures closed && handed == if old(closed) then map[] else old(sessions)
      ensures sessions == if old(closed) then old(sessions) else map[]
    {
      if closed {
        return map[];
      }
      closed := true;
      handed := sessions;
      sessions := map[];
    }
  }

  // ---------- The registry of connections ----------

  /** What the registry keeps of a connection: whether it refuses new operations. */
  class ManagedConnection {
    const connection: Connection
    var closed: bool

    constructor (connection: Connection)
      ensures this.connection == connection && !closed
    {
      this.connection, closed := connection, false;
    }

    /** Under the exclusive lock: closes the connection once, and hands over its sessions. */
    method Close() returns (handed: map<Namespace, Session>)
      modifies this, connection
      ensures closed
      ensures old(closed) ==> handed == map[] && connection.closed == old(connection.closed)
                              && connection.sessions == old(connection.sessions)
      ensures !old(closed) ==> connection.closed
      ensures !old(closed) ==> handed == if old(connection.closed) then map[] else old(connection.sessions)
    {
      if closed {
        return map[];
      }
      closed := true;
      handed := connection.Close();
    }
  }

  class ConnectionRegistry {
    var connections: map<string, ManagedConnection>

    constructor ()
      ensures connections == map[]
    {
      connections := map[];
    }

    /** Refused when the identifier is taken; the caller then tries another one. */
    method Add(id: string, managed: ManagedConnection) returns (added: bool)
      modifies this
      ensures added <==> id !in old(connections)
      ensures connections == if added then old(connections)[id := managed] else old(connections)
    {
      if id in connections {
        return false;
      }
      connections := connections[id := managed];
      return true;
    }

    /** The lookup of an operation; whether the connection refuses it is seen under the connection's own lock. */
    method Find(id: string) returns (managed: Option<ManagedConnection>)
      ensures managed == if id in connections then Some(connections[id]) else None
    {
      return if id in connections then Some(connections[id]) else None;
    }

    /** Takes the connection out first, so that no new operation finds it. */
    method Remove(id: string) returns (managed: Option<ManagedConnection>)
      modifies this
      ensures managed == if id in old(connections) then Some(old(connections)[id]) else None
      ensures connections == old(connections) - {id}
    {
      managed := if id in connections then Some(connections[id]) else None;
      connections := connections - {id};
    }

    method RemoveAll() returns (all: set<ManagedConnection>)
      modifies this
      ensures all == old(connections).Values && connections == map[]
    {
      all := connections.Values;
      connections := map[];
    }
  }
}
