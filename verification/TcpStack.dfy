/** The TCP stack as an object: opening, accepting, closing and reaping sockets in place. */
module TcpStacks {
  import opened Common
  import opened Sockets
  import opened SocketTables

  /** What vClose returns for a normal socket in a state. */
  function CloseResult(s: TcpState): Option<SocketError> {
    match s
    case SYN_SENT => None
    case SYN_RECEIVED => None
    case ESTABLISHED => None
    case CLOSE_WAIT => None
    case CLOSED => Some(CONN_NOT_EXIST)
    case _ => Some(SocketError.CLOSING)
  }

  /** vClose succeeds exactly when it moves the socket; it fails on a connection that is gone, or already closing. */
  lemma CloseSucceeds(s: TcpState)
    ensures CloseResult(s) == None <==> CloseState(s) != s
    ensures CloseResult(s) == Some(CONN_NOT_EXIST) <==> s == CLOSED
    ensures CloseResult(s) == Some(SocketError.CLOSING) <==> s != CLOSED && CloseState(s) == s
    ensures CloseResult(CloseState(s)) != None
  {}

  /** A socket is erased from the table and, by its own session or port, from the maps. */
  function Purged(st: Stack, id: Id): Stack
    requires id in st.table
  {
    match st.table[id]
    case Normal(session, _, _) => Stack(st.table - {id}, st.sessions - {session}, st.ports, st.free + {id})
    case Listen(port, _, _, _) => Stack(st.table - {id}, st.sessions, st.ports - {port}, st.free + {id})
  }

  lemma PurgeNormal(st: Stack, gone: set<Id>, id: Id)
    requires MapsExact(st) && id in st.table && st.table[id].Normal?
    ensures var st', st2 := Without(st, gone), Without(st, gone + {id});
      st2.sessions == st'.sessions - {st.table[id].session} && st2.ports == st'.ports
  {
    assert st.sessions[st.table[id].session] == id;
  }

  lemma PurgeListen(st: Stack, gone: set<Id>, id: Id)
    requires MapsExact(st) && id in st.table && st.table[id].Listen?
    ensures var st', st2 := Without(st, gone), Without(st, gone + {id});
      st2.ports == st'.ports - {st.table[id].port} && st2.sessions == st'.sessions
  {
    assert st.ports[st.table[id].port] == id;
  }

  /** As the maps are exact, that is the stack without the socket. */
  lemma PurgeOne(st: Stack, gone: set<Id>, id: Id)
    requires MapsExact(st) && id in st.table && id !in gone
    ensures Without(st, gone + {id}) == Purged(Without(st, gone), id)
  {
    assert Without(st, gone + {id}).table == Without(st, gone).table - {id};
    if st.table[id].Normal? {
      PurgeNormal(st, gone, id);
    } else {
      PurgeListen(st, gone, id);
    }
    hide MapsExact;
  }

  lemma ReapNone(st: Stack, expired: set<Id>)
    ensures Without(st, GoneBelow(st.table, expired, 0)) == st
  {}

  /** One stop of the reaper's walk through the table. */
  lemma ReapOne(st: Stack, expired: set<Id>, id: Id)
    requires MapsExact(st)
    ensures var seen := Without(st, GoneBelow(st.table, expired, id));
      Without(st, GoneBelow(st.table, expired, id + 1))
      == if id in seen.table && Reapable(seen.table[id], id in expired) then Purged(seen, id) else seen
  {
    var gone, next := GoneBelow(st.table, expired, id), GoneBelow(st.table, expired, id + 1);
    if id in st.table && Reapable(st.table[id], id in expired) {
      assert next == gone + {id};
      PurgeOne(st, gone, id);
    } else {
      assert next == gone;
    }
  }

  /** What the last acknowledgment of a handshake does, as the list of the listener names the socket. */
  lemma EstablishedFromList(st: Stack, id: Id)
    requires StackInv(st) && StackPossible(st, LastHandshakeAck(id))
    ensures var l := st.table[id].listener;
      l in st.table && l != id && st.table[l].Listen? && Pending(st.table[id].session, id) in st.table[l].pending
    ensures var l, s := st.table[id].listener, st.table[id].session;
      (forall x :: x in st.table[l].pending && x.session == s ==> x.id == id)
      && StackStep(st, LastHandshakeAck(id)) == st.(table :=
           st.table[id := Normal(s, ESTABLISHED, l)]
                   [l := Listen(st.table[l].port, st.table[l].open, Removed(st.table[l].pending, s), st.table[l].accepting + [id])])
  {
    assert ReceivedPending(st.table, id);
    assert PendingExact(st.table, st.table[id].listener);
  }

  /** Where the socket of a session is pending, it is the entry that is taken off. */
  lemma {:induction false} RemovedAt(p: seq<Pending>, s: Session, k: nat)
    requires k <= |p| && forall i :: 0 <= i < k ==> p[i].session != s
    requires k < |p| ==> p[k].session == s
    ensures Removed(p, s) == if k < |p| then p[..k] + p[k + 1..] else p
  {
    if k == 0 {
      if p != [] { assert p[..0] + p[1..] == p[1..]; }
    } else {
      RemovedAt(p[1..], s, k - 1);
      if k < |p| {
        assert [p[0]] + (p[1..][..k - 1] + p[1..][k..]) == p[..k] + p[k + 1..];
      } else {
        assert [p[0]] + p[1..] == p;
      }
    }
  }

  /** A set of IDs from 1 to 128 that is not empty has a smallest one. */
  lemma SomeFree(st: Stack)
    requires IdsPartitioned(st)
    ensures CanAllocate(st) <==> st.free != {}
  {}

  /** What a SYN does to the table when there is an ID for a new socket. */
  lemma SynTakesId(st: Stack, session: Session, l: Id)
    requires StackInv(st) && StackPossible(st, GetSyn(session, l)) && CanAllocate(st)
    ensures var st' := NewNormal(st, session);
      session in st'.sessions && st'.sessions[session] in st'.table && st'.table[st'.sessions[session]].Normal?
      && l in st'.table && l in st.table && st.table[l].Listen? && st'.table[l] == st.table[l]
      && StackStep(st, GetSyn(session, l))
         == if |st.table[l].pending| < MAX_PENDING_SOCKS then st'.(table := Joined(st'.table, l, st'.sessions[session])) else st'
  {}

  class TcpStack {
    var table: map<Id, Socket>
    var sessions: map<Session, Id>
    var ports: map<nat, Id>
    var free: set<Id>

    ghost function State(): Stack
      reads this
    {
      Stack(table, sessions, ports, free)
    }

    ghost predicate Valid()
      reads this
    {
      StackInv(State())
    }

    constructor ()
      ensures Valid() && State() == InitialStack()
    {
      InitialStackInv();
      table, sessions, ports := map[], map[], map[];
      free := set i: Id | 1 <= i <= MAX_SOCKET_FD && IsId(i);
    }

    method NextSocketId() returns (id: Id)
      requires Valid() && CanAllocate(State())
      modifies this`free
      ensures id == Smallest(old(free), 1) && free == old(free) - {id}
    {
      id := 1;
      while id !in free
        invariant 1 <= id <= Smallest(free, 1)
        decreases Smallest(free, 1) - id
      {
        id := id + 1;
      }
      free := free - {id};
    }

    method Listen(port: nat) returns (r: Result<Id, SocketError>)
      requires Valid()
      modifies this
      ensures Valid() && State() == StackStep(old(State()), OpenListen(port))
      ensures port in old(ports) ==> r == Failure(DUPLICATE_SOCKET)
      ensures port !in old(ports) ==> if old(free) == {} then r == Failure(NO_RESOURCES) else r == Success(ports[port])
    {
      StackStepKeeps(State(), OpenListen(port));
      SomeFree(State());
      if port in ports {
        return Failure(DUPLICATE_SOCKET);
      }
      if free == {} {
        return Failure(NO_RESOURCES);
      }
      var id := NextSocketId();
      table := table[id := Socket.Listen(port, true, [], [])];
      ports := ports[port := id];
      return Success(id);
    }

    method CreateNormalSocket(session: Session) returns (r: Result<Id, SocketError>)
      requires Valid()
      modifies this
      ensures session in old(sessions) ==> r == Failure(DUPLICATE_SOCKET) && State() == old(State())
      ensures session !in old(sessions) && old(free) == {} ==> r == Failure(NO_RESOURCES) && State() == old(State())
      ensures session !in old(sessions) && old(free) != {} ==>
        CanAllocate(old(State())) && State() == NewNormal(old(State()), session) && r == Success(sessions[session])
      ensures Valid()
    {
      SomeFree(State());
      if session in sessions {
        return Failure(DUPLICATE_SOCKET);
      }
      if free == {} {
        return Failure(NO_RESOURCES);
      }
      NewNormalKeeps(State(), session);
      var id := NextSocketId();
      table := table[id := Normal(session, CLOSED, 0)];
      sessions := sessions[session := id];
      return Success(id);
    }

    /** vConnect up to the wait for the SYN-ACK. */
    method Connect(session: Session) returns (r: Result<Id, SocketError>)
      requires Valid()
      modifies this
      ensures Valid() && State() == StackStep(old(State()), OpenActive(session))
      ensures r.Success? <==> session !in old(sessions) && old(free) != {}
      ensures r.Success? ==> r == Success(sessions[session])
    {
      SomeFree(State());
      StackStepKeeps(State(), OpenActive(session));
      r := CreateNormalSocket(session);
      if r.Success? {
        table := WithState(table, r.value, SYN_SENT);
      }
    }

    method AddPending(l: Id, session: Session, id: Id) returns (ok: bool)
      requires l in table && table[l].Listen?
      modifies this`table
      ensures ok == (|old(table)[l].pending| < MAX_PENDING_SOCKS)
      ensures table == if ok then old(table)[l := old(table)[l].(pending := old(table)[l].pending + [Pending(session, id)])]
                       else old(table)
    {
      ok := |table[l].pending| < MAX_PENDING_SOCKS;
      if ok {
        table := table[l := table[l].(pending := table[l].pending + [Pending(session, id)])];
      }
    }

    /** A new socket becomes pending, if there is room for it. */
    method Pend(l: Id, id: Id) returns (ok: bool)
      requires l in table && table[l].Listen? && id in table && table[id].Normal?
      modifies this`table
      ensures ok == (|old(table)[l].pending| < MAX_PENDING_SOCKS)
      ensures table == if ok then Joined(old(table), l, id) else old(table)
    {
      var session := table[id].session;
      ok := AddPending(l, session, id);
      if ok {
        table := table[id := Normal(session, SYN_RECEIVED, l)];
      }
    }

    /** A SYN for a listener. When its list is full the new socket stays behind, closed. */
    method CreatePassiveConnection(session: Session, l: Id) returns (r: Result<Id, SocketError>)
      requires Valid() && StackPossible(State(), GetSyn(session, l))
      modifies this
      ensures Valid() && State() == StackStep(old(State()), GetSyn(session, l))
      ensures r.Success? <==> old(free) != {} && |old(table)[l].pending| < MAX_PENDING_SOCKS
      ensures r == if r.Success? then Success(sessions[session]) else Failure(NO_RESOURCES)
    {
      SomeFree(State());
      StackStepKeeps(State(), GetSyn(session, l));
      if CanAllocate(State()) {
        SynTakesId(State(), session, l);
      }
      assert old(table)[l].Listen?;
      hide StackInv, StackPossible, StackStep, Joined, NewNormal, CanAllocate;
      r := CreateNormalSocket(session);
      if r.Success? {
        var ok := Pend(l, r.value);
        if !ok {
          r := Failure(NO_RESOURCES);
        }
      }
    }

    /** The first entry for the session is found and erased. */
    method RemovePending(l: Id, session: Session) returns (found: Option<Id>)
      requires l in table && table[l].Listen?
      modifies this`table
      ensures table == old(table)[l := old(table)[l].(pending := Removed(old(table)[l].pending, session))]
      ensures found.Some? <==> exists i :: 0 <= i < |old(table)[l].pending| && old(table)[l].pending[i].session == session
      ensures found.Some? ==> Pending(session, found.value) in old(table)[l].pending
    {
      var socks := table[l].pending;
      var k := 0;
      while k < |socks| && socks[k].session != session
        invariant k <= |socks| && forall i :: 0 <= i < k ==> socks[i].session != session
      {
        k := k + 1;
      }
      RemovedAt(socks, session, k);
      if k == |socks| {
        found := None;
        assert table == table[l := table[l].(pending := socks)];
      } else {
        found := Some(socks[k].id);
        table := table[l := table[l].(pending := socks[..k] + socks[k + 1..])];
      }
    }

    /** A pending socket is established, and joins the accept queue of its listener. */
    method MoveToAccepted(id: Id, l: Id) returns (found: Option<Id>)
      requires id in table && table[id].Normal? && l in table && table[l].Listen?
      modifies this`table
      ensures table == old(table)[id := old(table)[id].(state := ESTABLISHED)]
                                 [l := Socket.Listen(old(table)[l].port, old(table)[l].open,
                                                     Removed(old(table)[l].pending, old(table)[id].session),
                                                     old(table)[l].accepting + [id])]
      ensures found.Some? <==> exists i :: 0 <= i < |old(table)[l].pending| && old(table)[l].pending[i].session == old(table)[id].session
      ensures found.Some? ==> Pending(old(table)[id].session, found.value) in old(table)[l].pending
    {
      hide Removed;
      var session := table[id].session;
      table := table[id := table[id].(state := ESTABLISHED)];
      found := RemovePending(l, session);
      table := table[l := table[l].(accepting := table[l].accepting + [id])];
    }

    /** The last acknowledgment of a handshake: the socket moves from the pending list to the accept queue, and
        it was on the list, as the source asserts. */
    method Establish(id: Id) returns (found: Option<Id>)
      requires Valid() && StackPossible(State(), LastHandshakeAck(id))
      modifies this`table
      ensures Valid() && State() == StackStep(old(State()), LastHandshakeAck(id))
      ensures found == Some(id)
    {
      EstablishedFromList(State(), id);
      StackStepKeeps(State(), LastHandshakeAck(id));
      ghost var next := StackStep(State(), LastHandshakeAck(id));
      var l := table[id].listener;
      hide StackStep, StackInv, StackPossible, Removed;
      found := MoveToAccepted(id, l);
      assert State() == next;
    }

    method Accept(l: Id) returns (id: Id)
      requires Valid() && StackPossible(State(), StackEvent.Accept(l))
      modifies this`table
      ensures Valid() && State() == StackStep(old(State()), StackEvent.Accept(l))
      ensures id == old(table)[l].accepting[0]
    {
      StackStepKeeps(State(), StackEvent.Accept(l));
      var queue := table[l].accepting;
      id := queue[0];
      table := table[l := table[l].(accepting := queue[1..])];
    }

    /** vClose of a normal socket. */
    method CloseNormal(id: Id) returns (error: Option<SocketError>)
      requires id in table && table[id].Normal?
      modifies this`table
      ensures table == Moved(old(table), id, CloseState(old(table)[id].state))
      ensures error == CloseResult(old(table)[id].state)
    {
      var x := table[id];
      error := None;
      match x.state
      case SYN_SENT =>
        table := WithState(table, id, TcpState.CLOSED);
      case SYN_RECEIVED =>
        RemoveFromListener(id);
        table := WithState(table, id, FIN_WAIT_1);
      case ESTABLISHED =>
        table := WithState(table, id, FIN_WAIT_1);
      case CLOSE_WAIT =>
        table := WithState(table, id, LAST_ACK);
      case CLOSED =>
        error := Some(CONN_NOT_EXIST);
        assert table == WithState(table, id, x.state);
      case _ =>
        error := Some(SocketError.CLOSING);
        assert table == WithState(table, id, x.state);
    }

    method RemoveFromListener(id: Id)
      requires id in table && table[id].Normal?
      modifies this`table
      ensures table == Unpended(old(table), id)
    {
      var l := table[id].listener;
      if l in table && table[l].Listen? {
        var _ := RemovePending(l, table[id].session);
      }
    }

    /** vClose of a listener: its pending sockets are closed in order, then those that wait to be accepted. */
    method CloseListener(id: Id) returns (error: Option<SocketError>)
      requires Valid() && id in table && table[id].Listen?
      modifies this`table
      ensures Valid() && State() == ListenClosed(old(State()), id)
      ensures error == if old(table)[id].open then None else Some(CONN_NOT_EXIST)
    {
      ListenClosedKeeps(State(), id);
      var x := table[id];
      if !x.open {
        return Some(CONN_NOT_EXIST);
      }
      table := table[id := x.(pending := [])];
      var pending := PendingIds(x.pending);
      CloseAll(pending, x.accepting);
      CloseAll(x.accepting, []);
      assert x.accepting + [] == x.accepting;
      table := table[id := Socket.Listen(x.port, false, [], [])];
      error := None;
    }

    /** Closes a list of sockets; `rest` is what the caller closes after it. */
    method CloseAll(ids: seq<Id>, ghost rest: seq<Id>)
      modifies this`table
      ensures CloseEach(old(table), ids + rest) == CloseEach(table, rest)
    {
      var i := 0;
      while i < |ids|
        invariant i <= |ids|
        invariant CloseEach(table, ids[i..] + rest) == CloseEach(old(table), ids + rest)
      {
        assert (ids[i..] + rest)[1..] == ids[i + 1..] + rest;
        if ids[i] in table && table[ids[i]].Normal? {
          var _ := CloseNormal(ids[i]);
        }
        i := i + 1;
      }
      assert ids[i..] + rest == rest;
    }

    method Close(id: Id) returns (error: Option<SocketError>)
      requires Valid()
      modifies this`table
      ensures Valid()
      ensures State() == if id in old(table) then StackStep(old(State()), CloseSocket(id)) else old(State())
      ensures error == if id !in old(table) then Some(CONN_NOT_EXIST)
                       else if old(table)[id].Normal? then CloseResult(old(table)[id].state)
                       else if old(table)[id].open then None else Some(CONN_NOT_EXIST)
    {
      if id !in table {
        return Some(CONN_NOT_EXIST);
      }
      StackStepKeeps(State(), CloseSocket(id));
      if table[id].Normal? {
        error := CloseNormal(id);
      } else {
        error := CloseListener(id);
      }
    }

    method Abort(id: Id) returns (error: Option<SocketError>)
      requires Valid()
      modifies this`table
      ensures Valid()
      ensures State() == if id in old(table) then StackStep(old(State()), AbortSocket(id)) else old(State())
      ensures error == if id !in old(table) || (old(table)[id].Normal? && old(table)[id].state == TcpState.CLOSED)
                         || (old(table)[id].Listen? && !old(table)[id].open)
                       then Some(CONN_NOT_EXIST) else None
    {
      if id !in table {
        return Some(CONN_NOT_EXIST);
      }
      hide StackInv, ListenClosed, Moved, Reaped, NewListen, NewNormal, Joined, Queued;
      StackStepKeeps(State(), AbortSocket(id));
      if table[id].Listen? {
        error := CloseListener(id);
      } else {
        error := AbortNormal(id);
      }
    }

    /** vAbort of a normal socket. */
    method AbortNormal(id: Id) returns (error: Option<SocketError>)
      requires id in table && table[id].Normal?
      modifies this`table
      ensures table == Moved(old(table), id, TcpState.CLOSED)
      ensures error == if old(table)[id].state == TcpState.CLOSED then Some(CONN_NOT_EXIST) else None
    {
      if table[id].state == TcpState.CLOSED {
        assert table == WithState(table, id, TcpState.CLOSED);
        return Some(CONN_NOT_EXIST);
      }
      if table[id].state == SYN_RECEIVED {
        RemoveFromListener(id);
      }
      table := WithState(table, id, TcpState.CLOSED);
      error := None;
    }

    /** The reaper walks the table in the order of IDs and purges what is closed on the way. */
    method PurgeClosed(expired: set<Id>)
      requires MapsExact(State())
      modifies this
      ensures State() == Reaped(old(State()), expired)
    {
      ghost var st := State();
      ReapNone(st, expired);
      hide Without, GoneBelow, MapsExact;
      var id := 0;
      while id <= MAX_SOCKET_FD
        invariant id <= MAX_SOCKET_FD + 1
        invariant State() == Without(st, GoneBelow(st.table, expired, id))
      {
        ReapOne(st, expired, id);
        if id in table && Reapable(table[id], id in expired) {
          if table[id].Normal? {
            sessions := sessions - {table[id].session};
          } else {
            ports := ports - {table[id].port};
          }
          table, free := table - {id}, free + {id};
        }
        id := id + 1;
      }
    }

    /** One period of the reaper. */
    method Reap(expired: set<Id>)
      requires Valid()
      modifies this
      ensures Valid() && State() == StackStep(old(State()), StackEvent.Reap(expired))
    {
      StackStepKeeps(State(), StackEvent.Reap(expired));
      assert MapsExact(State());
      hide StackInv, MapsExact, Reaped;
      PurgeClosed(expired);
    }
  }
}
