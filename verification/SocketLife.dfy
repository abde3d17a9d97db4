/** What closing, reaping and accepting mean for the sockets of a table, and over a run. */
module SocketLife {
  import opened Sockets
  import opened SocketTables

  // ----- Closing -----

  /** A connection that was open is closed with a FIN; one that was waiting for its SYN-ACK is closed at once. */
  lemma CloseAgrees(s: TcpState)
    ensures CloseState(s) == if Closable(s) then AfterClose(s) else if s == SYN_SENT then CLOSED else s
  {}

  /** Closing twice is closing once. */
  lemma {:induction false} CloseEachStates(t: map<Id, Socket>, ids: seq<Id>, i: Id)
    requires i in t
    ensures t[i].Normal? ==> CloseEach(t, ids)[i] == if i in ids then t[i].(state := CloseState(t[i].state)) else t[i]
    ensures t[i].Listen? ==> var x := CloseEach(t, ids)[i];
      x.Listen? && x.port == t[i].port && x.open == t[i].open && x.accepting == t[i].accepting
  {
    if ids != [] {
      var id := ids[0];
      CloseEachStates(if id in t && t[id].Normal? then Moved(t, id, CloseState(t[id].state)) else t, ids[1..], i);
      assert i in ids <==> i == id || i in ids[1..];
    }
  }

  /** Closing a listener sends a FIN on each connection it had pending or queued, and touches no other. */
  lemma ListenerCloses(st: Stack, l: Id, i: Id)
    requires StackInv(st) && l in st.table && st.table[l].Listen? && st.table[l].open
    requires i in st.table && st.table[i].Normal?
    ensures var x, x' := st.table[i], ListenClosed(st, l).table[i];
      && x'.Normal? && x' == x.(state := x'.state)
      && (x.state == SYN_RECEIVED && x.listener == l ==> x'.state == FIN_WAIT_1)
      && (i in st.table[l].accepting ==>
            x'.state == if Closable(x.state) then AfterClose(x.state) else if x.state == SYN_SENT then CLOSED else x.state)
      && (i !in st.table[l].accepting && !(x.state == SYN_RECEIVED && x.listener == l) ==> x' == x)
  {
    var x := st.table[l];
    var p := PendingIds(x.pending);
    hide CloseEach, MapsExact, IdsPartitioned;
    CloseEachStates(st.table[l := x.(pending := [])], p + x.accepting, i);
    CloseAgrees(st.table[i].state);
    PendingIdsAre(st.table, l, i);
  }

  lemma PendingIdsAre(t: map<Id, Socket>, l: Id, i: Id)
    requires ListsExact(t) && l in t && t[l].Listen? && i in t && t[i].Normal?
    ensures i in PendingIds(t[l].pending) <==> t[i].state == SYN_RECEIVED && t[i].listener == l
  {
    var p := t[l].pending;
    assert PendingExact(t, l);
    if i in PendingIds(p) {
      var k :| 0 <= k < |p| && PendingIds(p)[k] == i;
      assert p[k].id == i;
    }
    if t[i].state == SYN_RECEIVED && t[i].listener == l {
      assert ReceivedPending(t, i);
      var k :| 0 <= k < |p| && p[k] == Pending(t[i].session, i);
      assert PendingIds(p)[k] == i;
    }
  }

  /** The listener itself is left closed and empty; any other keeps its queue, and its pending sockets but for
      those that the closing listener had queued. */
  lemma OthersKeepTheirs(st: Stack, l: Id, m: Id, p: Pending)
    requires StackInv(st) && l in st.table && st.table[l].Listen? && st.table[l].open
    requires m in st.table && st.table[m].Listen?
    ensures var x, x' := st.table[m], ListenClosed(st, l).table[m];
      && x'.Listen? && x'.port == x.port
      && (m == l ==> !x'.open && x'.pending == [] && x'.accepting == [])
      && (m != l ==> x'.open == x.open && x'.accepting == x.accepting
                     && (p in x'.pending <==> p in x.pending && p.id !in st.table[l].accepting))
  {
    var x := st.table[l];
    var t' := ListenClosed(st, l).table;
    ListenClosedKeeps(st, l);
    assert t'.Keys == st.table.Keys;
    if m != l {
      ClosedListShape(st, l, m);
      PendingMembers(st.table, m, p);
      hide ListsExactBut, CloseEach, ListenClosed;
      assert ListsExact(t');
      PendingMembers(t', m, p);
      if p.id in st.table && st.table[p.id].Normal? {
        ListenerCloses(st, l, p.id);
      } else if p.id in st.table {
        ClosedListShape(st, l, p.id);
      }
    }
  }

  lemma ClosedListShape(st: Stack, l: Id, m: Id)
    requires l in st.table && st.table[l].Listen? && st.table[l].open && m in st.table && st.table[m].Listen?
    ensures var x, x' := st.table[m], ListenClosed(st, l).table[m];
      x'.Listen? && x'.port == x.port && (m != l ==> x'.open == x.open && x'.accepting == x.accepting)
  {
    var x := st.table[l];
    CloseEachStates(st.table[l := x.(pending := [])], PendingIds(x.pending) + x.accepting, m);
  }

  /** A listener has pending exactly the sockets in SYN_RECEIVED that name it. */
  lemma PendingMembers(t: map<Id, Socket>, m: Id, p: Pending)
    requires ListsExact(t) && m in t && t[m].Listen?
    ensures p in t[m].pending <==> p.id in t && t[p.id] == Normal(p.session, SYN_RECEIVED, m)
  {
    assert PendingExact(t, m);
    if p.id in t && t[p.id] == Normal(p.session, SYN_RECEIVED, m) {
      assert ReceivedPending(t, p.id);
    }
  }

  // ----- Reaping -----

  /** The reaper takes what is CLOSED, what is in TIME_WAIT and expired, and the closed listeners; it frees their IDs,
      sessions and ports, and leaves everything else as it is. */
  lemma ReaperTakes(st: Stack, expired: set<Id>, i: Id)
    requires StackInv(st) && i in st.table
    ensures var x, st' := st.table[i], Reaped(st, expired);
      var taken := if x.Listen? then !x.open else x.state == CLOSED || (x.state == TIME_WAIT && i in expired);
      && (i in st'.table <==> !taken) && (i in st'.free <==> taken) && (!taken ==> st'.table[i] == x)
      && (if x.Normal? then x.session in st'.sessions <==> !taken else x.port in st'.ports <==> !taken)
  {
    assert IsId(i);
    hide ListsExactBut;
    var gone := GoneBelow(st.table, expired, MAX_SOCKET_FD + 1);
    assert i in gone <==> Reapable(st.table[i], i in expired);
  }

  // ----- Opening again -----

  /** A free ID can be had. */
  lemma FreeMeansAllocate(st: Stack, i: Id)
    requires IdsPartitioned(st) && i in st.free
    ensures CanAllocate(st)
  {
    assert IsId(i);
  }

  /** The port of a closed listener is taken until the reaper has come, and can be listened on again then. */
  lemma PortIsFreed(st: Stack, l: Id, expired: set<Id>)
    requires StackInv(st) && l in st.table && st.table[l].Listen?
    ensures StackPossible(st, CloseSocket(l))
    ensures var port, st1 := st.table[l].port, StackStep(st, CloseSocket(l));
      var st2 := StackStep(st1, Reap(expired));
      var st3 := StackStep(st2, OpenListen(port));
      && StackStep(st1, OpenListen(port)) == st1
      && port in st3.ports && st3.ports[port] in st3.table && st3.table[st3.ports[port]] == Listen(port, true, [], [])
  {
    hide *;
    ClosedListener(st, l);
    StackStepKeeps(st, CloseSocket(l));
    var st1 := StackStep(st, CloseSocket(l));
    ReaperFrees(st1, l, expired);
    NothingToOpen(st1, OpenListen(st.table[l].port));
    ListensAgain(StackStep(st1, Reap(expired)), st.table[l].port);
  }

  lemma ListensAgain(st: Stack, port: nat)
    requires CanAllocate(st) && port !in st.ports
    ensures StackPossible(st, OpenListen(port))
    ensures var st' := StackStep(st, OpenListen(port));
      port in st'.ports && st'.ports[port] in st'.table && st'.table[st'.ports[port]] == Listen(port, true, [], [])
  {}

  lemma ClosedListener(st: Stack, l: Id)
    requires StackInv(st) && l in st.table && st.table[l].Listen?
    ensures StackPossible(st, CloseSocket(l))
    ensures var st', port := StackStep(st, CloseSocket(l)), st.table[l].port;
      port in st'.ports && l in st'.table && st'.table[l].Listen? && st'.table[l].port == port && Reapable(st'.table[l], false)
  {
    hide ListsExactBut, CloseEach;
  }

  /** A taken port or session cannot be opened. */
  lemma NothingToOpen(st: Stack, e: StackEvent)
    requires (e.OpenListen? && e.port in st.ports) || (e.OpenActive? && e.session in st.sessions)
    ensures StackPossible(st, e) && StackStep(st, e) == st
  {}

  /** The same for the session of a connection that is aborted. */
  lemma SessionIsFreed(st: Stack, id: Id, expired: set<Id>)
    requires StackInv(st) && id in st.table && st.table[id].Normal?
    ensures StackPossible(st, AbortSocket(id))
    ensures var session, st1 := st.table[id].session, StackStep(st, AbortSocket(id));
      var st2 := StackStep(st1, Reap(expired));
      var st3 := StackStep(st2, OpenActive(session));
      && StackStep(st1, OpenActive(session)) == st1
      && session in st3.sessions && st3.sessions[session] in st3.table
      && st3.table[st3.sessions[session]] == Normal(session, SYN_SENT, 0)
  {
    hide *;
    AbortedSocket(st, id);
    StackStepKeeps(st, AbortSocket(id));
    var st1 := StackStep(st, AbortSocket(id));
    ReaperFrees(st1, id, expired);
    NothingToOpen(st1, OpenActive(st.table[id].session));
    OpensInSynSent(StackStep(st1, Reap(expired)), st.table[id].session);
  }

  lemma AbortedSocket(st: Stack, id: Id)
    requires StackInv(st) && id in st.table && st.table[id].Normal?
    ensures StackPossible(st, AbortSocket(id))
    ensures var st', session := StackStep(st, AbortSocket(id)), st.table[id].session;
      session in st'.sessions && id in st'.table
      && st'.table[id].Normal? && st'.table[id].session == session && Reapable(st'.table[id], false)
  {
    hide ListsExactBut, OffList;
  }

  /** After the reaper took a socket there is a free ID, and its session or port is free. */
  lemma ReaperFrees(st: Stack, i: Id, expired: set<Id>)
    requires StackInv(st) && i in st.table && Reapable(st.table[i], false)
    ensures StackPossible(st, Reap(expired))
    ensures var st' := StackStep(st, Reap(expired));
      CanAllocate(st') && if st.table[i].Normal? then st.table[i].session !in st'.sessions else st.table[i].port !in st'.ports
  {
    hide ListsExactBut, MapsExact, IdsPartitioned, Reaped, GoneBelow;
    ReapedKeeps(st, expired);
    ReaperTakes(st, expired, i);
    FreeMeansAllocate(Reaped(st, expired), i);
  }

  /** A SYN for an open listener gets a socket of its own, last on the pending list if there is room there; a socket that
      finds no room stays behind, closed. */
  lemma SynBecomesPending(st: Stack, session: Session, l: Id)
    requires IdsPartitioned(st) && StackPossible(st, GetSyn(session, l))
    ensures var st' := StackStep(st, GetSyn(session, l));
      if CanAllocate(st) then
        && session in st'.sessions && st'.sessions[session] in st.free && st'.sessions[session] !in st'.free
        && var id, p := st'.sessions[session], st.table[l].pending;
           var room := |p| < 64;
           st'.table == st.table[l := st.table[l].(pending := if room then p + [Pending(session, id)] else p)]
                                [id := if room then Normal(session, SYN_RECEIVED, l) else Normal(session, CLOSED, 0)]
      else st' == st
  {
    if CanAllocate(st) {
      assert Smallest(st.free, 1) !in st.table && l in st.table;
    }
  }

  lemma OpensInSynSent(st: Stack, session: Session)
    requires CanAllocate(st) && session !in st.sessions
    ensures StackPossible(st, OpenActive(session))
    ensures var st' := StackStep(st, OpenActive(session));
      session in st'.sessions && st'.sessions[session] in st'.table
      && st'.table[st'.sessions[session]] == Normal(session, SYN_SENT, 0)
  {}

  // ----- Accepting -----

  /** The sockets that finish their handshake at a listener during a run, in order. */
  ghost function Finished(st: Stack, es: seq<StackEvent>, l: Id): seq<Id>
    requires StackRun(st, es)
    decreases es
  {
    if es == [] then []
    else
      (if es[0].LastHandshakeAck? && st.table[es[0].id].listener == l then [es[0].id] else [])
      + Finished(StackStep(st, es[0]), es[1..], l)
  }

  /** What `vAccept` returns during a run, in order. */
  ghost function Accepted(st: Stack, es: seq<StackEvent>, l: Id): seq<Id>
    requires StackRun(st, es)
    decreases es
  {
    if es == [] then []
    else
      (if es[0] == Accept(l) then [st.table[l].accepting[0]] else [])
      + Accepted(StackStep(st, es[0]), es[1..], l)
  }

  ghost predicate OpenListener(st: Stack, l: Id) { l in st.table && st.table[l].Listen? && st.table[l].open }

  /** One event at an open listener that it does not close. */
  lemma QueueStep(st: Stack, e: StackEvent, l: Id)
    requires StackInv(st) && StackPossible(st, e) && OpenListener(st, l) && e != CloseSocket(l) && e != AbortSocket(l)
    ensures OpenListener(StackStep(st, e), l)
    ensures (if e == Accept(l) then [st.table[l].accepting[0]] else []) + StackStep(st, e).table[l].accepting
      == st.table[l].accepting + if e.LastHandshakeAck? && st.table[e.id].listener == l then [e.id] else []
  {
    if e.LastHandshakeAck? {
      AckQueues(st, e.id, l);
    } else if e.Reap? {
      ReaperTakes(st, e.expired, l);
    } else if e == Accept(l) {
      hide StackInv;
    } else {
      QueueStays(st, e, l);
    }
  }

  lemma AckQueues(st: Stack, id: Id, l: Id)
    requires StackPossible(st, LastHandshakeAck(id)) && OpenListener(st, l)
    ensures OpenListener(StackStep(st, LastHandshakeAck(id)), l)
    ensures StackStep(st, LastHandshakeAck(id)).table[l].accepting
      == st.table[l].accepting + if st.table[id].listener == l then [id] else []
  {}

  lemma QueueStays(st: Stack, e: StackEvent, l: Id)
    requires StackInv(st) && StackPossible(st, e) && OpenListener(st, l) && e != CloseSocket(l) && e != AbortSocket(l)
    requires !e.LastHandshakeAck? && !e.Reap? && e != Accept(l)
    ensures OpenListener(StackStep(st, e), l) && StackStep(st, e).table[l].accepting == st.table[l].accepting
  {
    if (e.CloseSocket? || e.AbortSocket?) && st.table[e.id].Listen? {
      OthersQueue(st, e.id, l);
    } else {
      assert IdsPartitioned(st) && l !in st.free;
      hide StackInv, IdsPartitioned, ListenClosed, OffList, NewListen, NewNormal, Joined;
      match e
      case Wake(id) => MovedKeepsQueue(st.table, id, ESTABLISHED, l);
      case CloseSocket(id) => MovedKeepsQueue(st.table, id, CloseState(st.table[id].state), l);
      case AbortSocket(id) => MovedKeepsQueue(st.table, id, CLOSED, l);
      case Protocol(id, s) => MovedKeepsQueue(st.table, id, s, l);
      case _ => NewKeepsQueue(st, e, l);
    }
  }

  lemma MovedKeepsQueue(t: map<Id, Socket>, id: Id, s: TcpState, l: Id)
    requires id in t && t[id].Normal? && l in t && t[l].Listen?
    ensures Moved(t, id, s)[l].Listen? && Moved(t, id, s)[l].open == t[l].open && Moved(t, id, s)[l].accepting == t[l].accepting
  {}

  lemma NewKeepsQueue(st: Stack, e: StackEvent, l: Id)
    requires StackPossible(st, e) && OpenListener(st, l) && l !in st.free && (e.OpenListen? || e.OpenActive? || e.GetSyn? || e.Accept?)
    requires e != Accept(l)
    ensures OpenListener(StackStep(st, e), l) && StackStep(st, e).table[l].accepting == st.table[l].accepting
  {}

  lemma OthersQueue(st: Stack, id: Id, l: Id)
    requires id in st.table && st.table[id].Listen? && OpenListener(st, l) && id != l
    ensures OpenListener(ListenClosed(st, id), l) && ListenClosed(st, id).table[l].accepting == st.table[l].accepting
  {
    if st.table[id].open { ClosedListShape(st, id, l); }
  }

  /** First come, first served: as long as a listener is open, what it has returned to its callers and what waits in
      its queue are together what waited at the start and what finished a handshake since, in that order. */
  lemma {:induction false} AcceptedInOrder(st: Stack, es: seq<StackEvent>, l: Id)
    requires StackInv(st) && StackRun(st, es) && OpenListener(st, l)
    requires CloseSocket(l) !in es && AbortSocket(l) !in es
    ensures OpenListener(AfterStackRun(st, es), l)
    ensures Accepted(st, es, l) + AfterStackRun(st, es).table[l].accepting == st.table[l].accepting + Finished(st, es, l)
    decreases es
  {
    if es != [] {
      hide StackInv, StackStep, StackPossible, OpenListener;
      StackStepKeeps(st, es[0]);
      QueueStep(st, es[0], l);
      var st' := StackStep(st, es[0]);
      AcceptedInOrder(st', es[1..], l);
      TakenAndAdded(if es[0] == Accept(l) then [st.table[l].accepting[0]] else [], Accepted(st', es[1..], l),
              AfterStackRun(st', es[1..]).table[l].accepting, st'.table[l].accepting, st.table[l].accepting,
              if es[0].LastHandshakeAck? && st.table[es[0].id].listener == l then [es[0].id] else [], Finished(st', es[1..], l));
    }
  }

  /** What one step and the rest of the run take and add, together. */
  lemma TakenAndAdded(a: seq<Id>, b: seq<Id>, last: seq<Id>, mid: seq<Id>, first: seq<Id>, x: seq<Id>, y: seq<Id>)
    requires a + mid == first + x && b + last == mid + y
    ensures (a + b) + last == first + (x + y)
  {
    assert (a + b) + last == a + (mid + y) == (a + mid) + y == (first + x) + y == first + (x + y);
  }
}
