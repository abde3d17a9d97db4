/** The socket table: IDs, the session and port maps, and the pending and accept lists of listeners. */
module SocketTables {
  import opened Common
  import opened Sockets

  const MAX_SOCKET_FD: nat := 128
  const MAX_PENDING_SOCKS: nat := 64

  type Id = nat

  /** Local and remote address and port. */
  datatype Session = Session(localAddr: u32, localPort: nat, remoteAddr: u32, remotePort: nat)

  datatype Pending = Pending(session: Session, id: Id)

  /** `listener` matters in SYN_RECEIVED only: the listener that created the socket. */
  datatype Socket =
    | Normal(session: Session, state: TcpState, listener: Id)
    | Listen(port: nat, open: bool, pending: seq<Pending>, accepting: seq<Id>)

  datatype Stack = Stack(table: map<Id, Socket>, sessions: map<Session, Id>, ports: map<nat, Id>, free: set<Id>)

  // ----- Specification -----

  predicate IsId(i: Id) { 1 <= i <= MAX_SOCKET_FD }

  /** The first free ID from `from` on; the free set is ordered. */
  function Smallest(free: set<Id>, from: Id): (r: Id)
    requires exists i: Id | from <= i <= MAX_SOCKET_FD :: i in free
    ensures r in free && from <= r <= MAX_SOCKET_FD
    ensures forall i :: i in free && from <= i ==> r <= i
    decreases MAX_SOCKET_FD + 1 - from
  {
    if from in free then from else Smallest(free, from + 1)
  }

  /** The list without its first entry for the session. */
  function Removed(p: seq<Pending>, s: Session): seq<Pending> {
    if p == [] then [] else if p[0].session == s then p[1..] else [p[0]] + Removed(p[1..], s)
  }

  /** Where vClose takes a normal socket. */
  function CloseState(s: TcpState): TcpState {
    match s
    case SYN_SENT => CLOSED
    case SYN_RECEIVED => FIN_WAIT_1
    case ESTABLISHED => FIN_WAIT_1
    case CLOSE_WAIT => LAST_ACK
    case _ => s
  }

  function WithState(t: map<Id, Socket>, id: Id, s: TcpState): map<Id, Socket>
    requires id in t && t[id].Normal?
  {
    t[id := t[id].(state := s)]
  }

  /** Takes a socket off its listener's pending list. */
  function Unpended(t: map<Id, Socket>, id: Id): (r: map<Id, Socket>)
    requires id in t && t[id].Normal?
    ensures r.Keys == t.Keys && r[id] == t[id]
  {
    var l := t[id].listener;
    if l in t && t[l].Listen? then t[l := t[l].(pending := Removed(t[l].pending, t[id].session))] else t
  }

  /** Only a socket in SYN_RECEIVED is on a pending list. */
  function OffList(t: map<Id, Socket>, id: Id): (r: map<Id, Socket>)
    requires id in t && t[id].Normal?
    ensures r.Keys == t.Keys && r[id] == t[id]
  {
    if t[id].state == SYN_RECEIVED then Unpended(t, id) else t
  }

  /** A normal socket goes to another state, off its listener's list if it was on one. */
  function Moved(t: map<Id, Socket>, id: Id, s: TcpState): (r: map<Id, Socket>)
    requires id in t && t[id].Normal?
    ensures r.Keys == t.Keys
  {
    WithState(OffList(t, id), id, s)
  }

  /** vClose on each socket of a list, in order; one that is no longer in the table is passed over. */
  function CloseEach(t: map<Id, Socket>, ids: seq<Id>): (r: map<Id, Socket>)
    ensures r.Keys == t.Keys
  {
    if ids == [] then t
    else
      var id := ids[0];
      CloseEach(if id in t && t[id].Normal? then Moved(t, id, CloseState(t[id].state)) else t, ids[1..])
  }

  function PendingIds(p: seq<Pending>): seq<Id> { seq(|p|, i requires 0 <= i < |p| => p[i].id) }

  function Reapable(x: Socket, expired: bool): bool {
    match x
    case Normal(_, s, _) => s == CLOSED || (s == TIME_WAIT && expired)
    case Listen(_, open, _, _) => !open
  }

  /** The stack after some of its sockets are purged. */
  function Without(st: Stack, gone: set<Id>): Stack {
    Stack(map i | i in st.table && i !in gone :: st.table[i],
          map s | s in st.sessions && st.sessions[s] !in gone :: st.sessions[s],
          map p | p in st.ports && st.ports[p] !in gone :: st.ports[p],
          st.free + gone)
  }

  /** The sockets below an ID that the reaper takes: `expired` says whose TIME_WAIT is over. */
  function GoneBelow(t: map<Id, Socket>, expired: set<Id>, n: nat): set<Id> {
    set i | i in t && i < n && Reapable(t[i], i in expired)
  }

  function Reaped(st: Stack, expired: set<Id>): Stack {
    Without(st, GoneBelow(st.table, expired, MAX_SOCKET_FD + 1))
  }

  /** One call or event, atomic. */
  datatype StackEvent =
    | OpenListen(port: nat)
    | OpenActive(session: Session)
    | GetSyn(session: Session, listener: Id)
    | LastHandshakeAck(id: Id)
    | Wake(id: Id)
    | Accept(listener: Id)
    | CloseSocket(id: Id)
    | AbortSocket(id: Id)
    | Protocol(id: Id, state: TcpState)
    | Reap(expired: set<Id>)

  ghost predicate CanAllocate(st: Stack) { exists i: Id | 1 <= i <= MAX_SOCKET_FD :: i in st.free }

  function NewListen(st: Stack, port: nat): Stack
    requires CanAllocate(st)
  {
    var id := Smallest(st.free, 1);
    Stack(st.table[id := Listen(port, true, [], [])], st.sessions, st.ports[port := id], st.free - {id})
  }

  function NewNormal(st: Stack, session: Session): Stack
    requires CanAllocate(st)
  {
    var id := Smallest(st.free, 1);
    Stack(st.table[id := Normal(session, CLOSED, 0)], st.sessions[session := id], st.ports, st.free - {id})
  }

  ghost predicate StackPossible(st: Stack, e: StackEvent) {
    match e
    case OpenListen(_) => true
    case OpenActive(_) => true
    case GetSyn(session, l) => session !in st.sessions && l in st.table && st.table[l].Listen? && st.table[l].open
    case LastHandshakeAck(id) => id in st.table && st.table[id].Normal? && st.table[id].state == SYN_RECEIVED
    case Wake(id) => id in st.table && st.table[id].Normal? && st.table[id].state == SYN_SENT
    case Accept(l) => l in st.table && st.table[l].Listen? && st.table[l].accepting != []
    case CloseSocket(id) => id in st.table
    case AbortSocket(id) => id in st.table
    case Protocol(id, s) =>
      && id in st.table && st.table[id].Normal?
      && st.table[id].state !in {CLOSED, SYN_SENT, SYN_RECEIVED} && s !in {SYN_SENT, SYN_RECEIVED}
    case Reap(_) => true
  }

  /** vClose on a listener: what is pending is closed, then what waits to be accepted. */
  function ListenClosed(st: Stack, id: Id): Stack
    requires id in st.table && st.table[id].Listen?
  {
    var x := st.table[id];
    if !x.open then st
    else
      var t := CloseEach(st.table[id := x.(pending := [])], PendingIds(x.pending) + x.accepting);
      st.(table := t[id := Listen(x.port, false, [], [])])
  }

  // ----- The invariant -----

  /** Free and live IDs partition 1..128. */
  ghost predicate IdsPartitioned(st: Stack) {
    forall i: Id :: (i in st.free <==> IsId(i) && i !in st.table) && (i in st.table ==> IsId(i))
  }

  /** The session map is a bijection with the normal sockets, the port map with the listeners. */
  ghost predicate MapsExact(st: Stack) {
    && (forall s :: s in st.sessions ==> st.sessions[s] in st.table && st.table[st.sessions[s]].Normal?
                                         && st.table[st.sessions[s]].session == s)
    && (forall i :: i in st.table && st.table[i].Normal? ==>
          st.table[i].session in st.sessions && st.sessions[st.table[i].session] == i)
    && (forall p :: p in st.ports ==> st.ports[p] in st.table && st.table[st.ports[p]].Listen? && st.table[st.ports[p]].port == p)
    && (forall i :: i in st.table && st.table[i].Listen? ==> st.table[i].port in st.ports && st.ports[st.table[i].port] == i)
  }

  /** What a listener's pending list holds: each socket it waits for, once. */
  ghost predicate PendingExact(t: map<Id, Socket>, l: Id)
    requires l in t && t[l].Listen?
  {
    var p := t[l].pending;
    && |p| <= MAX_PENDING_SOCKS && (!t[l].open ==> p == [])
    && (forall i :: 0 <= i < |p| ==> p[i].id in t && t[p[i].id] == Normal(p[i].session, SYN_RECEIVED, l))
    && (forall i, j :: 0 <= i < j < |p| ==> p[i].session != p[j].session && p[i].id != p[j].id)
  }

  /** A socket in SYN_RECEIVED is in the pending list of its live, open listener. */
  ghost predicate ReceivedPending(t: map<Id, Socket>, id: Id)
    requires id in t && t[id].Normal? && t[id].state == SYN_RECEIVED
  {
    var l := t[id].listener;
    l in t && t[l].Listen? && t[l].open && Pending(t[id].session, id) in t[l].pending
  }

  /** Its listener, closing, has already emptied the list. */
  ghost predicate Delisted(t: map<Id, Socket>, id: Id)
    requires id in t && t[id].Normal?
  {
    var l := t[id].listener;
    l in t && t[l].Listen? ==> t[l].pending == []
  }

  /** The pending lists hold exactly the sockets in SYN_RECEIVED, but for some that are about to be closed. */
  ghost predicate ListsExactBut(t: map<Id, Socket>, rest: set<Id>) {
    && (forall l :: l in t && t[l].Listen? ==> PendingExact(t, l))
    && (forall id :: id in t && t[id].Normal? && t[id].state == SYN_RECEIVED ==>
                       if id in rest then Delisted(t, id) else ReceivedPending(t, id))
  }

  ghost predicate ListsExact(t: map<Id, Socket>) { ListsExactBut(t, {}) }

  ghost predicate StackInv(st: Stack) {
    IdsPartitioned(st) && MapsExact(st) && ListsExact(st.table)
  }

  // ----- The steps -----

  ghost function StackStep(st: Stack, e: StackEvent): Stack
    requires StackPossible(st, e)
  {
    match e
    case OpenListen(port) =>
      if port in st.ports || !CanAllocate(st) then st else NewListen(st, port)
    case OpenActive(session) =>
      if session in st.sessions || !CanAllocate(st) then st
      else
        var st' := NewNormal(st, session);
        st'.(table := Moved(st'.table, st'.sessions[session], SYN_SENT))
    case GetSyn(session, l) =>
      if !CanAllocate(st) then st
      else
        var st' := NewNormal(st, session);
        if |st.table[l].pending| >= MAX_PENDING_SOCKS then st'
        else st'.(table := Joined(st'.table, l, st'.sessions[session]))
    case LastHandshakeAck(id) =>
      st.(table := Queued(Moved(st.table, id, ESTABLISHED), st.table[id].listener, id))
    case Wake(id) => st.(table := Moved(st.table, id, ESTABLISHED))
    case Accept(l) => st.(table := st.table[l := st.table[l].(accepting := st.table[l].accepting[1..])])
    case CloseSocket(id) =>
      if st.table[id].Listen? then ListenClosed(st, id)
      else st.(table := Moved(st.table, id, CloseState(st.table[id].state)))
    case AbortSocket(id) =>
      if st.table[id].Listen? then ListenClosed(st, id)
      else st.(table := Moved(st.table, id, CLOSED))
    case Protocol(id, s) => st.(table := Moved(st.table, id, s))
    case Reap(expired) => Reaped(st, expired)
  }

  /** The new socket joins the listener's pending list. */
  function Joined(t: map<Id, Socket>, l: Id, id: Id): map<Id, Socket> {
    if l in t && t[l].Listen? && id in t && t[id].Normal? then
      var s := t[id].session;
      t[l := t[l].(pending := t[l].pending + [Pending(s, id)])][id := Normal(s, SYN_RECEIVED, l)]
    else t
  }

  /** The socket waits to be accepted at the listener. */
  function Queued(t: map<Id, Socket>, l: Id, id: Id): map<Id, Socket> {
    if l in t && t[l].Listen? then t[l := t[l].(accepting := t[l].accepting + [id])] else t
  }

  /** The stack starts with every ID free. */
  function InitialStack(): Stack {
    Stack(map[], map[], map[], set i: Id | 1 <= i <= MAX_SOCKET_FD && IsId(i))
  }

  lemma InitialStackInv()
    ensures StackInv(InitialStack())
  {}

  // ----- Every step keeps the invariant -----

  lemma {:induction false} RemovedMembers(p: seq<Pending>, s: Session, x: Pending)
    requires forall i, j :: 0 <= i < j < |p| ==> p[i].session != p[j].session
    ensures x in Removed(p, s) <==> x in p && x.session != s
  {
    if p != [] {
      RemovedMembers(p[1..], s, x);
      if p[0].session == s && x in p && x.session == s {
        assert x == p[0];
      }
    }
  }

  lemma {:induction false} RemovedDistinct(p: seq<Pending>, s: Session)
    requires forall i, j :: 0 <= i < j < |p| ==> p[i].session != p[j].session && p[i].id != p[j].id
    ensures |Removed(p, s)| <= |p|
    ensures var r := Removed(p, s); forall i, j :: 0 <= i < j < |r| ==> r[i].session != r[j].session && r[i].id != r[j].id
  {
    if p != [] {
      RemovedDistinct(p[1..], s);
      var r := Removed(p[1..], s);
      forall i | 0 <= i < |r| ensures r[i] in p[1..] {
        RemovedMembers(p[1..], s, r[i]);
      }
    }
  }

  /** The listener's list after one of its sockets left SYN_RECEIVED. */
  lemma ListAfterLeaving(t: map<Id, Socket>, id: Id, s: TcpState)
    requires id in t && t[id].Normal? && t[id].state == SYN_RECEIVED && s != SYN_RECEIVED
    requires t[id].listener in t && t[t[id].listener].Listen? && PendingExact(t, t[id].listener) && ReceivedPending(t, id)
    ensures var l := t[id].listener; PendingExact(Moved(t, id, s), l)
    ensures var l := t[id].listener; forall x :: x in Moved(t, id, s)[l].pending <==> x in t[l].pending && x.id != id
  {
    var l := t[id].listener;
    var p, t' := t[l].pending, Moved(t, id, s);
    RemovedDistinct(p, t[id].session);
    forall x ensures x in t'[l].pending <==> x in p && x.id != id {
      RemovedMembers(p, t[id].session, x);
    }
  }

  /** A normal socket leaves SYN_RECEIVED, or changes state outside it: the lists stay exact. */
  lemma LeavesList(t: map<Id, Socket>, rest: set<Id>, id: Id, s: TcpState)
    requires ListsExactBut(t, rest) && id in t && t[id].Normal? && s != SYN_RECEIVED
    ensures ListsExactBut(Moved(t, id, s), rest - {id})
  {
    var t' := Moved(t, id, s);
    if t[id].state == SYN_RECEIVED && id !in rest {
      ListAfterLeaving(t, id, s);
    }
    forall l | l in t' && t'[l].Listen? ensures PendingExact(t', l) {
      assert PendingExact(t, l);
    }
    forall i | i in t' && t'[i].Normal? && t'[i].state == SYN_RECEIVED
      ensures if i in rest - {id} then Delisted(t', i) else ReceivedPending(t', i)
    {
      assert if i in rest then Delisted(t, i) else ReceivedPending(t, i);
    }
  }

  /** Changing what a listener has to accept does not touch the pending lists. */
  lemma AcceptListIsSeparate(t: map<Id, Socket>, l: Id, q: seq<Id>)
    requires ListsExact(t) && l in t && t[l].Listen?
    ensures ListsExact(t[l := t[l].(accepting := q)])
  {}

  /** A fresh socket outside SYN_RECEIVED, or a fresh listener, joins. */
  lemma FreshJoins(t: map<Id, Socket>, id: Id, x: Socket)
    requires ListsExact(t) && id !in t
    requires if x.Normal? then x.state != SYN_RECEIVED else x.pending == []
    ensures ListsExact(t[id := x])
  {}

  lemma NewListenKeeps(st: Stack, port: nat)
    requires StackInv(st) && CanAllocate(st) && port !in st.ports
    ensures StackInv(NewListen(st, port))
  {
    FreshJoins(st.table, Smallest(st.free, 1), Listen(port, true, [], []));
  }

  lemma NewNormalKeeps(st: Stack, session: Session)
    requires StackInv(st) && CanAllocate(st) && session !in st.sessions
    ensures StackInv(NewNormal(st, session))
    ensures var st' := NewNormal(st, session); var id := st'.sessions[session];
      id !in st.table && st'.table == st.table[id := Normal(session, CLOSED, 0)]
  {
    FreshJoins(st.table, Smallest(st.free, 1), Normal(session, CLOSED, 0));
  }

  /** The same sockets, with the same sessions and ports. */
  ghost predicate SameShape(t: map<Id, Socket>, t': map<Id, Socket>) {
    t'.Keys == t.Keys && forall i :: i in t ==>
      && (t'[i].Normal? <==> t[i].Normal?)
      && (if t[i].Normal? then t'[i].session == t[i].session else t'[i].port == t[i].port)
  }

  /** Neither states nor lists matter to the IDs and the maps. */
  lemma StateIsSeparate(st: Stack, t: map<Id, Socket>)
    requires IdsPartitioned(st) && MapsExact(st) && SameShape(st.table, t)
    ensures IdsPartitioned(st.(table := t)) && MapsExact(st.(table := t))
  {}

  /** The listener's list with one more socket. */
  lemma ListAfterJoining(t: map<Id, Socket>, l: Id, id: Id)
    requires l in t && t[l].Listen? && t[l].open && PendingExact(t, l) && |t[l].pending| < MAX_PENDING_SOCKS
    requires id in t && t[id].Normal? && t[id].state == CLOSED
    requires forall i :: i in t && t[i].Normal? && t[i].session == t[id].session ==> i == id
    ensures PendingExact(Joined(t, l, id), l) && ReceivedPending(Joined(t, l, id), id)
  {}

  lemma JoinKeepsLists(t: map<Id, Socket>, l: Id, id: Id)
    requires ListsExact(t) && l in t && t[l].Listen? && t[l].open && |t[l].pending| < MAX_PENDING_SOCKS
    requires id in t && t[id].Normal? && t[id].state == CLOSED
    requires forall i :: i in t && t[i].Normal? && t[i].session == t[id].session ==> i == id
    ensures ListsExact(Joined(t, l, id))
  {
    var t' := Joined(t, l, id);
    assert PendingExact(t, l);
    ListAfterJoining(t, l, id);
    forall k | k in t' && t'[k].Listen? ensures PendingExact(t', k) {
      assert PendingExact(t, k);
    }
    forall i | i in t' && t'[i].Normal? && t'[i].state == SYN_RECEIVED ensures ReceivedPending(t', i) {
      if i != id {
        assert ReceivedPending(t, i);
      }
    }
  }

  lemma SynReceivedKeeps(st: Stack, l: Id, session: Session)
    requires StackInv(st) && l in st.table && st.table[l].Listen? && st.table[l].open && session in st.sessions
    requires st.table[st.sessions[session]].state == CLOSED && |st.table[l].pending| < MAX_PENDING_SOCKS
    ensures StackInv(st.(table := Joined(st.table, l, st.sessions[session])))
  {
    var id := st.sessions[session];
    assert forall i :: i in st.table && st.table[i].Normal? && st.table[i].session == session ==> i == id;
    StateIsSeparate(st, Joined(st.table, l, id));
    hide IdsPartitioned, ListsExactBut;
    JoinKeepsLists(st.table, l, id);
  }

  lemma NormalMoves(st: Stack, id: Id, s: TcpState)
    requires StackInv(st) && id in st.table && st.table[id].Normal? && s != SYN_RECEIVED
    ensures StackInv(st.(table := Moved(st.table, id, s)))
  {
    StateIsSeparate(st, Moved(st.table, id, s));
    hide MapsExact, IdsPartitioned;
    LeavesList(st.table, {}, id, s);
    assert {} - {id} == {};
  }

  lemma AcceptMoves(st: Stack, l: Id, q: seq<Id>)
    requires StackInv(st) && l in st.table && st.table[l].Listen?
    ensures StackInv(st.(table := st.table[l := st.table[l].(accepting := q)]))
  {
    StateIsSeparate(st, st.table[l := st.table[l].(accepting := q)]);
    hide MapsExact, IdsPartitioned;
    AcceptListIsSeparate(st.table, l, q);
  }

  /** The socket found in SYN_RECEIVED is in the pending list of a listener that is still there. */
  lemma LastAckKeeps(st: Stack, id: Id)
    requires StackInv(st) && StackPossible(st, LastHandshakeAck(id))
    ensures StackInv(StackStep(st, LastHandshakeAck(id)))
  {
    assert ReceivedPending(st.table, id);
    var l := st.table[id].listener;
    NormalMoves(st, id, ESTABLISHED);
    var t := Moved(st.table, id, ESTABLISHED);
    AcceptMoves(st.(table := t), l, t[l].accepting + [id]);
  }

  lemma {:induction false} CloseEachShape(t: map<Id, Socket>, ids: seq<Id>)
    ensures SameShape(t, CloseEach(t, ids))
    ensures forall l :: l in t && t[l].Listen? && t[l].pending == [] ==>
      var x := CloseEach(t, ids)[l]; x.Listen? && x.pending == []
  {
    if ids != [] {
      var id := ids[0];
      CloseEachShape(if id in t && t[id].Normal? then Moved(t, id, CloseState(t[id].state)) else t, ids[1..]);
    }
  }

  /** Closing every socket that a closing listener had pending makes the lists exact again. */
  lemma {:induction false} CloseEachKeeps(t: map<Id, Socket>, rest: set<Id>, ids: seq<Id>)
    requires ListsExactBut(t, rest) && forall i :: i in rest ==> i in ids
    ensures ListsExact(CloseEach(t, ids))
  {
    if ids == [] {
      assert rest == {};
    } else {
      var id := ids[0];
      if id in t && t[id].Normal? {
        LeavesList(t, rest, id, CloseState(t[id].state));
        CloseEachKeeps(Moved(t, id, CloseState(t[id].state)), rest - {id}, ids[1..]);
      } else {
        assert ListsExactBut(t, rest - {id});
        CloseEachKeeps(t, rest - {id}, ids[1..]);
      }
    }
  }

  /** A listener empties its pending list: those sockets, and no others, are now missing from it. */
  lemma ListEmptied(t: map<Id, Socket>, l: Id)
    requires ListsExact(t) && l in t && t[l].Listen?
    ensures ListsExactBut(t[l := t[l].(pending := [])], set i | i in PendingIds(t[l].pending))
  {
    var t', p := t[l := t[l].(pending := [])], t[l].pending;
    var rest := set i | i in PendingIds(p);
    forall k | k in t' && t'[k].Listen? ensures PendingExact(t', k) {
      assert PendingExact(t, k);
    }
    forall i | i in t' && t'[i].Normal? && t'[i].state == SYN_RECEIVED
      ensures if i in rest then Delisted(t', i) else ReceivedPending(t', i)
    {
      assert ReceivedPending(t, i) && PendingExact(t, l);
      if t[i].listener == l {
        var k :| 0 <= k < |p| && p[k] == Pending(t[i].session, i);
        assert PendingIds(p)[k] == i;
      }
      if i in rest {
        var k :| 0 <= k < |p| && PendingIds(p)[k] == i;
        assert t[p[k].id] == Normal(p[k].session, SYN_RECEIVED, l);
      }
    }
  }

  /** A listener with nothing pending stops listening. */
  lemma ListenerStops(t: map<Id, Socket>, l: Id)
    requires ListsExact(t) && l in t && t[l].Listen? && t[l].pending == []
    ensures ListsExact(t[l := Listen(t[l].port, false, [], [])])
  {}

  lemma ListenClosedKeeps(st: Stack, l: Id)
    requires StackInv(st) && l in st.table && st.table[l].Listen?
    ensures StackInv(ListenClosed(st, l))
  {
    var x := st.table[l];
    if x.open {
      var ids := PendingIds(x.pending) + x.accepting;
      var t := st.table[l := x.(pending := [])];
      var pending := set i | i in PendingIds(x.pending);
      CloseEachShape(t, ids);
      StateIsSeparate(st, ListenClosed(st, l).table);
      ListEmptied(st.table, l);
      assert forall i :: i in pending ==> i in ids;
      hide IdsPartitioned, MapsExact, ListsExactBut;
      CloseEachKeeps(t, pending, ids);
      ListenerStops(CloseEach(t, ids), l);
    }
  }

  /** What the reaper takes is on no pending list and owns none. */
  lemma ReapedKeeps(st: Stack, expired: set<Id>)
    requires StackInv(st)
    ensures StackInv(Reaped(st, expired))
  {
    var t, t' := st.table, Reaped(st, expired).table;
    forall k | k in t' && t'[k].Listen? ensures PendingExact(t', k) {
      assert PendingExact(t, k);
    }
    forall i | i in t' && t'[i].Normal? && t'[i].state == SYN_RECEIVED ensures ReceivedPending(t', i) {
      assert ReceivedPending(t, i);
    }
  }

  lemma StackStepKeeps(st: Stack, e: StackEvent)
    requires StackInv(st) && StackPossible(st, e)
    ensures StackInv(StackStep(st, e))
  {
    hide StackInv, ListsExactBut, CloseEach, Without;
    match e
    case OpenListen(port) =>
      if port !in st.ports && CanAllocate(st) { NewListenKeeps(st, port); }
    case OpenActive(session) =>
      if session !in st.sessions && CanAllocate(st) {
        NewNormalKeeps(st, session);
        var st' := NewNormal(st, session);
        NormalMoves(st', st'.sessions[session], SYN_SENT);
      }
    case GetSyn(session, l) =>
      if CanAllocate(st) {
        NewNormalKeeps(st, session);
        if |st.table[l].pending| < MAX_PENDING_SOCKS { SynReceivedKeeps(NewNormal(st, session), l, session); }
      }
    case LastHandshakeAck(id) => LastAckKeeps(st, id);
    case Wake(id) => NormalMoves(st, id, ESTABLISHED);
    case Accept(l) => AcceptMoves(st, l, st.table[l].accepting[1..]);
    case CloseSocket(id) =>
      if st.table[id].Listen? { ListenClosedKeeps(st, id); } else { NormalMoves(st, id, CloseState(st.table[id].state)); }
    case AbortSocket(id) =>
      if st.table[id].Listen? { ListenClosedKeeps(st, id); } else { NormalMoves(st, id, CLOSED); }
    case Protocol(id, s) => NormalMoves(st, id, s);
    case Reap(expired) => ReapedKeeps(st, expired);
  }

  // ----- Every run -----

  ghost function AfterStackRun(st: Stack, es: seq<StackEvent>): Stack
    requires StackRun(st, es)
    decreases es
  {
    if es == [] then st else AfterStackRun(StackStep(st, es[0]), es[1..])
  }

  /** Each event is possible when it happens. */
  ghost predicate StackRun(st: Stack, es: seq<StackEvent>)
    decreases es
  {
    es == [] || (StackPossible(st, es[0]) && StackRun(StackStep(st, es[0]), es[1..]))
  }

  lemma {:induction false} StackRunKeeps(st: Stack, es: seq<StackEvent>)
    requires StackInv(st) && StackRun(st, es)
    ensures StackInv(AfterStackRun(st, es))
    decreases es
  {
    if es != [] {
      StackStepKeeps(st, es[0]);
      StackRunKeeps(StackStep(st, es[0]), es[1..]);
    }
  }

  /** The entry at a place of a listener's pending list. */
  ghost predicate PendingAt(t: map<Id, Socket>, l: Id, k: nat, id: Id) {
    l in t && t[l].Listen? && k < |t[l].pending| && t[l].pending[k].id == id
  }

  /** In every run: free and live IDs partition 1..128, the session and port maps are bijections with the live
      sockets, and a socket is in SYN_RECEIVED exactly when a listener has it pending, and then at one place of
      one list, which holds no more than 64. */
  lemma Bookkeeping(es: seq<StackEvent>, id: Id, l: Id, k: nat)
    requires StackRun(InitialStack(), es)
    ensures var st := AfterStackRun(InitialStack(), es);
      && IdsPartitioned(st) && MapsExact(st)
      && (l in st.table && st.table[l].Listen? ==> |st.table[l].pending| <= MAX_PENDING_SOCKS)
      && ((id in st.table && st.table[id].Normal? && st.table[id].state == SYN_RECEIVED)
          <==> exists m: Id, j: nat :: PendingAt(st.table, m, j, id))
      && (PendingAt(st.table, l, k, id) ==> forall m: Id, j: nat :: PendingAt(st.table, m, j, id) ==> m == l && j == k)
  {
    InitialStackInv();
    StackRunKeeps(InitialStack(), es);
    var st := AfterStackRun(InitialStack(), es);
    hide StackRun, AfterStackRun, IdsPartitioned, MapsExact;
    PendingOnce(st.table, id, l, k);
    if l in st.table && st.table[l].Listen? {
      assert PendingExact(st.table, l);
    }
  }

  lemma PendingOnce(t: map<Id, Socket>, id: Id, l: Id, k: nat)
    requires ListsExact(t)
    ensures (id in t && t[id].Normal? && t[id].state == SYN_RECEIVED) <==> exists m: Id, j: nat :: PendingAt(t, m, j, id)
    ensures PendingAt(t, l, k, id) ==> forall m: Id, j: nat :: PendingAt(t, m, j, id) ==> m == l && j == k
  {
    if id in t && t[id].Normal? && t[id].state == SYN_RECEIVED {
      assert ReceivedPending(t, id);
      var m := t[id].listener;
      var j: nat :| j < |t[m].pending| && t[m].pending[j] == Pending(t[id].session, id);
      assert PendingAt(t, m, j, id);
    }
    forall m: Id, j: nat | PendingAt(t, m, j, id)
      ensures id in t && t[id] == Normal(t[m].pending[j].session, SYN_RECEIVED, m)
      ensures forall i: nat :: PendingAt(t, m, i, id) ==> i == j
    {
      assert PendingExact(t, m);
    }
  }

  // ----- The accept queues -----

  /** Whatever waits to be accepted is a normal socket of the table. */
  ghost predicate QueuesLive(t: map<Id, Socket>) {
    forall l, i :: l in t && t[l].Listen? && i in t[l].accepting ==> i in t && t[i].Normal?
  }

  /** A reaping takes no socket that waits at an open listener. */
  ghost predicate Gentle(st: Stack, e: StackEvent) {
    e.Reap? ==>
      forall l, i :: (l in st.table && st.table[l].Listen? && st.table[l].open && i in st.table[l].accepting && i in st.table)
                     ==> !Reapable(st.table[i], i in e.expired)
  }

  /** Closing sockets changes no accept queue. */
  lemma {:induction false} CloseEachQueues(t: map<Id, Socket>, ids: seq<Id>)
    ensures var t' := CloseEach(t, ids);
      forall i :: i in t ==> (t'[i].Normal? <==> t[i].Normal?) && (t[i].Listen? ==> t'[i].accepting == t[i].accepting)
  {
    if ids != [] {
      var id := ids[0];
      CloseEachQueues(if id in t && t[id].Normal? then Moved(t, id, CloseState(t[id].state)) else t, ids[1..]);
    }
  }

  lemma MovedQueues(t: map<Id, Socket>, id: Id, s: TcpState)
    requires QueuesLive(t) && id in t && t[id].Normal?
    ensures QueuesLive(Moved(t, id, s))
  {}

  lemma FreshQueues(t: map<Id, Socket>, id: Id, x: Socket)
    requires QueuesLive(t) && id !in t && (x.Listen? ==> x.accepting == [])
    ensures QueuesLive(t[id := x])
  {}

  lemma JoinedQueues(t: map<Id, Socket>, l: Id, id: Id)
    requires QueuesLive(t)
    ensures QueuesLive(Joined(t, l, id))
  {}

  lemma ClosedQueues(st: Stack, l: Id)
    requires QueuesLive(st.table) && l in st.table && st.table[l].Listen?
    ensures QueuesLive(ListenClosed(st, l).table)
  {
    var x := st.table[l];
    CloseEachQueues(st.table[l := x.(pending := [])], PendingIds(x.pending) + x.accepting);
  }

  lemma EstablishedQueues(st: Stack, id: Id)
    requires StackPossible(st, LastHandshakeAck(id)) && QueuesLive(st.table)
    ensures QueuesLive(StackStep(st, LastHandshakeAck(id)).table)
  {
    MovedQueues(st.table, id, ESTABLISHED);
  }

  lemma AcceptedQueues(st: Stack, l: Id)
    requires StackPossible(st, Accept(l)) && QueuesLive(st.table)
    ensures QueuesLive(StackStep(st, Accept(l)).table)
  {}

  lemma ReapedQueues(st: Stack, expired: set<Id>)
    requires QueuesLive(st.table) && forall i :: i in st.table ==> IsId(i)
    ensures QueuesLive(Reaped(st, expired).table) <==> Gentle(st, Reap(expired))
  {
    var t, t' := st.table, Reaped(st, expired).table;
    assert forall i :: i in t' <==> i in t && !Reapable(t[i], i in expired);
    if !Gentle(st, Reap(expired)) {
      var l, i :| l in t && t[l].Listen? && t[l].open && i in t[l].accepting && i in t && Reapable(t[i], i in expired);
      assert l in t' && t'[l].Listen? && i in t'[l].accepting && i !in t';
    }
  }

  /** Of all events only a reaping can leave a dead reference in a queue, and exactly one that takes a queued socket. */
  lemma QueuesStep(st: Stack, e: StackEvent)
    requires StackInv(st) && StackPossible(st, e) && QueuesLive(st.table)
    ensures QueuesLive(StackStep(st, e).table) <==> Gentle(st, e)
  {
    assert IdsPartitioned(st);
    if e.Reap? {
      ReapedQueues(st, e.expired);
    } else {
      QuietQueues(st, e);
    }
  }

  lemma QuietQueues(st: Stack, e: StackEvent)
    requires IdsPartitioned(st) && StackPossible(st, e) && QueuesLive(st.table) && !e.Reap?
    ensures QueuesLive(StackStep(st, e).table)
  {
    match e
    case OpenListen(port) =>
      if CanAllocate(st) { FreshQueues(st.table, Smallest(st.free, 1), Listen(port, true, [], [])); }
    case OpenActive(session) =>
      if CanAllocate(st) { NewNormalQueues(st, session); }
    case GetSyn(session, l) =>
      if CanAllocate(st) { NewNormalQueues(st, session); }
    case LastHandshakeAck(id) => EstablishedQueues(st, id);
    case Wake(id) => MovedQueues(st.table, id, ESTABLISHED);
    case Accept(l) => AcceptedQueues(st, l);
    case CloseSocket(id) =>
      if st.table[id].Listen? { ClosedQueues(st, id); } else { MovedQueues(st.table, id, CloseState(st.table[id].state)); }
    case AbortSocket(id) =>
      if st.table[id].Listen? { ClosedQueues(st, id); } else { MovedQueues(st.table, id, CLOSED); }
    case Protocol(id, s) => MovedQueues(st.table, id, s);
  }

  lemma NewNormalQueues(st: Stack, session: Session)
    requires IdsPartitioned(st) && CanAllocate(st) && QueuesLive(st.table)
    ensures var st' := NewNormal(st, session);
      && QueuesLive(st'.table) && QueuesLive(Moved(st'.table, st'.sessions[session], SYN_SENT))
      && forall l :: QueuesLive(Joined(st'.table, l, st'.sessions[session]))
  {
    var st', id := NewNormal(st, session), Smallest(st.free, 1);
    FreshQueues(st.table, id, Normal(session, CLOSED, 0));
    MovedQueues(st'.table, id, SYN_SENT);
    forall l ensures QueuesLive(Joined(st'.table, l, id)) {
      JoinedQueues(st'.table, l, id);
    }
  }

  /** Nothing that waits to be accepted is dead in any state of the run. */
  ghost predicate AlwaysLive(st: Stack, es: seq<StackEvent>)
    requires StackRun(st, es)
    decreases es
  {
    QueuesLive(st.table) && (es == [] || AlwaysLive(StackStep(st, es[0]), es[1..]))
  }

  ghost predicate GentleRun(st: Stack, es: seq<StackEvent>)
    requires StackRun(st, es)
    decreases es
  {
    es == [] || (Gentle(st, es[0]) && GentleRun(StackStep(st, es[0]), es[1..]))
  }

  lemma {:induction false} QueuesRun(st: Stack, es: seq<StackEvent>)
    requires StackInv(st) && QueuesLive(st.table) && StackRun(st, es)
    ensures AlwaysLive(st, es) <==> GentleRun(st, es)
    decreases es
  {
    if es != [] {
      hide StackInv, StackStep, StackPossible, Gentle, QueuesLive;
      StackStepKeeps(st, es[0]);
      QueuesStep(st, es[0]);
      if Gentle(st, es[0]) {
        QueuesRun(StackStep(st, es[0]), es[1..]);
      }
    }
  }

  /** A run never leaves a dead reference in an accept queue if and only if no reaping in it takes a socket that
      waits at an open listener. */
  lemma AcceptQueuesIntact(es: seq<StackEvent>)
    requires StackRun(InitialStack(), es)
    ensures AlwaysLive(InitialStack(), es) <==> GentleRun(InitialStack(), es)
  {
    InitialStackInv();
    QueuesRun(InitialStack(), es);
  }

  /** Not every run is gentle: a socket that is aborted and reaped before it is accepted leaves its reference
      behind, so that the queue of an open listener names a socket that is not there. */
  lemma AcceptQueueDangles(st: Stack, l: Id, id: Id, expired: set<Id>)
    requires IdsPartitioned(st) && l in st.table && st.table[l].Listen? && st.table[l].open
    requires id in st.table && st.table[id].Normal? && id in st.table[l].accepting
    ensures StackPossible(st, AbortSocket(id))
    ensures var st' := StackStep(st, AbortSocket(id));
      && StackPossible(st', Reap(expired))
      && var t := StackStep(st', Reap(expired)).table;
      id !in t && l in t && t[l].Listen? && t[l].open && id in t[l].accepting && !QueuesLive(t)
  {
    var t, t' := st.table, Moved(st.table, id, CLOSED);
    assert t'[l].Listen? && t'[l].open && t'[l].accepting == t[l].accepting;
    assert id in GoneBelow(t', expired, MAX_SOCKET_FD + 1) && l !in GoneBelow(t', expired, MAX_SOCKET_FD + 1);
  }

  /** The first listener and the first connection of a stack get the IDs 1 and 2. */
  lemma FirstListener(port: nat)
    ensures var st := StackStep(InitialStack(), OpenListen(port));
      st.table == map[1 := Listen(port, true, [], [])] && st.sessions == map[] && 1 !in st.free && 2 in st.free
  {
    assert 1 in InitialStack().free && Smallest(InitialStack().free, 1) == 1;
  }

  lemma FirstConnection(st: Stack, port: nat, s: Session)
    requires st.table == map[1 := Listen(port, true, [], [])] && st.sessions == map[] && 1 !in st.free && 2 in st.free
    ensures StackPossible(st, GetSyn(s, 1))
    ensures StackStep(st, GetSyn(s, 1)).table == map[1 := Listen(port, true, [Pending(s, 2)], []), 2 := Normal(s, SYN_RECEIVED, 1)]
  {
    assert CanAllocate(st) && Smallest(st.free, 1) == Smallest(st.free, 2) == 2;
    var st' := NewNormal(st, s);
    assert [] + [Pending(s, 2)] == [Pending(s, 2)];
    assert st'.sessions[s] == 2;
  }

  lemma FirstAck(st: Stack, port: nat, s: Session)
    requires st.table == map[1 := Listen(port, true, [Pending(s, 2)], []), 2 := Normal(s, SYN_RECEIVED, 1)]
    ensures StackPossible(st, LastHandshakeAck(2))
    ensures var t := StackStep(st, LastHandshakeAck(2)).table;
      1 in t && t[1].Listen? && t[1].open && 2 in t[1].accepting && 2 in t && t[2].Normal?
  {}

  /** The state of that stack when the connection is established, and how it got there. */
  lemma FirstQueued(port: nat, s: Session) returns (s1: Stack, s2: Stack, s3: Stack)
    ensures s1 == StackStep(InitialStack(), OpenListen(port))
    ensures StackPossible(s1, GetSyn(s, 1)) && s2 == StackStep(s1, GetSyn(s, 1))
    ensures StackPossible(s2, LastHandshakeAck(2)) && s3 == StackStep(s2, LastHandshakeAck(2))
    ensures var t := s3.table; 1 in t && t[1].Listen? && t[1].open && 2 in t[1].accepting && 2 in t && t[2].Normal?
    ensures IdsPartitioned(s3)
  {
    hide StackStep, ListsExactBut, MapsExact;
    InitialStackInv();
    FirstListener(port);
    StackStepKeeps(InitialStack(), OpenListen(port));
    hide IdsPartitioned, InitialStack;
    s1 := StackStep(InitialStack(), OpenListen(port));
    FirstConnection(s1, port, s);
    StackStepKeeps(s1, GetSyn(s, 1));
    s2 := StackStep(s1, GetSyn(s, 1));
    FirstAck(s2, port, s);
    StackStepKeeps(s2, LastHandshakeAck(2));
    s3 := StackStep(s2, LastHandshakeAck(2));
  }

  /** A run of a fresh stack that ends with a dead reference in the queue of its one listener. */
  lemma DanglingRun(port: nat, s: Session, expired: set<Id>)
    ensures var es := [OpenListen(port), GetSyn(s, 1), LastHandshakeAck(2), AbortSocket(2), Reap(expired)];
      StackRun(InitialStack(), es) && !AlwaysLive(InitialStack(), es)
  {
    var es := [OpenListen(port), GetSyn(s, 1), LastHandshakeAck(2), AbortSocket(2), Reap(expired)];
    var s0 := InitialStack();
    assert StackPossible(s0, es[0]);
    hide StackStep, QueuesLive, InitialStack, IdsPartitioned, StackRun, AlwaysLive;
    var s1, s2, s3 := FirstQueued(port, s);
    AcceptQueueDangles(s3, 1, 2, expired);
    hide StackPossible;
    var s4 := StackStep(s3, es[3]);
    var s5 := StackStep(s4, es[4]);
    DeadEnd(s5, []);
    Earlier(s4, s5, [es[4]]);
    Earlier(s3, s4, [es[3], es[4]]);
    Earlier(s2, s3, [es[2], es[3], es[4]]);
    Earlier(s1, s2, [es[1], es[2], es[3], es[4]]);
    Earlier(s0, s1, es);
  }

  lemma DeadEnd(st: Stack, es: seq<StackEvent>)
    requires es == [] && !QueuesLive(st.table)
    ensures StackRun(st, es) && !AlwaysLive(st, es)
  {}

  /** A run that is not always live, with one step more before it. */
  lemma Earlier(st: Stack, st': Stack, es: seq<StackEvent>)
    requires es != [] && StackPossible(st, es[0]) && st' == StackStep(st, es[0])
    requires StackRun(st', es[1..]) && !AlwaysLive(st', es[1..])
    ensures StackRun(st, es) && !AlwaysLive(st, es)
  {}
}
