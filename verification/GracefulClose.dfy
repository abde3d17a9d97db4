/** A connection at rest can be closed: six events take one end to TIME_WAIT and the other to CLOSED. */
module GracefulClose {
  import opened Packets
  import opened SendBuffers
  import opened ByteStream
  import opened Sockets
  import opened Connection

  /** What one end has sent, the other has. */
  ghost predicate Rested(f: Flow) { f.snd.nxt == f.snd.nbw == f.rcv.nxt }

  /** Between the steps: the states, and how far each direction has come. */
  ghost predicate At(c: Conn, a: TcpState, b: TcpState, una: nat, nxt: nat, got: nat, una': nat, nxt': nat, got': nat) {
    && ConnInv(c) && c.a == a && c.b == b
    && c.ab.snd.una == una && c.ab.snd.nxt == nxt == c.ab.snd.nbw && c.ab.rcv.nxt == got
    && c.ba.snd.una == una' && c.ba.snd.nxt == nxt' == c.ba.snd.nbw && c.ba.rcv.nxt == got'
  }

  /** A step at A, as a step of the connection. */
  ghost predicate StepsTo(c: Conn, e: ConnEvent, d: Conn) {
    ReadyAtEither(c, e) && PossibleAtEither(c, e) && FaithfulAtEither(c, e) && ConnStep(c, e) == d
  }

  lemma Closes(c: Conn, now: int, a: TcpState, b: TcpState, una: nat, x: nat, una': nat, y: nat, got: nat, got': nat)
    returns (d: Conn, fin: Packet)
    requires At(c, a, b, una, x, got, una', y, got') && (a == ESTABLISHED || a == CLOSE_WAIT)
    ensures StepsTo(c, AtA(Close(now)), d) && At(d, AfterClose(a), b, una, x + 1, got, una', y, got')
    ensures fin in d.fromA && fin.flags == FIN && fin.seqNum == x && fin.payload == []
    ensures c.fromA <= d.fromA && c.fromB == d.fromB
  {
    ConnReady(c);
    StepAKeeps(c, Close(now));
    fin := FinPacket(c.ab.snd, Piggyback(c).wnd);
    d := StepA(c, Close(now));
    hide ConnInv;
  }

  /** The FIN is next in order: it is consumed and answered. */
  lemma GetsFin(c: Conn, fin: Packet, a: TcpState, b: TcpState, una: nat, x: nat, got: nat, una': nat, y: nat, got': nat)
    returns (d: Conn, ack: Packet)
    requires At(c, a, b, una, x, got, una', y, got') && (a == ESTABLISHED || a == FIN_WAIT_2)
    requires fin in c.fromB && fin.flags == FIN && fin.seqNum == got' && fin.payload == []
    ensures StepsTo(c, AtA(GetPacket(fin)), d)
    ensures At(d, if a == ESTABLISHED then CLOSE_WAIT else TIME_WAIT, b, una, x, got, una', y, got' + 1)
    ensures ack in d.fromA && ack.flags == ACK && ack.seqNum == x && ack.ackNum == got' + 1 && ack.payload == []
    ensures c.fromA <= d.fromA && c.fromB == d.fromB
  {
    ConnReady(c);
    StepAKeeps(c, GetPacket(fin));
    var ep := EndpointA(c);
    StateMoves(ep, fin);
    Answers(ep, fin);
    TakesAcks(ep, fin);
    FinConsumes(ep, fin);
    d := StepA(c, GetPacket(fin));
    ack := OnPacket(ep, fin).reply.value;
    hide ConnInv, OnPacket, AllowedAtA;
  }

  lemma FinConsumes(ep: Endpoint, fin: Packet)
    requires Sane(ep) && fin.flags == FIN && fin.seqNum == ep.rcv.nxt && (ep.state == ESTABLISHED || ep.state == FIN_WAIT_2)
    ensures var ep' := OnPacket(ep, fin).ep;
      ep'.rcv.nxt == ep.rcv.nxt + 1 && ep'.snd.nxt == ep.snd.nxt && ep'.snd.nbw == ep.snd.nbw
  {
    hide Acked;
    AckedNxt(ep.snd, 0, fin.wnd);
  }

  /** A bare acknowledgment of everything, in order, where a FIN is out. */
  lemma GetsAck(c: Conn, ack: Packet, a: TcpState, b: TcpState, una: nat, x: nat, got: nat, una': nat, y: nat, got': nat)
    returns (d: Conn)
    requires At(c, a, b, una, x, got, una', y, got') && (a == FIN_WAIT_1 || a == LAST_ACK)
    requires ack in c.fromB && ack.flags == ACK && ack.seqNum == got' && ack.ackNum == x && ack.payload == []
    ensures StepsTo(c, AtA(GetPacket(ack)), d)
    ensures At(d, if a == FIN_WAIT_1 then FIN_WAIT_2 else CLOSED, b, x, x, got, una', y, got')
    ensures c.fromA == d.fromA && c.fromB == d.fromB
  {
    ConnReady(c);
    StepAKeeps(c, GetPacket(ack));
    var ep := EndpointA(c);
    StateMoves(ep, ack);
    Answers(ep, ack);
    TakesAcks(ep, ack);
    AckMovesUna(ep, ack);
    d := StepA(c, GetPacket(ack));
    assert c.fromA + {} == c.fromA;
    hide ConnInv, OnPacket, AllowedAtA;
  }

  lemma AckMovesUna(ep: Endpoint, ack: Packet)
    requires Sane(ep) && ack.flags == ACK && ack.payload == [] && (ep.state == FIN_WAIT_1 || ep.state == LAST_ACK)
    ensures var ep' := OnPacket(ep, ack).ep;
      ep'.rcv == ep.rcv && ep'.snd.nxt == ep.snd.nxt && ep'.snd.nbw == ep.snd.nbw
  {
    hide Acked;
    AckedNxt(ep.snd, ack.ackNum, ack.wnd);
  }

  // ----- The run -----

  /** The same, seen from the other end. */
  lemma SwapAt(c: Conn, a: TcpState, b: TcpState, una: nat, x: nat, got: nat, una': nat, y: nat, got': nat)
    requires At(c, a, b, una, x, got, una', y, got')
    ensures At(Swap(c), b, a, una', y, got', una, x, got)
  {
    SwapInv(c);
    hide ConnInv;
  }

  lemma SwapStep(c: Conn, e: SideEvent, d: Conn)
    requires StepsTo(Swap(c), AtA(e), d)
    ensures StepsTo(c, AtB(e), Swap(d))
  {
    hide StepA, PossibleAtA, FaithfulAtA, Ready;
  }

  /** B's turns. */
  lemma ClosesAtB(c: Conn, now: int, a: TcpState, b: TcpState, una: nat, x: nat, got: nat, una': nat, y: nat, got': nat)
    returns (d: Conn, fin: Packet)
    requires At(c, a, b, una, x, got, una', y, got') && (b == ESTABLISHED || b == CLOSE_WAIT)
    ensures StepsTo(c, AtB(Close(now)), d) && At(d, a, AfterClose(b), una, x, got, una', y + 1, got')
    ensures fin in d.fromB && fin.flags == FIN && fin.seqNum == y && fin.payload == []
  {
    SwapAt(c, a, b, una, x, got, una', y, got');
    var s;
    s, fin := Closes(Swap(c), now, b, a, una', y, una, x, got', got);
    hide At, StepsTo;
    SwapAt(s, AfterClose(b), a, una', y + 1, got', una, x, got);
    SwapStep(c, Close(now), s);
    d := Swap(s);
  }

  lemma GetsFinAtB(c: Conn, fin: Packet, a: TcpState, b: TcpState, una: nat, x: nat, got: nat, una': nat, y: nat, got': nat)
    returns (d: Conn, ack: Packet)
    requires At(c, a, b, una, x, got, una', y, got') && (b == ESTABLISHED || b == FIN_WAIT_2)
    requires fin in c.fromA && fin.flags == FIN && fin.seqNum == got && fin.payload == []
    ensures StepsTo(c, AtB(GetPacket(fin)), d)
    ensures At(d, a, if b == ESTABLISHED then CLOSE_WAIT else TIME_WAIT, una, x, got + 1, una', y, got')
    ensures ack in d.fromB && ack.flags == ACK && ack.seqNum == y && ack.ackNum == got + 1 && ack.payload == []
  {
    SwapAt(c, a, b, una, x, got, una', y, got');
    var s;
    s, ack := GetsFin(Swap(c), fin, b, a, una', y, got', una, x, got);
    hide At, StepsTo;
    SwapAt(s, if b == ESTABLISHED then CLOSE_WAIT else TIME_WAIT, a, una', y, got', una, x, got + 1);
    SwapStep(c, GetPacket(fin), s);
    d := Swap(s);
  }

  lemma GetsAckAtB(c: Conn, ack: Packet, a: TcpState, b: TcpState, una: nat, x: nat, got: nat, una': nat, y: nat, got': nat)
    returns (d: Conn)
    requires At(c, a, b, una, x, got, una', y, got') && (b == FIN_WAIT_1 || b == LAST_ACK)
    requires ack in c.fromA && ack.flags == ACK && ack.seqNum == got && ack.ackNum == y && ack.payload == []
    ensures StepsTo(c, AtB(GetPacket(ack)), d)
    ensures At(d, a, if b == FIN_WAIT_1 then FIN_WAIT_2 else CLOSED, una, x, got, y, y, got')
  {
    SwapAt(c, a, b, una, x, got, una', y, got');
    var s := GetsAck(Swap(c), ack, b, a, una', y, got', una, x, got);
    hide At, StepsTo;
    SwapAt(s, if b == FIN_WAIT_1 then FIN_WAIT_2 else CLOSED, a, y, y, got', una, x, got);
    SwapStep(c, GetPacket(ack), s);
    d := Swap(s);
  }

  /** A faithful run that ends in a state. */
  ghost predicate Leads(c: Conn, es: seq<ConnEvent>, d: Conn) {
    ConnRun(c, es) && FaithfulConnRun(c, es) && AfterConnRun(c, es) == d
  }

  lemma FirstStep(c: Conn, e: ConnEvent, c': Conn, es: seq<ConnEvent>, d: Conn)
    requires StepsTo(c, e, c') && Leads(c', es, d)
    ensures Leads(c, [e] + es, d)
  {
    assert ([e] + es)[1..] == es;
    hide ConnStep, ReadyAtEither, PossibleAtEither, FaithfulAtEither;
  }

  /** A closes, B takes the FIN and acknowledges it. */
  lemma ActiveHalf(c: Conn, now: int, u: nat, x: nat, v: nat, y: nat)
    returns (c1: Conn, c2: Conn, c3: Conn, fin: Packet, ack: Packet)
    requires At(c, ESTABLISHED, ESTABLISHED, u, x, x, v, y, y)
    ensures StepsTo(c, AtA(Close(now)), c1) && StepsTo(c1, AtB(GetPacket(fin)), c2) && StepsTo(c2, AtA(GetPacket(ack)), c3)
    ensures At(c3, FIN_WAIT_2, CLOSE_WAIT, x + 1, x + 1, x + 1, v, y, y)
  {
    hide StepsTo, At;
    c1, fin := Closes(c, now, ESTABLISHED, ESTABLISHED, u, x, v, y, x, y);
    c2, ack := GetsFinAtB(c1, fin, FIN_WAIT_1, ESTABLISHED, u, x + 1, x, v, y, y);
    c3 := GetsAck(c2, ack, FIN_WAIT_1, CLOSE_WAIT, u, x + 1, x + 1, v, y, y);
  }

  /** Then B closes, and A takes that FIN and acknowledges it. */
  lemma PassiveHalf(c3: Conn, now: int, x: nat, v: nat, y: nat)
    returns (c4: Conn, c5: Conn, d: Conn, fin: Packet, ack: Packet)
    requires At(c3, FIN_WAIT_2, CLOSE_WAIT, x, x, x, v, y, y)
    ensures StepsTo(c3, AtB(Close(now)), c4) && StepsTo(c4, AtA(GetPacket(fin)), c5) && StepsTo(c5, AtB(GetPacket(ack)), d)
    ensures At(d, TIME_WAIT, CLOSED, x, x, x, y + 1, y + 1, y + 1)
  {
    hide StepsTo, At;
    c4, fin := ClosesAtB(c3, now, FIN_WAIT_2, CLOSE_WAIT, x, x, x, v, y, y);
    c5, ack := GetsFin(c4, fin, FIN_WAIT_2, LAST_ACK, x, x, x, v, y + 1, y);
    d := GetsAckAtB(c5, ack, TIME_WAIT, LAST_ACK, x, x, x, v, y + 1, y + 1);
  }

  /** Any connection at rest can be closed from A: FIN, acknowledgment, FIN, acknowledgment, and A waits out TIME_WAIT
      while B is closed. */
  lemma CanClose(c: Conn, now: int) returns (es: seq<ConnEvent>, d: Conn)
    requires ConnInv(c) && c.a == ESTABLISHED && c.b == ESTABLISHED && Rested(c.ab) && Rested(c.ba)
    ensures |es| == 6 && Leads(c, es, d) && d.a == TIME_WAIT && d.b == CLOSED
    ensures d.ab.rcv.nxt == d.ab.snd.una == c.ab.snd.nxt + 1 && d.ba.rcv.nxt == d.ba.snd.una == c.ba.snd.nxt + 1
  {
    var u, x, v, y := c.ab.snd.una, c.ab.snd.nxt, c.ba.snd.una, c.ba.snd.nxt;
    assert At(c, ESTABLISHED, ESTABLISHED, u, x, x, v, y, y);
    hide StepsTo, At, ConnInv, Rested, Leads;
    var c1, c2, c3, fin1, ack2 := ActiveHalf(c, now, u, x, v, y);
    var c4, c5, fin4, ack5;
    c4, c5, d, fin4, ack5 := PassiveHalf(c3, now, x + 1, v, y);
    ClosedAt(d, x, y);
    Ended(d);
    var rest := ThreeSteps(c3, c4, c5, d, AtB(Close(now)), AtA(GetPacket(fin4)), AtB(GetPacket(ack5)), [], d);
    es := ThreeSteps(c, c1, c2, c3, AtA(Close(now)), AtB(GetPacket(fin1)), AtA(GetPacket(ack2)), rest, d);
  }

  lemma Ended(d: Conn)
    ensures Leads(d, [], d)
  {}

  lemma ThreeSteps(c: Conn, c1: Conn, c2: Conn, c3: Conn, e1: ConnEvent, e2: ConnEvent, e3: ConnEvent, rest: seq<ConnEvent>, d: Conn)
    returns (es: seq<ConnEvent>)
    requires StepsTo(c, e1, c1) && StepsTo(c1, e2, c2) && StepsTo(c2, e3, c3) && Leads(c3, rest, d)
    ensures Leads(c, es, d) && |es| == |rest| + 3
  {
    hide Leads, StepsTo;
    FirstStep(c2, e3, c3, rest, d);
    FirstStep(c1, e2, c2, [e3] + rest, d);
    FirstStep(c, e1, c1, [e2] + ([e3] + rest), d);
    es := [e1] + ([e2] + ([e3] + rest));
  }

  lemma ClosedAt(d: Conn, x: nat, y: nat)
    requires At(d, TIME_WAIT, CLOSED, x + 1, x + 1, x + 1, y + 1, y + 1, y + 1)
    ensures d.a == TIME_WAIT && d.b == CLOSED && d.ab.rcv.nxt == d.ab.snd.una == x + 1 && d.ba.rcv.nxt == d.ba.snd.una == y + 1
  {}

  /** A fresh connection is at rest, so the closing states are reached from every initial state. */
  lemma FreshCanClose(c: Conn, now: int) returns (es: seq<ConnEvent>, d: Conn)
    requires ConnInit(c)
    ensures ConnRun(c, es) && FaithfulConnRun(c, es) && d == AfterConnRun(c, es) && d.a == TIME_WAIT && d.b == CLOSED
  {
    InitialConn(c);
    es, d := CanClose(c, now);
  }
}
