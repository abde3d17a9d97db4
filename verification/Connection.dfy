/** Two endpoints with data in both directions, from ESTABLISHED to the end of the connection. */
module Connection {
  import opened Common
  import opened Packets
  import opened RetransmissionQueues
  import opened SendBuffers
  import opened RecvBuffers
  import opened Sender
  import opened ByteStream
  import opened Sockets

  /** Endpoint A owns the sender of ab and the receiver of ba; `fromA` is every packet A ever sent. */
  datatype Conn = Conn(a: TcpState, b: TcpState, ab: Flow, ba: Flow, fromA: set<Packet>, fromB: set<Packet>)

  function Swap(c: Conn): Conn { Conn(c.b, c.a, c.ba, c.ab, c.fromB, c.fromA) }

  /** What can happen at one endpoint. */
  datatype SideEvent =
    | AppSend(data: seq<byte>)
    | SenderTurn(max: nat, now: int)
    | EndPauseTurn
    | ProbeTurn(now: int)
    | SweepTurn(queue: QueueState, now: int, rto: int)
    | Close(now: int)
    | AppRecv(n: nat)
    | GetPacket(pk: Packet)

  datatype ConnEvent = AtA(e: SideEvent) | AtB(e: SideEvent)

  function EndpointA(c: Conn): Endpoint {
    Endpoint(c.a, c.ab.snd, c.ba.rcv, c.a == CLOSE_WAIT || c.a == LAST_ACK || c.a == CLOSED)
  }

  // ----- The steps of endpoint A -----

  /** The own acknowledgment and window that outgoing data carries. */
  function Piggyback(c: Conn): AckInfo { Offer(c.ba.rcv) }

  /** What the code waits for or checks: an end is closed with nothing left to send. */
  ghost predicate PossibleAtA(c: Conn, e: SideEvent) {
    match e
    case AppSend(data) => (c.a == ESTABLISHED || c.a == CLOSE_WAIT) && Possible(c.ab, AppWrite(data))
    case SenderTurn(max, now) => Possible(c.ab, SendData(max, Piggyback(c).ackNum, Piggyback(c).wnd, now))
    case EndPauseTurn => Possible(c.ab, ProbePause)
    case ProbeTurn(now) => Possible(c.ab, ProbeCountdown(Piggyback(c).ackNum, Piggyback(c).wnd, now))
    case SweepTurn(q, now, rto) => Possible(c.ab, Sweep(q, now, rto))
    case Close(now) => (c.a == ESTABLISHED || c.a == CLOSE_WAIT) && Possible(c.ab, SendFin(Piggyback(c).wnd, now))
    case AppRecv(n) => (c.a in {ESTABLISHED, FIN_WAIT_1, FIN_WAIT_2, TIME_WAIT}) && Possible(c.ba, AppRead(n))
    case GetPacket(pk) => pk in c.fromB
  }

  /** The condition on a delivery under which reassembly is right. */
  ghost predicate FaithfulAtA(c: Conn, e: SideEvent) {
    e.GetPacket? && e.pk.payload != [] ==> Faithful(c.ba.rcv, e.pk.seqNum, |e.pk.payload|)
  }

  ghost predicate AllowedAtA(c: Conn, e: SideEvent) { PossibleAtA(c, e) && FaithfulAtA(c, e) }

  ghost predicate Ready(c: Conn) {
    InOrder(c.ab.snd) && InOrder(c.ba.snd) && |c.ab.rcv.ring| > 0 && Sane(EndpointA(c))
  }

  /** Offering the own window is what sending a packet does to the incoming flow. */
  function Offering(c: Conn): Conn { c.(ba := c.ba.(acks := c.ba.acks + {Piggyback(c)})) }

  function Sending(c: Conn, e: FlowEvent, pk: Packet): Conn
    requires Defined(c.ab, e)
  {
    Offering(c).(ab := FlowStep(c.ab, e), fromA := c.fromA + {pk})
  }

  function StepA(c: Conn, e: SideEvent): Conn
    requires Ready(c)
  {
    var p := Piggyback(c);
    match e
    case AppSend(data) => c.(ab := FlowStep(c.ab, AppWrite(data)))
    case SenderTurn(max, now) =>
      Sending(c, SendData(max, p.ackNum, p.wnd, now), DataPacket(c.ab.snd, max, p.ackNum, p.wnd))
    case EndPauseTurn => c.(ab := FlowStep(c.ab, ProbePause))
    case ProbeTurn(now) =>
      if ProbeDue(c.ab.snd) then Sending(c, ProbeCountdown(p.ackNum, p.wnd, now), ProbePacket(c.ab.snd, p.ackNum, p.wnd))
      else c.(ab := FlowStep(c.ab, ProbeCountdown(p.ackNum, p.wnd, now)))
    case SweepTurn(q, now, rto) => c.(ab := FlowStep(c.ab, Sweep(q, now, rto)))
    case Close(now) => Sending(c, SendFin(p.wnd, now), FinPacket(c.ab.snd, p.wnd)).(a := AfterClose(c.a))
    case AppRecv(n) => c.(ba := FlowStep(c.ba, AppRead(n)))
    case GetPacket(pk) => Reacted(c, pk, OnPacket(EndpointA(c), pk))
  }

  /** The connection after A has handled a packet: the endpoint's new state, and its answer on the wire. */
  function Reacted(c: Conn, pk: Packet, r: Reaction): Conn {
    var answers := if r.reply.Some? then {r.reply.value} else {};
    var acks := if r.reply.Some? then {AckInfo(r.reply.value.ackNum, r.reply.value.wnd)} else {};
    c.(a := r.ep.state,
       ab := c.ab.(snd := r.ep.snd),
       ba := c.ba.(rcv := r.ep.rcv, acks := c.ba.acks + acks,
                   finTaken := c.ba.finTaken || (pk.flags == FIN && r.ep.rcv.nxt != c.ba.rcv.nxt)),
       fromA := c.fromA + answers)
  }

  // ----- The invariant -----

  predicate Finished(s: TcpState) { s in {FIN_WAIT_1, FIN_WAIT_2, TIME_WAIT, LAST_ACK, CLOSED} }

  predicate PeerFinished(s: TcpState) { s in {CLOSE_WAIT, LAST_ACK, CLOSED, TIME_WAIT} }

  predicate Active(s: TcpState) { s in {FIN_WAIT_1, FIN_WAIT_2, TIME_WAIT} }

  predicate Passive(s: TcpState) { s in {CLOSE_WAIT, LAST_ACK, CLOSED} }

  /** The state says what has been sent, consumed and acknowledged. */
  ghost predicate StateInv(s: TcpState, out: Flow, inc: Flow) {
    && (s == ESTABLISHED || Finished(s) || PeerFinished(s))
    && (out.finSent <==> Finished(s))
    && (inc.finTaken <==> PeerFinished(s))
    && (s in {FIN_WAIT_2, TIME_WAIT, CLOSED} ==> out.snd.una == out.snd.nxt)
  }

  /** Packets on the wire belong to the flows: data and FIN to the sender's, acknowledgments to the receiver's. */
  ghost predicate Linked(sent: set<Packet>, out: Flow, inc: Flow) {
    forall pk :: pk in sent ==>
      && (pk.payload != [] || pk.flags == FIN ==> pk in out.segs)
      && (pk.flags == ACK || pk.flags == SYN_ACK ==> AckInfo(pk.ackNum, pk.wnd) in inc.acks)
      && (pk.flags != ACK ==> pk.payload == [])
      && pk.flags != FIN_ACK
  }

  ghost predicate ConnInv(c: Conn) {
    && FlowInv(c.ab) && FlowInv(c.ba)
    && Linked(c.fromA, c.ab, c.ba) && Linked(c.fromB, c.ba, c.ab)
    && StateInv(c.a, c.ab, c.ba) && StateInv(c.b, c.ba, c.ab)
    && !(Passive(c.a) && Passive(c.b))
    && (Passive(c.a) ==> Active(c.b)) && (Passive(c.b) ==> Active(c.a))
  }

  lemma ConnReady(c: Conn)
    requires ConnInv(c)
    ensures Ready(c)
  {}

  lemma SwapInv(c: Conn)
    requires ConnInv(c)
    ensures ConnInv(Swap(c)) && Swap(Swap(c)) == c
  {}

  /** Acknowledged means received, so an acknowledged FIN was consumed. */
  lemma FinAcknowledged(f: Flow)
    requires FlowInv(f) && f.finSent && f.snd.una == f.snd.nxt
    ensures f.finTaken && f.rcv.nxt == f.DataEnd() + 1 == f.snd.una
  {}

  // ----- Sending steps -----

  /** Offering a window changes nothing but the acknowledgments on the wire. */
  lemma OfferingKeeps(c: Conn)
    requires ConnInv(c)
    ensures FlowInv(Offering(c).ba)
  {}

  lemma SendingAdds(c: Conn, e: FlowEvent)
    requires ConnInv(c) && Ready(c) && Possible(c.ab, e) && (e.SendData? || e.ProbeCountdown? || e.SendFin?)
    ensures var ab := FlowStep(c.ab, e);
      FlowInv(ab) && c.ab.segs <= ab.segs && c.ab.acks == ab.acks
  {
    StepKeeps(c.ab, e);
    hide FlowInv;
  }

  /** A sending step leaves the receiver, and what was on the wire, alone, and adds one packet at most. */
  lemma SendingKeeps(c: Conn, e: FlowEvent, pk: Packet)
    requires ConnInv(c) && Ready(c) && Possible(c.ab, e)
    requires e.SendData? || e.ProbeCountdown? || e.SendFin?
    requires pk in FlowStep(c.ab, e).segs && pk.flags in {ACK, FIN} && (pk.flags == FIN ==> pk.payload == [])
    requires pk.flags == ACK ==> AckInfo(pk.ackNum, pk.wnd) == Piggyback(c)
    ensures var c' := Sending(c, e, pk);
      && FlowInv(c'.ab) && FlowInv(c'.ba)
      && Linked(c'.fromA, c'.ab, c'.ba) && Linked(c'.fromB, c'.ba, c'.ab)
  {
    hide FlowInv, FlowStep, Possible, StateInv, Piggyback;
    SendingAdds(c, e);
    OfferingKeeps(c);
    hide ConnInv, Ready;
    var c' := Sending(c, e, pk);
    LinkedMore(c.fromA, c.ab, c.ba, c'.ab, c'.ba);
    LinkedMore(c.fromB, c.ba, c.ab, c'.ba, c'.ab);
  }

  lemma LinkedMore(sent: set<Packet>, out: Flow, inc: Flow, out': Flow, inc': Flow)
    requires Linked(sent, out, inc) && out.segs <= out'.segs && inc.acks <= inc'.acks
    ensures Linked(sent, out', inc')
  {}

  /** With the FIN sent there is nothing left to send or probe with. */
  lemma NothingAfterFin(f: Flow)
    requires FlowInv(f) && f.finSent
    ensures SizeCanSend(f.snd) <= 0 && !ProbeDue(f.snd)
  {}

  lemma SendStepKeeps(c: Conn, e: SideEvent)
    requires ConnInv(c) && AllowedAtA(c, e)
    requires !e.GetPacket? && !e.AppRecv?
    ensures Ready(c) && ConnInv(StepA(c, e))
  {
    ConnReady(c);
    var p := Piggyback(c);
    if c.ab.finSent {
      NothingAfterFin(c.ab);
    }
    match e
    case AppSend(data) => OutStepKeeps(c, AppWrite(data));
    case SenderTurn(max, now) =>
      TurnKeeps(c, SendData(max, p.ackNum, p.wnd, now), DataPacket(c.ab.snd, max, p.ackNum, p.wnd));
    case EndPauseTurn => OutStepKeeps(c, ProbePause);
    case ProbeTurn(now) =>
      if ProbeDue(c.ab.snd) {
        TurnKeeps(c, ProbeCountdown(p.ackNum, p.wnd, now), ProbePacket(c.ab.snd, p.ackNum, p.wnd));
      } else {
        OutStepKeeps(c, ProbeCountdown(p.ackNum, p.wnd, now));
      }
    case SweepTurn(q, now, rto) => OutStepKeeps(c, Sweep(q, now, rto));
    case Close(now) => CloseKeeps(c, now);
  }

  /** Steps of the sender that put nothing on the wire. */
  lemma OutStepKeeps(c: Conn, e: FlowEvent)
    requires ConnInv(c) && Possible(c.ab, e)
    requires e.AppWrite? || e.ProbePause? || e.Sweep? || (e.ProbeCountdown? && !ProbeDue(c.ab.snd))
    requires e.AppWrite? ==> !Finished(c.a)
    ensures Defined(c.ab, e) && ConnInv(c.(ab := FlowStep(c.ab, e)))
  {
    StepKeeps(c.ab, e);
    hide FlowInv, Possible;
    LinkedMore(c.fromA, c.ab, c.ba, FlowStep(c.ab, e), c.ba);
    LinkedMore(c.fromB, c.ba, c.ab, c.ba, FlowStep(c.ab, e));
  }

  /** Steps of the sender that send data or a probe; impossible once the FIN is out. */
  lemma TurnKeeps(c: Conn, e: FlowEvent, pk: Packet)
    requires ConnInv(c) && Possible(c.ab, e) && !c.ab.finSent
    requires e.SendData? || e.ProbeCountdown?
    requires pk in FlowStep(c.ab, e).segs && pk.flags == ACK && AckInfo(pk.ackNum, pk.wnd) == Piggyback(c)
    ensures ConnInv(Sending(c, e, pk))
  {
    SendingKeeps(c, e, pk);
    hide FlowInv, Possible, Linked, Piggyback;
  }

  lemma CloseKeeps(c: Conn, now: int)
    requires ConnInv(c) && AllowedAtA(c, Close(now))
    ensures Ready(c) && ConnInv(StepA(c, Close(now)))
  {
    ConnReady(c);
    var p := Piggyback(c);
    SendingKeeps(c, SendFin(p.wnd, now), FinPacket(c.ab.snd, p.wnd));
    hide FlowInv, Possible, Linked, Piggyback;
  }

  // ----- Receiving steps -----

  lemma ReadKeeps(c: Conn, n: nat)
    requires ConnInv(c) && AllowedAtA(c, AppRecv(n))
    ensures Ready(c) && ConnInv(StepA(c, AppRecv(n)))
  {
    ConnReady(c);
    StepKeeps(c.ba, AppRead(n));
    hide FlowInv, Possible, ReadBytes, AfterRead;
    LinkedMore(c.fromA, c.ab, c.ba, c.ab, FlowStep(c.ba, AppRead(n)));
    LinkedMore(c.fromB, c.ba, c.ab, FlowStep(c.ba, AppRead(n)), c.ab);
  }

  /** The acknowledgment a packet carries is one the peer's receiver has reached. */
  lemma HonestAck(c: Conn, pk: Packet)
    requires ConnInv(c) && pk in c.fromB && (pk.flags == ACK || pk.flags == SYN_ACK)
    ensures pk.ackNum <= c.ab.rcv.nxt
  {}

  /** An acknowledgment moves una only, and not from where everything is acknowledged. */
  lemma AckEffect(f: Flow, ackNum: nat, wnd: nat)
    requires FlowInv(f) && ackNum <= f.rcv.nxt
    ensures var f' := f.(snd := Acked(f.snd, ackNum, wnd));
      && FlowInv(f') && f'.snd.nxt == f.snd.nxt
      && (f.snd.una == f.snd.nxt ==> f'.snd.una == f'.snd.nxt)
  {
    AckStep(f, ackNum, wnd);
  }

  /** What handling a packet does to the two flows, whatever the state. */
  ghost predicate FlowsAdvance(c: Conn, c': Conn) {
    && FlowInv(c'.ab) && FlowInv(c'.ba)
    && c'.ab == c.ab.(snd := c'.ab.snd) && c'.ab.snd.nxt == c.ab.snd.nxt
    && (c.ab.snd.una == c.ab.snd.nxt ==> c'.ab.snd.una == c'.ab.snd.nxt)
    && c'.ba == c.ba.(rcv := c'.ba.rcv, acks := c'.ba.acks, finTaken := c'.ba.finTaken)
    && c.ba.acks <= c'.ba.acks
    && c'.fromB == c.fromB && c'.b == c.b
    && Linked(c'.fromA, c'.ab, c'.ba) && Linked(c'.fromB, c'.ba, c'.ab)
  }

  /** An answer is an acknowledgment without payload that offers what the receiver offers. */
  lemma AnswerLinked(c: Conn, c': Conn, answer: Packet)
    requires Linked(c.fromA, c.ab, c.ba) && c.ab.segs <= c'.ab.segs && c.ba.acks <= c'.ba.acks
    requires answer.flags == ACK && answer.payload == [] && AckInfo(answer.ackNum, answer.wnd) in c'.ba.acks
    requires c'.fromA == c.fromA + {answer}
    ensures Linked(c'.fromA, c'.ab, c'.ba)
  {}

  lemma AckOrDataAdvances(c: Conn, pk: Packet)
    requires ConnInv(c) && AllowedAtA(c, GetPacket(pk)) && pk.flags == ACK
    ensures Ready(c)
    ensures var c' := Reacted(c, pk, OnAckOrData(EndpointA(c), pk));
      FlowsAdvance(c, c') && c'.ba.finTaken == c.ba.finTaken
  {
    ConnReady(c);
    HonestAck(c, pk);
    AckEffect(c.ab, pk.ackNum, pk.wnd);
    if pk.payload == [] {
      hide FlowInv, Acked;
      assert c.ba.acks + {} == c.ba.acks && c.fromA + {} == c.fromA;
    } else {
      DataAdvances(c, pk);
    }
  }

  lemma DataAdvances(c: Conn, pk: Packet)
    requires ConnInv(c) && AllowedAtA(c, GetPacket(pk)) && pk.flags == ACK && pk.payload != [] && Ready(c)
    requires var f' := c.ab.(snd := Acked(c.ab.snd, pk.ackNum, pk.wnd));
      FlowInv(f') && f'.snd.nxt == c.ab.snd.nxt && (c.ab.snd.una == c.ab.snd.nxt ==> f'.snd.una == f'.snd.nxt)
    ensures var c' := Reacted(c, pk, OnAckOrData(EndpointA(c), pk));
      FlowsAdvance(c, c') && c'.ba.finTaken == c.ba.finTaken
  {
    StepKeeps(c.ba, DeliverData(pk));
    hide FlowInv, Receive, Acked, Faithful, Possible, Ready, StateInv;
    var r := OnAckOrData(EndpointA(c), pk);
    var c' := Reacted(c, pk, r);
    assert c'.ba == FlowStep(c.ba, DeliverData(pk));
    AnswerLinked(c, c', r.reply.value);
  }

  lemma FinAdvances(c: Conn, pk: Packet)
    requires ConnInv(c) && AllowedAtA(c, GetPacket(pk)) && pk.flags == FIN
    ensures Ready(c)
    ensures var r := OnFinPacket(EndpointA(c), pk);
      var c' := Reacted(c, pk, r);
      && FlowsAdvance(c, c')
      && (c.ba.finTaken ==> c'.ba.finTaken)
      && (!c.ba.finTaken ==> (c'.ba.finTaken <==> FinConsumed(r, pk)))
      && pk.seqNum == c.ba.DataEnd() && c.ba.finSent
  {
    ConnReady(c);
    AckEffect(c.ab, 0, pk.wnd);
    assert pk in c.ba.segs && Carries(pk, c.ba.snd.nxt, c.ba.base, c.ba.written);
    StepKeeps(c.ba, DeliverFin(pk));
    var r := OnFinPacket(EndpointA(c), pk);
    var c' := Reacted(c, pk, r);
    assert c'.ba == FlowStep(c.ba, DeliverFin(pk));
    assert !c.ba.finTaken ==> c.ba.rcv.nxt <= c.ba.DataEnd();
    hide FlowInv, Acked, Possible;
    AnswerLinked(c, c', r.reply.value);
  }

  lemma SynAckAdvances(c: Conn, pk: Packet)
    requires ConnInv(c) && AllowedAtA(c, GetPacket(pk)) && pk.flags == SYN_ACK && c.a == ESTABLISHED
    ensures Ready(c)
    ensures var c' := Reacted(c, pk, OnPacket(EndpointA(c), pk));
      FlowsAdvance(c, c') && c'.ba.finTaken == c.ba.finTaken && c'.a == c.a
  {
    ConnReady(c);
    HonestAck(c, pk);
    AckEffect(c.ab, pk.ackNum, pk.wnd);
    StepKeeps(c.ba, OfferWindow);
    var r := OnPacket(EndpointA(c), pk);
    var c' := Reacted(c, pk, r);
    assert c'.ba == FlowStep(c.ba, OfferWindow);
    hide FlowInv, Acked, Possible;
    AnswerLinked(c, c', r.reply.value);
  }

  /** An ignored packet changes nothing. */
  lemma IgnoredAdvances(c: Conn, pk: Packet)
    requires ConnInv(c)
    ensures Reacted(c, pk, Reaction(EndpointA(c), None)) == c && FlowsAdvance(c, c)
  {}

  lemma LastAckAdvances(c: Conn, pk: Packet)
    requires ConnInv(c) && AllowedAtA(c, GetPacket(pk)) && pk.flags == ACK && c.a == LAST_ACK
    ensures Ready(c)
    ensures var r := OnPacket(EndpointA(c), pk);
      var c' := Reacted(c, pk, r);
      && FlowsAdvance(c, c') && c'.ba.finTaken == c.ba.finTaken
      && c'.a == if c'.ab.snd.una == c'.ab.snd.nxt then CLOSED else LAST_ACK
  {
    ConnReady(c);
    HonestAck(c, pk);
    AckEffect(c.ab, pk.ackNum, pk.wnd);
    hide FlowInv, Acked, AllowedAtA, StateInv, Linked;
    assert c.ba.acks + {} == c.ba.acks && c.fromA + {} == c.fromA;
    assert Linked(c.fromA, c.ab, c.ba) && Linked(c.fromB, c.ba, c.ab);
    LinkedMore(c.fromA, c.ab, c.ba, c.ab.(snd := Acked(c.ab.snd, pk.ackNum, pk.wnd)), c.ba);
    LinkedMore(c.fromB, c.ba, c.ab, c.ba, c.ab.(snd := Acked(c.ab.snd, pk.ackNum, pk.wnd)));
  }

  /** The two flows and the new state of the end that handled a packet. */
  ghost predicate Advances(c: Conn, c': Conn) {
    && FlowsAdvance(c, c') && StateInv(c'.a, c'.ab, c'.ba)
    && (|| ((Passive(c'.a) <==> Passive(c.a)) && (Active(c'.a) <==> Active(c.a)))
        || (c.a == ESTABLISHED && c'.a == CLOSE_WAIT && c.ba.finSent))
  }

  /** From there to the whole invariant. */
  lemma Assemble(c: Conn, c': Conn)
    requires ConnInv(c) && Advances(c, c')
    ensures ConnInv(c')
  {}

  /** What the state says after an event that leaves it, or moves FIN_WAIT_1 on when everything is acknowledged. */
  lemma SameState(c: Conn, c': Conn)
    requires StateInv(c.a, c.ab, c.ba) && FlowsAdvance(c, c') && c'.ba.finTaken == c.ba.finTaken
    requires || c'.a == c.a
             || (c'.ab.snd.una == c'.ab.snd.nxt && ((c.a == FIN_WAIT_1 && c'.a == FIN_WAIT_2) || (c.a == LAST_ACK && c'.a == CLOSED)))
    ensures Advances(c, c')
  {
    hide FlowInv, Linked;
  }

  /** An acknowledgment, with or without data. */
  lemma AckPacketKeeps(c: Conn, pk: Packet)
    requires ConnInv(c) && AllowedAtA(c, GetPacket(pk)) && pk.flags == ACK
    ensures Ready(c) && ConnInv(StepA(c, GetPacket(pk)))
  {
    ConnReady(c);
    ReactionAtA(c, pk);
    hide FlowInv, Linked, AllowedAtA, StepA, Ready;
    if c.a == LAST_ACK {
      LastAckAdvances(c, pk);
    } else if c.a == ESTABLISHED || c.a == CLOSE_WAIT || c.a == FIN_WAIT_1 || c.a == FIN_WAIT_2 {
      AckOrDataKeeps(c, pk);
    } else {
      OtherAck(EndpointA(c), pk);
      IgnoredAdvances(c, pk);
    }
    hide Reacted, OnPacket, EndpointA;
    SameState(c, StepA(c, GetPacket(pk)));
    Assemble(c, StepA(c, GetPacket(pk)));
  }

  lemma ReactionAtA(c: Conn, pk: Packet)
    requires Ready(c)
    ensures StepA(c, GetPacket(pk)) == Reacted(c, pk, OnPacket(EndpointA(c), pk)) && EndpointA(c).state == c.a
  {}

  lemma AckOrDataKeeps(c: Conn, pk: Packet)
    requires ConnInv(c) && AllowedAtA(c, GetPacket(pk)) && pk.flags == ACK
    requires c.a == ESTABLISHED || c.a == CLOSE_WAIT || c.a == FIN_WAIT_1 || c.a == FIN_WAIT_2
    ensures Ready(c)
    ensures var c' := Reacted(c, pk, OnPacket(EndpointA(c), pk));
      && FlowsAdvance(c, c') && c'.ba.finTaken == c.ba.finTaken
      && (c'.a == c.a || (c.a == FIN_WAIT_1 && c'.a == FIN_WAIT_2 && c'.ab.snd.una == c'.ab.snd.nxt))
  {
    AckOrDataAdvances(c, pk);
    EndpointState(c);
    var ep := EndpointA(c);
    hide ConnInv, AllowedAtA, FlowsAdvance, Ready, EndpointA;
    FinWait1Ack(ep, pk);
    SameFlows(c, pk, OnAckOrData(ep, pk), OnPacket(ep, pk));
  }

  lemma OtherAck(ep: Endpoint, pk: Packet)
    requires Sane(ep) && pk.flags == ACK && (ep.state == TIME_WAIT || ep.state == CLOSED)
    ensures OnPacket(ep, pk) == Reaction(ep, None)
  {}

  /** Among the states that take data only FIN_WAIT_1 moves on an acknowledgment: to FIN_WAIT_2, with everything acknowledged. */
  lemma FinWait1Ack(ep: Endpoint, pk: Packet)
    requires Sane(ep) && pk.flags == ACK
    requires ep.state == ESTABLISHED || ep.state == CLOSE_WAIT || ep.state == FIN_WAIT_1 || ep.state == FIN_WAIT_2
    ensures var r, r' := OnAckOrData(ep, pk), OnPacket(ep, pk);
      && r'.ep.snd == r.ep.snd && r'.ep.rcv == r.ep.rcv && r'.reply == r.reply
      && (r'.ep.state == ep.state || (ep.state == FIN_WAIT_1 && r'.ep.state == FIN_WAIT_2 && r.ep.snd.una == r.ep.snd.nxt))
  {}

  /** A FIN, first or repeated. */
  lemma FinPacketKeeps(c: Conn, pk: Packet)
    requires ConnInv(c) && AllowedAtA(c, GetPacket(pk)) && pk.flags == FIN
    ensures Ready(c) && ConnInv(StepA(c, GetPacket(pk)))
  {
    ConnReady(c);
    ReactionAtA(c, pk);
    hide FlowInv, Linked, AllowedAtA, StepA, Ready;
    if c.a == ESTABLISHED || c.a == CLOSE_WAIT || c.a == FIN_WAIT_2 || c.a == TIME_WAIT {
      PeerFinKeeps(c, pk);
    } else {
      OtherFin(EndpointA(c), pk);
      IgnoredAdvances(c, pk);
      SameState(c, c);
    }
    hide Reacted, OnPacket, EndpointA, Advances;
    Assemble(c, StepA(c, GetPacket(pk)));
  }

  lemma PeerFinKeeps(c: Conn, pk: Packet)
    requires ConnInv(c) && AllowedAtA(c, GetPacket(pk)) && pk.flags == FIN
    requires c.a == ESTABLISHED || c.a == CLOSE_WAIT || c.a == FIN_WAIT_2 || c.a == TIME_WAIT
    ensures Ready(c) && Advances(c, Reacted(c, pk, OnPacket(EndpointA(c), pk)))
  {
    FinAdvances(c, pk);
    EndpointState(c);
    var ep := EndpointA(c);
    hide FlowInv, Linked, AllowedAtA, Ready, EndpointA;
    FinMoves(ep, pk);
    SameFlows(c, pk, OnFinPacket(ep, pk), OnPacket(ep, pk));
    hide OnFinPacket, OnPacket, FinConsumed;
  }

  lemma OtherFin(ep: Endpoint, pk: Packet)
    requires Sane(ep) && pk.flags == FIN && (ep.state == FIN_WAIT_1 || ep.state == LAST_ACK || ep.state == CLOSED)
    ensures OnPacket(ep, pk) == Reaction(ep, None)
  {}

  /** Which states an in-order FIN moves, and where. */
  lemma FinMoves(ep: Endpoint, pk: Packet)
    requires Sane(ep) && pk.flags == FIN
    requires ep.state == ESTABLISHED || ep.state == CLOSE_WAIT || ep.state == FIN_WAIT_2 || ep.state == TIME_WAIT
    ensures var r, r' := OnFinPacket(ep, pk), OnPacket(ep, pk);
      && r'.ep.snd == r.ep.snd && r'.ep.rcv == r.ep.rcv && r'.reply == r.reply
      && r'.ep.state ==
         if FinConsumed(r, pk) && ep.state == ESTABLISHED then CLOSE_WAIT
         else if FinConsumed(r, pk) && ep.state == FIN_WAIT_2 then TIME_WAIT
         else ep.state
  {}

  /** Handling any packet from the peer keeps the invariant. */
  lemma PacketKeeps(c: Conn, pk: Packet)
    requires ConnInv(c) && AllowedAtA(c, GetPacket(pk))
    ensures Ready(c) && ConnInv(StepA(c, GetPacket(pk)))
  {
    ConnReady(c);
    NoFinAck(c, pk);
    if pk.flags == ACK {
      AckPacketKeeps(c, pk);
    } else if pk.flags == FIN {
      FinPacketKeeps(c, pk);
    } else if pk.flags == SYN_ACK && c.a == ESTABLISHED {
      SynAckAdvances(c, pk);
      var c' := StepA(c, GetPacket(pk));
      hide FlowInv, Linked, OnPacket, Reacted, Possible, EndpointA, StepA;
      SameState(c, c');
      Assemble(c, c');
    } else {
      OtherPacket(EndpointA(c), pk);
      IgnoredAdvances(c, pk);
    }
  }

  lemma OtherPacket(ep: Endpoint, pk: Packet)
    requires Sane(ep) && ep.state != SYN_SENT && ep.state != SYN_RECEIVED
    requires pk.flags == SYN || (pk.flags == SYN_ACK && ep.state != ESTABLISHED)
    ensures OnPacket(ep, pk) == Reaction(ep, None)
  {}

  lemma EndpointState(c: Conn)
    ensures EndpointA(c).state == c.a
  {}

  lemma NoFinAck(c: Conn, pk: Packet)
    requires ConnInv(c) && pk in c.fromB
    ensures pk.flags != FIN_ACK
  {}

  /** The handlers for the same event differ in the state only. */
  lemma SameFlows(c: Conn, pk: Packet, r: Reaction, r': Reaction)
    requires r'.ep.snd == r.ep.snd && r'.ep.rcv == r.ep.rcv && r'.reply == r.reply
    ensures Reacted(c, pk, r') == Reacted(c, pk, r).(a := r'.ep.state)
    ensures FlowsAdvance(c, Reacted(c, pk, r)) ==> FlowsAdvance(c, Reacted(c, pk, r'))
    ensures Reacted(c, pk, r').ab.snd == r'.ep.snd && Reacted(c, pk, r').a == r'.ep.state
  {}

  // ----- Runs -----

  ghost predicate PossibleAtEither(c: Conn, e: ConnEvent) {
    match e
    case AtA(e1) => PossibleAtA(c, e1)
    case AtB(e1) => PossibleAtA(Swap(c), e1)
  }

  ghost predicate FaithfulAtEither(c: Conn, e: ConnEvent) {
    match e
    case AtA(e1) => FaithfulAtA(c, e1)
    case AtB(e1) => FaithfulAtA(Swap(c), e1)
  }

  ghost predicate ReadyAtEither(c: Conn, e: ConnEvent) {
    match e
    case AtA(_) => Ready(c)
    case AtB(_) => Ready(Swap(c))
  }

  /** One atomic step at either end. */
  function ConnStep(c: Conn, e: ConnEvent): Conn
    requires ReadyAtEither(c, e)
  {
    match e
    case AtA(e1) => StepA(c, e1)
    case AtB(e1) => Swap(StepA(Swap(c), e1))
  }

  lemma StepAKeeps(c: Conn, e: SideEvent)
    requires ConnInv(c) && AllowedAtA(c, e)
    ensures Ready(c) && ConnInv(StepA(c, e))
  {
    hide ConnInv, AllowedAtA, StepA, Ready;
    match e
    case GetPacket(pk) => PacketKeeps(c, pk);
    case AppRecv(n) => ReadKeeps(c, n);
    case AppSend(_) => SendStepKeeps(c, e);
    case SenderTurn(_, _) => SendStepKeeps(c, e);
    case EndPauseTurn => SendStepKeeps(c, e);
    case ProbeTurn(_) => SendStepKeeps(c, e);
    case SweepTurn(_, _, _) => SendStepKeeps(c, e);
    case Close(_) => SendStepKeeps(c, e);
  }

  lemma ConnStepKeeps(c: Conn, e: ConnEvent)
    requires ConnInv(c) && PossibleAtEither(c, e) && FaithfulAtEither(c, e)
    ensures ReadyAtEither(c, e) && ConnInv(ConnStep(c, e))
  {
    hide ConnInv, PossibleAtA, FaithfulAtA, StepA, Ready, Swap;
    match e
    case AtA(e1) => StepAKeeps(c, e1);
    case AtB(e1) =>
      SwapInv(c);
      StepAKeeps(Swap(c), e1);
      SwapInv(StepA(Swap(c), e1));
  }

  ghost predicate ConnRun(c: Conn, es: seq<ConnEvent>)
    decreases |es|
  {
    es == [] || (ReadyAtEither(c, es[0]) && PossibleAtEither(c, es[0]) && ConnRun(ConnStep(c, es[0]), es[1..]))
  }

  ghost function AfterConnRun(c: Conn, es: seq<ConnEvent>): Conn
    requires ConnRun(c, es)
    decreases |es|
  {
    if es == [] then c else AfterConnRun(ConnStep(c, es[0]), es[1..])
  }

  /** A run in which every delivered segment is faithful. */
  ghost predicate FaithfulConnRun(c: Conn, es: seq<ConnEvent>)
    requires ConnRun(c, es)
    decreases |es|
  {
    es == [] || (FaithfulAtEither(c, es[0]) && FaithfulConnRun(ConnStep(c, es[0]), es[1..]))
  }

  lemma {:induction false} ConnRunKeeps(c: Conn, es: seq<ConnEvent>)
    requires ConnInv(c) && ConnRun(c, es) && FaithfulConnRun(c, es)
    ensures ConnInv(AfterConnRun(c, es))
    decreases |es|
  {
    hide ConnInv, ReadyAtEither, PossibleAtEither, FaithfulAtEither, ConnStep;
    if es != [] {
      ConnStepKeeps(c, es[0]);
      ConnRunKeeps(ConnStep(c, es[0]), es[1..]);
    }
  }

  /** Both ends established and in agreement; packets of the handshake may still be on the wire. */
  ghost predicate ConnInit(c: Conn) {
    && c.a == ESTABLISHED && c.b == ESTABLISHED
    && FlowInit(c.ab) && FlowInit(c.ba)
    && Linked(c.fromA, c.ab, c.ba) && Linked(c.fromB, c.ba, c.ab)
  }

  lemma InitialConn(c: Conn)
    requires ConnInit(c)
    ensures ConnInv(c)
  {}

  /** In every run, in both directions at once, what an application reads is a prefix of what its peer wrote. */
  lemma DuplexStreams(c: Conn, es: seq<ConnEvent>)
    requires ConnInit(c) && ConnRun(c, es) && FaithfulConnRun(c, es)
    ensures var d := AfterConnRun(c, es);
      d.ab.delivered <= d.ab.written && d.ba.delivered <= d.ba.written
    ensures forall e :: ReadyAtEither(AfterConnRun(c, es), e)
  {
    InitialConn(c);
    ConnRunKeeps(c, es);
  }

  /** FIN_WAIT_2 and TIME_WAIT: the peer has every byte written here and the FIN, and has acknowledged them all. */
  lemma FinWait2MeansReceived(c: Conn, es: seq<ConnEvent>)
    requires ConnInit(c) && ConnRun(c, es) && FaithfulConnRun(c, es)
    requires AfterConnRun(c, es).a in {FIN_WAIT_2, TIME_WAIT}
    ensures var d := AfterConnRun(c, es);
      d.ab.finTaken && d.ab.snd.una == d.ab.rcv.nxt == d.ab.DataEnd() + 1 && PeerFinished(d.b)
  {
    InitialConn(c);
    ConnRunKeeps(c, es);
    FinAcknowledged(AfterConnRun(c, es).ab);
  }

  /** CLOSE_WAIT: the peer's FIN was consumed in order, after every byte the peer wrote, and the peer closed first. */
  lemma CloseWaitMeansConsumed(c: Conn, es: seq<ConnEvent>)
    requires ConnInit(c) && ConnRun(c, es) && FaithfulConnRun(c, es) && AfterConnRun(c, es).a == CLOSE_WAIT
    ensures var d := AfterConnRun(c, es);
      d.ba.finSent && d.ba.rcv.nxt == d.ba.DataEnd() + 1 && d.ba.rcv.early == [] && Active(d.b) && !d.ab.finSent
  {
    InitialConn(c);
    ConnRunKeeps(c, es);
  }

  /** An end that went from LAST_ACK to CLOSED left a peer in TIME_WAIT that has its FIN and all its data. */
  lemma ClosedMeansTimeWait(c: Conn, es: seq<ConnEvent>)
    requires ConnInit(c) && ConnRun(c, es) && FaithfulConnRun(c, es) && AfterConnRun(c, es).a == CLOSED
    ensures var d := AfterConnRun(c, es);
      d.b == TIME_WAIT && d.ab.finTaken && d.ab.rcv.nxt == d.ab.DataEnd() + 1
  {
    InitialConn(c);
    ConnRunKeeps(c, es);
    FinAcknowledged(AfterConnRun(c, es).ab);
  }
}
