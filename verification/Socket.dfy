/** One end of a connection: the transition relation of the event handlers, and the socket that runs it. */
module Sockets {
  import opened Common
  import opened Intervals
  import opened Packets
  import opened SendBuffers
  import opened RecvBuffers

  datatype TcpState = CLOSED | SYN_SENT | SYN_RECEIVED | ESTABLISHED
                    | FIN_WAIT_1 | FIN_WAIT_2 | CLOSE_WAIT | LAST_ACK | TIME_WAIT

  datatype Endpoint = Endpoint(state: TcpState, snd: SendState, rcv: RecvState, recvStopped: bool)

  /** The socket after an event, and the packet it answers with. */
  datatype Reaction = Reaction(ep: Endpoint, reply: Option<Packet>)

  function AckPacket(seqNum: nat, ackNum: nat, wnd: nat): Packet {
    Packet(ACK, seqNum, ackNum, WndField(wnd), [])
  }

  ghost predicate Sane(ep: Endpoint) {
    |ep.rcv.ring| > 0 && ep.rcv.nbr <= ep.rcv.nxt
  }

  // ----- The event handlers -----

  /** An ACK while data may flow: take the acknowledgment, then the payload, and answer only a payload. */
  function OnAckOrData(ep: Endpoint, pk: Packet): Reaction
    requires Sane(ep)
  {
    var snd := Acked(ep.snd, pk.ackNum, pk.wnd);
    if pk.payload == [] then Reaction(ep.(snd := snd), None)
    else
      var o := Receive(ep.rcv, pk.seqNum, pk.payload);
      Reaction(ep.(snd := snd, rcv := o.state), Some(AckPacket(snd.nxt, o.ack, o.wnd)))
  }

  /** A FIN acknowledges nothing; it is consumed only in order, and always answered. */
  function OnFinPacket(ep: Endpoint, pk: Packet): Reaction {
    var snd := Acked(ep.snd, 0, pk.wnd);
    var rcv := Consume(ep.rcv, pk.seqNum);
    Reaction(ep.(snd := snd, rcv := rcv), Some(AckPacket(snd.nxt, rcv.nxt, Window(rcv))))
  }

  /** The FIN was in order: the acknowledgment passes it. */
  predicate FinConsumed(r: Reaction, pk: Packet) { r.ep.rcv.nxt == pk.seqNum + 1 }

  function OnPacket(ep: Endpoint, pk: Packet): Reaction
    requires Sane(ep)
  {
    match (ep.state, pk.flags)
    case (SYN_SENT, SYN_ACK) =>
      var snd := Acked(ep.snd, pk.ackNum, pk.wnd);
      if snd.una != snd.nxt then Reaction(ep.(snd := snd), None)
      else
        var rcv := ep.rcv.(nbr := pk.seqNum + 1, nxt := pk.seqNum + 1);
        Reaction(ep.(snd := snd, rcv := rcv), Some(AckPacket(snd.nxt, pk.seqNum + 1, Window(rcv))))
    case (SYN_RECEIVED, ACK) =>
      if pk.seqNum != ep.rcv.nxt then Reaction(ep, None)
      else
        var snd := Acked(ep.snd, pk.ackNum, pk.wnd);
        Reaction(ep.(snd := snd, state := if snd.una == snd.nxt then ESTABLISHED else SYN_RECEIVED), None)
    case (ESTABLISHED, ACK) => OnAckOrData(ep, pk)
    case (ESTABLISHED, SYN_ACK) =>
      var snd := Acked(ep.snd, pk.ackNum, pk.wnd);
      Reaction(ep.(snd := snd), Some(AckPacket(snd.nxt, ep.rcv.nxt, Window(ep.rcv))))
    case (ESTABLISHED, FIN) => Closing(OnFinPacket(ep, pk), pk)
    case (ESTABLISHED, FIN_ACK) => Closing(OnFinPacket(ep, pk), pk)
    case (CLOSE_WAIT, ACK) => OnAckOrData(ep, pk)
    case (CLOSE_WAIT, FIN) => OnFinPacket(ep, pk)
    case (FIN_WAIT_1, ACK) =>
      var r := OnAckOrData(ep, pk);
      if pk.payload == [] && pk.seqNum == ep.rcv.nxt && r.ep.snd.una == r.ep.snd.nxt
      then r.(ep := r.ep.(state := FIN_WAIT_2)) else r
    case (FIN_WAIT_2, ACK) => OnAckOrData(ep, pk)
    case (FIN_WAIT_2, FIN) =>
      var r := OnFinPacket(ep, pk);
      if FinConsumed(r, pk) then r.(ep := r.ep.(state := TIME_WAIT)) else r
    case (TIME_WAIT, FIN) => OnFinPacket(ep, pk)
    case (LAST_ACK, ACK) =>
      var snd := Acked(ep.snd, pk.ackNum, pk.wnd);
      if snd.una == snd.nxt then Reaction(ep.(snd := snd, state := CLOSED, recvStopped := true), None)
      else Reaction(ep.(snd := snd), None)
    case (_, _) => Reaction(ep, None)
  }

  /** ESTABLISHED to CLOSE_WAIT on an in-order FIN; readers are woken and turned away. */
  function Closing(r: Reaction, pk: Packet): Reaction {
    if FinConsumed(r, pk) then r.(ep := r.ep.(state := CLOSE_WAIT, recvStopped := true)) else r
  }

  /** Where vClose sends a FIN. */
  predicate Closable(s: TcpState) { s == SYN_RECEIVED || s == ESTABLISHED || s == CLOSE_WAIT }

  function AfterClose(s: TcpState): TcpState { if s == CLOSE_WAIT then LAST_ACK else FIN_WAIT_1 }

  /** vClose: one number for the FIN, queued like data. */
  function Closed(ep: Endpoint, fin: Packet, now: int): Endpoint {
    ep.(state := AfterClose(ep.state), snd := ControlSent(ep.snd, fin, now))
  }

  function FinOf(ep: Endpoint): Packet {
    Packet(FIN, ep.snd.nxt, ACK_DONT_CARE, WndField(Window(ep.rcv)), [])
  }

  /** What vRecv returns: how many bytes, or why none. */
  function RecvResult(ep: Endpoint, n: nat): Result<nat, SocketError> {
    if ep.state in {SYN_SENT, SYN_RECEIVED} then Failure(NYI)
    else if ep.state == CLOSED then Failure(CONN_NOT_EXIST)
    else if ep.state == LAST_ACK || (ep.state == CLOSE_WAIT && SizeToRead(ep.rcv) == 0) then Failure(SocketError.CLOSING)
    else if n == 0 then Success(0)
    else if ep.recvStopped then Failure(SocketError.CLOSING)
    else Success(Min(n, SizeToRead(ep.rcv)))
  }

  /** Bytes that were buffered when the FIN was consumed cannot be read any more: from then on vRecv returns an
      error whatever the buffer holds. A FIN one below RCV.NXT has the same effect without being consumed. */
  lemma UnreadIsLost(ep: Endpoint, pk: Packet, n: nat)
    requires Sane(ep) && ep.state == ESTABLISHED && pk.flags == FIN && n > 0
    ensures var ep' := OnPacket(ep, pk).ep;
      && (ep'.state == CLOSE_WAIT <==> pk.seqNum == ep.rcv.nxt || pk.seqNum + 1 == ep.rcv.nxt)
      && (ep'.state == CLOSE_WAIT ==> RecvResult(ep', n) == Failure(SocketError.CLOSING))
      && (ep'.state != CLOSE_WAIT ==> RecvResult(ep', n) == RecvResult(ep, n))
      && ep'.rcv == ep.rcv.(nxt := if pk.seqNum == ep.rcv.nxt then pk.seqNum + 1 else ep.rcv.nxt)
  {}

  // ----- The transition relation, from the state before the packet -----

  /** An acknowledgment moves SND.UNA up to it if it is acceptable, and no other pointer. */
  lemma AckedNxt(s: SendState, ackNum: nat, wnd: nat)
    ensures var s' := Acked(s, ackNum, wnd);
      s'.nxt == s.nxt && s'.nbw == s.nbw && (InOrder(s) ==> s'.una == if s.una <= ackNum <= s.nxt then ackNum else s.una)
  {}

  /** After the packet's acknowledgment nothing that was sent is unacknowledged. */
  predicate AcksAll(ep: Endpoint, pk: Packet) {
    ep.snd.una == ep.snd.nxt || pk.ackNum == ep.snd.nxt
  }

  /** A FIN at RCV.NXT, or one just below it that was consumed before. */
  predicate FinTaken(ep: Endpoint, pk: Packet) {
    pk.seqNum == ep.rcv.nxt || pk.seqNum + 1 == ep.rcv.nxt
  }

  /** Which packet moves which state, and where; any other leaves the state alone. */
  lemma StateMoves(ep: Endpoint, pk: Packet)
    requires Sane(ep) && InOrder(ep.snd)
    ensures OnPacket(ep, pk).ep.state ==
      match ep.state
      case SYN_RECEIVED => if pk.flags == ACK && pk.seqNum == ep.rcv.nxt && AcksAll(ep, pk) then ESTABLISHED else SYN_RECEIVED
      case ESTABLISHED => if (pk.flags == FIN || pk.flags == FIN_ACK) && FinTaken(ep, pk) then CLOSE_WAIT else ESTABLISHED
      case FIN_WAIT_1 =>
        if pk.flags == ACK && pk.payload == [] && pk.seqNum == ep.rcv.nxt && AcksAll(ep, pk) then FIN_WAIT_2 else FIN_WAIT_1
      case FIN_WAIT_2 => if pk.flags == FIN && FinTaken(ep, pk) then TIME_WAIT else FIN_WAIT_2
      case LAST_ACK => if pk.flags == ACK && AcksAll(ep, pk) then CLOSED else LAST_ACK
      case _ => ep.state
  {
    hide Receive, Window, Acked;
    AckedNxt(ep.snd, pk.ackNum, pk.wnd);
  }

  /** The states that take data. */
  predicate TakesPayload(s: TcpState) { s == ESTABLISHED || s == FIN_WAIT_1 || s == FIN_WAIT_2 || s == CLOSE_WAIT }

  /** The packets that are answered: a SYN-ACK, data and FINs, in the states that take them. */
  predicate Answered(ep: Endpoint, pk: Packet) {
    match pk.flags
    case SYN => false
    case SYN_ACK => ep.state == ESTABLISHED || (ep.state == SYN_SENT && AcksAll(ep, pk))
    case ACK => pk.payload != [] && TakesPayload(ep.state)
    case FIN => ep.state == ESTABLISHED || ep.state == FIN_WAIT_2 || ep.state == CLOSE_WAIT || ep.state == TIME_WAIT
    case FIN_ACK => ep.state == ESTABLISHED
  }

  /** The answer acknowledges everything up to the new RCV.NXT, from the own next number, and carries nothing else. */
  ghost predicate RightAnswer(ep: Endpoint, r: Reaction) {
    r.reply.Some? ==> r.reply.value == Packet(ACK, ep.snd.nxt, r.ep.rcv.nxt, r.reply.value.wnd, []) && r.ep.snd.nxt == ep.snd.nxt
  }

  /** An ACK in a state that takes data, and in any other. */
  lemma AckHandled(ep: Endpoint, pk: Packet)
    requires Sane(ep) && pk.flags == ACK
    ensures var r, o := OnPacket(ep, pk), OnAckOrData(ep, pk);
      if TakesPayload(ep.state) then r.ep.snd == o.ep.snd && r.ep.rcv == o.ep.rcv && r.reply == o.reply
      else r.ep.rcv == ep.rcv && r.reply == None
  {
    hide OnAckOrData, Acked;
  }

  lemma DataHandled(ep: Endpoint, pk: Packet)
    requires Sane(ep)
    ensures var o := OnAckOrData(ep, pk);
      && o.ep.snd.nxt == ep.snd.nxt && RightAnswer(ep, o) && (o.reply.Some? <==> pk.payload != [])
      && o.ep.rcv == if pk.payload == [] then ep.rcv else Receive(ep.rcv, pk.seqNum, pk.payload).state
  {
    hide Receive, Acked;
    AckIsNxt(ep.rcv, pk.seqNum, pk.payload);
    AckedNxt(ep.snd, pk.ackNum, pk.wnd);
  }

  lemma AnswersData(ep: Endpoint, pk: Packet)
    requires Sane(ep) && pk.flags == ACK
    ensures (OnPacket(ep, pk).reply.Some? <==> Answered(ep, pk)) && RightAnswer(ep, OnPacket(ep, pk))
  {
    hide OnPacket, OnAckOrData;
    AckHandled(ep, pk);
    DataHandled(ep, pk);
  }

  lemma AnswersFin(ep: Endpoint, pk: Packet)
    requires Sane(ep) && (pk.flags == FIN || pk.flags == FIN_ACK)
    ensures (OnPacket(ep, pk).reply.Some? <==> Answered(ep, pk)) && RightAnswer(ep, OnPacket(ep, pk))
  {
    hide Acked, Consume, Window;
    AckedNxt(ep.snd, 0, pk.wnd);
  }

  lemma AnswersSyn(ep: Endpoint, pk: Packet)
    requires Sane(ep) && InOrder(ep.snd) && (pk.flags == SYN || pk.flags == SYN_ACK)
    ensures (OnPacket(ep, pk).reply.Some? <==> Answered(ep, pk)) && RightAnswer(ep, OnPacket(ep, pk))
  {
    hide Acked, Window;
    AckedNxt(ep.snd, pk.ackNum, pk.wnd);
  }

  /** Which packets are answered, and how. */
  lemma Answers(ep: Endpoint, pk: Packet)
    requires Sane(ep) && InOrder(ep.snd)
    ensures OnPacket(ep, pk).reply.Some? <==> Answered(ep, pk)
    ensures RightAnswer(ep, OnPacket(ep, pk))
  {
    hide OnPacket, Answered, RightAnswer;
    match pk.flags
    case ACK => AnswersData(ep, pk);
    case FIN => AnswersFin(ep, pk);
    case FIN_ACK => AnswersFin(ep, pk);
    case SYN => AnswersSyn(ep, pk);
    case SYN_ACK => AnswersSyn(ep, pk);
  }

  /** What an answer offers: the free space after the packet, exactly; for data it may be more, by early bytes that the
      packet completed, but not if there were none, and never more than was free before. */
  lemma AnswerOffers(ep: Endpoint, pk: Packet)
    requires Sane(ep) && InOrder(ep.snd) && RecvInv(ep.rcv) && |ep.rcv.ring| < 0x1_0000
    requires pk.flags == ACK ==> Faithful(ep.rcv, pk.seqNum, |pk.payload|)
    requires OnPacket(ep, pk).reply.Some?
    ensures var wnd, rcv := OnPacket(ep, pk).reply.value.wnd, OnPacket(ep, pk).ep.rcv;
      var free := rcv.nbr + |rcv.ring| - rcv.nxt;
      && (pk.flags != ACK && free >= 0 ==> wnd == free)
      && (pk.flags == ACK ==> free <= wnd <= ep.rcv.nbr + |ep.rcv.ring| - ep.rcv.nxt && (ep.rcv.early == [] ==> wnd == free))
  {
    hide OnPacket, Acked, Receive, Faithful, Window, RecvInv;
    if pk.flags == ACK {
      DataOffers(ep, pk);
    } else {
      OtherOffers(ep, pk);
      FieldIsFree(OnPacket(ep, pk).ep.rcv);
    }
  }

  lemma OtherOffers(ep: Endpoint, pk: Packet)
    requires Sane(ep) && pk.flags != ACK && OnPacket(ep, pk).reply.Some?
    ensures var rcv := OnPacket(ep, pk).ep.rcv;
      OnPacket(ep, pk).reply.value.wnd == WndField(Window(rcv)) && rcv.nbr <= rcv.nxt && |rcv.ring| == |ep.rcv.ring|
  {
    hide Acked, Window, WndField;
  }

  lemma FieldIsFree(r: RecvState)
    requires r.nbr <= r.nxt && |r.ring| < 0x1_0000
    ensures var free := r.nbr + |r.ring| - r.nxt; free >= 0 ==> WndField(Window(r)) == free
  {
    if r.nxt <= r.nbr + |r.ring| {
      SizesExact(r);
    }
  }

  lemma DataOffers(ep: Endpoint, pk: Packet)
    requires Sane(ep) && pk.flags == ACK && OnPacket(ep, pk).reply.Some?
    requires RecvInv(ep.rcv) && |ep.rcv.ring| < 0x1_0000 && Faithful(ep.rcv, pk.seqNum, |pk.payload|)
    ensures var wnd, rcv := OnPacket(ep, pk).reply.value.wnd, OnPacket(ep, pk).ep.rcv;
      var free := rcv.nbr + |rcv.ring| - rcv.nxt;
      free <= wnd <= ep.rcv.nbr + |ep.rcv.ring| - ep.rcv.nxt && (ep.rcv.early == [] ==> wnd == free)
  {
    hide Receive, Acked, Window, Faithful, RecvInv;
    WindowBetween(ep.rcv, pk.seqNum, pk.payload);
  }

  /** A FIN offers the free space as well. */
  lemma FinOffers(ep: Endpoint)
    requires RecvInv(ep.rcv) && |ep.rcv.ring| < 0x1_0000
    ensures FinOf(ep).wnd == ep.rcv.nbr + |ep.rcv.ring| - ep.rcv.nxt
  {
    SizesExact(ep.rcv);
  }

  /** Where an acknowledgment number is looked at. */
  predicate TakesAckOf(ep: Endpoint, pk: Packet) {
    match ep.state
    case SYN_SENT => pk.flags == SYN_ACK
    case SYN_RECEIVED => pk.flags == ACK && pk.seqNum == ep.rcv.nxt
    case ESTABLISHED => pk.flags == ACK || pk.flags == SYN_ACK
    case LAST_ACK => pk.flags == ACK
    case _ => pk.flags == ACK && TakesPayload(ep.state)
  }

  lemma SndHandled(ep: Endpoint, pk: Packet)
    requires Sane(ep)
    ensures OnPacket(ep, pk).ep.snd ==
      if TakesAckOf(ep, pk) then Acked(ep.snd, pk.ackNum, pk.wnd)
      else if (pk.flags == FIN || pk.flags == FIN_ACK) && Answered(ep, pk) then Acked(ep.snd, 0, pk.wnd)
      else ep.snd
  {
    hide Acked, Receive, Consume, Window;
  }

  /** The acknowledgments that are taken move SND.UNA up to them; in every other case it stays. */
  lemma TakesAcks(ep: Endpoint, pk: Packet)
    requires Sane(ep) && InOrder(ep.snd)
    ensures OnPacket(ep, pk).ep.snd.una ==
      if TakesAckOf(ep, pk) && ep.snd.una <= pk.ackNum <= ep.snd.nxt then pk.ackNum else ep.snd.una
  {
    hide OnPacket, Acked, TakesAckOf, Answered;
    SndHandled(ep, pk);
    AckedNxt(ep.snd, pk.ackNum, pk.wnd);
    AckedNxt(ep.snd, 0, pk.wnd);
  }

  /** Data is taken, position by position, in the four states that allow it, and in no other. */
  lemma TakesData(ep: Endpoint, pk: Packet, p: nat)
    requires Sane(ep) && RecvInv(ep.rcv) && pk.flags == ACK && pk.payload != [] && Faithful(ep.rcv, pk.seqNum, |pk.payload|)
    ensures var edge := ep.rcv.nbr + |ep.rcv.ring|;
      Holds(OnPacket(ep, pk).ep.rcv, p) <==>
        || Holds(ep.rcv, p)
        || (&& TakesPayload(ep.state)
            && ep.rcv.nxt <= p < edge && pk.seqNum <= p < pk.seqNum + |pk.payload| && Max(ep.rcv.nxt, pk.seqNum) + 1 < edge)
  {
    hide OnPacket, OnAckOrData, Receive, Holds, Faithful, RightAnswer;
    AckHandled(ep, pk);
    DataHandled(ep, pk);
    SegmentStored(ep.rcv, pk.seqNum, pk.payload, p);
  }

  /** Closing is for sending: an end that has closed reads on as before, through FIN_WAIT_1 and FIN_WAIT_2, whatever
      acknowledgments come. */
  lemma CloseKeepsReading(ep: Endpoint, fin: Packet, now: int, pk: Packet, n: nat)
    requires Sane(ep) && InOrder(ep.snd) && ep.state == ESTABLISHED && pk.flags == ACK && pk.payload == []
    ensures var closed := Closed(ep, fin, now);
      && RecvResult(closed, n) == RecvResult(ep, n)
      && RecvResult(OnPacket(closed, pk).ep, n) == RecvResult(ep, n)
  {}

  /** The peer's FIN ends reading at an end that has not closed, and not at one that has: in TIME_WAIT what is buffered
      can be read. */
  lemma FinAndReading(ep: Endpoint, pk: Packet, n: nat)
    requires Sane(ep) && pk.flags == FIN && pk.seqNum == ep.rcv.nxt && n > 0 && !ep.recvStopped
    ensures ep.state == ESTABLISHED ==> RecvResult(OnPacket(ep, pk).ep, n) == Failure(SocketError.CLOSING)
    ensures ep.state == FIN_WAIT_2 ==> RecvResult(OnPacket(ep, pk).ep, n) == Success(Min(n, SizeToRead(OnPacket(ep, pk).ep.rcv)))
  {}

  // ----- The class -----

  class NormalSocket {
    var state: TcpState
    const sendBuffer: SendBuffer
    const recvBuffer: RecvBuffer

    ghost predicate Valid() {
      && sendBuffer.Valid() && recvBuffer.Valid()
      && sendBuffer.ring.buf != recvBuffer.ring.buf
    }

    ghost function State(): Endpoint
      reads this, sendBuffer, sendBuffer.ring.buf, sendBuffer.retransmitQueue
      reads recvBuffer, recvBuffer.ring.buf, recvBuffer.earlyArrivals
    {
      Endpoint(state, sendBuffer.State(), recvBuffer.State(), recvBuffer.stopped)
    }

    /** No number the handlers form wraps. */
    ghost predicate NoWrap(pk: Packet)
      reads sendBuffer, recvBuffer, recvBuffer.earlyArrivals
    {
      && pk.ackNum < U32 && pk.wnd < 0x1_0000
      && recvBuffer.nxt + 1 < U32 && recvBuffer.nbr <= recvBuffer.nxt && Separated(recvBuffer.earlyArrivals.intervals)
      && recvBuffer.NoWrap(pk.seqNum + |pk.payload|) && recvBuffer.NoWrap(recvBuffer.nbr + recvBuffer.ring.N)
    }

    constructor (sendSize: nat, recvSize: nat, isn: u32, windowSize: u32, rcvNxt: u32)
      requires 0 < sendSize && 0 < recvSize < U32
      ensures Valid() && fresh(sendBuffer) && fresh(recvBuffer)
      ensures State() == Endpoint(CLOSED, InitialSend(sendBuffer.ring.buf[..], isn, windowSize),
                                  RecvState(recvBuffer.ring.buf[..], rcvNxt, rcvNxt, []), false)
    {
      state := CLOSED;
      sendBuffer := new SendBuffer(sendSize, isn, windowSize);
      recvBuffer := new RecvBuffer(recvSize, rcvNxt);
    }

    method HandleAckOrData(pk: Packet) returns (reply: Option<Packet>)
      requires Valid() && NoWrap(pk)
      modifies sendBuffer, sendBuffer.retransmitQueue, recvBuffer, recvBuffer.ring.buf, recvBuffer.earlyArrivals
      ensures Reaction(State(), reply) == OnAckOrData(old(State()), pk)
    {
      var una, nxt := sendBuffer.OnAck(pk.ackNum, pk.wnd);
      if pk.payload == [] {
        return None;
      }
      var ack, wnd := recvBuffer.OnRecv(pk.seqNum, pk.payload);
      reply := Some(Packet(ACK, nxt, ack, wnd % 0x1_0000, []));
    }

    method HandleFinPacket(pk: Packet) returns (reply: Option<Packet>, ack: u32)
      requires Valid() && NoWrap(pk)
      modifies sendBuffer, sendBuffer.retransmitQueue, recvBuffer
      ensures Reaction(State(), reply) == OnFinPacket(old(State()), pk) && ack == recvBuffer.nxt
    {
      var una, nxt := sendBuffer.OnAck(0, pk.wnd);
      var wnd;
      ack, wnd := recvBuffer.OnCtrl(pk.seqNum);
      reply := Some(Packet(ACK, nxt, ack, wnd % 0x1_0000, []));
    }

    /** Dispatches a packet to the handler for the current state. */
    method HandlePacket(pk: Packet) returns (reply: Option<Packet>)
      requires Valid() && NoWrap(pk)
      modifies this, sendBuffer, sendBuffer.retransmitQueue, recvBuffer, recvBuffer.ring.buf, recvBuffer.earlyArrivals
      ensures Reaction(State(), reply) == OnPacket(old(State()), pk)
    {
      reply := None;
      match (state, pk.flags)
      case (SYN_SENT, SYN_ACK) =>
        reply := HandleSynAck(pk);
      case (SYN_RECEIVED, ACK) =>
        HandleLastHandshakeAck(pk);
      case (ESTABLISHED, SYN_ACK) =>
        var una, nxt := sendBuffer.OnAck(pk.ackNum, pk.wnd);
        var ack, wnd := recvBuffer.GetAckWnd();
        reply := Some(Packet(ACK, nxt, ack, wnd % 0x1_0000, []));
      case (ESTABLISHED, FIN) =>
        reply := HandlePassiveFin(pk);
      case (ESTABLISHED, FIN_ACK) =>
        reply := HandlePassiveFin(pk);
      case (FIN_WAIT_2, FIN) =>
        var ack;
        reply, ack := HandleFinPacket(pk);
        if ack == pk.seqNum + 1 {
          state := TIME_WAIT;
        }
      case (CLOSE_WAIT, FIN) =>
        var ack;
        reply, ack := HandleFinPacket(pk);
      case (TIME_WAIT, FIN) =>
        var ack;
        reply, ack := HandleFinPacket(pk);
      case (ESTABLISHED, ACK) =>
        reply := HandleAckOrData(pk);
      case (CLOSE_WAIT, ACK) =>
        reply := HandleAckOrData(pk);
      case (FIN_WAIT_2, ACK) =>
        reply := HandleAckOrData(pk);
      case (FIN_WAIT_1, ACK) =>
        reply := HandleFinAcknowledged(pk);
      case (LAST_ACK, ACK) =>
        var una, nxt := sendBuffer.OnAck(pk.ackNum, pk.wnd);
        if una == nxt {
          recvBuffer.Shutdown();
          state := CLOSED;
        }
      case (_, _) =>
    }

    method HandleSynAck(pk: Packet) returns (reply: Option<Packet>)
      requires Valid() && NoWrap(pk) && state == SYN_SENT && pk.flags == SYN_ACK
      modifies sendBuffer, sendBuffer.retransmitQueue, recvBuffer
      ensures Reaction(State(), reply) == OnPacket(old(State()), pk)
    {
      var una, nxt := sendBuffer.OnAck(pk.ackNum, pk.wnd);
      if una != nxt {
        return None;
      }
      recvBuffer.SetPointersNoLock(pk.seqNum + 1);
      var ack, wnd := recvBuffer.GetAckWnd();
      reply := Some(Packet(ACK, nxt, pk.seqNum + 1, wnd % 0x1_0000, []));
    }

    method HandleLastHandshakeAck(pk: Packet)
      requires Valid() && NoWrap(pk) && state == SYN_RECEIVED && pk.flags == ACK
      modifies `state, sendBuffer, sendBuffer.retransmitQueue
      ensures Reaction(State(), None) == OnPacket(old(State()), pk)
    {
      if pk.seqNum != recvBuffer.nxt {
        return;
      }
      var una, nxt := sendBuffer.OnAck(pk.ackNum, pk.wnd);
      if una == nxt {
        state := ESTABLISHED;
      }
    }

    method HandlePassiveFin(pk: Packet) returns (reply: Option<Packet>)
      requires Valid() && NoWrap(pk) && state == ESTABLISHED && (pk.flags == FIN || pk.flags == FIN_ACK)
      modifies `state, sendBuffer, sendBuffer.retransmitQueue, recvBuffer
      ensures Reaction(State(), reply) == OnPacket(old(State()), pk)
    {
      var ack;
      reply, ack := HandleFinPacket(pk);
      if ack == pk.seqNum + 1 {
        recvBuffer.Shutdown();
        state := CLOSE_WAIT;
      }
    }

    method HandleFinAcknowledged(pk: Packet) returns (reply: Option<Packet>)
      requires Valid() && NoWrap(pk) && state == FIN_WAIT_1 && pk.flags == ACK
      modifies `state, sendBuffer, sendBuffer.retransmitQueue, recvBuffer, recvBuffer.ring.buf, recvBuffer.earlyArrivals
      ensures Reaction(State(), reply) == OnPacket(old(State()), pk)
    {
      if pk.payload != [] {
        reply := HandleAckOrData(pk);
        return;
      }
      var una, nxt := sendBuffer.OnAck(pk.ackNum, pk.wnd);
      reply := None;
      if pk.seqNum == recvBuffer.nxt && una == nxt {
        state := FIN_WAIT_2;
      }
    }

    /** vRecv; the wait for a byte to read is over. */
    method Recv(buff: array<byte>, n: nat) returns (r: Result<nat, SocketError>)
      requires Valid() && buff != recvBuffer.ring.buf && buff != sendBuffer.ring.buf && n <= buff.Length
      requires state in {ESTABLISHED, FIN_WAIT_1, FIN_WAIT_2, TIME_WAIT} ==>
                 n == 0 || SizeToRead(State().rcv) > 0 || recvBuffer.stopped
      requires Min(n, SizeToRead(State().rcv)) <= recvBuffer.ring.N && recvBuffer.nbr + Min(n, SizeToRead(State().rcv)) < U32
      modifies recvBuffer`nbr, buff
      ensures r == RecvResult(old(State()), n)
      ensures State() == if r.Success? then old(State()).(rcv := AfterRead(old(State()).rcv, n)) else old(State())
      ensures r.Success? ==> buff[..r.value] == ReadBytes(old(State()).rcv, n)
      ensures r.Failure? ==> buff[..] == old(buff[..])
    {
      match state
      case SYN_SENT => r := Failure(NYI);
      case SYN_RECEIVED => r := Failure(NYI);
      case CLOSED => r := Failure(CONN_NOT_EXIST);
      case LAST_ACK => r := Failure(SocketError.CLOSING);
      case CLOSE_WAIT =>
        if (recvBuffer.nxt - recvBuffer.nbr) % U32 == 0 {
          r := Failure(SocketError.CLOSING);
        } else {
          r := recvBuffer.ReadAtMostNBytes(buff, n);
        }
      case _ => r := recvBuffer.ReadAtMostNBytes(buff, n);
    }

    /** vClose where it sends a FIN. */
    method CloseWithFin(now: int) returns (fin: Packet)
      requires Valid() && Closable(state)
      requires sendBuffer.nbw + 1 < U32 && sendBuffer.nxt + 1 < U32
      requires var d := sendBuffer.retransmitQueue.deque; d == [] || d[|d| - 1].packet.EndExclusive() <= sendBuffer.nxt
      modifies `state, sendBuffer, sendBuffer.retransmitQueue
      ensures fin == FinOf(old(State())) && State() == Closed(old(State()), fin, now)
    {
      var ack, wnd := recvBuffer.GetAckWnd();
      fin := Packet(FIN, sendBuffer.nxt, ACK_DONT_CARE, wnd % 0x1_0000, []);
      sendBuffer.WriteAndSendOne();
      sendBuffer.retransmitQueue.EnqueuePacket(fin, now);
      state := if state == CLOSE_WAIT then LAST_ACK else FIN_WAIT_1;
    }
  }
}
