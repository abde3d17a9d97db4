/** The send buffer: bytes in flight [una, nxt), bytes not yet sent [nxt, nbw), and zero-window probing. */
module SendBuffers {
  import opened Common
  import opened RingBuffers
  import opened Packets
  import opened RetransmissionQueues

  datatype Probing = PAUSE | COUNTDOWN | WAITACK

  /** A snapshot of the send buffer and its retransmission queue. */
  datatype SendState = SendState(ring: seq<byte>, una: nat, nxt: nat, nbw: nat, wnd: nat,
                                 probing: Probing, probeSeq: nat, queue: QueueState)

  // ----- Specification: one function for each section run under the buffer's mutex -----

  function InitialSend(ring: seq<byte>, isn: nat, wnd: nat): SendState {
    SendState(ring, isn, isn, isn, wnd, PAUSE, 0, QueueState([], None))
  }

  function SizeUnacked(s: SendState): int { s.nxt - s.una }

  function SizeNotSent(s: SendState): int { s.nbw - s.nxt }

  function SizeCanSend(s: SendState): int {
    if s.wnd > SizeUnacked(s) then Min(s.wnd - SizeUnacked(s), SizeNotSent(s)) else 0
  }

  function SizeFree(s: SendState): int { |s.ring| - (s.nbw - s.una) }

  /** The right edge used to hold back retransmissions; the sum is a 32-bit one. */
  function WndEndExclusive(s: SendState): nat { (s.una + s.wnd) % U32 }

  ghost predicate InOrder(s: SendState) {
    0 < |s.ring| && s.una <= s.nxt <= s.nbw
  }

  /** In order, and within the ring. */
  ghost predicate Pointers(s: SendState) {
    InOrder(s) && s.nbw <= s.una + |s.ring|
  }

  /** How many of `len` bytes one pass of write stores. */
  function Taken(s: SendState, len: nat): nat {
    WriteCount(s.nbw, s.nbw + SizeFree(s) - 1, len)
  }

  function WriteChunk(s: SendState, data: seq<byte>): SendState
    requires InOrder(s)
  {
    var n := Taken(s, |data|);
    s.(ring := Stored(s.ring, s.nbw, data[..n]), nbw := s.nbw + n)
  }

  /** SND.UNA after an acknowledgment: only one in (una, nxt] is acceptable. */
  function AckedUpTo(una: nat, nxt: nat, ackNum: nat): nat {
    if ackNum <= una || ackNum > nxt then una else ackNum
  }

  function Acked(s: SendState, ackNum: nat, wndSize: nat): SendState {
    var probed := s.probing == WAITACK && ackNum > s.probeSeq;
    var s1 :=
      if ackNum < s.una then s
      else s.(wnd := wndSize,
              probing := if probed then PAUSE else s.probing,
              queue := if s.probing == WAITACK && !probed && wndSize > 0 then ResetProbeCounter(s.queue) else s.queue);
    if ackNum <= s.una || ackNum > s.nxt then s1
    else s1.(una := ackNum, queue := Acknowledge(s1.queue, ackNum))
  }

  /** The bytes one pass of the sender takes, at most `max` of them. */
  function ReadyBytes(s: SendState, max: nat): seq<byte>
    requires InOrder(s)
  {
    Span(s.ring, s.nxt, Min(SizeCanSend(s), max))
  }

  function AfterSend(s: SendState, max: nat): SendState
    requires InOrder(s)
  {
    var n := Min(SizeCanSend(s), max);
    s.(wnd := s.wnd - n, nxt := s.nxt + n)
  }

  function DataPacket(s: SendState, max: nat, ackNum: nat, wnd: nat): Packet
    requires InOrder(s)
  {
    Packet(ACK, s.nxt, ackNum, wnd, ReadyBytes(s, max))
  }

  /** One turn of the sender loop: take bytes, queue them for retransmission, send them. */
  function Transmitted(s: SendState, max: nat, ackNum: nat, wnd: nat, now: int): SendState
    requires InOrder(s)
  {
    AfterSend(s, max).(queue := Enqueue(s.queue, DataPacket(s, max, ackNum, wnd), now))
  }

  function PauseEnded(s: SendState): SendState { s.(probing := COUNTDOWN) }

  /** The countdown ends with a probe only if the window is still shut and there is a byte to probe with. */
  predicate ProbeDue(s: SendState) { s.wnd == 0 && SizeNotSent(s) > 0 }

  function ProbePacket(s: SendState, ackNum: nat, wnd: nat): Packet
    requires InOrder(s)
  {
    Packet(ACK, s.nxt, ackNum, wnd, [At(s.ring, s.nxt)])
  }

  function CountdownEnded(s: SendState, ackNum: nat, wnd: nat, now: int): SendState
    requires InOrder(s)
  {
    if !ProbeDue(s) then s.(probing := PAUSE)
    else s.(probing := WAITACK, probeSeq := s.nxt, nxt := s.nxt + 1,
            queue := EnqueueProbe(s.queue, ProbePacket(s, ackNum, wnd), now))
  }

  /** What SYN and FIN do to the pointers: one number, no byte. */
  function OneWrittenAndSent(s: SendState): SendState { s.(nbw := s.nbw + 1, nxt := s.nxt + 1) }

  /** A SYN or FIN queued for retransmission. */
  function ControlSent(s: SendState, packet: Packet, now: int): SendState {
    OneWrittenAndSent(s).(queue := Enqueue(s.queue, packet, now))
  }

  // ----- Writing -----

  /** A pass of write makes progress exactly when at least two slots are free: with one free slot
      the loop in write spins without storing anything. */
  lemma WriteProgress(s: SendState, data: seq<byte>)
    requires Pointers(s) && data != []
    ensures Taken(s, |data|) == if SizeFree(s) >= 2 then Min(SizeFree(s), |data|) else 0
    ensures Pointers(WriteChunk(s, data))
    ensures Taken(s, |data|) > 0 <==> SizeFree(s) >= 2
  {}

  // ----- Flow control -----

  /** One atomic step of the sending side; the peer's acknowledgments never run ahead of nxt. */
  datatype SendEvent =
    | Write(data: seq<byte>)
    | Transmit(max: nat, ackNum: nat, wnd: nat, now: int)
    | GotAck(ackNum: nat, wnd: nat)
    | EndPause
    | EndCountdown(ackNum: nat, wnd: nat, now: int)

  ghost predicate Enabled(s: SendState, e: SendEvent)
  {
    match e
    case Write(data) => data != [] && SizeFree(s) > 0
    case Transmit(max, _, _, _) => max > 0 && SizeCanSend(s) > 0
    case GotAck(ackNum, _) => ackNum <= s.nxt
    case EndPause => s.probing == PAUSE && s.wnd == 0
    case EndCountdown(_, _, _) => s.probing == COUNTDOWN
  }

  /** Every step keeps the pointers ordered within the ring. */
  function SendStep(s: SendState, e: SendEvent): (s': SendState)
    requires Pointers(s)
    ensures Pointers(s')
  {
    match e
    case Write(data) => WriteChunk(s, data)
    case Transmit(max, ackNum, wnd, now) => Transmitted(s, max, ackNum, wnd, now)
    case GotAck(ackNum, wnd) => Acked(s, ackNum, wnd)
    case EndPause => PauseEnded(s)
    case EndCountdown(ackNum, wnd, now) => CountdownEnded(s, ackNum, wnd, now)
  }

  /** The furthest right edge offered so far, after one more step. */
  function Offered(s: SendState, edge: nat, e: SendEvent): nat {
    match e
    case GotAck(ackNum, wnd) => if ackNum >= s.una then Max(edge, ackNum + wnd) else edge
    case _ => edge
  }

  /** The window never reaches past what was offered, and nxt only by one outstanding probe byte. */
  ghost predicate WithinOffer(s: SendState, edge: nat) {
    && s.una + s.wnd <= edge
    && (s.nxt <= edge || (s.probing == WAITACK && s.nxt == s.probeSeq + 1 == edge + 1))
  }

  lemma FlowControlStep(s: SendState, edge: nat, e: SendEvent)
    requires Pointers(s) && WithinOffer(s, edge) && Enabled(s, e)
    ensures Pointers(SendStep(s, e)) && WithinOffer(SendStep(s, e), Offered(s, edge, e))
    ensures s.una <= SendStep(s, e).una && s.nxt <= SendStep(s, e).nxt && s.nbw <= SendStep(s, e).nbw
  {}

  /** A run of the sending side: every event enabled where it happens. */
  ghost predicate SendRun(s: SendState, events: seq<SendEvent>)
    requires Pointers(s)
    decreases |events|
  {
    events == [] || (Enabled(s, events[0]) && SendRun(SendStep(s, events[0]), events[1..]))
  }

  ghost function AfterSendRun(s: SendState, events: seq<SendEvent>): SendState
    requires Pointers(s) && SendRun(s, events)
    decreases |events|
  {
    if events == [] then s else AfterSendRun(SendStep(s, events[0]), events[1..])
  }

  ghost function OfferedInRun(s: SendState, edge: nat, events: seq<SendEvent>): nat
    requires Pointers(s) && SendRun(s, events)
    decreases |events|
  {
    if events == [] then edge else OfferedInRun(SendStep(s, events[0]), Offered(s, edge, events[0]), events[1..])
  }

  /** Flow control in every run: the pointers stay ordered within the ring, and nothing beyond the furthest
      edge ever offered is sent except one outstanding zero-window probe byte. */
  lemma {:induction false} FlowControl(ring: seq<byte>, isn: nat, wnd: nat, events: seq<SendEvent>)
    requires |ring| > 0 && SendRun(InitialSend(ring, isn, wnd), events)
    ensures var s := AfterSendRun(InitialSend(ring, isn, wnd), events);
      var edge := OfferedInRun(InitialSend(ring, isn, wnd), isn + wnd, events);
      Pointers(s) && WithinOffer(s, edge) && s.nxt <= edge + 1
  {
    FlowControlFrom(InitialSend(ring, isn, wnd), isn + wnd, events);
  }

  lemma {:induction false} FlowControlFrom(s: SendState, edge: nat, events: seq<SendEvent>)
    requires Pointers(s) && SendRun(s, events) && WithinOffer(s, edge)
    ensures Pointers(AfterSendRun(s, events)) && WithinOffer(AfterSendRun(s, events), OfferedInRun(s, edge, events))
    decreases |events|
  {
    if events != [] {
      FlowControlStep(s, edge, events[0]);
      FlowControlFrom(SendStep(s, events[0]), Offered(s, edge, events[0]), events[1..]);
    }
  }

  // ----- What an acknowledgment and a probe are for -----

  /** After an acknowledgment the sender may send exactly what is unsent and lies left of the edge it offers; an old
      one changes nothing. */
  lemma SendableAfterAck(s: SendState, ackNum: nat, wnd: nat)
    requires InOrder(s)
    ensures s.una <= ackNum <= s.nxt ==> SizeCanSend(Acked(s, ackNum, wnd)) == Max(0, Min(ackNum + wnd, s.nbw) - s.nxt)
    ensures ackNum < s.una ==> Acked(s, ackNum, wnd) == s
    ensures ackNum > s.nxt ==> Acked(s, ackNum, wnd).una == s.una && Acked(s, ackNum, wnd).wnd == wnd
  {}

  /** What an acceptable acknowledgment covers entirely is not retransmitted again, and everything else still is. */
  lemma AckedQueue(s: SendState, ackNum: nat, wnd: nat, e: Entry)
    requires Ordered(s.queue.deque) && s.una < ackNum <= s.nxt
    ensures e in Acked(s, ackNum, wnd).queue.deque <==> e in s.queue.deque && ackNum < e.packet.EndExclusive()
    ensures var z := s.queue.zwp;
      Acked(s, ackNum, wnd).queue.zwp.Some? <==> z.Some? && ackNum < z.value.packet.EndExclusive()
  {
    var k := UnackedSuffix(s.queue.deque, ackNum);
  }

  /** A shut window with bytes waiting: the next byte goes out as a probe, and the acknowledgment of the probe lets the
      sender use whatever window it offers. */
  lemma ZeroWindowRecovers(s: SendState, ackNum: nat, wndField: nat, now: int, wnd: nat)
    requires InOrder(s) && s.wnd == 0 && s.nxt < s.nbw && s.probing == PAUSE
    ensures var probing := CountdownEnded(PauseEnded(s), ackNum, wndField, now);
      && probing.probing == WAITACK && probing.nxt == s.nxt + 1
      && probing.queue.zwp == Some(Entry(Packet(ACK, s.nxt, ackNum, wndField, [At(s.ring, s.nxt)]), now, 0))
    ensures var answered := Acked(CountdownEnded(PauseEnded(s), ackNum, wndField, now), s.nxt + 1, wnd);
      && answered.probing == PAUSE && answered.queue.zwp == None && answered.una == s.nxt + 1
      && SizeCanSend(answered) == Min(wnd, s.nbw - s.nxt - 1)
  {}

  /** Without bytes waiting, or with the window open again, no probe is sent. */
  lemma NoNeedToProbe(s: SendState, ackNum: nat, wndField: nat, now: int)
    requires InOrder(s) && (s.wnd > 0 || s.nxt == s.nbw)
    ensures CountdownEnded(s, ackNum, wndField, now) == s.(probing := PAUSE)
  {}

  /** An acknowledgment that does not cover the probe leaves it pending; one that opens the window starts its
      retransmission timer over. */
  lemma ProbeUnanswered(s: SendState, ackNum: nat, wnd: nat)
    requires InOrder(s) && s.probing == WAITACK && s.una <= ackNum <= s.probeSeq < s.nxt
    requires s.queue.zwp.Some? && s.queue.zwp.value.packet.EndExclusive() == s.probeSeq + 1
    ensures var z, z' := s.queue.zwp.value, Acked(s, ackNum, wnd).queue.zwp;
      && Acked(s, ackNum, wnd).probing == WAITACK
      && z' == Some(Entry(z.packet, z.lastSent, if wnd > 0 then 0 else z.counter))
  {}

  /** The window also shrinks by what is sent, while what is sent counts as unacknowledged: until the next
      acknowledgment every byte sent counts twice. */
  lemma WindowCountedTwice(s: SendState, max: nat)
    requires InOrder(s)
    ensures var n := Min(SizeCanSend(s), max);
      && AfterSend(s, max).nxt == s.nxt + n
      && SizeCanSend(AfterSend(s, max)) == Max(0, Min(s.wnd - SizeUnacked(s) - 2 * n, SizeNotSent(s) - n))
  {}

  // ----- The retransmission filter and SYN -----

  /** An unanswered SYN (or SYN-ACK) is eligible for retransmission exactly when una + wnd does not wrap:
      never for an active open, whose window is the largest 32-bit number, unless its sequence number is 0. */
  lemma SynEligible(ring: seq<byte>, isn: u32, wnd: u32, packet: Packet, now: int, later: int, rto: int)
    requires packet.seqNum == isn && packet.payload == [] && later - now > rto
    ensures var s := ControlSent(InitialSend(ring, isn, wnd), packet, now);
      && (Expires(s.queue.deque[0], later, rto, WndEndExclusive(s)) <==> isn + wnd < U32)
      && (wnd == U32 - 1 ==> (Expires(s.queue.deque[0], later, rto, WndEndExclusive(s)) <==> isn == 0))
  {}

  /** When una + wnd wraps, the bound falls to una or below it, and nothing that still awaits acknowledgment
      is retransmitted; the bound is the right window edge exactly when the sum does not wrap. */
  lemma WrappedWindowStalls(s: SendState, e: Entry, now: int, rto: int)
    requires s.una < U32 && s.wnd < U32 && s.una < e.packet.EndExclusive()
    ensures WndEndExclusive(s) == s.una + s.wnd <==> s.una + s.wnd < U32
    ensures s.una + s.wnd >= U32 ==> !Expires(e, now, rto, WndEndExclusive(s))
    ensures s.una + s.wnd < U32 ==>
      (Expires(e, now, rto, WndEndExclusive(s)) <==> now - e.lastSent > rto && e.packet.EndExclusive() <= s.una + s.wnd)
  {}

  // ----- The class -----

  class SendBuffer {
    const ring: RingBuffer
    const retransmitQueue: RetransmissionQueue
    var una: u32
    var nxt: u32
    var nbw: u32
    var wnd: u32
    var probing: Probing
    var probeSeq: u32

    ghost predicate Valid() {
      ring.Valid()
    }

    ghost function State(): SendState
      reads this, ring.buf, retransmitQueue
    {
      SendState(ring.buf[..], una, nxt, nbw, wnd, probing, probeSeq, retransmitQueue.State())
    }

    constructor (n: nat, initSeqNum: u32, windowSize: u32)
      requires n > 0
      ensures Valid() && ring.N == n
      ensures State() == InitialSend(ring.buf[..], initSeqNum, windowSize)
      ensures fresh(ring.buf) && fresh(retransmitQueue)
    {
      ring := new RingBuffer(n);
      retransmitQueue := new RetransmissionQueue();
      una, nxt, nbw, wnd := initSeqNum, initSeqNum, initSeqNum, windowSize;
      probing, probeSeq := PAUSE, 0;
    }

    /** One pass of the loop in write, once there is free space. */
    method WritePass(data: seq<byte>) returns (n: nat)
      requires Valid() && Pointers(State()) && SizeFree(State()) > 0
      requires una + ring.N < U32
      modifies `nbw, ring.buf
      ensures State() == WriteChunk(old(State()), data)
      ensures n == Taken(old(State()), |data|)
    {
      var free := ring.N - (nbw - una);
      n := ring.Write(data, nbw, nbw + free - 1);
      nbw := nbw + n;
    }

    /** Returns the new (una, nxt). */
    method OnAck(ackNum: u32, wndSize: u32) returns (una': u32, nxt': u32)
      requires Valid()
      modifies `una, `wnd, `probing, retransmitQueue
      ensures State() == Acked(old(State()), ackNum, wndSize)
      ensures una' == una == AckedUpTo(old(una), old(nxt), ackNum) && nxt' == nxt
    {
      una', nxt' := una, nxt;
      if ackNum >= una {
        wnd := wndSize;
        if probing == WAITACK {
          if ackNum > probeSeq {
            probing := PAUSE;
          } else if wnd > 0 {
            retransmitQueue.ResetZwpCounter();
          }
        }
      }
      if ackNum <= una || ackNum > nxt {
        return;
      }
      una, una' := ackNum, ackNum;
      retransmitQueue.OnAck(ackNum);
    }

    /** The section of sendReadyData after its wait. */
    method SendReadyData(buff: array<byte>) returns (seqNum: u32, n: nat)
      requires Valid() && Pointers(State()) && buff != ring.buf
      requires SizeCanSend(State()) > 0 && buff.Length > 0
      modifies `wnd, `nxt, buff
      ensures seqNum == old(nxt) && n == Min(SizeCanSend(old(State())), buff.Length)
      ensures buff[..n] == ReadyBytes(old(State()), buff.Length)
      ensures State() == AfterSend(old(State()), buff.Length)
    {
      seqNum := nxt;
      var unacked := nxt - una;
      n := Min(if wnd > unacked then Min(wnd - unacked, nbw - nxt) else 0, buff.Length);
      var nRead := ring.Read(buff, nxt, nxt + n - 1);
      wnd := wnd - n;
      nxt := nxt + n;
    }

    method WriteAndSendOne()
      requires nbw + 1 < U32 && nxt + 1 < U32
      modifies `nbw, `nxt
      ensures State() == OneWrittenAndSent(old(State()))
    {
      nbw, nxt := nbw + 1, nxt + 1;
    }

    /** The first wait of zwpGetProbeByte ends. */
    method ZwpEndPause()
      requires probing == PAUSE && wnd == 0
      modifies `probing
      ensures State() == PauseEnded(old(State()))
    {
      probing := COUNTDOWN;
    }

    /** The second wait of zwpGetProbeByte ends, and the probe, if any, is queued under the same lock. */
    method ZwpEndCountdown(ackNum: u32, wndField: nat, now: int) returns (probe: Option<Packet>)
      requires Valid() && Pointers(State()) && probing == COUNTDOWN
      requires ProbeDue(State()) ==> retransmitQueue.zwpEntry == None
      modifies `probing, `probeSeq, `nxt, retransmitQueue
      ensures State() == CountdownEnded(old(State()), ackNum, wndField, now)
      ensures probe == if ProbeDue(old(State())) then Some(ProbePacket(old(State()), ackNum, wndField)) else None
    {
      if wnd > 0 || nbw - nxt == 0 {
        probing := PAUSE;
        return None;
      }
      probing := WAITACK;
      probeSeq := nxt;
      var packet := Packet(ACK, probeSeq, ackNum, wndField, [ring.buf[probeSeq % ring.N]]);
      nxt := nxt + 1;
      retransmitQueue.EnqueueZwp(packet, now);
      probe := Some(packet);
    }

    method GetWndEndExclusive() returns (edge: u32)
      ensures edge == WndEndExclusive(State())
      ensures if una + wnd < U32 then edge == una + wnd else edge < una
    {
      edge := (una + wnd) % U32;
    }
  }
}
