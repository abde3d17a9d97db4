/** One direction of a connection: a sender, a network that loses, duplicates and reorders, and a receiver. */
module ByteStream {
  import opened Common
  import opened RingBuffers
  import opened Intervals
  import opened Packets
  import opened RetransmissionQueues
  import opened SendBuffers
  import opened RecvBuffers
  import opened Sender

  /** An acknowledgment number and a window. */
  datatype AckInfo = AckInfo(ackNum: nat, wnd: nat)

  /** `segs` and `acks` hold everything ever put on the wire: a delivery picks any of them, any number of
      times, in any order, or never. `written` is what the application handed over, from number `base` on;
      `delivered` is what the other application has read. */
  datatype Flow = Flow(base: nat, snd: SendState, rcv: RecvState, segs: set<Packet>, acks: set<AckInfo>,
                       written: seq<byte>, delivered: seq<byte>, finSent: bool, finTaken: bool) {
    /** The number after the last byte, which the FIN takes. */
    function DataEnd(): nat { base + |written| }
  }

  /** The atomic steps, each a section run under one buffer's mutex. */
  datatype FlowEvent =
    | AppWrite(data: seq<byte>)
    | SendData(max: nat, ackNum: nat, wnd: nat, now: int)
    | ProbePause
    | ProbeCountdown(ackNum: nat, wnd: nat, now: int)
    | Sweep(queue: QueueState, now: int, rto: int)
    | SendFin(wnd: nat, now: int)
    | DeliverAck(ackNum: nat, wnd: nat)
    | DeliverData(packet: Packet)
    | DeliverFin(packet: Packet)
    | OfferWindow
    | AppRead(n: nat)

  function FinPacket(s: SendState, wnd: nat): Packet {
    Packet(FIN, s.nxt, ACK_DONT_CARE, wnd, [])
  }

  /** The step is defined: the pointers are in order. */
  ghost predicate Defined(f: Flow, e: FlowEvent) {
    InOrder(f.snd) && |f.rcv.ring| > 0 && (e.DeliverData? ==> f.rcv.nbr <= f.rcv.nxt)
  }

  /** What the code waits for or checks before the step; the FIN is sent with nothing left to send,
      and reading stays below the FIN's number. */
  ghost predicate Possible(f: Flow, e: FlowEvent) {
    match e
    case AppWrite(data) => !f.finSent && data != [] && SizeFree(f.snd) > 0
    case SendData(max, _, _, _) => max > 0 && SizeCanSend(f.snd) > 0
    case ProbePause => f.snd.probing == PAUSE && f.snd.wnd == 0
    case ProbeCountdown(_, _, _) => f.snd.probing == COUNTDOWN
    case Sweep(q, now, rto) =>
      && SweptTo(f.snd.queue.deque, q.deque, now, rto, WndEndExclusive(f.snd))
      && q.zwp == SweptProbe(f.snd.queue.zwp, now, rto)
    case SendFin(_, _) => !f.finSent && f.snd.nxt == f.snd.nbw
    case DeliverAck(ackNum, wnd) => ackNum == ACK_DONT_CARE || AckInfo(ackNum, wnd) in f.acks
    case DeliverData(pk) => pk in f.segs && pk.payload != []
    case DeliverFin(pk) => pk in f.segs && pk.flags == FIN
    case OfferWindow => true
    case AppRead(n) => f.finTaken ==> AfterRead(f.rcv, n).nbr <= f.DataEnd()
  }

  /** The condition on a delivery under which reassembly is right. */
  ghost predicate FaithfulEvent(f: Flow, e: FlowEvent) {
    e.DeliverData? ==> Faithful(f.rcv, e.packet.seqNum, |e.packet.payload|)
  }

  ghost predicate Allowed(f: Flow, e: FlowEvent) {
    Possible(f, e) && FaithfulEvent(f, e)
  }

  function Offer(r: RecvState): AckInfo { AckInfo(r.nxt, WndField(Window(r))) }

  function FlowStep(f: Flow, e: FlowEvent): Flow
    requires Defined(f, e)
  {
    match e
    case AppWrite(data) =>
      f.(snd := WriteChunk(f.snd, data), written := f.written + data[..Taken(f.snd, |data|)])
    case SendData(max, ackNum, wnd, now) =>
      f.(snd := Transmitted(f.snd, max, ackNum, wnd, now), segs := f.segs + {DataPacket(f.snd, max, ackNum, wnd)})
    case ProbePause => f.(snd := PauseEnded(f.snd))
    case ProbeCountdown(ackNum, wnd, now) =>
      f.(snd := CountdownEnded(f.snd, ackNum, wnd, now),
         segs := if ProbeDue(f.snd) then f.segs + {ProbePacket(f.snd, ackNum, wnd)} else f.segs)
    case Sweep(q, _, _) => f.(snd := f.snd.(queue := q))
    case SendFin(wnd, now) =>
      f.(snd := ControlSent(f.snd, FinPacket(f.snd, wnd), now), segs := f.segs + {FinPacket(f.snd, wnd)}, finSent := true)
    case DeliverAck(ackNum, wnd) => f.(snd := Acked(f.snd, ackNum, wnd))
    case DeliverData(pk) =>
      var o := Receive(f.rcv, pk.seqNum, pk.payload);
      f.(rcv := o.state, acks := f.acks + {AckInfo(o.ack, WndField(o.wnd))})
    case DeliverFin(pk) =>
      var r := Consume(f.rcv, pk.seqNum);
      f.(rcv := r, acks := f.acks + {Offer(r)}, finTaken := f.finTaken || pk.seqNum == f.rcv.nxt)
    case OfferWindow => f.(acks := f.acks + {Offer(f.rcv)})
    case AppRead(n) => f.(rcv := AfterRead(f.rcv, n), delivered := f.delivered + ReadBytes(f.rcv, n))
  }

  // ----- The invariant -----

  ghost predicate ReceiverInv(f: Flow) {
    && 0 < |f.rcv.ring| < U32 - 1
    && f.base <= f.rcv.nbr <= f.DataEnd()
    && f.delivered == f.written[..f.rcv.nbr - f.base]
    && f.rcv.nxt <= f.snd.nxt
    && Matches(f.rcv, f.base, f.written)
    && (if f.finTaken
        then f.finSent && f.rcv.nxt == f.DataEnd() + 1 && f.rcv.early == [] && f.DataEnd() <= f.rcv.nbr + |f.rcv.ring|
        else RecvInv(f.rcv) && f.rcv.nxt <= f.DataEnd() && EarlyWithin(f.rcv, f.snd.nxt, f.DataEnd()))
  }

  ghost predicate EarlyWithin(r: RecvState, nxt: nat, end: nat) {
    forall i :: 0 <= i < |r.early| ==> r.early[i].end <= nxt && r.early[i].end <= end
  }

  ghost predicate NetworkInv(f: Flow) {
    && (forall pk :: pk in f.segs ==> Carries(pk, f.snd.nxt, f.base, f.written))
    && (forall pk :: pk in f.segs && pk.flags == FIN ==> f.finSent && pk.seqNum == f.DataEnd())
    && (forall a :: a in f.acks ==> a.ackNum <= f.rcv.nxt)
    && (forall i :: 0 <= i < |f.snd.queue.deque| ==> f.snd.queue.deque[i].packet in f.segs)
    && (f.snd.queue.zwp.Some? ==> f.snd.queue.zwp.value.packet in f.segs)
  }

  ghost predicate FlowInv(f: Flow) {
    && SenderInv(f.snd, f.base, f.written, f.finSent)
    && ReceiverInv(f)
    && NetworkInv(f)
    && f.snd.una <= f.rcv.nxt
  }

  /** Both ends agree on where the stream starts, and nothing has been sent. */
  ghost predicate FlowInit(f: Flow) {
    && |f.snd.ring| > 0 && 0 < |f.rcv.ring| < U32 - 1
    && (exists wnd :: f.snd == InitialSend(f.snd.ring, f.base, wnd))
    && f.rcv == RecvState(f.rcv.ring, f.base, f.base, [])
    && f.segs == {} && (forall a :: a in f.acks ==> a.ackNum <= f.base) && f.written == [] && f.delivered == [] && !f.finSent && !f.finTaken
  }

  lemma InitialFlow(f: Flow)
    requires FlowInit(f)
    ensures FlowInv(f)
  {}

  // ----- Every step keeps it -----

  /** A longer stream changes nothing for the receiver. */
  lemma MatchesMore(r: RecvState, base: nat, data: seq<byte>, more: seq<byte>)
    requires |r.ring| > 0 && Matches(r, base, data)
    requires forall p :: Holds(r, p) ==> p < base + |data|
    ensures Matches(r, base, data + more)
  {}

  lemma HoldsWithin(f: Flow, p: int)
    requires ReceiverInv(f) && !f.finTaken && Holds(f.rcv, p)
    ensures p < f.DataEnd()
  {}

  lemma WriteStep(f: Flow, e: FlowEvent)
    requires FlowInv(f) && Allowed(f, e) && e.AppWrite?
    ensures FlowInv(FlowStep(f, e))
  {
    var more := e.data[..Taken(f.snd, |e.data|)];
    WriteKeeps(f.snd, f.base, f.written, e.data);
    forall p | Holds(f.rcv, p) ensures p < f.DataEnd() {
      HoldsWithin(f, p);
    }
    MatchesMore(f.rcv, f.base, f.written, more);
    forall pk | pk in f.segs ensures Carries(pk, f.snd.nxt, f.base, f.written + more) {
      CarriesMore(pk, f.snd.nxt, f.snd.nxt, f.base, f.written, more);
    }
  }

  /** The sender moves, with at most one more packet on the wire, and that packet carries its part of the stream. */
  lemma SenderMoves(f: Flow, s: SendState, segs: set<Packet>, fin: bool)
    requires FlowInv(f) && SenderInv(s, f.base, f.written, fin) && s.una == f.snd.una && f.snd.nxt <= s.nxt
    requires f.finSent ==> fin
    requires forall pk :: pk in segs && pk !in f.segs ==>
      Carries(pk, s.nxt, f.base, f.written) && (pk.flags == FIN ==> fin && pk.seqNum == f.DataEnd())
    requires forall i :: 0 <= i < |s.queue.deque| ==> s.queue.deque[i].packet in segs
    requires s.queue.zwp.Some? ==> s.queue.zwp.value.packet in segs
    ensures FlowInv(f.(snd := s, segs := segs, finSent := fin))
  {
    hide SenderInv, Matches, Separated;
  }

  lemma SendDataStep(f: Flow, max: nat, ackNum: nat, wnd: nat, now: int)
    requires FlowInv(f) && Possible(f, SendData(max, ackNum, wnd, now))
    ensures FlowInv(FlowStep(f, SendData(max, ackNum, wnd, now)))
  {
    TransmitKeeps(f.snd, f.base, f.written, max, ackNum, wnd, now);
    var f' := FlowStep(f, SendData(max, ackNum, wnd, now));
    hide ReceiverInv, SenderInv, Carries, ReadyBytes;
    SenderMoves(f, f'.snd, f'.segs, f.finSent);
  }

  lemma ProbeStep(f: Flow, ackNum: nat, wnd: nat, now: int)
    requires FlowInv(f) && Possible(f, ProbeCountdown(ackNum, wnd, now))
    ensures FlowInv(FlowStep(f, ProbeCountdown(ackNum, wnd, now)))
  {
    CountdownKeeps(f.snd, f.base, f.written, f.finSent, ackNum, wnd, now);
    var f' := FlowStep(f, ProbeCountdown(ackNum, wnd, now));
    hide ReceiverInv, SenderInv, Carries;
    SenderMoves(f, f'.snd, f'.segs, f.finSent);
  }

  lemma SweepStep(f: Flow, q: QueueState, now: int, rto: int)
    requires FlowInv(f) && Possible(f, Sweep(q, now, rto))
    ensures FlowInv(FlowStep(f, Sweep(q, now, rto)))
  {
    SweepKeepsInv(f.snd, q, f.base, f.written, f.finSent, now, rto, WndEndExclusive(f.snd));
    hide ReceiverInv, SenderInv, Carries;
    SenderMoves(f, f.snd.(queue := q), f.segs, f.finSent);
  }

  lemma SendFinStep(f: Flow, wnd: nat, now: int)
    requires FlowInv(f) && Possible(f, SendFin(wnd, now))
    ensures FlowInv(FlowStep(f, SendFin(wnd, now)))
  {
    FinKeeps(f.snd, f.base, f.written, FinPacket(f.snd, wnd), now);
    var f' := FlowStep(f, SendFin(wnd, now));
    assert f.snd.nxt == f.DataEnd();
    hide ReceiverInv, SenderInv, Carries;
    SenderMoves(f, f'.snd, f'.segs, true);
  }

  lemma AckStep(f: Flow, ackNum: nat, wnd: nat)
    requires FlowInv(f) && ackNum <= f.rcv.nxt
    ensures FlowInv(f.(snd := Acked(f.snd, ackNum, wnd)))
  {
    AckKeeps(f.snd, f.base, f.written, f.finSent, ackNum, wnd);
    var k := UnackedSuffix(f.snd.queue.deque, ackNum);
  }

  /** A segment that ends before nxt changes nothing. */
  lemma OldSegment(r: RecvState, seqNum: nat, payload: seq<byte>)
    requires |r.ring| > 0 && r.nbr <= r.nxt && seqNum + |payload| <= r.nxt
    ensures Receive(r, seqNum, payload).state == r && Receive(r, seqNum, payload).ack == r.nxt
  {}

  /** The receiver's part of a data delivery. */
  lemma DataReceived(f: Flow, pk: Packet)
    requires ReceiverInv(f) && Carries(pk, f.snd.nxt, f.base, f.written)
    requires !f.finTaken ==> Faithful(f.rcv, pk.seqNum, |pk.payload|)
    ensures var o := Receive(f.rcv, pk.seqNum, pk.payload);
      ReceiverInv(f.(rcv := o.state)) && f.rcv.nxt <= o.state.nxt == o.ack
  {
    hide Merge, ComponentEnd, Untouched, Separated, Faithful, Stored, Receive, Covers, Holds;
    if f.finTaken {
      OldSegment(f.rcv, pk.seqNum, pk.payload);
    } else {
      OnRecvStores(f.rcv, pk.seqNum, pk.payload);
      OnRecvMatches(f.rcv, pk.seqNum, pk.payload, f.base, f.written);
      ReceiveBounded(f.rcv, pk.seqNum, pk.payload, Min(f.snd.nxt, f.DataEnd()));
    }
  }

  lemma DataStep(f: Flow, pk: Packet)
    requires FlowInv(f) && Allowed(f, DeliverData(pk))
    ensures FlowInv(FlowStep(f, DeliverData(pk)))
  {
    assert InOrder(f.snd) && |f.rcv.ring| > 0 && f.rcv.nbr <= f.rcv.nxt;
    hide Faithful, SenderInv, ReceiverInv, Receive;
    DataReceived(f, pk);
    var f1 := f.(rcv := Receive(f.rcv, pk.seqNum, pk.payload).state);
    SameReceiver(f1, FlowStep(f, DeliverData(pk)));
  }

  lemma SameReceiver(f: Flow, f': Flow)
    requires ReceiverInv(f) && f' == f.(acks := f'.acks)
    ensures ReceiverInv(f')
  {}

  /** Nothing is stored beyond what was sent. */
  lemma ReceiveBounded(r: RecvState, seqNum: nat, payload: seq<byte>, hi: nat)
    requires RecvInv(r) && r.nxt <= hi && seqNum + |payload| <= hi
    requires forall i :: 0 <= i < |r.early| ==> r.early[i].end <= hi
    ensures var r' := Receive(r, seqNum, payload).state;
      r'.nxt <= hi && (forall i :: 0 <= i < |r'.early| ==> r'.early[i].end <= hi)
    ensures Receive(r, seqNum, payload).ack == Receive(r, seqNum, payload).state.nxt
  {
    var a := Accepted(r, seqNum, |payload|);
    AcceptedBounds(r, seqNum, |payload|);
    if a.begin < a.end {
      if seqNum > r.nxt {
        MergeBounded(r.early, a, hi);
      } else {
        var iv := Interval(seqNum, seqNum + (a.end - a.begin));
        MergeBounded(r.early, iv, hi);
        forall i | 0 <= i < |Untouched(r.early, iv)| ensures Untouched(r.early, iv)[i].end <= hi {
          UntouchedMembers(r.early, iv, Untouched(r.early, iv)[i]);
        }
      }
    }
  }

  lemma EarlyBeyond(r: RecvState)
    requires RecvInv(r)
    ensures r.early != [] ==> r.nxt < r.early[0].end
  {}

  lemma FinStep(f: Flow, pk: Packet)
    requires FlowInv(f) && Allowed(f, DeliverFin(pk))
    ensures FlowInv(FlowStep(f, DeliverFin(pk)))
  {
    if pk.seqNum == f.rcv.nxt {
      assert f.rcv.nxt == f.DataEnd();
      EarlyBeyond(f.rcv);
      var r := FlowStep(f, DeliverFin(pk)).rcv;
      forall p: int | Holds(r, p) && p < f.DataEnd() ensures Holds(f.rcv, p) {}
    }
  }

  lemma ReadableSize(f: Flow)
    requires ReceiverInv(f)
    ensures f.rcv.nbr <= f.rcv.nxt && SizeToRead(f.rcv) == f.rcv.nxt - f.rcv.nbr
  {}

  lemma ReadReceiver(f: Flow, n: nat)
    requires ReceiverInv(f) && AfterRead(f.rcv, n).nbr <= f.DataEnd()
    ensures ReceiverInv(f.(rcv := AfterRead(f.rcv, n), delivered := f.delivered + ReadBytes(f.rcv, n)))
  {}

  lemma ReadStep(f: Flow, n: nat)
    requires FlowInv(f) && Allowed(f, AppRead(n))
    ensures FlowInv(FlowStep(f, AppRead(n)))
  {
    ReadableSize(f);
    ReadReceiver(f, n);
    hide ReceiverInv, SenderInv, ReadBytes, SizeToRead;
  }

  lemma QuietStep(f: Flow, e: FlowEvent)
    requires FlowInv(f) && Allowed(f, e) && (e.ProbePause? || e.OfferWindow?)
    ensures FlowInv(FlowStep(f, e))
  {}

  /** Every step of every run keeps the invariant. */
  lemma StepKeeps(f: Flow, e: FlowEvent)
    requires FlowInv(f) && Allowed(f, e)
    ensures FlowInv(FlowStep(f, e))
  {
    hide SenderInv, ReceiverInv, Carries, Receive, Acked;
    match e
    case AppWrite(_) => WriteStep(f, e);
    case SendData(max, ackNum, wnd, now) => SendDataStep(f, max, ackNum, wnd, now);
    case ProbePause => QuietStep(f, e);
    case ProbeCountdown(ackNum, wnd, now) => ProbeStep(f, ackNum, wnd, now);
    case Sweep(q, now, rto) => SweepStep(f, q, now, rto);
    case SendFin(wnd, now) => SendFinStep(f, wnd, now);
    case DeliverAck(ackNum, wnd) => AckStep(f, ackNum, wnd);
    case DeliverData(pk) => DataStep(f, pk);
    case DeliverFin(pk) => FinStep(f, pk);
    case OfferWindow => QuietStep(f, e);
    case AppRead(n) => ReadStep(f, n);
  }

  // ----- Runs -----

  /** A run: every event is possible where it happens. */
  ghost predicate FlowRun(f: Flow, events: seq<FlowEvent>)
    decreases |events|
  {
    events == [] || (Defined(f, events[0]) && Possible(f, events[0]) && FlowRun(FlowStep(f, events[0]), events[1..]))
  }

  ghost function AfterRun(f: Flow, events: seq<FlowEvent>): Flow
    requires FlowRun(f, events)
    decreases |events|
  {
    if events == [] then f else AfterRun(FlowStep(f, events[0]), events[1..])
  }

  /** A run in which every delivered segment is faithful. */
  ghost predicate FaithfulRun(f: Flow, events: seq<FlowEvent>)
    requires FlowRun(f, events)
    decreases |events|
  {
    events == [] || (FaithfulEvent(f, events[0]) && FaithfulRun(FlowStep(f, events[0]), events[1..]))
  }

  lemma {:induction false} RunKeeps(f: Flow, events: seq<FlowEvent>)
    requires FlowInv(f) && FlowRun(f, events) && FaithfulRun(f, events)
    ensures FlowInv(AfterRun(f, events)) && AfterRun(f, events).base == f.base
    decreases |events|
  {
    hide FlowInv;
    if events != [] {
      StepKeeps(f, events[0]);
      RunKeeps(FlowStep(f, events[0]), events[1..]);
    }
  }

  /** End to end: what has been read is a prefix of what has been written, in every run. */
  lemma ReliableStream(f: Flow, events: seq<FlowEvent>)
    requires FlowInit(f) && FlowRun(f, events) && FaithfulRun(f, events)
    ensures AfterRun(f, events).delivered <= AfterRun(f, events).written
  {
    InitialFlow(f);
    RunKeeps(f, events);
  }

  /** Data position p is in one entry, regular or probe, at the place of its byte. */
  ghost predicate InOneEntry(f: Flow, p: int)
    requires f.base <= p < f.DataEnd()
  {
    var q, b := f.snd.queue, f.written[p - f.base];
    && (InDeque(q.deque, p) <==> !(q.zwp.Some? && q.zwp.value.packet.Covers(p)))
    && (forall i :: 0 <= i < |q.deque| && q.deque[i].packet.Covers(p) ==>
          q.deque[i].packet.payload[p - q.deque[i].packet.seqNum] == b
          && forall j :: 0 <= j < |q.deque| && q.deque[j].packet.Covers(p) ==> j == i)
    && (q.zwp.Some? && q.zwp.value.packet.Covers(p) ==> q.zwp.value.packet.payload[p - q.zwp.value.packet.seqNum] == b)
  }

  lemma FlightInOneEntry(f: Flow, p: int)
    requires FlowInv(f) && f.snd.una <= p < f.snd.nxt && p < f.DataEnd()
    ensures InOneEntry(f, p)
  {
    PendingOnce(f.snd, f.base, f.written, f.finSent, p);
  }

  /** Acknowledged means received, and what is in flight is pending exactly once with its own bytes. */
  lemma NothingForgotten(f: Flow, events: seq<FlowEvent>)
    requires FlowInit(f) && FlowRun(f, events) && FaithfulRun(f, events)
    ensures var g := AfterRun(f, events);
      && g.base <= g.snd.una <= g.rcv.nxt <= g.snd.nxt
      && (forall p :: g.snd.una <= p < g.snd.nxt && p < g.DataEnd() ==> InOneEntry(g, p))
      && (forall i :: 0 <= i < |g.snd.queue.deque| ==> g.snd.queue.deque[i].packet in g.segs)
  {
    InitialFlow(f);
    RunKeeps(f, events);
    var g := AfterRun(f, events);
    forall p | g.snd.una <= p < g.snd.nxt && p < g.DataEnd() ensures g.base <= p && InOneEntry(g, p) {
      FlightInOneEntry(g, p);
    }
  }

  /** The assertions hold in every run, whatever possible step comes next: the ring is written and read within its
      bounds, a new packet is never out of order, and there is no probe when one is due. */
  lemma QueueAssertions(f: Flow, events: seq<FlowEvent>)
    requires FlowInit(f) && FlowRun(f, events) && FaithfulRun(f, events)
    ensures var g := AfterRun(f, events);
      && (forall e :: Defined(g, e))
      && (!g.finSent || SizeNotSent(g.snd) > 0 ==> g.snd.nbw <= g.snd.una + |g.snd.ring|)
      && g.rcv.nxt <= g.rcv.nbr + |g.rcv.ring| + (if g.finTaken then 1 else 0)
    ensures var s := AfterRun(f, events).snd;
      && (forall i :: 0 <= i < |s.queue.deque| ==> s.queue.deque[i].packet.EndExclusive() <= s.nxt)
      && (s.probing != WAITACK ==> s.queue.zwp == None)
  {
    InitialFlow(f);
    RunKeeps(f, events);
  }

  /** After the FIN, which occupies a number but no byte, a read stays within the stream exactly when it asks
      for no more than the bytes that are left: a larger one returns a byte that was never written. */
  lemma ReadAfterFin(f: Flow, n: nat)
    requires FlowInv(f) && f.finTaken
    ensures f.delivered + ReadBytes(f.rcv, n) <= f.written <==> n <= f.DataEnd() - f.rcv.nbr
  {}
}
