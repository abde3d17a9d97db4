/** Why faithful deliveries are required: one run of an honest sender and receiver that returns a byte
    nobody wrote, because a duplicated segment straddles RCV.NXT. */
module Straddle {
  import opened Common
  import opened RingBuffers
  import opened Intervals
  import opened Packets
  import opened RetransmissionQueues
  import opened SendBuffers
  import opened RecvBuffers
  import opened ByteStream

  const Stream: seq<byte> := [10, 11, 12, 13, 14, 15, 16, 17]
  const Blank: seq<byte> := [0, 0, 0, 0, 0, 0]

  const A := Packet(ACK, 0, 0, 0, [10])
  const B := Packet(ACK, 1, 0, 0, [11, 12])
  const C := Packet(ACK, 3, 0, 0, [13, 14, 15, 16, 17])

  function Queued(pks: seq<Packet>): seq<Entry> {
    seq(|pks|, i requires 0 <= i < |pks| => Entry(pks[i], 0, 0))
  }

  function Snd(una: nat, nxt: nat, wnd: nat, pks: seq<Packet>): SendState {
    SendState(Stream, una, nxt, 8, wnd, PAUSE, 0, QueueState(Queued(pks), None))
  }

  function At0(ring: seq<byte>): Flow {
    Flow(0, InitialSend(ring, 0, 6), RecvState(Blank, 0, 0, []), {}, {}, [], [], false, false)
  }

  /** The sender writes eight bytes and sends one, then two. */
  lemma Sending(ring: seq<byte>)
    requires |ring| == 8
    ensures WriteChunk(InitialSend(ring, 0, 6), Stream) == Snd(0, 0, 6, [])
    ensures Taken(InitialSend(ring, 0, 6), 8) == 8
    ensures DataPacket(Snd(0, 0, 6, []), 1, 0, 0) == A && Transmitted(Snd(0, 0, 6, []), 1, 0, 0, 0) == Snd(0, 1, 5, [A])
    ensures DataPacket(Snd(0, 1, 5, [A]), 2, 0, 0) == B && Transmitted(Snd(0, 1, 5, [A]), 2, 0, 0, 0) == Snd(0, 3, 3, [A, B])
  {
    assert Stored(ring, 0, Stream[..8]) == Stream;
    assert Span(Stream, 0, 1) == [10];
    assert Span(Stream, 1, 2) == [11, 12];
  }

  /** The receiver acknowledges up to 3 and offers five bytes, though only three fit; the sender uses the offer. */
  lemma SendingMore()
    ensures Acked(Snd(0, 3, 3, [A, B]), 3, 5) == Snd(3, 3, 5, [])
    ensures DataPacket(Snd(3, 3, 5, []), 5, 0, 0) == C && Transmitted(Snd(3, 3, 5, []), 5, 0, 0, 0) == Snd(3, 8, 0, [C])
  {
    var d := Queued([A, B]);
    assert d == [Entry(A, 0, 0), Entry(B, 0, 0)];
    assert d[1..] == [Entry(B, 0, 0)] && d[1..][1..] == [];
    assert Unacked(d[1..], 3) == [] == Unacked(d, 3);
    assert Span(Stream, 3, 5) == [13, 14, 15, 16, 17];
  }

  const R1 := RecvState([0, 11, 12, 0, 0, 0], 0, 0, [Interval(1, 3)])
  const R2 := RecvState([10, 11, 12, 0, 0, 0], 0, 3, [])
  const R3 := RecvState([10, 11, 12, 13, 14, 15], 0, 6, [])
  const R4 := RecvState([16, 17, 12, 13, 14, 15], 6, 5, [])

  /** B arrives early. */
  lemma ReceivingB()
    ensures Receive(RecvState(Blank, 0, 0, []), 1, B.payload) == Received(R1, 0, 6)
  {
    assert B.payload[0..][..2] == [11, 12];
    assert Stored(Blank, 1, [11, 12]) == R1.ring;
  }

  /** A completes it. */
  lemma ReceivingA()
    ensures Receive(R1, 0, A.payload) == Received(R2, 3, 5)
  {
    assert A.payload[0..][..1] == [10];
    assert Stored(R1.ring, 0, [10]) == R2.ring;
    assert R1.early[1..] == [];
  }

  /** Half of C fits. */
  lemma ReceivingC()
    ensures Receive(R2, 3, C.payload) == Received(R3, 6, 0)
  {
    assert C.payload[0..][..3] == [13, 14, 15];
    assert Stored(R2.ring, 3, [13, 14, 15]) == R3.ring;
  }

  const R3Read := RecvState([10, 11, 12, 13, 14, 15], 6, 6, [])

  lemma ReadingSix()
    ensures AfterRead(R3, 6) == R3Read && ReadBytes(R3, 6) == [10, 11, 12, 13, 14, 15]
  {
    ReadSlots(R3.ring, R3.ring, 0);
    assert Min(6, SizeToRead(R3)) == 6;
  }

  /** The copy of C straddles nxt and moves it from 6 back to 5, below nbr. */
  lemma Duplicate()
    ensures !Faithful(R3Read, 3, 5)
    ensures Receive(R3Read, 3, C.payload) == Received(R4, 5, 4)
  {}

  /** The next read takes the difference for a huge size and runs on into a stale slot. */
  lemma StaleRead()
    ensures SizeToRead(R4) == U32 - 1
    ensures ReadBytes(R4, 3) == [16, 17, 12]
  {}

  const Events: seq<FlowEvent> :=
    [AppWrite(Stream), SendData(1, 0, 0, 0), SendData(2, 0, 0, 0), DeliverData(B), DeliverData(A), DeliverAck(3, 5),
     SendData(5, 0, 0, 0), DeliverData(C), AppRead(6), DeliverData(C), AppRead(3)]

  /** The state of the run before its k-th event. */
  function Trace(ring: seq<byte>, k: nat): Flow
    requires k <= 11
  {
    var start := RecvState(Blank, 0, 0, []);
    var six := [10, 11, 12, 13, 14, 15];
    match k
    case 0 => At0(ring)
    case 1 => Flow(0, Snd(0, 0, 6, []), start, {}, {}, Stream, [], false, false)
    case 2 => Flow(0, Snd(0, 1, 5, [A]), start, {A}, {}, Stream, [], false, false)
    case 3 => Flow(0, Snd(0, 3, 3, [A, B]), start, {A, B}, {}, Stream, [], false, false)
    case 4 => Flow(0, Snd(0, 3, 3, [A, B]), R1, {A, B}, {AckInfo(0, 6)}, Stream, [], false, false)
    case 5 => Flow(0, Snd(0, 3, 3, [A, B]), R2, {A, B}, {AckInfo(0, 6), AckInfo(3, 5)}, Stream, [], false, false)
    case 6 => Flow(0, Snd(3, 3, 5, []), R2, {A, B}, {AckInfo(0, 6), AckInfo(3, 5)}, Stream, [], false, false)
    case 7 => Flow(0, Snd(3, 8, 0, [C]), R2, {A, B, C}, {AckInfo(0, 6), AckInfo(3, 5)}, Stream, [], false, false)
    case 8 => Flow(0, Snd(3, 8, 0, [C]), R3, {A, B, C}, {AckInfo(0, 6), AckInfo(3, 5), AckInfo(6, 0)}, Stream, [], false, false)
    case 9 => Flow(0, Snd(3, 8, 0, [C]), R3Read, {A, B, C}, {AckInfo(0, 6), AckInfo(3, 5), AckInfo(6, 0)}, Stream, six, false, false)
    case 10 => Flow(0, Snd(3, 8, 0, [C]), R4, {A, B, C}, {AckInfo(0, 6), AckInfo(3, 5), AckInfo(6, 0), AckInfo(5, 4)}, Stream, six, false, false)
    case 11 => Flow(0, Snd(3, 8, 0, [C]), AfterRead(R4, 3), {A, B, C}, {AckInfo(0, 6), AckInfo(3, 5), AckInfo(6, 0), AckInfo(5, 4)},
                    Stream, six + [16, 17, 12], false, false)
  }

  lemma WriteTrace(ring: seq<byte>)
    requires |ring| == 8
    ensures Defined(Trace(ring, 0), Events[0]) && Possible(Trace(ring, 0), Events[0])
    ensures FlowStep(Trace(ring, 0), Events[0]) == Trace(ring, 1)
  {
    hide WriteChunk, Stored, Taken;
    Sending(ring);
    assert [] + Stream[..8] == Stream;
  }

  lemma SendTrace(ring: seq<byte>, k: nat)
    requires |ring| == 8 && k in {1, 2, 6}
    ensures Defined(Trace(ring, k), Events[k]) && Possible(Trace(ring, k), Events[k])
    ensures FlowStep(Trace(ring, k), Events[k]) == Trace(ring, k + 1)
  {
    hide Transmitted, WriteChunk, Acked, DataPacket, Stored, Span, Queued, Taken;
    Sending(ring);
    SendingMore();
    var f, e := Trace(ring, k), Events[k];
    assert FlowStep(f, e).segs == Trace(ring, k + 1).segs;
  }

  lemma AckTrace(ring: seq<byte>)
    requires |ring| == 8
    ensures Defined(Trace(ring, 5), Events[5]) && Possible(Trace(ring, 5), Events[5])
    ensures FlowStep(Trace(ring, 5), Events[5]) == Trace(ring, 6)
  {
    hide Acked, Queued, Transmitted, WriteChunk, DataPacket, Receive, Stored, Span, ReadBytes, AfterRead, FlowRun;
    SendingMore();
  }

  lemma ReceiverTrace(ring: seq<byte>, k: nat)
    requires |ring| == 8 && k in {3, 4, 7, 8, 9, 10}
    ensures Defined(Trace(ring, k), Events[k]) && Possible(Trace(ring, k), Events[k])
    ensures FlowStep(Trace(ring, k), Events[k]) == Trace(ring, k + 1)
  {
    hide Transmitted, WriteChunk, Acked, Receive, DataPacket, Stored, Span, ReadBytes, AfterRead, Queued;
    ReceivingB();
    ReceivingA();
    ReceivingC();
    ReadingSix();
    Duplicate();
    StaleRead();
  }

  lemma TraceStep(ring: seq<byte>, k: nat)
    requires |ring| == 8 && k < 11
    ensures Defined(Trace(ring, k), Events[k]) && Possible(Trace(ring, k), Events[k])
    ensures FlowStep(Trace(ring, k), Events[k]) == Trace(ring, k + 1)
  {
    hide *;
    if k == 0 {
      WriteTrace(ring);
    } else if k in {1, 2, 6} {
      SendTrace(ring, k);
    } else if k == 5 {
      AckTrace(ring);
    } else {
      ReceiverTrace(ring, k);
    }
  }

  lemma {:induction false} TraceRun(ring: seq<byte>, k: nat)
    requires |ring| == 8 && k <= 11
    ensures FlowRun(Trace(ring, k), Events[k..]) && AfterRun(Trace(ring, k), Events[k..]) == Trace(ring, 11)
    decreases 11 - k
  {
    hide Trace, FlowStep, Defined, Possible;
    if k < 11 {
      TraceStep(ring, k);
      TraceRun(ring, k + 1);
      assert Events[k..][0] == Events[k] && Events[k..][1..] == Events[k + 1..];
    }
  }

  /** Without the condition on deliveries the stream property is false: this run starts in agreement, every
      step is possible, and what is read is not a prefix of what was written. */
  lemma StreamBreaks(ring: seq<byte>)
    requires |ring| == 8
    ensures FlowInit(At0(ring)) && FlowRun(At0(ring), Events)
    ensures !(AfterRun(At0(ring), Events).delivered <= AfterRun(At0(ring), Events).written)
    ensures !FaithfulRun(At0(ring), Events)
  {
    TraceRun(ring, 0);
    assert Events[0..] == Events;
    if FaithfulRun(At0(ring), Events) {
      ReliableStream(At0(ring), Events);
    }
  }
}
