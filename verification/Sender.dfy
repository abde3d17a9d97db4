/** What every step of the sending side keeps: the ring holds the written stream, and every byte in flight
    is in exactly one pending packet that carries it. */
module Sender {
  import opened Common
  import opened RingBuffers
  import opened Packets
  import opened RetransmissionQueues
  import opened SendBuffers

  /** The packet carries its part of the stream `data`, which starts at `base`, and has been sent. */
  ghost predicate Carries(pk: Packet, nxt: nat, base: nat, data: seq<byte>) {
    && base <= pk.seqNum && pk.EndExclusive() <= nxt && pk.EndExclusive() <= base + |data|
    && pk.payload == data[pk.seqNum - base..][..|pk.payload|]
  }

  /** The ring still holds every byte that may have to be sent or sent again. */
  ghost predicate RingHolds(s: SendState, base: nat, data: seq<byte>)
    requires InOrder(s)
  {
    forall p: nat {:trigger At(s.ring, p)} ::
      s.una <= p < s.nbw && base <= p < base + |data| ==> At(s.ring, p) == data[p - base]
  }

  ghost predicate EntriesCarry(s: SendState, base: nat, data: seq<byte>) {
    forall i :: 0 <= i < |s.queue.deque| ==> Carries(s.queue.deque[i].packet, s.nxt, base, data)
  }

  /** There is a probe entry exactly while its acknowledgment is awaited. */
  ghost predicate ProbeInv(s: SendState, base: nat, data: seq<byte>) {
    && (s.queue.zwp.Some? <==> s.probing == WAITACK)
    && (s.queue.zwp.Some? ==>
          var pk := s.queue.zwp.value.packet;
          && Carries(pk, s.nxt, base, data) && pk.seqNum == s.probeSeq && |pk.payload| == 1
          && s.una <= s.probeSeq && !InDeque(s.queue.deque, s.probeSeq))
  }

  /** Nothing in flight is forgotten. */
  ghost predicate AllPending(s: SendState, base: nat, data: seq<byte>) {
    forall p :: s.una <= p < s.nxt && p < base + |data| ==> Pending(s.queue, p)
  }

  ghost predicate QueueInv(s: SendState, base: nat, data: seq<byte>) {
    Ordered(s.queue.deque) && EntriesCarry(s, base, data) && ProbeInv(s, base, data) && AllPending(s, base, data)
  }

  /** `fin` says whether the FIN, which takes the number after the last byte and no slot, has been sent. */
  ghost predicate SenderInv(s: SendState, base: nat, data: seq<byte>, fin: bool) {
    && InOrder(s) && base <= s.una && base + |data| <= s.una + |s.ring|
    && s.nbw == base + |data| + (if fin then 1 else 0)
    && (fin ==> s.nxt == s.nbw)
    && RingHolds(s, base, data)
    && QueueInv(s, base, data)
  }

  /** A data byte in flight is in one regular entry or in the probe, never in both, never in two. */
  lemma PendingOnce(s: SendState, base: nat, data: seq<byte>, fin: bool, p: int)
    requires SenderInv(s, base, data, fin) && s.una <= p < s.nxt && p < base + |data|
    ensures InDeque(s.queue.deque, p) <==> !(s.queue.zwp.Some? && s.queue.zwp.value.packet.Covers(p))
    ensures forall i, j | 0 <= i < |s.queue.deque| && 0 <= j < |s.queue.deque| ::
      s.queue.deque[i].packet.Covers(p) && s.queue.deque[j].packet.Covers(p) ==> i == j
    ensures forall i :: 0 <= i < |s.queue.deque| && s.queue.deque[i].packet.Covers(p) ==>
      s.queue.deque[i].packet.payload[p - s.queue.deque[i].packet.seqNum] == data[p - base]
  {
    assert Pending(s.queue, p);
    forall i, j | 0 <= i < |s.queue.deque| && 0 <= j < |s.queue.deque|
      && s.queue.deque[i].packet.Covers(p) && s.queue.deque[j].packet.Covers(p)
      ensures i == j
    {
      CoveredOnce(s.queue.deque, i, j, p);
    }
  }

  // ----- Steps -----

  /** The stream grows: what was carried is still carried. */
  lemma CarriesMore(pk: Packet, nxt: nat, nxt': nat, base: nat, data: seq<byte>, more: seq<byte>)
    requires Carries(pk, nxt, base, data) && nxt <= nxt'
    ensures Carries(pk, nxt', base, data + more)
  {}

  lemma WriteKeeps(s: SendState, base: nat, data: seq<byte>, more: seq<byte>)
    requires SenderInv(s, base, data, false)
    ensures SenderInv(WriteChunk(s, more), base, data + more[..Taken(s, |more|)], false)
  {
    var n := Taken(s, |more|);
    var s' := WriteChunk(s, more);
    forall p: nat | s.una <= p < s'.nbw ensures At(s'.ring, p) == (data + more[..n])[p - base] {
      OutsideWindow(s.ring, s.una, s.nbw, more[..n], p);
    }
    forall i | 0 <= i < |s.queue.deque| ensures Carries(s.queue.deque[i].packet, s.nxt, base, data + more[..n]) {
      CarriesMore(s.queue.deque[i].packet, s.nxt, s.nxt, base, data, more[..n]);
    }
    if s.queue.zwp.Some? {
      CarriesMore(s.queue.zwp.value.packet, s.nxt, s.nxt, base, data, more[..n]);
    }
  }

  /** Writing [nbw, nbw + |part|) inside the window that starts at una leaves [una, nbw) alone. */
  lemma OutsideWindow(ring: seq<byte>, una: nat, nbw: nat, part: seq<byte>, p: nat)
    requires |ring| > 0 && una <= nbw && nbw + |part| <= una + |ring| && una <= p < nbw + |part|
    ensures At(Stored(ring, nbw, part), p) == if p < nbw then At(ring, p) else part[p - nbw]
  {
    if nbw <= p {
      StoredAt(ring, nbw, part, p);
    } else {
      StoredAt(ring, nbw, part, p + |ring|);
      ModUnique(p + |ring|, |ring|, p / |ring| + 1, p % |ring|);
      assert At(ring, p + |ring|) == At(ring, p);
      assert At(Stored(ring, nbw, part), p + |ring|) == At(Stored(ring, nbw, part), p);
    }
  }

  /** The bytes read from the ring at nxt are the stream's bytes there. */
  lemma ReadyIsStream(s: SendState, base: nat, data: seq<byte>, n: nat)
    requires InOrder(s) && base <= s.una && RingHolds(s, base, data)
    requires s.nxt + n <= base + |data| <= s.nbw
    ensures Span(s.ring, s.nxt, n) == data[s.nxt - base..][..n]
  {}

  /** A new entry at nxt keeps the queue in order and adds exactly its own positions. */
  lemma EnqueueKeeps(s: SendState, s': SendState, base: nat, data: seq<byte>, packet: Packet, now: int)
    requires QueueInv(s, base, data) && s.nxt <= s'.nxt
    requires packet.seqNum == s.nxt && Carries(packet, s'.nxt, base, data)
    requires s'.queue == Enqueue(s.queue, packet, now)
    requires s'.una == s.una && s'.probing == s.probing && s'.probeSeq == s.probeSeq
    requires packet.EndExclusive() == Min(s'.nxt, base + |data|)
    ensures QueueInv(s', base, data)
  {
    forall p ensures Pending(s'.queue, p) <==> Pending(s.queue, p) || packet.Covers(p) {
      EnqueueAdds(s.queue, packet, now, p);
    }
    var d := s'.queue.deque;
    forall i | 0 <= i < |d| ensures Carries(d[i].packet, s'.nxt, base, data) {
      if i < |s.queue.deque| {
        assert Carries(s.queue.deque[i].packet, s.nxt, base, data);
      }
    }
    forall i, j | 0 <= i < j < |d| ensures d[i].packet.EndExclusive() <= d[j].packet.seqNum {
      assert Carries(s.queue.deque[i].packet, s.nxt, base, data);
    }
    if s.queue.zwp.Some? {
      EnqueueAdds(s.queue.(zwp := None), packet, now, s.probeSeq);
    }
  }

  lemma TransmitKeeps(s: SendState, base: nat, data: seq<byte>, max: nat, ackNum: nat, wnd: nat, now: int)
    requires SenderInv(s, base, data, false)
    ensures SenderInv(Transmitted(s, max, ackNum, wnd, now), base, data, false)
    ensures Carries(DataPacket(s, max, ackNum, wnd), Transmitted(s, max, ackNum, wnd, now).nxt, base, data)
  {
    var s' := Transmitted(s, max, ackNum, wnd, now);
    ReadyIsStream(s, base, data, s'.nxt - s.nxt);
    EnqueueKeeps(s, s', base, data, DataPacket(s, max, ackNum, wnd), now);
  }

  lemma CountdownKeeps(s: SendState, base: nat, data: seq<byte>, fin: bool, ackNum: nat, wnd: nat, now: int)
    requires SenderInv(s, base, data, fin) && s.probing == COUNTDOWN
    ensures SenderInv(CountdownEnded(s, ackNum, wnd, now), base, data, fin)
    ensures ProbeDue(s) ==> Carries(ProbePacket(s, ackNum, wnd), s.nxt + 1, base, data)
  {
    if ProbeDue(s) {
      var s' := CountdownEnded(s, ackNum, wnd, now);
      var pk := ProbePacket(s, ackNum, wnd);
      ReadyIsStream(s, base, data, 1);
      assert pk.payload == Span(s.ring, s.nxt, 1);
      assert !InDeque(s.queue.deque, s.nxt);
      forall p | s.una <= p < s'.nxt && p < base + |data| ensures Pending(s'.queue, p) {
        if p == s.nxt {
          assert pk.Covers(p);
        } else {
          assert Pending(s.queue, p);
        }
      }
    }
  }

  /** An acknowledgment no higher than nxt. */
  lemma AckKeeps(s: SendState, base: nat, data: seq<byte>, fin: bool, ackNum: nat, wnd: nat)
    requires SenderInv(s, base, data, fin) && ackNum <= s.nxt
    ensures SenderInv(Acked(s, ackNum, wnd), base, data, fin)
    ensures Acked(s, ackNum, wnd).una == Max(s.una, ackNum)
  {
    var s' := Acked(s, ackNum, wnd);
    forall p | s'.una <= p < s.nxt && p < base + |data| ensures Pending(s'.queue, p) {
      assert Pending(s.queue, p) && Pending(ResetProbeCounter(s.queue), p);
      AcknowledgeKeeps(s.queue, ackNum, p);
      AcknowledgeKeeps(ResetProbeCounter(s.queue), ackNum, p);
    }
    if ackNum > s.una {
      AcknowledgedDeque(s, base, data, ackNum);
    }
  }

  /** What is left of the queue is a suffix of it. */
  lemma AcknowledgedDeque(s: SendState, base: nat, data: seq<byte>, ackNum: nat)
    requires QueueInv(s, base, data)
    ensures var d := Unacked(s.queue.deque, ackNum);
      && Ordered(d)
      && (forall i :: 0 <= i < |d| ==> Carries(d[i].packet, s.nxt, base, data))
      && (forall p :: InDeque(d, p) ==> InDeque(s.queue.deque, p))
  {
    var k := UnackedSuffix(s.queue.deque, ackNum);
    var d := s.queue.deque[k..];
    forall p | InDeque(d, p) ensures InDeque(s.queue.deque, p) {
      var i :| 0 <= i < |d| && d[i].packet.Covers(p);
      assert s.queue.deque[k + i].packet.Covers(p);
    }
  }

  /** A sweep of the retransmission thread. */
  lemma SweepKeepsInv(s: SendState, q: QueueState, base: nat, data: seq<byte>, fin: bool, now: int, rto: int, edge: int)
    requires SenderInv(s, base, data, fin)
    requires SweptTo(s.queue.deque, q.deque, now, rto, edge) && q.zwp == SweptProbe(s.queue.zwp, now, rto)
    ensures SenderInv(s.(queue := q), base, data, fin)
  {
    forall p ensures Pending(q, p) <==> Pending(s.queue, p) {
      SweepKeeps(s.queue, q, now, rto, edge, p);
    }
    assert forall i :: 0 <= i < |q.deque| ==> q.deque[i].packet == s.queue.deque[i].packet;
  }

  /** Sending the FIN, with nothing left to send. */
  lemma FinKeeps(s: SendState, base: nat, data: seq<byte>, fin: Packet, now: int)
    requires SenderInv(s, base, data, false) && s.nxt == s.nbw
    requires fin.seqNum == s.nxt && fin.payload == []
    ensures SenderInv(ControlSent(s, fin, now), base, data, true)
    ensures Carries(fin, s.nxt + 1, base, data)
  {
    EnqueueKeeps(s, ControlSent(s, fin, now), base, data, fin, now);
  }

  /** The condition is exact: a FIN sent ahead of unsent bytes leaves the first of them in no packet. */
  lemma FinKeepsExactly(s: SendState, base: nat, data: seq<byte>, fin: Packet, now: int)
    requires SenderInv(s, base, data, false) && fin.seqNum == s.nxt && fin.payload == []
    ensures AllPending(ControlSent(s, fin, now), base, data) <==> s.nxt == s.nbw
    ensures SenderInv(ControlSent(s, fin, now), base, data, true) <==> s.nxt == s.nbw
  {
    if s.nxt == s.nbw {
      FinKeeps(s, base, data, fin, now);
    } else {
      EnqueueAdds(s.queue, fin, now, s.nxt);
      assert !Pending(ControlSent(s, fin, now).queue, s.nxt);
    }
  }
}
