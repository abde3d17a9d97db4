/** The queue of packets in flight: regular entries in sequence order, and one zero-window probe. */
module RetransmissionQueues {
  import opened Common
  import opened Packets

  const MAX_RETRANSMISSIONS: nat := 5

  datatype Entry = Entry(packet: Packet, lastSent: int, counter: nat)

  datatype QueueState = QueueState(deque: seq<Entry>, zwp: Option<Entry>)

  // ----- Specification -----

  /** The entries from the first one that `ack` does not entirely acknowledge. */
  function Unacked(d: seq<Entry>, ack: nat): seq<Entry> {
    if d != [] && d[0].packet.EndExclusive() <= ack then Unacked(d[1..], ack) else d
  }

  function Acknowledge(q: QueueState, ack: nat): QueueState {
    QueueState(Unacked(q.deque, ack),
               if q.zwp.Some? && q.zwp.value.packet.EndExclusive() <= ack then None else q.zwp)
  }

  function Enqueue(q: QueueState, packet: Packet, now: int): QueueState {
    q.(deque := q.deque + [Entry(packet, now, 0)])
  }

  function EnqueueProbe(q: QueueState, packet: Packet, now: int): QueueState {
    q.(zwp := Some(Entry(packet, now, 0)))
  }

  function ResetProbeCounter(q: QueueState): QueueState {
    if q.zwp.Some? then q.(zwp := Some(q.zwp.value.(counter := 0))) else q
  }

  /** A regular entry is due when its timer ran out and it lies inside the peer's window. */
  predicate Expires(e: Entry, now: int, rto: int, edge: int) {
    now - e.lastSent > rto && e.packet.EndExclusive() <= edge
  }

  function Exp2(n: nat): nat { if n == 0 then 1 else 2 * Exp2(n - 1) }

  /** The probe backs off exponentially and ignores the window. */
  predicate ProbeExpires(e: Entry, now: int, rto: int) {
    now - e.lastSent > rto * Exp2(e.counter)
  }

  function Resent(e: Entry, now: int): Entry {
    e.(lastSent := now, counter := e.counter + 1)
  }

  predicate GivesUp(e: Entry, now: int, rto: int, edge: int) {
    Expires(e, now, rto, edge) && e.counter >= MAX_RETRANSMISSIONS
  }

  /** The entries due for retransmission, in order. */
  function Due(d: seq<Entry>, now: int, rto: int, edge: int): seq<Entry> {
    if d == [] then []
    else (if Expires(d[0], now, rto, edge) then [Resent(d[0], now)] else []) + Due(d[1..], now, rto, edge)
  }

  function DueProbe(z: Option<Entry>, now: int, rto: int): seq<Entry> {
    if z.Some? && ProbeExpires(z.value, now, rto) then [Resent(z.value, now)] else []
  }

  function SweptProbe(z: Option<Entry>, now: int, rto: int): Option<Entry> {
    if z.Some? && ProbeExpires(z.value, now, rto) then Some(Resent(z.value, now)) else z
  }

  // ----- Order and coverage -----

  /** Entries are in sequence order and do not overlap. */
  ghost predicate Ordered(d: seq<Entry>) {
    forall i, j :: 0 <= i < j < |d| ==> d[i].packet.EndExclusive() <= d[j].packet.seqNum
  }

  ghost predicate InDeque(d: seq<Entry>, p: int) {
    exists i :: 0 <= i < |d| && d[i].packet.Covers(p)
  }

  /** Position p is in some entry awaiting acknowledgment. */
  ghost predicate Pending(q: QueueState, p: int) {
    InDeque(q.deque, p) || (q.zwp.Some? && q.zwp.value.packet.Covers(p))
  }

  /** In an ordered queue no position is in two entries. */
  lemma CoveredOnce(d: seq<Entry>, i: nat, j: nat, p: int)
    requires Ordered(d) && i < |d| && j < |d| && d[i].packet.Covers(p) && d[j].packet.Covers(p)
    ensures i == j
  {}

  /** Acknowledging drops a prefix of the queue, and exactly the entries that end by `ack`. */
  lemma {:induction false} UnackedSuffix(d: seq<Entry>, ack: nat) returns (k: nat)
    ensures k <= |d| && Unacked(d, ack) == d[k..]
    ensures forall i :: 0 <= i < k ==> d[i].packet.EndExclusive() <= ack
    ensures k < |d| ==> ack < d[k].packet.EndExclusive()
    ensures Ordered(d) ==> forall i :: k <= i < |d| ==> ack < d[i].packet.EndExclusive()
  {
    k := 0;
    if d != [] && d[0].packet.EndExclusive() <= ack {
      k := UnackedSuffix(d[1..], ack);
      k := k + 1;
      assert d[1..][k - 1..] == d[k..];
    } else if Ordered(d) {
      forall i | 0 < i < |d| ensures ack < d[i].packet.EndExclusive() {
        assert d[0].packet.EndExclusive() <= d[i].packet.seqNum;
      }
    }
  }

  /** Nothing above `ack` is forgotten. */
  lemma AcknowledgeKeeps(q: QueueState, ack: nat, p: int)
    requires p >= ack
    ensures Pending(Acknowledge(q, ack), p) <==> Pending(q, p)
  {
    var k := UnackedSuffix(q.deque, ack);
    var d := q.deque[k..];
    if InDeque(q.deque, p) {
      var i :| 0 <= i < |q.deque| && q.deque[i].packet.Covers(p);
      assert d[i - k].packet.Covers(p);
    }
    if InDeque(d, p) {
      var i :| 0 <= i < |d| && d[i].packet.Covers(p);
      assert q.deque[k + i].packet.Covers(p);
    }
  }

  lemma EnqueueAdds(q: QueueState, packet: Packet, now: int, p: int)
    ensures Pending(Enqueue(q, packet, now), p) <==> Pending(q, p) || packet.Covers(p)
  {
    var d := Enqueue(q, packet, now).deque;
    if InDeque(q.deque, p) {
      var i :| 0 <= i < |q.deque| && q.deque[i].packet.Covers(p);
      assert d[i].packet.Covers(p);
    }
    if InDeque(d, p) {
      var i :| 0 <= i < |d| && d[i].packet.Covers(p);
      assert i < |q.deque| ==> q.deque[i].packet.Covers(p);
    }
    assert d[|q.deque|].packet == packet;
  }

  // ----- Retransmission -----

  /** d' is d after a sweep at time `now`: the due entries re-stamped, everything else as it was. */
  ghost predicate SweptTo(d: seq<Entry>, d': seq<Entry>, now: int, rto: int, edge: int) {
    && |d'| == |d|
    && forall i :: 0 <= i < |d| ==> d'[i] == if Expires(d[i], now, rto, edge) then Resent(d[i], now) else d[i]
  }

  /** A sweep neither adds, drops nor alters a packet, so it forgets nothing. */
  lemma SweepKeeps(q: QueueState, q': QueueState, now: int, rto: int, edge: int, p: int)
    requires SweptTo(q.deque, q'.deque, now, rto, edge)
    requires q'.zwp.Some? == q.zwp.Some? && (q.zwp.Some? ==> q'.zwp.value.packet == q.zwp.value.packet)
    ensures Pending(q', p) <==> Pending(q, p)
    ensures Ordered(q'.deque) <==> Ordered(q.deque)
  {}

  lemma DueHead(d: seq<Entry>, now: int, rto: int, edge: int)
    requires d != []
    ensures Due(d, now, rto, edge) == Due([d[0]], now, rto, edge) + Due(d[1..], now, rto, edge)
  {
    assert [d[0]][1..] == [];
  }

  lemma Associative<T>(a: seq<T>, b: seq<T>, c: seq<T>)
    ensures a + b + c == a + (b + c)
  {}

  lemma {:induction false} DueAppend(d: seq<Entry>, e: Entry, now: int, rto: int, edge: int)
    ensures Due(d + [e], now, rto, edge) == Due(d, now, rto, edge) + Due([e], now, rto, edge)
  {
    if d == [] {
      assert d + [e] == [e];
    } else {
      hide Due;
      assert (d + [e])[1..] == d[1..] + [e] && (d + [e])[0] == d[0];
      DueHead(d + [e], now, rto, edge);
      DueHead(d, now, rto, edge);
      DueAppend(d[1..], e, now, rto, edge);
      Associative(Due([d[0]], now, rto, edge), Due(d[1..], now, rto, edge), Due([e], now, rto, edge));
    }
  }

  /** What is retransmitted is pending. */
  lemma {:induction false} DueIsPending(d: seq<Entry>, now: int, rto: int, edge: int, e: Entry)
    requires e in Due(d, now, rto, edge)
    ensures exists i :: 0 <= i < |d| && e == Resent(d[i], now) && Expires(d[i], now, rto, edge)
  {
    if e == Resent(d[0], now) && Expires(d[0], now, rto, edge) {
    } else {
      DueIsPending(d[1..], now, rto, edge, e);
      var i :| 0 <= i < |d[1..]| && e == Resent(d[1..][i], now) && Expires(d[1..][i], now, rto, edge);
      assert d[i + 1] == d[1..][i];
    }
  }

  /** Every entry whose timer ran out inside the window is retransmitted, with this sending counted. */
  lemma {:induction false} DueComplete(d: seq<Entry>, i: nat, now: int, rto: int, edge: int)
    requires i < |d| && now - d[i].lastSent > rto && d[i].packet.EndExclusive() <= edge
    ensures Entry(d[i].packet, now, d[i].counter + 1) in Due(d, now, rto, edge)
  {
    if i > 0 {
      DueComplete(d[1..], i - 1, now, rto, edge);
    }
  }

  /** In order, so each once. */
  lemma {:induction false} DueOrdered(d: seq<Entry>, now: int, rto: int, edge: int)
    requires Ordered(d)
    ensures Ordered(Due(d, now, rto, edge)) && |Due(d, now, rto, edge)| <= |d|
  {
    if d != [] {
      var rest := Due(d[1..], now, rto, edge);
      DueOrdered(d[1..], now, rto, edge);
      forall j | 0 <= j < |rest| ensures d[0].packet.EndExclusive() <= rest[j].packet.seqNum {
        DueIsPending(d[1..], now, rto, edge, rest[j]);
      }
    }
  }

  // ----- Counting over runs -----

  /** What a sweep that does not give up makes of the regular entries. */
  function SweptDeque(d: seq<Entry>, now: int, rto: int, edge: int): (d': seq<Entry>)
    ensures SweptTo(d, d', now, rto, edge)
  {
    seq(|d|, i requires 0 <= i < |d| => if Expires(d[i], now, rto, edge) then Resent(d[i], now) else d[i])
  }

  /** What happens to the regular entries. */
  datatype QueueEvent = Acks(ackNum: nat) | Adds(packet: Packet, now: int) | Sweeps(now: int, rto: int, edge: int)

  function DequeAfter(d: seq<Entry>, e: QueueEvent): seq<Entry> {
    match e
    case Acks(ackNum) => Unacked(d, ackNum)
    case Adds(packet, now) => d + [Entry(packet, now, 0)]
    case Sweeps(now, rto, edge) => SweptDeque(d, now, rto, edge)
  }

  function DequeRun(d: seq<Entry>, es: seq<QueueEvent>): seq<Entry>
    decreases |es|
  {
    if es == [] then d else DequeRun(DequeAfter(d, es[0]), es[1..])
  }

  /** No sweep of the run gives up. */
  ghost predicate NeverGivesUp(d: seq<Entry>, es: seq<QueueEvent>)
    decreases |es|
  {
    es == [] ||
    (&& (es[0].Sweeps? ==> forall i :: 0 <= i < |d| ==> !GivesUp(d[i], es[0].now, es[0].rto, es[0].edge))
     && NeverGivesUp(DequeAfter(d, es[0]), es[1..]))
  }

  /** How many entries an acknowledgment drops in front of the others. */
  function Dropped(d: seq<Entry>, e: QueueEvent): (k: int) {
    if e.Acks? then |d| - |Unacked(d, e.ackNum)| else 0
  }

  /** The entry at index i is still there after the run. */
  predicate Survives(d: seq<Entry>, i: int, es: seq<QueueEvent>)
    decreases |es|
  {
    0 <= i && (es == [] || Survives(DequeAfter(d, es[0]), i - Dropped(d, es[0]), es[1..]))
  }

  function PlaceAfter(d: seq<Entry>, i: int, es: seq<QueueEvent>): int
    decreases |es|
  {
    if es == [] then i else PlaceAfter(DequeAfter(d, es[0]), i - Dropped(d, es[0]), es[1..])
  }

  /** In how many sweeps of the run the entry at index i was due. */
  function TimesDue(d: seq<Entry>, i: int, es: seq<QueueEvent>): nat
    decreases |es|
  {
    if es == [] || !(0 <= i < |d|) then 0
    else
      (if es[0].Sweeps? && Expires(d[i], es[0].now, es[0].rto, es[0].edge) then 1 else 0)
      + TimesDue(DequeAfter(d, es[0]), i - Dropped(d, es[0]), es[1..])
  }

  /** The entry after one event: still the same packet, and counted if it was due. */
  lemma EntryAfter(d: seq<Entry>, i: nat, e: QueueEvent)
    requires i < |d| && Dropped(d, e) <= i
    ensures var j, d' := i - Dropped(d, e), DequeAfter(d, e);
      && 0 <= j < |d'| && d'[j].packet == d[i].packet
      && d'[j].counter == d[i].counter + (if e.Sweeps? && Expires(d[i], e.now, e.rto, e.edge) then 1 else 0)
  {
    if e.Acks? {
      var k := UnackedSuffix(d, e.ackNum);
    }
  }

  /** Whatever is acknowledged and added in between: the counter of an entry has gone up once for each sweep at
      which it was due. */
  lemma {:induction false} CounterCounts(d: seq<Entry>, i: nat, es: seq<QueueEvent>)
    requires i < |d| && Survives(d, i, es)
    ensures var j, d' := PlaceAfter(d, i, es), DequeRun(d, es);
      0 <= j < |d'| && d'[j].packet == d[i].packet && d'[j].counter == d[i].counter + TimesDue(d, i, es)
    decreases |es|
  {
    if es != [] {
      EntryAfter(d, i, es[0]);
      hide DequeAfter, Dropped;
      CounterCounts(DequeAfter(d, es[0]), i - Dropped(d, es[0]), es[1..]);
    }
  }

  /** Five retransmissions and no more: the sweep that finds an entry due gives up exactly if it was due at five sweeps
      since it was queued. */
  lemma SixthTimeGivesUp(d: seq<Entry>, packet: Packet, queued: int, es: seq<QueueEvent>, now: int, rto: int, edge: int)
    requires var d0 := d + [Entry(packet, queued, 0)]; Survives(d0, |d|, es)
    ensures var d0 := d + [Entry(packet, queued, 0)];
      var j, d' := PlaceAfter(d0, |d|, es), DequeRun(d0, es);
      && 0 <= j < |d'| && d'[j].packet == packet
      && (Expires(d'[j], now, rto, edge) ==> (GivesUp(d'[j], now, rto, edge) <==> TimesDue(d0, |d|, es) >= 5))
  {
    CounterCounts(d + [Entry(packet, queued, 0)], |d|, es);
  }

  /** While no sweep gives up, no entry is due more than five times. */
  lemma {:induction false} AtMostFive(d: seq<Entry>, i: nat, es: seq<QueueEvent>)
    requires i < |d| && d[i].counter <= 5 && NeverGivesUp(d, es)
    ensures d[i].counter + TimesDue(d, i, es) <= 5
    decreases |es|
  {
    if es != [] && Dropped(d, es[0]) <= i {
      EntryAfter(d, i, es[0]);
      AtMostFive(DequeAfter(d, es[0]), i - Dropped(d, es[0]), es[1..]);
    }
  }

  /** A regular entry is due again only a whole timeout after the sweep that sent it again. */
  lemma DueAgain(e: Entry, now: int, rto: int, edge: int, later: int)
    requires Expires(e, now, rto, edge)
    ensures var e' := SweptDeque([e], now, rto, edge)[0];
      Expires(e', later, rto, edge) <==> later - now > rto
  {}

  /** A probe is due first a whole timeout after it was sent, and each time twice as long after the time before. */
  lemma ProbeBacksOff(q: QueueState, packet: Packet, sent: int, z: Entry, now: int, rto: int, later: int)
    ensures DueProbe(EnqueueProbe(q, packet, sent).zwp, later, rto) != [] <==> later - sent > rto
    ensures DueProbe(Some(z), now, rto) != [] ==>
      (DueProbe(SweptProbe(Some(z), now, rto), later, rto) != [] <==> later - now > 2 * (rto * Exp2(z.counter)))
    ensures DueProbe(Some(z), now, rto) == [] ==> SweptProbe(Some(z), now, rto) == Some(z)
    ensures DueProbe(ResetProbeCounter(q.(zwp := Some(z))).zwp, later, rto) != [] <==> later - z.lastSent > rto
  {
    assert Exp2(0) == 1 && Exp2(z.counter + 1) == 2 * Exp2(z.counter);
    assert rto * (2 * Exp2(z.counter)) == 2 * (rto * Exp2(z.counter));
  }

  // ----- The class -----

  class RetransmissionQueue {
    var deque: seq<Entry>
    var zwpEntry: Option<Entry>

    ghost function State(): QueueState
      reads this
    {
      QueueState(deque, zwpEntry)
    }

    constructor ()
      ensures State() == QueueState([], None)
    {
      deque, zwpEntry := [], None;
    }

    /** Removes every packet that `ack` acknowledges entirely. */
    method OnAck(ack: nat)
      modifies this
      ensures State() == Acknowledge(old(State()), ack)
    {
      var k := 0;
      while k < |deque| && deque[k].packet.EndExclusive() <= ack
        invariant k <= |deque|
        invariant Unacked(deque[k..], ack) == Unacked(deque, ack)
      {
        k := k + 1;
      }
      deque := deque[k..];
      if zwpEntry.Some? && zwpEntry.value.packet.EndExclusive() <= ack {
        zwpEntry := None;
      }
    }

    /** Packets must be enqueued in order. */
    method EnqueuePacket(packet: Packet, now: int)
      requires deque == [] || deque[|deque| - 1].packet.EndExclusive() <= packet.seqNum
      modifies this
      ensures State() == Enqueue(old(State()), packet, now)
    {
      deque := deque + [Entry(packet, now, 0)];
    }

    /** There is at most one probe. */
    method EnqueueZwp(packet: Packet, now: int)
      requires zwpEntry == None
      modifies this
      ensures State() == EnqueueProbe(old(State()), packet, now)
    {
      zwpEntry := Some(Entry(packet, now, 0));
    }

    method ResetZwpCounter()
      modifies this
      ensures State() == ResetProbeCounter(old(State()))
    {
      if zwpEntry.Some? {
        zwpEntry := Some(zwpEntry.value.(counter := 0));
      }
    }

    /** Collects and re-stamps the due entries; gives up when one has used up its retransmissions. */
    method GetExpiredEntries(now: int, rto: int, rightWindowEdge: nat) returns (r: Result<seq<Entry>, SocketError>)
      modifies this
      ensures r.Failure? <==> exists i :: 0 <= i < |old(deque)| && GivesUp(old(deque)[i], now, rto, rightWindowEdge)
      ensures r.Failure? ==> r.error == TIMEOUT
      ensures r.Failure? ==> |deque| == |old(deque)| && forall i :: 0 <= i < |deque| ==> deque[i].packet == old(deque)[i].packet
      ensures r.Success? ==> SweptTo(old(deque), deque, now, rto, rightWindowEdge)
      ensures r.Success? ==> zwpEntry == SweptProbe(old(zwpEntry), now, rto)
      ensures r.Success? ==> r.value == Due(old(deque), now, rto, rightWindowEdge) + DueProbe(old(zwpEntry), now, rto)
    {
      ghost var d := deque;
      var expired: seq<Entry> := [];
      var i := 0;
      while i < |deque|
        invariant i <= |deque| == |d| && zwpEntry == old(zwpEntry)
        invariant SweptTo(d[..i], deque[..i], now, rto, rightWindowEdge)
        invariant forall j :: i <= j < |d| ==> deque[j] == d[j]
        invariant forall j :: 0 <= j < i ==> !GivesUp(d[j], now, rto, rightWindowEdge)
        invariant expired == Due(d[..i], now, rto, rightWindowEdge)
      {
        assert d[..i + 1] == d[..i] + [d[i]];
        DueAppend(d[..i], d[i], now, rto, rightWindowEdge);
        var e := deque[i];
        assert e == d[i];
        if Expires(e, now, rto, rightWindowEdge) {
          if e.counter + 1 > MAX_RETRANSMISSIONS {
            deque := deque[i := e.(counter := e.counter + 1)];
            return Failure(TIMEOUT);
          }
          deque := deque[i := Resent(e, now)];
          expired := expired + [Resent(e, now)];
        }
        i := i + 1;
      }
      assert d[..i] == d && deque[..i] == deque;
      if zwpEntry.Some? && ProbeExpires(zwpEntry.value, now, rto) {
        zwpEntry := Some(Resent(zwpEntry.value, now));
        expired := expired + [zwpEntry.value];
      }
      r := Success(expired);
    }
  }
}
