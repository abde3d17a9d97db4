/** Why the FIN must wait for the data: a socket that is closed with a byte still unsent never sends that byte, because
    the FIN takes its number. */
module HastyFin {
  import opened Common
  import opened RetransmissionQueues
  import opened SendBuffers
  import opened RecvBuffers
  import opened Sender
  import opened ByteStream

  /** The sender has passed position p, and no packet that was ever sent carries it. */
  ghost predicate PassedOver(f: Flow, p: nat) {
    && p < f.snd.nxt
    && (forall pk :: pk in f.segs ==> !pk.Covers(p))
    && (forall i :: 0 <= i < |f.snd.queue.deque| ==> !f.snd.queue.deque[i].packet.Covers(p))
    && (f.snd.queue.zwp.Some? ==> !f.snd.queue.zwp.value.packet.Covers(p))
  }

  /** An acknowledgment brings no packet into the queue. */
  lemma AckPasses(f: Flow, ackNum: nat, wnd: nat, p: nat)
    requires PassedOver(f, p)
    ensures PassedOver(f.(snd := Acked(f.snd, ackNum, wnd)), p)
  {
    var k := UnackedSuffix(f.snd.queue.deque, ackNum);
  }

  /** Nor does a sweep. */
  lemma SweepPasses(f: Flow, q: QueueState, now: int, rto: int, p: nat)
    requires PassedOver(f, p) && Possible(f, Sweep(q, now, rto))
    ensures PassedOver(f.(snd := f.snd.(queue := q)), p)
  {}

  /** What was passed over stays so in every step: new packets start at nxt. */
  lemma PassedStep(f: Flow, e: FlowEvent, p: nat)
    requires PassedOver(f, p) && Defined(f, e) && Possible(f, e)
    ensures PassedOver(FlowStep(f, e), p)
  {
    if e.DeliverAck? {
      AckPasses(f, e.ackNum, e.wnd, p);
    } else if e.Sweep? {
      SweepPasses(f, e.queue, e.now, e.rto, p);
    }
  }

  lemma {:induction false} PassedRun(f: Flow, events: seq<FlowEvent>, p: nat)
    requires PassedOver(f, p) && FlowRun(f, events)
    ensures PassedOver(AfterRun(f, events), p)
    decreases |events|
  {
    if events != [] {
      hide PassedOver, Defined, Possible, FlowStep;
      PassedStep(f, events[0], p);
      PassedRun(FlowStep(f, events[0]), events[1..], p);
    }
  }

  /** From any state of a run with a byte unsent, the FIN passes over that byte, and whatever happens afterwards no
      packet ever carries it. */
  lemma HastyFinLoses(f: Flow, wnd: nat, now: int, events: seq<FlowEvent>)
    requires FlowInv(f) && !f.finSent && f.snd.nxt < f.snd.nbw
    requires FlowRun(FlowStep(f, SendFin(wnd, now)), events)
    ensures var h, g, p := FlowStep(f, SendFin(wnd, now)), AfterRun(FlowStep(f, SendFin(wnd, now)), events), f.snd.nxt;
      && f.base <= p < f.DataEnd() && h.snd.una <= p < h.snd.nxt && !InOneEntry(h, p)
      && PassedOver(g, p)
  {
    var h, p := FlowStep(f, SendFin(wnd, now)), f.snd.nxt;
    assert forall pk :: pk in f.segs ==> Carries(pk, p, f.base, f.written);
    PassedRun(h, events, p);
  }

  /** Such a state is one write away: two bytes are in the buffer, and neither has been sent. */
  lemma HastyFinRun(ring: seq<byte>, peer: seq<byte>, a: byte, b: byte, wnd: nat, now: int)
    requires |ring| > 2 && 0 < |peer| < U32 - 1
    ensures var f := Flow(0, InitialSend(ring, 0, wnd), RecvState(peer, 0, 0, []), {}, {}, [], [], false, false);
      && FlowInit(f) && FlowRun(f, [AppWrite([a, b])])
      && var g := AfterRun(f, [AppWrite([a, b])]);
      FlowInv(g) && g.base == 0 && g.written == [a, b] && g.snd.nxt < g.snd.nbw && !InOneEntry(FlowStep(g, SendFin(0, now)), 0)
  {
    var f := Flow(0, InitialSend(ring, 0, wnd), RecvState(peer, 0, 0, []), {}, {}, [], [], false, false);
    var e := AppWrite([a, b]);
    assert f.snd == InitialSend(f.snd.ring, f.base, wnd);
    InitialFlow(f);
    WriteStep(f, e);
    var g := FlowStep(f, e);
    assert [e][1..] == [] && FlowRun(g, []) && g.written == [a, b];
    HastyFinLoses(g, 0, now, []);
  }
}
