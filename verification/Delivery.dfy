/** Reliability is not for want of deliveries: every stream has a run that delivers all of it, through any window. */
module Delivery {
  import opened Common
  import opened Packets
  import opened SendBuffers
  import opened RecvBuffers
  import opened ByteStream

  /** How far each pointer has come, in a flow without a FIN whose buffers hold more than one byte. */
  ghost predicate Along(f: Flow, una: nat, nxt: nat, nbw: nat, got: nat, read: nat) {
    && FlowInv(f) && !f.finSent && |f.snd.ring| >= 2 && |f.rcv.ring| >= 2
    && f.snd.una == una && f.snd.nxt == nxt && f.snd.nbw == nbw && f.rcv.nxt == got && f.rcv.nbr == read
  }

  /** Everything written has been sent, acknowledged and read. */
  ghost predicate Idle(f: Flow, x: nat) { Along(f, x, x, x, x, x) && f.snd.probing == PAUSE }

  ghost predicate StepsTo(f: Flow, e: FlowEvent, g: Flow) {
    Defined(f, e) && Possible(f, e) && FaithfulEvent(f, e) && FlowStep(f, e) == g
  }

  // ----- The steps of one byte -----

  lemma Writes(f: Flow, b: byte, x: nat) returns (g: Flow)
    requires Idle(f, x)
    ensures StepsTo(f, AppWrite([b]), g) && Along(g, x, x, x + 1, x, x) && g.written == f.written + [b]
    ensures g.snd.probing == PAUSE
  {
    g := FlowStep(f, AppWrite([b]));
    StepKeeps(f, AppWrite([b]));
    hide FlowInv;
    assert [b][..1] == [b];
  }

  /** With the window open the byte goes out as data. */
  lemma Sends(f: Flow, x: nat) returns (g: Flow, pk: Packet)
    requires Along(f, x, x, x + 1, x, x) && f.snd.probing == PAUSE && f.snd.wnd > 0
    ensures StepsTo(f, SendData(1, 0, 0, 0), g) && Along(g, x, x + 1, x + 1, x, x) && g.written == f.written
    ensures pk in g.segs && pk.seqNum == x && |pk.payload| == 1 && g.snd.probing == PAUSE
  {
    g, pk := FlowStep(f, SendData(1, 0, 0, 0)), DataPacket(f.snd, 1, 0, 0);
    StepKeeps(f, SendData(1, 0, 0, 0));
    hide FlowInv;
  }

  /** With the window shut it goes out as a probe. */
  lemma Probes(f: Flow, x: nat) returns (f': Flow, g: Flow, pk: Packet)
    requires Along(f, x, x, x + 1, x, x) && f.snd.probing == PAUSE && f.snd.wnd == 0
    ensures StepsTo(f, ProbePause, f') && StepsTo(f', ProbeCountdown(0, 0, 0), g)
    ensures Along(g, x, x + 1, x + 1, x, x) && g.written == f.written
    ensures pk in g.segs && pk.seqNum == x && |pk.payload| == 1 && g.snd.probeSeq == x
  {
    f' := FlowStep(f, ProbePause);
    StepKeeps(f, ProbePause);
    g, pk := FlowStep(f', ProbeCountdown(0, 0, 0)), ProbePacket(f'.snd, 0, 0);
    StepKeeps(f', ProbeCountdown(0, 0, 0));
    hide FlowInv;
  }

  /** The byte is next in order, and becomes readable. */
  lemma Arrives(f: Flow, pk: Packet, x: nat) returns (g: Flow)
    requires Along(f, x, x + 1, x + 1, x, x) && pk in f.segs && pk.seqNum == x && |pk.payload| == 1
    ensures StepsTo(f, DeliverData(pk), g) && Along(g, x, x + 1, x + 1, x + 1, x) && g.written == f.written && g.snd == f.snd
  {
    g := FlowStep(f, DeliverData(pk));
    StepKeeps(f, DeliverData(pk));
    BehindNothing(f);
    hide FlowInv, Receive;
    OneByteStored(f.rcv, pk.payload);
    RcvWithin(g);
  }

  lemma BehindNothing(f: Flow)
    requires FlowInv(f) && !f.finSent
    ensures RecvInv(f.rcv)
  {}

  lemma RcvWithin(f: Flow)
    requires FlowInv(f)
    ensures f.rcv.nxt <= f.snd.nxt
  {}

  lemma OneByteStored(r: RecvState, payload: seq<byte>)
    requires RecvInv(r) && |r.ring| >= 2 && r.nbr == r.nxt && |payload| == 1
    ensures var r' := Receive(r, r.nxt, payload).state;
      r'.nxt > r.nxt && r'.nbr == r.nbr && |r'.ring| == |r.ring|
  {
    hide Receive;
    SegmentStored(r, r.nxt, payload, r.nxt);
    OnRecvStores(r, r.nxt, payload);
    SegmentStored(r, r.nxt, payload, Receive(r, r.nxt, payload).state.nxt);
  }

  lemma Reads(f: Flow, x: nat) returns (g: Flow)
    requires Along(f, x, x + 1, x + 1, x + 1, x)
    ensures StepsTo(f, AppRead(1), g) && Along(g, x, x + 1, x + 1, x + 1, x + 1) && g.written == f.written && g.snd == f.snd
  {
    g := FlowStep(f, AppRead(1));
    NoFinTaken(f);
    StepKeeps(f, AppRead(1));
    hide FlowInv;
  }

  lemma NoFinTaken(f: Flow)
    requires FlowInv(f) && !f.finSent
    ensures !f.finTaken
  {}

  /** The receiver offers its window, and the offer arrives. */
  lemma Acknowledges(f: Flow, una: nat, x: nat, w: nat) returns (f': Flow, g: Flow)
    requires Along(f, una, x, x, x, x) && w == WndField(Window(f.rcv))
    requires f.snd.probing == PAUSE || (una == f.snd.probeSeq && x == una + 1)
    requires f.snd.probing != COUNTDOWN
    ensures StepsTo(f, OfferWindow, f') && StepsTo(f', DeliverAck(x, w), g) && Idle(g, x) && g.written == f.written
  {
    f' := FlowStep(f, OfferWindow);
    StepKeeps(f, OfferWindow);
    g := FlowStep(f', DeliverAck(x, w));
    StepKeeps(f', DeliverAck(x, w));
    hide FlowInv;
  }

  // ----- Runs -----

  /** A faithful run, and where it leads. */
  ghost predicate LeadsTo(f: Flow, es: seq<FlowEvent>, g: Flow) {
    FlowRun(f, es) && FaithfulRun(f, es) && AfterRun(f, es) == g
  }

  lemma LeadsOne(f: Flow, e: FlowEvent, g: Flow)
    requires StepsTo(f, e, g)
    ensures LeadsTo(f, [e], g)
  {
    assert [e][1..] == [] && FlowRun(g, []) && FaithfulRun(g, []) && AfterRun(g, []) == g;
  }

  lemma {:induction false} LeadsOn(f: Flow, a: seq<FlowEvent>, g: Flow, b: seq<FlowEvent>, h: Flow)
    requires LeadsTo(f, a, g) && LeadsTo(g, b, h)
    ensures LeadsTo(f, a + b, h)
    decreases |a|
  {
    if a == [] {
      assert a + b == b;
    } else {
      hide Defined, Possible, FaithfulEvent, FlowStep;
      assert (a + b)[1..] == a[1..] + b;
      LeadsOn(FlowStep(f, a[0]), a[1..], g, b, h);
    }
  }

  lemma LeadsFurther(f: Flow, a: seq<FlowEvent>, g: Flow, e: FlowEvent, h: Flow)
    requires LeadsTo(f, a, g) && StepsTo(g, e, h)
    ensures LeadsTo(f, a + [e], h)
  {
    hide *;
    LeadsOne(g, e, h);
    LeadsOn(f, a, g, [e], h);
  }

  /** The byte leaves the sender, through an open window or a shut one. */
  lemma ByteSent(f: Flow, x: nat) returns (es: seq<FlowEvent>, g: Flow, pk: Packet)
    requires Along(f, x, x, x + 1, x, x) && f.snd.probing == PAUSE
    ensures LeadsTo(f, es, g) && Along(g, x, x + 1, x + 1, x, x) && g.written == f.written
    ensures pk in g.segs && pk.seqNum == x && |pk.payload| == 1
    ensures g.snd.probing == PAUSE || (g.snd.probing == WAITACK && g.snd.probeSeq == x)
  {
    hide Along, StepsTo, LeadsTo;
    if f.snd.wnd > 0 {
      g, pk := Sends(f, x);
      es := [SendData(1, 0, 0, 0)];
      LeadsOne(f, es[0], g);
    } else {
      var f';
      f', g, pk := Probes(f, x);
      ProbeOut(f', g);
      LeadsOne(f, ProbePause, f');
      es := [ProbePause] + [ProbeCountdown(0, 0, 0)];
      LeadsFurther(f, [ProbePause], f', ProbeCountdown(0, 0, 0), g);
    }
  }

  lemma ProbeOut(f: Flow, g: Flow)
    requires StepsTo(f, ProbeCountdown(0, 0, 0), g)
    ensures g.snd.probing != COUNTDOWN
  {}

  lemma ByteArrives(f: Flow, b: byte, x: nat) returns (es: seq<FlowEvent>, g: Flow)
    requires Idle(f, x)
    ensures LeadsTo(f, es, g) && Idle(g, x + 1) && g.written == f.written + [b]
  {
    hide *;
    var f1 := Writes(f, b, x);
    LeadsOne(f, AppWrite([b]), f1);
    var sent, f2, pk := ByteSent(f1, x);
    LeadsOn(f, [AppWrite([b])], f1, sent, f2);
    es := [AppWrite([b])] + sent;
    var f3 := Arrives(f2, pk, x);
    LeadsFurther(f, es, f2, DeliverData(pk), f3);
    es := es + [DeliverData(pk)];
    var f4 := Reads(f3, x);
    LeadsFurther(f, es, f3, AppRead(1), f4);
    es := es + [AppRead(1)];
    var w := WndField(Window(f4.rcv));
    var f5;
    f5, g := Acknowledges(f4, x, x + 1, w);
    LeadsFurther(f, es, f4, OfferWindow, f5);
    es := es + [OfferWindow];
    LeadsFurther(f, es, f5, DeliverAck(x + 1, w), g);
    es := es + [DeliverAck(x + 1, w)];
  }

  lemma {:induction false} BytesArrive(f: Flow, data: seq<byte>, x: nat) returns (es: seq<FlowEvent>, g: Flow)
    requires Idle(f, x)
    ensures LeadsTo(f, es, g) && Idle(g, x + |data|) && g.written == f.written + data
    decreases |data|
  {
    if data == [] {
      es, g := [], f;
      assert f.written + [] == f.written;
    } else {
      hide *;
      var first, f1 := ByteArrives(f, data[0], x);
      assert f.written + data == (f.written + [data[0]]) + data[1..];
      es, g := BytesArrive(f1, data[1..], x + 1);
      LeadsOn(f, first, f1, es, g);
      es := first + es;
    }
  }

  lemma IdleMeansRead(f: Flow, x: nat)
    requires Idle(f, x)
    ensures f.delivered == f.written
  {}

  lemma StartsIdle(f: Flow)
    requires FlowInit(f) && |f.snd.ring| >= 2 && |f.rcv.ring| >= 2
    ensures Idle(f, f.base)
  {
    InitialFlow(f);
  }

  /** Whatever is to be sent, and whatever windows are offered: some run writes, sends and reads all of it. */
  lemma EveryStreamArrives(f: Flow, data: seq<byte>) returns (es: seq<FlowEvent>)
    requires FlowInit(f) && |f.snd.ring| >= 2 && |f.rcv.ring| >= 2
    ensures FlowRun(f, es) && FaithfulRun(f, es)
    ensures AfterRun(f, es).written == data && AfterRun(f, es).delivered == data
  {
    assert f.written + data == data;
    StartsIdle(f);
    var g;
    hide FlowInit, FlowInv;
    es, g := BytesArrive(f, data, f.base);
    IdleMeansRead(g, f.base + |data|);
  }
}
