/** From the first SYN to the end of the connection: over a wire without older packets, one incarnation of each end
    needs no condition to agree, and a finished handshake, its packets still around, starts the connection. */
module Lifecycle {
  import opened Common
  import opened Packets
  import opened SendBuffers
  import opened ByteStream
  import opened Sockets
  import opened Handshake
  import opened Connection

  /** The client's SYN is the only packet. */
  ghost predicate CleanStart(h: Opening, syn: Packet) {
    && OpenInit(h) && h.toServer == {syn} && h.toClient == {}
    && syn.flags == SYN && syn.payload == [] && syn.seqNum == h.clientIsn
  }

  /** What the handshake itself puts on the wire. */
  ghost predicate CleanWire(h: Opening) {
    && (h.server.None? ==> h.toClient == {} && !h.accepted)
    && (h.server.Some? ==> h.server.value.rcv.nxt == h.clientIsn + 1)
    && (h.accepted ==> h.client.rcv.nxt == h.serverIsn + 1)
    && (forall p :: p in h.toClient ==>
          p.flags == SYN_ACK && p.payload == [] && p.seqNum == h.serverIsn && p.ackNum == h.clientIsn + 1)
    && (forall p :: p in h.toServer ==>
          && p.payload == []
          && (|| (p.flags == SYN && p.seqNum == h.clientIsn)
              || (p.flags == ACK && h.accepted && p.seqNum == h.clientIsn + 1 && p.ackNum == h.serverIsn + 1)))
  }

  lemma CleanAnswer(h: Opening, pk: Packet)
    requires OpenInv(h) && CleanWire(h) && OpenPossible(h, ClientGets(pk)) && OpenDefined(h)
    ensures CleanWire(OpenStep(h, ClientGets(pk)))
  {
    if h.accepted {
      AckOpened(h.client.snd, h.clientIsn, pk.ackNum, pk.wnd);
    } else {
      AckHalfOpen(h.client.snd, h.clientIsn, pk.ackNum, pk.wnd);
    }
    hide Acked, AcksAreMeant, Agreed, ServerInv;
  }

  /** A step over a clean wire is harmless and leaves it clean. */
  lemma CleanStep(h: Opening, e: OpenEvent)
    requires OpenInv(h) && CleanWire(h) && OpenPossible(h, e) && !e.ServerGone?
    ensures Harmless(h, e) && OpenDefined(h) && OpenInv(OpenStep(h, e)) && CleanWire(OpenStep(h, e))
  {
    OpenDefinedInv(h);
    OpenStepKeeps(h, e);
    hide OpenInv;
    if e.ClientGets? {
      hide OpenStep;
      CleanAnswer(h, e.pk);
    }
  }

  /** No server socket is lost on the way. */
  predicate OneIncarnation(es: seq<OpenEvent>) {
    forall i :: 0 <= i < |es| ==> !es[i].ServerGone?
  }

  lemma {:induction false} CleanRun(h: Opening, es: seq<OpenEvent>)
    requires OpenInv(h) && CleanWire(h) && OpenRun(h, es) && OneIncarnation(es)
    ensures OpenInv(AfterOpenRun(h, es)) && CleanWire(AfterOpenRun(h, es))
    decreases |es|
  {
    if es != [] {
      hide OpenInv, CleanWire, OpenPossible, OpenStep;
      CleanStep(h, es[0]);
      CleanRun(OpenStep(h, es[0]), es[1..]);
    }
  }

  function Infos(ps: set<Packet>): set<AckInfo> {
    set p | p in ps && (p.flags == ACK || p.flags == SYN_ACK) :: AckInfo(p.ackNum, p.wnd)
  }

  /** The connection of two established ends, with every packet of the handshake still on the wire. */
  function Established(h: Opening): Conn
    requires h.server.Some?
  {
    var s := h.server.value;
    Conn(h.client.state, s.state,
         Flow(h.clientIsn + 1, h.client.snd, s.rcv, {}, Infos(h.toClient), [], [], false, false),
         Flow(h.serverIsn + 1, s.snd, h.client.rcv, {}, Infos(h.toServer), [], [], false, false),
         h.toServer, h.toClient)
  }

  ghost predicate BothEstablished(h: Opening) {
    h.client.state == ESTABLISHED && h.server.Some? && h.server.value.state == ESTABLISHED
  }

  lemma ConnectionStarts(h: Opening)
    requires OpenInv(h) && CleanWire(h) && BothEstablished(h)
    ensures ConnInit(Established(h))
  {
    HandshakeStartsStreams(h, Infos(h.toClient), Infos(h.toServer));
    hide FlowInit, OpenInv;
  }

  /** From SYN to close: whatever the wire does to the packets of this handshake, the ends agree, and whatever the
      connection goes on to do, both directions are reliable byte streams. */
  lemma OpenedStreams(h: Opening, syn: Packet, es: seq<OpenEvent>, cs: seq<ConnEvent>)
    requires CleanStart(h, syn) && OpenRun(h, es) && OneIncarnation(es)
    ensures Agreed(AfterOpenRun(h, es))
    ensures BothEstablished(AfterOpenRun(h, es)) && ConnRun(Established(AfterOpenRun(h, es)), cs)
            && FaithfulConnRun(Established(AfterOpenRun(h, es)), cs) ==>
      var d := AfterConnRun(Established(AfterOpenRun(h, es)), cs);
      d.ab.delivered <= d.ab.written && d.ba.delivered <= d.ba.written
  {
    CleanRun(h, es);
    var g := AfterOpenRun(h, es);
    assert Agreed(g);
    hide OpenRun, AfterOpenRun, OpenInv, CleanWire, ConnRun, FaithfulConnRun, AfterConnRun, ConnInit, Established;
    if BothEstablished(g) && ConnRun(Established(g), cs) && FaithfulConnRun(Established(g), cs) {
      ConnectionStarts(g);
      DuplexStreams(Established(g), cs);
    }
  }

  // ----- A client that does not wait for the server -----

  /** The connection as it will be once the server takes an acknowledgment with this window. */
  function Anticipated(h: Opening, wnd: nat): Conn
    requires h.server.Some?
  {
    var s := h.server.value;
    Established(h.(server := Some(s.(state := ESTABLISHED, snd := InitialSend(s.snd.ring, h.serverIsn + 1, wnd)))))
  }

  ghost predicate AtClient(es: seq<ConnEvent>) {
    forall i :: 0 <= i < |es| ==> es[i].AtA?
  }

  /** What happens at the client leaves the server's end alone. */
  lemma {:induction false} ServerUntouched(c: Conn, es: seq<ConnEvent>)
    requires ConnRun(c, es) && AtClient(es)
    ensures var d := AfterConnRun(c, es); d.b == c.b && d.ba.snd == c.ba.snd && d.ab.rcv == c.ab.rcv
    decreases |es|
  {
    if es != [] {
      StepUntouched(c, es[0].e);
      hide StepA, PossibleAtEither, ReadyAtEither, ConnStep;
      ServerUntouched(ConnStep(c, es[0]), es[1..]);
    }
  }

  lemma StepUntouched(c: Conn, e: SideEvent)
    requires Ready(c)
    ensures var d := ConnStep(c, AtA(e)); d.b == c.b && d.ba.snd == c.ba.snd && d.ab.rcv == c.ab.rcv
  {
    hide Transmitted, CountdownEnded, WriteChunk, ControlSent, OnPacket;
  }

  lemma AnticipatedStarts(h: Opening, wnd: nat)
    requires OpenInv(h) && CleanWire(h) && h.client.state == ESTABLISHED && h.server.Some? && h.server.value.state == SYN_RECEIVED
    ensures ConnInit(Anticipated(h, wnd))
  {
    var s := h.server.value;
    var g := h.(server := Some(s.(state := ESTABLISHED, snd := InitialSend(s.snd.ring, h.serverIsn + 1, wnd))));
    assert OpenInv(g) && CleanWire(g);
    ConnectionStarts(g);
  }

  /** The packet that completes the handshake makes the server what the connection expects at that end. */
  lemma ServerJoins(h: Opening, c: Conn, p: Packet)
    requires OpenInv(h) && h.server.Some? && h.server.value.state == SYN_RECEIVED && Completes(p, h.serverIsn, h.server.value.rcv.nxt)
    requires var c0 := Anticipated(h, p.wnd); c.b == c0.b && c.ba.snd == c0.ba.snd && c.ab.rcv == c0.ab.rcv
    ensures Sane(h.server.value) && OnPacket(h.server.value, p).ep == EndpointA(Swap(c))
  {
    AckHalfOpen(h.server.value.snd, h.serverIsn, p.ackNum, p.wnd);
    hide AcksAreMeant, Agreed, ClientInv;
  }

  /** The client is established and goes on, writing and sending data, while the server still waits for the last
      acknowledgment. The server takes it from any packet the client has sent by then, and drops its payload. That makes
      it the other end of the connection the client is already in, and whatever follows, both directions are
      reliable byte streams. */
  lemma EarlyData(h: Opening, early: seq<ConnEvent>, p: Packet, cs: seq<ConnEvent>)
    requires OpenInv(h) && CleanWire(h) && h.client.state == ESTABLISHED && h.server.Some? && h.server.value.state == SYN_RECEIVED
    requires AtClient(early) && ConnRun(Anticipated(h, p.wnd), early) && FaithfulConnRun(Anticipated(h, p.wnd), early)
    requires p in AfterConnRun(Anticipated(h, p.wnd), early).fromA && Completes(p, h.serverIsn, h.server.value.rcv.nxt)
    ensures var c := AfterConnRun(Anticipated(h, p.wnd), early);
      && Sane(h.server.value) && OnPacket(h.server.value, p).ep == EndpointA(Swap(c))
      && ConnInv(c)
      && (ConnRun(c, cs) && FaithfulConnRun(c, cs) ==>
            var d := AfterConnRun(c, cs); d.ab.delivered <= d.ab.written && d.ba.delivered <= d.ba.written)
  {
    var c0 := Anticipated(h, p.wnd);
    AnticipatedStarts(h, p.wnd);
    InitialConn(c0);
    hide OpenInv, CleanWire, Anticipated, ConnInit, ConnInv, Completes, FaithfulConnRun, EndpointA, OnPacket, Swap;
    ConnRunKeeps(c0, early);
    ServerUntouched(c0, early);
    var c := AfterConnRun(c0, early);
    ServerJoins(h, c, p);
    if ConnRun(c, cs) && FaithfulConnRun(c, cs) {
      ConnRunKeeps(c, cs);
    }
  }
}
