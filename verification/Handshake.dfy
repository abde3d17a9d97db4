/** The three-way handshake over a network that duplicates, reorders and keeps packets of earlier connections. */
module Handshake {
  import opened Common
  import opened Packets
  import opened RetransmissionQueues
  import opened SendBuffers
  import opened RecvBuffers
  import opened ByteStream
  import opened Sockets

  /** One client connection attempt, and the server's incarnations for the same session. `accepted`: the client
      has taken a SYN-ACK; the thread in connect has yet to wake up and move it to ESTABLISHED. */
  datatype Opening = Opening(clientIsn: nat, client: Endpoint, accepted: bool,
                             serverIsn: nat, server: Option<Endpoint>,
                             toServer: set<Packet>, toClient: set<Packet>)

  datatype OpenEvent =
    | ClientGets(pk: Packet)
    | ClientWakes
    | ServerGetsSyn(pk: Packet, isn: nat, sendRing: seq<byte>, recvRing: seq<byte>, now: int)
    | ServerGets(pk: Packet)
    | ServerGone

  function SynAck(isn: nat, clientIsn: nat, recvRing: seq<byte>): Packet {
    Packet(SYN_ACK, isn, clientIsn + 1, WndField(Window(RecvState(recvRing, clientIsn + 1, clientIsn + 1, []))), [])
  }

  /** createPassiveConnection_: a socket in SYN_RECEIVED that has sent its SYN-ACK. */
  function Passive(pk: Packet, isn: nat, sendRing: seq<byte>, recvRing: seq<byte>, now: int): Endpoint {
    Endpoint(SYN_RECEIVED, ControlSent(InitialSend(sendRing, isn, pk.wnd), SynAck(isn, pk.seqNum, recvRing), now),
             RecvState(recvRing, pk.seqNum + 1, pk.seqNum + 1, []), false)
  }

  /** The packet that takes a server with these numbers from SYN_RECEIVED to ESTABLISHED. */
  predicate Completes(p: Packet, isn: nat, rcvNxt: nat) {
    p.flags == ACK && p.ackNum == isn + 1 && p.seqNum == rcvNxt
  }

  /** A packet that an established end takes without touching its receive buffer: no data and no FIN. */
  predicate Dataless(pk: Packet) {
    pk.flags == SYN || pk.flags == SYN_ACK || (pk.flags == ACK && pk.payload == [])
  }

  /** Until an end is established it may get any packet at all; what an established end does with data and FINs is not
      part of the handshake. */
  ghost predicate OpenPossible(h: Opening, e: OpenEvent) {
    match e
    case ClientGets(pk) => pk in h.toClient && (h.client.state == SYN_SENT || (h.client.state == ESTABLISHED && Dataless(pk)))
    case ClientWakes => h.client.state == SYN_SENT && h.accepted
    case ServerGetsSyn(pk, isn, sendRing, recvRing, _) =>
      && pk in h.toServer && pk.flags == SYN && h.server.None? && 0 < |sendRing| && 0 < |recvRing| < U32 - 1
      && (forall p :: p in h.toServer ==> !Completes(p, isn, pk.seqNum + 1))
    case ServerGets(pk) => pk in h.toServer && h.server.Some? && (h.server.value.state == SYN_RECEIVED || Dataless(pk))
    case ServerGone => h.server.Some?
  }

  ghost predicate OpenDefined(h: Opening) {
    Sane(h.client) && (h.server.Some? ==> Sane(h.server.value))
  }

  function OpenStep(h: Opening, e: OpenEvent): Opening
    requires OpenDefined(h)
  {
    match e
    case ClientGets(pk) =>
      var r := OnPacket(h.client, pk);
      h.(client := r.ep,
         accepted := h.accepted || (h.client.state == SYN_SENT && r.reply.Some?),
         toServer := if r.reply.Some? then h.toServer + {r.reply.value} else h.toServer)
    case ClientWakes => h.(client := h.client.(state := ESTABLISHED))
    case ServerGetsSyn(pk, isn, sendRing, recvRing, now) =>
      h.(serverIsn := isn, server := Some(Passive(pk, isn, sendRing, recvRing, now)),
         toClient := h.toClient + {SynAck(isn, pk.seqNum, recvRing)})
    case ServerGets(pk) =>
      if h.server.None? then h
      else
        var r := OnPacket(h.server.value, pk);
        h.(server := Some(r.ep), toClient := if r.reply.Some? then h.toClient + {r.reply.value} else h.toClient)
    case ServerGone => h.(server := None)
  }

  /** While connect is asleep, a second SYN-ACK is taken like the first. That does no harm if it carries the same
      number, or if the server is not yet ESTABLISHED and no packet on the wire can make it so. */
  ghost predicate Harmless(h: Opening, e: OpenEvent) {
    e.ClientGets? && e.pk.flags == SYN_ACK && h.client.state == SYN_SENT && h.accepted ==>
      || e.pk.seqNum + 1 == h.client.rcv.nxt
      || h.server.None?
      || (h.server.value.state == SYN_RECEIVED && NothingCompletes(h))
  }

  ghost predicate NothingCompletes(h: Opening)
    requires h.server.Some?
  {
    forall p :: p in h.toServer ==> !Completes(p, h.serverIsn, h.server.value.rcv.nxt)
  }

  // ----- The invariant -----

  /** The SYN is out and unanswered. */
  ghost predicate HalfOpen(s: SendState, isn: nat) {
    && s == SendState(s.ring, isn, isn + 1, isn + 1, s.wnd, PAUSE, 0, QueueState(s.queue.deque, None))
    && |s.queue.deque| == 1 && s.queue.deque[0].packet.EndExclusive() == isn
  }

  /** The SYN is acknowledged, and nothing else was ever sent. */
  ghost predicate Opened(s: SendState, isn: nat) {
    s == InitialSend(s.ring, isn + 1, s.wnd)
  }

  ghost predicate FreshRecv(r: RecvState) {
    0 < |r.ring| < U32 - 1 && r == RecvState(r.ring, r.nxt, r.nxt, [])
  }

  ghost predicate ClientInv(h: Opening) {
    && FreshRecv(h.client.rcv) && |h.client.snd.ring| > 0
    && (if h.accepted
        then Opened(h.client.snd, h.clientIsn) && (h.client.state == SYN_SENT || h.client.state == ESTABLISHED)
        else HalfOpen(h.client.snd, h.clientIsn) && h.client.state == SYN_SENT)
  }

  ghost predicate ServerInv(h: Opening) {
    h.server.Some? ==>
      var s := h.server.value;
      && FreshRecv(s.rcv) && |s.snd.ring| > 0 && !s.recvStopped
      && (|| (s.state == SYN_RECEIVED && HalfOpen(s.snd, h.serverIsn))
          || (s.state == ESTABLISHED && Opened(s.snd, h.serverIsn)))
  }

  /** Whoever can complete the handshake is this client, and it has taken the server's number. */
  ghost predicate AcksAreMeant(h: Opening) {
    h.server.Some? && h.server.value.state == SYN_RECEIVED ==>
      forall p :: p in h.toServer && Completes(p, h.serverIsn, h.server.value.rcv.nxt) ==>
        h.accepted && h.client.rcv.nxt == h.serverIsn + 1 && p.seqNum == h.clientIsn + 1
  }

  /** The two ends agree on both initial sequence numbers, and both SYNs are acknowledged. */
  ghost predicate Agreed(h: Opening) {
    h.server.Some? && h.server.value.state == ESTABLISHED ==>
      && h.server.value.rcv.nxt == h.clientIsn + 1 && h.server.value.snd.una == h.serverIsn + 1
      && h.client.rcv.nxt == h.serverIsn + 1 && h.client.snd.una == h.clientIsn + 1
      && h.accepted
  }

  ghost predicate OpenInv(h: Opening) {
    ClientInv(h) && ServerInv(h) && AcksAreMeant(h) && Agreed(h)
  }

  /** Any packets of earlier connections may be around. */
  ghost predicate OpenInit(h: Opening) {
    && h.client.state == SYN_SENT && !h.accepted && h.server == None
    && FreshRecv(h.client.rcv) && |h.client.snd.ring| > 0 && HalfOpen(h.client.snd, h.clientIsn)
  }

  /** createActiveConnection_ starts like this. */
  lemma ActiveOpen(sendRing: seq<byte>, isn: nat, wnd: nat, syn: Packet, now: int)
    requires syn.seqNum == isn && syn.payload == []
    ensures HalfOpen(ControlSent(InitialSend(sendRing, isn, wnd), syn, now), isn)
  {}

  lemma AckHalfOpen(s: SendState, isn: nat, ackNum: nat, wnd: nat)
    requires HalfOpen(s, isn)
    ensures var s' := Acked(s, ackNum, wnd);
      && s'.ring == s.ring
      && (if ackNum == isn + 1 then Opened(s', isn) else HalfOpen(s', isn))
      && (s'.una == s'.nxt <==> ackNum == isn + 1)
  {
    assert s.queue.deque[1..] == [];
    assert ackNum > isn ==> Unacked(s.queue.deque, ackNum) == [];
  }

  lemma AckOpened(s: SendState, isn: nat, ackNum: nat, wnd: nat)
    requires Opened(s, isn)
    ensures Opened(Acked(s, ackNum, wnd), isn) && Acked(s, ackNum, wnd).ring == s.ring
  {}

  lemma OpenDefinedInv(h: Opening)
    requires ClientInv(h) && ServerInv(h)
    ensures OpenDefined(h)
  {}

  lemma ClientGetsKeeps(h: Opening, pk: Packet)
    requires OpenInv(h) && OpenPossible(h, ClientGets(pk)) && Harmless(h, ClientGets(pk))
    ensures OpenDefined(h) && OpenInv(OpenStep(h, ClientGets(pk)))
  {
    OpenDefinedInv(h);
    if h.accepted {
      AckOpened(h.client.snd, h.clientIsn, pk.ackNum, pk.wnd);
    } else {
      AckHalfOpen(h.client.snd, h.clientIsn, pk.ackNum, pk.wnd);
    }
    hide Acked, HalfOpen;
  }

  lemma ServerGetsKeeps(h: Opening, pk: Packet)
    requires OpenInv(h) && OpenPossible(h, ServerGets(pk))
    ensures OpenDefined(h) && OpenInv(OpenStep(h, ServerGets(pk)))
  {
    OpenDefinedInv(h);
    var s := h.server.value;
    if s.state == SYN_RECEIVED {
      AckHalfOpen(s.snd, h.serverIsn, pk.ackNum, pk.wnd);
    } else {
      AckOpened(s.snd, h.serverIsn, pk.ackNum, pk.wnd);
    }
    hide Acked, HalfOpen;
  }

  lemma OpenStepKeeps(h: Opening, e: OpenEvent)
    requires OpenInv(h) && OpenPossible(h, e) && Harmless(h, e)
    ensures OpenDefined(h) && OpenInv(OpenStep(h, e))
  {
    OpenDefinedInv(h);
    match e
    case ClientGets(pk) => ClientGetsKeeps(h, pk);
    case ServerGets(pk) => ServerGetsKeeps(h, pk);
    case ServerGetsSyn(pk, isn, sendRing, recvRing, now) => ActiveOpen(sendRing, isn, pk.wnd, SynAck(isn, pk.seqNum, recvRing), now);
    case ClientWakes =>
    case ServerGone =>
  }

  // ----- Runs -----

  ghost predicate OpenRun(h: Opening, es: seq<OpenEvent>)
    decreases |es|
  {
    es == [] || (OpenDefined(h) && OpenPossible(h, es[0]) && OpenRun(OpenStep(h, es[0]), es[1..]))
  }

  ghost function AfterOpenRun(h: Opening, es: seq<OpenEvent>): Opening
    requires OpenRun(h, es)
    decreases |es|
  {
    if es == [] then h else AfterOpenRun(OpenStep(h, es[0]), es[1..])
  }

  ghost predicate HarmlessRun(h: Opening, es: seq<OpenEvent>)
    requires OpenRun(h, es)
    decreases |es|
  {
    es == [] || (Harmless(h, es[0]) && HarmlessRun(OpenStep(h, es[0]), es[1..]))
  }

  lemma {:induction false} OpenRunKeeps(h: Opening, es: seq<OpenEvent>)
    requires OpenInv(h) && OpenRun(h, es) && HarmlessRun(h, es)
    ensures OpenInv(AfterOpenRun(h, es)) && OpenDefined(AfterOpenRun(h, es))
    decreases |es|
  {
    OpenDefinedInv(h);
    hide OpenInv, OpenDefined, OpenPossible, OpenStep, Harmless;
    if es != [] {
      OpenStepKeeps(h, es[0]);
      OpenRunKeeps(OpenStep(h, es[0]), es[1..]);
    }
  }

  /** Whatever is duplicated, reordered or left over from earlier connections: when the server is ESTABLISHED
      the two ends agree. */
  lemma HandshakeAgreement(h: Opening, es: seq<OpenEvent>)
    requires OpenInit(h) && OpenRun(h, es) && HarmlessRun(h, es)
    ensures Agreed(AfterOpenRun(h, es))
  {
    OpenRunKeeps(h, es);
  }

  /** The sanity checks at the transitions to ESTABLISHED hold. */
  lemma SanityChecks(h: Opening, es: seq<OpenEvent>)
    requires OpenInit(h) && OpenRun(h, es) && HarmlessRun(h, es)
    ensures var g := AfterOpenRun(h, es);
      && OpenDefined(g)
      && (g.accepted ==> g.client.snd.una == g.client.snd.nxt == g.client.snd.nbw && g.client.rcv.nbr == g.client.rcv.nxt)
      && (g.server.Some? && g.server.value.state == ESTABLISHED ==>
            var s := g.server.value; s.snd.una == s.snd.nxt == s.snd.nbw && s.rcv.nbr == s.rcv.nxt)
  {
    OpenRunKeeps(h, es);
  }

  /** A finished handshake is where the two byte streams start, whatever acknowledgments that are not ahead of
      them are still around. */
  lemma HandshakeStartsStreams(h: Opening, forClient: set<AckInfo>, forServer: set<AckInfo>)
    requires OpenInv(h) && h.server.Some? && h.server.value.state == ESTABLISHED
    requires forall a :: a in forClient ==> a.ackNum <= h.clientIsn + 1
    requires forall a :: a in forServer ==> a.ackNum <= h.serverIsn + 1
    ensures FlowInit(Flow(h.clientIsn + 1, h.client.snd, h.server.value.rcv, {}, forClient, [], [], false, false))
    ensures FlowInit(Flow(h.serverIsn + 1, h.server.value.snd, h.client.rcv, {}, forServer, [], [], false, false))
  {}

  // ----- A second SYN-ACK -----

  /** The ends agree now, and whichever packet on the wire the server takes next. */
  ghost predicate AgreedNext(h: Opening)
    requires OpenDefined(h)
  {
    && Agreed(h)
    && forall p :: OpenPossible(h, ServerGets(p)) ==> Agreed(OpenStep(h, ServerGets(p)))
  }

  /** For every SYN-ACK that reaches a sleeping client a second time, the condition is exact: met, the invariant of all
      runs holds on; not met, the ends disagree at once or after the next packet the server takes. */
  lemma SecondSynAck(h: Opening, pk: Packet)
    requires OpenInv(h) && OpenPossible(h, ClientGets(pk)) && pk.flags == SYN_ACK && h.client.state == SYN_SENT && h.accepted
    ensures OpenDefined(h) && OpenDefined(OpenStep(h, ClientGets(pk)))
    ensures Harmless(h, ClientGets(pk)) <==> OpenInv(OpenStep(h, ClientGets(pk)))
    ensures Harmless(h, ClientGets(pk)) <==> AgreedNext(OpenStep(h, ClientGets(pk)))
  {
    OpenDefinedInv(h);
    AckOpened(h.client.snd, h.clientIsn, pk.ackNum, pk.wnd);
    var h' := OpenStep(h, ClientGets(pk));
    if Harmless(h, ClientGets(pk)) {
      ClientGetsKeeps(h, pk);
      forall p | OpenPossible(h', ServerGets(p)) ensures Agreed(OpenStep(h', ServerGets(p))) {
        ServerGetsKeeps(h', p);
      }
    } else {
      HarmShows(h, pk);
    }
  }

  lemma HarmShows(h: Opening, pk: Packet)
    requires OpenInv(h) && OpenPossible(h, ClientGets(pk)) && pk.flags == SYN_ACK && h.client.state == SYN_SENT && h.accepted
    requires OpenDefined(h) && OpenDefined(OpenStep(h, ClientGets(pk))) && !Harmless(h, ClientGets(pk))
    ensures !OpenInv(OpenStep(h, ClientGets(pk))) && !AgreedNext(OpenStep(h, ClientGets(pk)))
  {
    AckOpened(h.client.snd, h.clientIsn, pk.ackNum, pk.wnd);
    var h' := OpenStep(h, ClientGets(pk));
    if h.server.value.state == SYN_RECEIVED {
      var p :| p in h.toServer && Completes(p, h.serverIsn, h.server.value.rcv.nxt);
      AckHalfOpen(h'.server.value.snd, h'.serverIsn, p.ackNum, p.wnd);
      assert OpenPossible(h', ServerGets(p)) && !Agreed(OpenStep(h', ServerGets(p)));
    }
  }

  /** The answer of a client that has just taken the SYN-ACK with number isn. */
  function FirstAck(h: Opening, isn: nat): Packet {
    AckPacket(h.clientIsn + 1, isn + 1, Window(h.client.rcv.(nbr := isn + 1, nxt := isn + 1)))
  }

  function Race(h: Opening, syn: Packet, stale: Packet, isn: nat, ring: seq<byte>): seq<OpenEvent> {
    [ServerGetsSyn(syn, isn, ring, ring, 0), ClientGets(SynAck(isn, syn.seqNum, ring)), ServerGets(FirstAck(h, isn)), ClientGets(stale)]
  }

  /** The race is real: with one stale SYN-ACK on the wire the handshake completes and then falls apart. */
  lemma RaceBreaksAgreement(h: Opening, syn: Packet, stale: Packet, isn: nat, ring: seq<byte>)
    requires OpenInit(h) && h.toServer == {syn} && syn.flags == SYN && syn.seqNum == h.clientIsn
    requires stale in h.toClient && stale.flags == SYN_ACK && stale.seqNum != isn && 0 < |ring| < U32 - 1
    ensures OpenRun(h, Race(h, syn, stale, isn, ring))
    ensures !Agreed(AfterOpenRun(h, Race(h, syn, stale, isn, ring)))
  {
    var es := Race(h, syn, stale, isn, ring);
    var h1 := AfterSyn(h, syn, isn, ring);
    var h2 := AfterFirst(h1, isn, ring);
    var h3 := AfterAck(h2, FirstAck(h, isn));
    SecondSynAck(h3, stale);
    var h4 := OpenStep(h3, ClientGets(stale));
    assert !Agreed(h4) && es[0].pk == syn && es[3] == ClientGets(stale);
    hide Agreed, AgreedNext, Harmless, OpenStep, OpenPossible, OpenDefined, OpenInv, FirstAck, SynAck;
    FourSteps(h, h1, h2, h3, h4, es);
  }

  ghost predicate Leads(h: Opening, e: OpenEvent, h': Opening) { OpenDefined(h) && OpenPossible(h, e) && OpenStep(h, e) == h' }

  lemma FourSteps(h: Opening, h1: Opening, h2: Opening, h3: Opening, h4: Opening, es: seq<OpenEvent>)
    requires |es| == 4 && Leads(h, es[0], h1) && Leads(h1, es[1], h2) && Leads(h2, es[2], h3) && Leads(h3, es[3], h4)
    ensures OpenRun(h, es) && AfterOpenRun(h, es) == h4
  {
    hide OpenStep, OpenPossible, OpenDefined;
    assert es[1..] == [es[1], es[2], es[3]] && es[1..][1..] == [es[2], es[3]];
    assert es[1..][1..][1..] == [es[3]] && es[1..][1..][1..][1..] == [];
    RunStep(h4, h4, []);
    RunStep(h3, h4, [es[3]]);
    RunStep(h2, h4, [es[2], es[3]]);
    RunStep(h1, h4, [es[1], es[2], es[3]]);
    RunStep(h, h4, es);
  }

  /** A run, from its first step and the rest. */
  lemma RunStep(h: Opening, last: Opening, es: seq<OpenEvent>)
    requires es == [] ==> h == last
    requires es != [] ==> OpenDefined(h) && OpenPossible(h, es[0])
                          && OpenRun(OpenStep(h, es[0]), es[1..]) && AfterOpenRun(OpenStep(h, es[0]), es[1..]) == last
    ensures OpenRun(h, es) && AfterOpenRun(h, es) == last
  {}

  lemma AfterSyn(h: Opening, syn: Packet, isn: nat, ring: seq<byte>) returns (h1: Opening)
    requires OpenInit(h) && h.toServer == {syn} && syn.flags == SYN && syn.seqNum == h.clientIsn && 0 < |ring| < U32 - 1
    ensures var e := ServerGetsSyn(syn, isn, ring, ring, 0);
      OpenDefined(h) && OpenPossible(h, e) && h1 == OpenStep(h, e) && OpenInv(h1)
    ensures h1.server.Some? && h1.server.value.state == SYN_RECEIVED && h1.serverIsn == isn && !h1.accepted
      && h1.server.value.rcv.nxt == h.clientIsn + 1
      && h1.client == h.client && h1.clientIsn == h.clientIsn && SynAck(isn, h.clientIsn, ring) in h1.toClient && h.toClient <= h1.toClient
  {
    var e := ServerGetsSyn(syn, isn, ring, ring, 0);
    OpenStepKeeps(h, e);
    h1 := OpenStep(h, e);
  }

  lemma AfterFirst(h: Opening, isn: nat, ring: seq<byte>) returns (h2: Opening)
    requires OpenInv(h) && !h.accepted && h.server.Some? && h.server.value.state == SYN_RECEIVED && h.serverIsn == isn
    requires SynAck(isn, h.clientIsn, ring) in h.toClient
    ensures var e := ClientGets(SynAck(isn, h.clientIsn, ring));
      OpenDefined(h) && OpenPossible(h, e) && h2 == OpenStep(h, e) && OpenInv(h2)
    ensures h2.accepted && h2.client.state == SYN_SENT && h2.server == h.server && h2.serverIsn == isn && h2.clientIsn == h.clientIsn
      && h2.toClient == h.toClient && FirstAck(h, isn) in h2.toServer
  {
    var pk := SynAck(isn, h.clientIsn, ring);
    OpenStepKeeps(h, ClientGets(pk));
    AckHalfOpen(h.client.snd, h.clientIsn, pk.ackNum, pk.wnd);
    h2 := OpenStep(h, ClientGets(pk));
  }

  lemma AfterAck(h: Opening, ack: Packet) returns (h3: Opening)
    requires OpenInv(h) && h.server.Some? && h.server.value.state == SYN_RECEIVED && h.accepted && h.client.state == SYN_SENT
    requires ack in h.toServer && ack.flags == ACK && ack.payload == []
    requires ack.ackNum == h.serverIsn + 1 && ack.seqNum == h.server.value.rcv.nxt
    ensures OpenDefined(h) && OpenPossible(h, ServerGets(ack)) && h3 == OpenStep(h, ServerGets(ack)) && OpenInv(h3)
    ensures h3.server.Some? && h3.server.value.state == ESTABLISHED && h3.accepted && h3.client == h.client
      && h3.serverIsn == h.serverIsn && h3.toClient == h.toClient
  {
    OpenStepKeeps(h, ServerGets(ack));
    AckHalfOpen(h.server.value.snd, h.serverIsn, ack.ackNum, ack.wnd);
    h3 := OpenStep(h, ServerGets(ack));
  }

  /** With nothing lost, four events open the connection, for any initial sequence number of the server. */
  lemma HandshakeCompletes(h: Opening, syn: Packet, isn: nat, ring: seq<byte>) returns (es: seq<OpenEvent>)
    requires OpenInit(h) && h.toServer == {syn} && syn.flags == SYN && syn.seqNum == h.clientIsn && 0 < |ring| < U32 - 1
    ensures OpenRun(h, es) && forall i :: 0 <= i < |es| ==> !es[i].ServerGone?
    ensures var g := AfterOpenRun(h, es);
      g.client.state == ESTABLISHED && g.server.Some? && g.server.value.state == ESTABLISHED && g.serverIsn == isn && Agreed(g)
  {
    var h1 := AfterSyn(h, syn, isn, ring);
    var h2 := AfterFirst(h1, isn, ring);
    var h3 := AfterAck(h2, FirstAck(h, isn));
    assert OpenPossible(h3, ClientWakes);
    OpenStepKeeps(h3, ClientWakes);
    var h4 := OpenStep(h3, ClientWakes);
    es := [ServerGetsSyn(syn, isn, ring, ring, 0), ClientGets(SynAck(isn, syn.seqNum, ring)), ServerGets(FirstAck(h, isn)), ClientWakes];
    assert h4.client.state == ESTABLISHED && h4.server == h3.server && h4.serverIsn == isn && Agreed(h4);
    hide Agreed, OpenStep, OpenPossible, OpenDefined, OpenInv, FirstAck, SynAck, OpenInit;
    FourSteps(h, h1, h2, h3, h4, es);
  }
}
