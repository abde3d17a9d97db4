/** Routers exchanging RIP messages over a fixed topology. */
module RipNetwork {
  import opened Common
  import opened Subnets
  import opened RipMessages
  import opened RoutingTables

  type Router = nat

  /** `from` sends RIP messages to address `dst`, which belongs to `to`; they carry source address `src`. */
  datatype Link = Link(from: Router, to: Router, src: Ip, dst: Ip)

  /** `local`: which router has a local route for which prefix. */
  datatype Topology = Topology(links: set<Link>, local: set<(Router, nat)>)

  /** Every address belongs to one router, and neighbors advertise to each other. */
  ghost predicate Consistent(top: Topology) {
    && (forall a, b :: a in top.links && b in top.links && a.src == b.src ==> a.from == b.from)
    && (forall a, b :: a in top.links && b in top.links && a.src == b.dst ==> a.from == b.to)
    && (forall a :: a in top.links ==> Link(a.to, a.from, a.dst, a.src) in top.links)
  }

  // ----- Distances -----

  /** There is a walk of n hops from r to a router with a local route for the prefix. */
  ghost predicate Reaches(top: Topology, r: Router, key: nat, n: nat)
    decreases n
  {
    if n == 0 then (r, key) in top.local
    else exists l :: l in top.links && l.to == r && Reaches(top, l.from, key, n - 1)
  }

  ghost predicate AtDistance(top: Topology, r: Router, key: nat, d: nat) {
    Reaches(top, r, key, d) && forall j: nat :: j < d ==> !Reaches(top, r, key, j)
  }

  lemma {:induction false} Nearest(top: Topology, r: Router, key: nat, n: nat) returns (d: nat)
    requires Reaches(top, r, key, n)
    ensures d <= n && AtDistance(top, r, key, d)
  {
    if j: nat :| j < n && Reaches(top, r, key, j) {
      d := Nearest(top, r, key, j);
    } else {
      d := n;
    }
  }

  lemma DistanceUnique(top: Topology, r: Router, key: nat, d: nat, e: nat)
    requires AtDistance(top, r, key, d) && AtDistance(top, r, key, e)
    ensures d == e
  {}

  lemma OneHop(top: Topology, l: Link, key: nat, n: nat)
    requires l in top.links && Reaches(top, l.from, key, n)
    ensures Reaches(top, l.to, key, n + 1)
  {}

  /** A router at distance d + 1 has a neighbor at distance d. */
  lemma Closer(top: Topology, r: Router, key: nat, d: nat) returns (l: Link)
    requires AtDistance(top, r, key, d + 1)
    ensures l in top.links && l.to == r && AtDistance(top, l.from, key, d)
  {
    l :| l in top.links && l.to == r && Reaches(top, l.from, key, d);
    forall j: nat | j < d ensures !Reaches(top, l.from, key, j) {
      if Reaches(top, l.from, key, j) {
        OneHop(top, l, key, j);
      }
    }
  }

  // ----- Messages -----

  /** What `l.to` hears when `l.from`, whose table is t, sends its full table over l. */
  function FullUpdate(t: Table, l: Link): seq<RipEntry> {
    HeardAll(Advertised(t), Gateways(t), l.dst)
  }

  /** What a full update says about one prefix. */
  function Told(o: Option<Route>, l: Link): Option<RipEntry> {
    match o
    case None => None
    case Some(r) => Some(Heard(RipEntry(r.metric, r.addr, r.mask), r.gateway, l.dst))
  }

  function ImprovedBy(o: Option<Route>, m: Option<RipEntry>, from: Ip, now: int): Option<Route> {
    if m.None? then o else Improved(o, m.value, from, now)
  }

  /** A full update acts on each prefix by the one entry it holds for it. */
  lemma {:induction false} FullUpdateLookup(t: Table, u: Table, l: Link, now: int, key: nat)
    requires OneRoutePerPrefix(u)
    ensures Lookup(HandledAll(t, FullUpdate(u, l), l.src, now), key)
      == ImprovedBy(Lookup(t, key), Told(Lookup(u, key), l), l.src, now)
    decreases |u|
  {
    if u != [] {
      var e := Heard(RipEntry(u[0].metric, u[0].addr, u[0].mask), u[0].gateway, l.dst);
      var t' := Handled(t, e, l.src, now);
      assert FullUpdate(u, l) == [e] + FullUpdate(u[1..], l);
      FullUpdateLookup(t', u[1..], l, now, key);
      HandledLookup(t, e, l.src, now, key);
      if u[0].Key() == key {
        LookupKey(u[1..], key);
        assert forall i :: 0 <= i < |u| - 1 ==> u[1..][i] == u[i + 1];
      }
    }
  }

  // ----- Soundness of every asynchronous run -----

  /** A route says nothing better than what the topology offers. */
  ghost predicate RouteSound(top: Topology, r: Router, x: Route) {
    && x.metric <= INFINITY
    && (x.kind == LOCAL ==> x.metric == 0 && x.gateway == None && (r, x.Key()) in top.local)
    && (x.kind == RIP ==> 1 <= x.metric && x.gateway.Some?)
    && (x.metric < INFINITY ==> Reaches(top, r, x.Key(), x.metric))
  }

  ghost predicate TableSound(top: Topology, r: Router, t: Table) {
    OneRoutePerPrefix(t) && forall x :: x in t ==> RouteSound(top, r, x)
  }

  /** What r may say. */
  ghost predicate SpokenSound(top: Topology, r: Router, e: RipEntry) {
    e.cost <= INFINITY && (e.cost < INFINITY ==> Reaches(top, r, KeyOf(e), e.cost))
  }

  /** What r may hear: a neighbor's word, one hop further. */
  ghost predicate HeardSound(top: Topology, r: Router, e: RipEntry) {
    SpokenSound(top, r, e) && 1 <= e.cost
  }

  lemma SpokenIsHeard(top: Topology, l: Link, e: RipEntry, learnedFrom: Option<Ip>)
    requires l in top.links && SpokenSound(top, l.from, e)
    ensures HeardSound(top, l.to, Heard(e, learnedFrom, l.dst))
  {}

  lemma HandledSound(top: Topology, r: Router, t: Table, e: RipEntry, from: Ip, now: int)
    requires TableSound(top, r, t) && HeardSound(top, r, e)
    ensures TableSound(top, r, Handled(t, e, from, now))
  {
    HandledUnique(t, e, from, now);
    LookupKey(t, KeyOf(e));
    var o := Improved(Lookup(t, KeyOf(e)), e, from, now);
    ImprovedKey(Lookup(t, KeyOf(e)), e, from, now);
    forall x | x in Handled(t, e, from, now) ensures RouteSound(top, r, x) {
      if x !in t {
        ReplacedKeys(t, o.value, x);
      }
    }
  }

  lemma {:induction false} HandledAllSound(top: Topology, r: Router, t: Table, es: seq<RipEntry>, from: Ip, now: int)
    requires TableSound(top, r, t) && forall i :: 0 <= i < |es| ==> HeardSound(top, r, es[i])
    ensures TableSound(top, r, HandledAll(t, es, from, now))
    ensures forall i :: 0 <= i < |Updates(t, es, from, now)| ==> SpokenSound(top, r, Updates(t, es, from, now)[i])
    decreases |es|
  {
    if es != [] {
      hide Handled, Changes, TableSound;
      HandledSound(top, r, t, es[0], from, now);
      HandledAllSound(top, r, Handled(t, es[0], from, now), es[1..], from, now);
    }
  }

  lemma {:induction false} AdvertisedAt(t: Table, i: nat)
    requires i < |t|
    ensures Advertised(t)[i] == RipEntry(t[i].metric, t[i].addr, t[i].mask) && Gateways(t)[i] == t[i].gateway
  {
    if i > 0 {
      AdvertisedAt(t[1..], i - 1);
    }
  }

  lemma AdvertisedSound(top: Topology, r: Router, t: Table)
    requires TableSound(top, r, t)
    ensures forall i :: 0 <= i < |Advertised(t)| ==> SpokenSound(top, r, Advertised(t)[i])
  {
    forall i | 0 <= i < |Advertised(t)| ensures SpokenSound(top, r, Advertised(t)[i]) {
      AdvertisedAt(t, i);
      assert RouteSound(top, r, t[i]);
    }
  }

  /** A message on a link, as its receiver hears it. */
  datatype Message = Message(link: Link, entries: seq<RipEntry>)

  /** `flight` holds every message ever sent; a delivery picks any of them, any number of times, or never. */
  datatype Network = Network(tables: map<Router, Table>, flight: set<Message>)

  datatype NetEvent =
    | Broadcast(r: Router)
    | Reply(l: Link)
    | Deliver(m: Message, now: int)
    | Expire(r: Router, now: int, expiration: int)
    | InterfaceChange(r: Router, i: nat, up: bool)

  /** The same entries said to every neighbor, each with its own poisoning. */
  function ToAll(top: Topology, r: Router, es: seq<RipEntry>, gs: seq<Option<Ip>>): set<Message>
    requires |es| == |gs|
  {
    set l | l in top.links && l.from == r :: Message(l, HeardAll(es, gs, l.dst))
  }

  /** A triggered update goes out only when there is something in it. */
  function Triggered(top: Topology, r: Router, es: seq<RipEntry>, g: Option<Ip>): set<Message> {
    if es == [] then {} else ToAll(top, r, es, seq(|es|, i => g))
  }

  ghost predicate NetPossible(top: Topology, n: Network, e: NetEvent) {
    match e
    case Broadcast(r) => r in n.tables
    case Reply(l) => l in top.links && l.from in n.tables
    case Deliver(m, _) => m in n.flight && m.link.to in n.tables
    case Expire(r, _, _) => r in n.tables
    case InterfaceChange(r, i, _) => r in n.tables && i < |n.tables[r]| && n.tables[r][i].kind == LOCAL
  }

  ghost function NetStep(top: Topology, n: Network, e: NetEvent): Network
    requires NetPossible(top, n, e)
  {
    match e
    case Broadcast(r) => n.(flight := n.flight + ToAll(top, r, Advertised(n.tables[r]), Gateways(n.tables[r])))
    case Reply(l) => n.(flight := n.flight + {Message(l, FullUpdate(n.tables[l.from], l))})
    case Deliver(m, now) =>
      var r, t := m.link.to, n.tables[m.link.to];
      Network(n.tables[r := HandledAll(t, m.entries, m.link.src, now)],
              n.flight + Triggered(top, r, Updates(t, m.entries, m.link.src, now), Some(m.link.src)))
    case Expire(r, now, expiration) =>
      Network(n.tables[r := Swept(n.tables[r], 0, now, expiration)],
              n.flight + Triggered(top, r, SweptOut(n.tables[r], 0, now, expiration), None))
    case InterfaceChange(r, i, up) =>
      var x := n.tables[r][i];
      n.(flight := n.flight + Triggered(top, r, [RipEntry(if up then 0 else INFINITY, x.addr, x.mask)], x.gateway))
  }

  ghost predicate MessageSound(top: Topology, m: Message) {
    m.link in top.links && forall i :: 0 <= i < |m.entries| ==> HeardSound(top, m.link.to, m.entries[i])
  }

  ghost predicate NetSound(top: Topology, n: Network) {
    && (forall r :: r in n.tables ==> TableSound(top, r, n.tables[r]))
    && (forall m :: m in n.flight ==> MessageSound(top, m))
  }

  lemma SaidToAll(top: Topology, r: Router, es: seq<RipEntry>, gs: seq<Option<Ip>>)
    requires |es| == |gs| && forall i :: 0 <= i < |es| ==> SpokenSound(top, r, es[i])
    ensures forall m :: m in ToAll(top, r, es, gs) ==> MessageSound(top, m)
  {}

  lemma NetStepSound(top: Topology, n: Network, e: NetEvent)
    requires NetSound(top, n) && NetPossible(top, n, e)
    ensures NetSound(top, NetStep(top, n, e))
  {
    hide TableSound, MessageSound, HandledAll, Updates, Swept, SweptOut, ToAll;
    match e
    case Broadcast(r) =>
      AdvertisedSound(top, r, n.tables[r]);
      SaidToAll(top, r, Advertised(n.tables[r]), Gateways(n.tables[r]));
    case Reply(l) => ReplySound(top, n, l);
    case Deliver(m, now) => DeliverSound(top, n, m, now);
    case Expire(r, now, expiration) => ExpireSound(top, n, r, now, expiration);
    case InterfaceChange(r, i, up) => InterfaceSound(top, n, r, i, up);
  }

  lemma ReplySound(top: Topology, n: Network, l: Link)
    requires NetSound(top, n) && NetPossible(top, n, Reply(l))
    ensures MessageSound(top, Message(l, FullUpdate(n.tables[l.from], l)))
  {
    var t := n.tables[l.from];
    AdvertisedSound(top, l.from, t);
    forall i | 0 <= i < |t| ensures HeardSound(top, l.to, FullUpdate(t, l)[i]) {
      SpokenIsHeard(top, l, Advertised(t)[i], Gateways(t)[i]);
    }
  }

  lemma DeliverSound(top: Topology, n: Network, m: Message, now: int)
    requires NetSound(top, n) && NetPossible(top, n, Deliver(m, now))
    ensures NetSound(top, NetStep(top, n, Deliver(m, now)))
  {
    hide TableSound, HandledAll, Updates, HeardSound, SpokenSound, ToAll;
    var r, t := m.link.to, n.tables[m.link.to];
    assert MessageSound(top, m);
    HandledAllSound(top, r, t, m.entries, m.link.src, now);
    var us := Updates(t, m.entries, m.link.src, now);
    SaidToAll(top, r, us, seq(|us|, i => Some(m.link.src)));
  }

  lemma ExpireSound(top: Topology, n: Network, r: Router, now: int, expiration: int)
    requires NetSound(top, n) && NetPossible(top, n, Expire(r, now, expiration))
    ensures NetSound(top, NetStep(top, n, Expire(r, now, expiration)))
  {
    hide Swept, SweptOut, ToAll, MessageSound, RouteSound, OneRoutePerPrefix;
    SweptUnique(n.tables[r], 0, now, expiration);
    var out := SweptOut(n.tables[r], 0, now, expiration);
    SaidToAll(top, r, out, seq(|out|, i => None));
  }

  lemma InterfaceSound(top: Topology, n: Network, r: Router, i: nat, up: bool)
    requires NetSound(top, n) && NetPossible(top, n, InterfaceChange(r, i, up))
    ensures NetSound(top, NetStep(top, n, InterfaceChange(r, i, up)))
  {
    hide ToAll, MessageSound;
    var x := n.tables[r][i];
    assert RouteSound(top, r, x);
    var es := [RipEntry(if up then 0 else INFINITY, x.addr, x.mask)];
    SaidToAll(top, r, es, seq(|es|, i => x.gateway));
  }

  ghost predicate NetRun(top: Topology, n: Network, es: seq<NetEvent>)
    decreases |es|
  {
    es == [] || (NetPossible(top, n, es[0]) && NetRun(top, NetStep(top, n, es[0]), es[1..]))
  }

  ghost function AfterNetRun(top: Topology, n: Network, es: seq<NetEvent>): Network
    requires NetRun(top, n, es)
    decreases |es|
  {
    if es == [] then n else AfterNetRun(top, NetStep(top, n, es[0]), es[1..])
  }

  lemma {:induction false} NetRunSound(top: Topology, n: Network, es: seq<NetEvent>)
    requires NetSound(top, n) && NetRun(top, n, es)
    ensures NetSound(top, AfterNetRun(top, n, es))
    decreases |es|
  {
    hide NetSound, NetStep, NetPossible;
    if es != [] {
      NetStepSound(top, n, es[0]);
      NetRunSound(top, NetStep(top, n, es[0]), es[1..]);
    }
  }

  /** Tables as a router starts with them: its local routes and nothing else. */
  ghost predicate OnlyLocal(top: Topology, r: Router, t: Table) {
    && OneRoutePerPrefix(t)
    && (forall x :: x in t ==> x.kind == LOCAL && x.metric == 0 && x.gateway == None)
    && (forall key: nat :: (r, key) in top.local <==> Lookup(t, key).Some?)
  }

  /** In every run, whatever is lost, repeated or reordered, no route beats the true distance. */
  lemma RipSound(top: Topology, tables: map<Router, Table>, es: seq<NetEvent>, r: Router, key: nat)
    requires forall q :: q in tables ==> OnlyLocal(top, q, tables[q])
    requires NetRun(top, Network(tables, {}), es)
    requires r in AfterNetRun(top, Network(tables, {}), es).tables
    ensures var o := Lookup(AfterNetRun(top, Network(tables, {}), es).tables[r], key);
      o.Some? ==>
        && o.value.metric <= INFINITY
        && (o.value.metric < INFINITY ==>
              && Reaches(top, r, key, o.value.metric)
              && forall d: nat :: AtDistance(top, r, key, d) ==> d <= o.value.metric)
  {
    forall q | q in tables ensures TableSound(top, q, tables[q]) {
      forall x | x in tables[q] ensures RouteSound(top, q, x) {
        RouteIsLookedUp(tables[q], x);
      }
    }
    NetRunSound(top, Network(tables, {}), es);
    LookupKey(AfterNetRun(top, Network(tables, {}), es).tables[r], key);
  }

  /** With one route per prefix, Lookup finds every route. */
  lemma {:induction false} RouteIsLookedUp(t: Table, x: Route)
    requires OneRoutePerPrefix(t) && x in t
    ensures Lookup(t, x.Key()) == Some(x)
  {
    if t[0] != x {
      RouteIsLookedUp(t[1..], x);
    }
  }
}
