/** Quiescent routing: following gateways, and forwarding a datagram under its TTL. */
module Forwarding {
  import opened Common
  import opened Subnets
  import opened RipMessages
  import opened RoutingTables
  import opened RipNetwork
  import opened RipConvergence

  const INIT_TTL: nat := 16

  // ----- A round that refreshes everything and changes nothing -----

  /** Every triggered update of a router's round, one after the other. */
  ghost function InboxUpdates(ts: Tables, t: Table, inbox: seq<Link>, now: int): seq<RipEntry>
    requires forall i :: 0 <= i < |inbox| ==> inbox[i].from in ts
    decreases |inbox|
  {
    if inbox == [] then []
    else
      var es := FullUpdate(ts[inbox[0].from], inbox[0]);
      Updates(t, es, inbox[0].src, now) + InboxUpdates(ts, HandledAll(t, es, inbox[0].src, now), inbox[1..], now)
  }

  /** Metrics and gateways as routers keep them. */
  ghost predicate WellFormedTable(t: Table) {
    OneRoutePerPrefix(t) && forall x :: x in t ==>
      && x.metric <= INFINITY && (x.kind == LOCAL ==> x.metric == 0 && x.gateway == None)
      && (x.kind == RIP ==> 1 <= x.metric && x.gateway.Some?)
  }

  /** The round reports no update, and leaves no RIP route with an old time stamp. */
  ghost predicate Quiet(top: Topology, ts: Tables, ts': Tables, x: Exchange) {
    && Covers(top, ts) && Round(top, ts, ts', x)
    && (forall r :: r in ts ==> WellFormedTable(ts[r]) && InboxUpdates(ts, ts[r], x.inboxes[r], x.now) == [])
    && (forall r, y :: r in ts && y in ts[r] ==> y.lastRefresh < x.now)
    && (forall r, y :: r in ts && y in ts'[r] && y.kind == RIP ==> y.lastRefresh == x.now)
  }

  /** A full update that reports nothing changes no metric of any prefix it speaks of. */
  lemma {:induction false} QuietUpdate(t: Table, u: Table, l: Link, now: int, key: nat)
    requires OneRoutePerPrefix(u) && Updates(t, FullUpdate(u, l), l.src, now) == []
    ensures Told(Lookup(u, key), l).Some? ==> !Changes(Lookup(t, key), Told(Lookup(u, key), l).value, l.src)
    decreases |u|
  {
    if u != [] {
      var e := Heard(RipEntry(u[0].metric, u[0].addr, u[0].mask), u[0].gateway, l.dst);
      assert FullUpdate(u, l) == [e] + FullUpdate(u[1..], l);
      HandledLookup(t, e, l.src, now, key);
      assert FullUpdate(u, l)[1..] == FullUpdate(u[1..], l);
      QuietUpdate(Handled(t, e, l.src, now), u[1..], l, now, key);
    }
  }

  /** A route refreshed in a quiet round was refreshed by its gateway, at the cost it already had. */
  lemma {:induction false} RefreshedByGateway(top: Topology, ts: Tables, t: Table, inbox: seq<Link>, now: int, key: nat) returns (l: Link)
    requires forall i :: 0 <= i < |inbox| ==> inbox[i].from in ts && OneRoutePerPrefix(ts[inbox[i].from])
    requires InboxUpdates(ts, t, inbox, now) == []
    requires Lookup(t, key).Some? && Lookup(t, key).value.kind == RIP && Lookup(t, key).value.lastRefresh != now
    requires var o' := Lookup(AfterInbox(top, ts, t, inbox, now), key); o'.Some? && o'.value.lastRefresh == now
    ensures l in inbox && Lookup(t, key).value.gateway == Some(l.src)
    ensures var e := Told(Lookup(ts[l.from], key), l); e.Some? && e.value.cost == Lookup(t, key).value.metric
    decreases |inbox|
  {
    hide Told, FullUpdate, HandledAll, Updates;
    assert inbox != [];
    l := inbox[0];
    var u := ts[l.from];
    var x := Lookup(t, key).value;
    var t' := HandledAll(t, FullUpdate(u, l), l.src, now);
    FullUpdateLookup(t, u, l, now, key);
    QuietUpdate(t, u, l, now, key);
    if Told(Lookup(u, key), l).None? || x.gateway != Some(l.src) {
      assert Lookup(t', key) == Some(x);
      l := RefreshedByGateway(top, ts, t', inbox[1..], now, key);
    }
  }

  /** Following gateways from r reaches a local route in exactly m hops, each metric one less. */
  ghost predicate LeadsHome(top: Topology, ts: Tables, r: Router, key: nat, m: nat)
    decreases m
  {
    && r in ts && Lookup(ts[r], key).Some? && Lookup(ts[r], key).value.metric == m
    && (if m == 0 then Lookup(ts[r], key).value.kind == LOCAL
        else exists l :: l in top.links && l.to == r && Lookup(ts[r], key).value.gateway == Some(l.src)
                         && LeadsHome(top, ts, l.from, key, m - 1))
  }

  /** Quiescent routing is loop-free: every route of finite metric m leads home in m hops. */
  lemma {:induction false} QuietRoutesLeadHome(top: Topology, ts: Tables, ts': Tables, x: Exchange, r: Router, key: nat, m: nat)
    requires Quiet(top, ts, ts', x) && r in ts
    requires Lookup(ts[r], key).Some? && Lookup(ts[r], key).value.metric == m < INFINITY
    ensures LeadsHome(top, ts, r, key, m)
    decreases m
  {
    hide Quiet, Lookup;
    if m == 0 {
      FreeIsLocal(top, ts, ts', x, r, key);
    } else {
      var l := QuietHop(top, ts, ts', x, r, key);
      QuietRoutesLeadHome(top, ts, ts', x, l.from, key, m - 1);
    }
  }

  lemma FreeIsLocal(top: Topology, ts: Tables, ts': Tables, x: Exchange, r: Router, key: nat)
    requires Quiet(top, ts, ts', x) && r in ts
    requires Lookup(ts[r], key).Some? && Lookup(ts[r], key).value.metric == 0
    ensures Lookup(ts[r], key).value.kind == LOCAL
  {
    LookupKey(ts[r], key);
  }

  /** The gateway of a route of metric m has metric m - 1. */
  lemma QuietHop(top: Topology, ts: Tables, ts': Tables, x: Exchange, r: Router, key: nat) returns (l: Link)
    requires Quiet(top, ts, ts', x) && r in ts && Lookup(ts[r], key).Some?
    requires 0 < Lookup(ts[r], key).value.metric < INFINITY
    ensures l in top.links && l.to == r && l.from in ts && Lookup(ts[r], key).value.gateway == Some(l.src)
    ensures Lookup(ts[l.from], key).Some? && Lookup(ts[l.from], key).value.metric == Lookup(ts[r], key).value.metric - 1
  {
    hide AfterInbox, InboxUpdates, OneRoutePerPrefix;
    LookupKey(ts[r], key);
    var inbox := x.inboxes[r];
    RefreshedRoute(top, ts, ts', x, r, key);
    l := RefreshedByGateway(top, ts, ts[r], inbox, x.now, key);
    LookupKey(ts[l.from], key);
    var u := Lookup(ts[l.from], key).value;
    HeardCost(RipEntry(u.metric, u.addr, u.mask), u.gateway, l.dst);
  }

  /** In a quiet round a RIP route keeps its place and gets the round's time stamp. */
  lemma RefreshedRoute(top: Topology, ts: Tables, ts': Tables, x: Exchange, r: Router, key: nat)
    requires Quiet(top, ts, ts', x) && r in ts
    requires Lookup(ts[r], key).Some? && Lookup(ts[r], key).value.kind == RIP
    ensures var o' := Lookup(AfterInbox(top, ts, ts[r], x.inboxes[r], x.now), key); o'.Some? && o'.value.lastRefresh == x.now
  {
    hide InboxUpdates;
    InboxKeepsKinds(top, ts, ts[r], x.inboxes[r], x.now, key);
    LookupKey(ts'[r], key);
  }

  lemma {:induction false} InboxKeepsKinds(top: Topology, ts: Tables, t: Table, inbox: seq<Link>, now: int, key: nat)
    requires OneRoutePerPrefix(t) && forall i :: 0 <= i < |inbox| ==> inbox[i].from in ts
    requires Lookup(t, key).Some?
    ensures var o' := Lookup(AfterInbox(top, ts, t, inbox, now), key); o'.Some? && o'.value.kind == Lookup(t, key).value.kind
    decreases |inbox|
  {
    if inbox != [] {
      hide OneRoutePerPrefix;
      var es := FullUpdate(ts[inbox[0].from], inbox[0]);
      HandledAllKeeps(t, es, inbox[0].src, now);
      InboxKeepsKinds(top, ts, HandledAll(t, es, inbox[0].src, now), inbox[1..], now, key);
    }
  }

  // ----- Forwarding -----

  /** `hops` counts the links crossed; `ttl` is what the receiving host is left with. */
  datatype Fate = Delivered(router: Router, hops: nat, ttl: nat) | TtlExpired | Unreachable

  /** A receiver drops a datagram whose TTL is 0 and takes one off any other. */
  function Received(ttl: nat): Option<nat> { if ttl == 0 then None else Some(ttl - 1) }

  /** The two lookups of queryRoutingTable_: the route, and the link to its gateway. */
  function NextHop(t: Table, a: Ip): Option<Option<Ip>> {
    match BestMatch(t, a)
    case None => None
    case Some(x) =>
      if x.gateway.None? then Some(None)
      else if BestMatch(t, x.gateway.value).Some? && BestMatch(t, x.gateway.value).value.kind == LOCAL then Some(x.gateway)
      else None
  }

  /** What becomes of a datagram for `a` at router r: handed to its own protocols if the address is r's, else sent on. */
  function Forward(ts: Tables, owner: map<Ip, Router>, r: Router, a: Ip, ttl: nat): Fate
    decreases ttl
  {
    if a in owner && owner[a] == r then Delivered(r, 0, ttl)
    else if r !in ts || NextHop(ts[r], a).None? then Unreachable
    else
      var hop := NextHop(ts[r], a).value;
      if Received(ttl).None? then TtlExpired
      else if hop.None? then Delivered(r, 1, ttl - 1)
      else if hop.value !in owner then Unreachable
      else
        var f := Forward(ts, owner, owner[hop.value], a, ttl - 1);
        if f.Delivered? then f.(hops := f.hops + 1) else f
  }

  /** `owner`: which router has which address. */
  ghost predicate Owners(top: Topology, owner: map<Ip, Router>) {
    forall l :: l in top.links ==> l.src in owner && owner[l.src] == l.from
  }

  /** The destination lies in the one prefix: no table has another route for it. */
  ghost predicate OnlyIn(ts: Tables, a: Ip, key: nat) {
    forall r, x :: r in ts && x in ts[r] ==> (Matches(x, a) <==> x.Key() == key)
  }

  /** Every gateway is on a directly connected subnet. */
  ghost predicate GatewaysOnLink(ts: Tables) {
    forall r, x :: r in ts && x in ts[r] && x.gateway.Some? ==>
      BestMatch(ts[r], x.gateway.value).Some? && BestMatch(ts[r], x.gateway.value).value.kind == LOCAL
  }

  lemma HopOfRoute(ts: Tables, r: Router, a: Ip, key: nat)
    requires r in ts && OneRoutePerPrefix(ts[r]) && OnlyIn(ts, a, key) && GatewaysOnLink(ts)
    requires Lookup(ts[r], key).Some?
    ensures NextHop(ts[r], a) == Some(Lookup(ts[r], key).value.gateway)
  {
    BestMatchMember(ts[r], a);
    LookupKey(ts[r], key);
    assert Matches(Lookup(ts[r], key).value, a);
    var best := BestMatch(ts[r], a).value;
    RouteIsLookedUp(ts[r], best);
  }

  /** The router that m gateways lead to. */
  function HomeOf(ts: Tables, owner: map<Ip, Router>, r: Router, key: nat, m: nat): Router
    decreases m
  {
    if m > 0 && r in ts && Lookup(ts[r], key).Some? then
      var g := Lookup(ts[r], key).value.gateway;
      if g.Some? && g.value in owner then HomeOf(ts, owner, owner[g.value], key, m - 1) else r
    else r
  }

  /** The links to the destination: m, and one more unless it is an address of the home router itself. */
  function Links(owner: map<Ip, Router>, a: Ip, home: Router, m: nat): nat {
    if a in owner && owner[a] == home then m else m + 1
  }

  /** A router's own address lies in a directly connected subnet. */
  ghost predicate OwnerIsLocal(ts: Tables, owner: map<Ip, Router>, a: Ip, key: nat) {
    a in owner && owner[a] in ts ==> Lookup(ts[owner[a]], key).Some? && Lookup(ts[owner[a]], key).value.metric == 0
  }

  /** A datagram on a route that leads home in m hops reaches a router with a local route, and is delivered there if
      the address is that router's and over one more link if not, exactly when its TTL covers the links;
      otherwise it expires on the way. */
  lemma {:induction false} ForwardedHome(top: Topology, ts: Tables, owner: map<Ip, Router>, r: Router, a: Ip, key: nat, m: nat, ttl: nat)
    requires LeadsHome(top, ts, r, key, m) && Owners(top, owner) && OnlyIn(ts, a, key) && GatewaysOnLink(ts)
    requires OwnerIsLocal(ts, owner, a, key) && forall q :: q in ts ==> WellFormedTable(ts[q])
    ensures var home := HomeOf(ts, owner, r, key, m);
      home in ts && Lookup(ts[home], key).Some? && Lookup(ts[home], key).value.kind == LOCAL
    ensures var home := HomeOf(ts, owner, r, key, m);
      var n := Links(owner, a, home, m);
      Forward(ts, owner, r, a, ttl) == if ttl >= n then Delivered(home, n, ttl - n) else TtlExpired
    decreases m
  {
    hide NextHop, OnlyIn, GatewaysOnLink, Lookup;
    HopOfRoute(ts, r, a, key);
    if m == 0 {
      LocalHasNoGateway(ts[r], key);
    } else {
      var l :| l in top.links && l.to == r && Lookup(ts[r], key).value.gateway == Some(l.src) && LeadsHome(top, ts, l.from, key, m - 1);
      ForwardedHome(top, ts, owner, l.from, a, key, m - 1, if ttl > 0 then ttl - 1 else 0);
    }
  }

  lemma LocalHasNoGateway(t: Table, key: nat)
    requires WellFormedTable(t) && Lookup(t, key).Some? && Lookup(t, key).value.kind == LOCAL
    ensures Lookup(t, key).value.gateway == None
  {}

  /** In quiescent routing every datagram a router originates for a reachable prefix arrives: the initial TTL
      covers the longest route of finite metric and the final link. */
  lemma OriginatedArrives(top: Topology, ts: Tables, ts': Tables, x: Exchange, owner: map<Ip, Router>, r: Router, a: Ip, key: nat)
    requires Quiet(top, ts, ts', x) && r in ts
    requires Lookup(ts[r], key).Some? && Lookup(ts[r], key).value.metric < INFINITY
    requires Owners(top, owner) && OwnerIsLocal(ts, owner, a, key) && OnlyIn(ts, a, key) && GatewaysOnLink(ts)
    ensures var m := Lookup(ts[r], key).value.metric;
      var home := HomeOf(ts, owner, r, key, m);
      var n := Links(owner, a, home, m);
      && home in ts && Lookup(ts[home], key).Some? && Lookup(ts[home], key).value.kind == LOCAL
      && Forward(ts, owner, r, a, INIT_TTL) == Delivered(home, n, INIT_TTL - n)
  {
    var m := Lookup(ts[r], key).value.metric;
    QuietRoutesLeadHome(top, ts, ts', x, r, key, m);
    ForwardedHome(top, ts, owner, r, a, key, m, INIT_TTL);
  }
}
