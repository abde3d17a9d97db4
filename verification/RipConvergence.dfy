/** Synchronous rounds of RIP: convergence to hop distances, and what a round that changes nothing means. */
module RipConvergence {
  import opened Common
  import opened Subnets
  import opened RipMessages
  import opened RoutingTables
  import opened RipNetwork

  type Tables = map<Router, Table>

  ghost predicate Covers(top: Topology, ts: Tables) {
    forall l :: l in top.links ==> l.from in ts && l.to in ts
  }

  /** The full updates that r hears in one round, in the order it handles them: every neighbor's at least once. */
  ghost predicate Inbox(top: Topology, r: Router, inbox: seq<Link>) {
    && (forall i :: 0 <= i < |inbox| ==> inbox[i] in top.links && inbox[i].to == r)
    && (forall l :: l in top.links && l.to == r ==> l in inbox)
  }

  /** The table after handling the full updates, all taken from the tables at the start of the round. */
  ghost function AfterInbox(top: Topology, ts: Tables, t: Table, inbox: seq<Link>, now: int): Table
    requires forall i :: 0 <= i < |inbox| ==> inbox[i].from in ts
    decreases |inbox|
  {
    if inbox == [] then t
    else AfterInbox(top, ts, HandledAll(t, FullUpdate(ts[inbox[0].from], inbox[0]), inbox[0].src, now), inbox[1..], now)
  }

  /** In which order each router handles its full updates, and when. */
  datatype Exchange = Exchange(inboxes: map<Router, seq<Link>>, now: int)

  /** One round of full exchange. */
  ghost predicate Round(top: Topology, ts: Tables, ts': Tables, x: Exchange)
    requires Covers(top, ts)
  {
    && ts'.Keys == ts.Keys == x.inboxes.Keys
    && forall r :: r in ts ==> Inbox(top, r, x.inboxes[r]) && ts'[r] == AfterInbox(top, ts, ts[r], x.inboxes[r], x.now)
  }

  // ----- The invariant of the rounds -----

  /** A route at the right metric, through a neighbor one hop closer. */
  ghost predicate RightRoute(top: Topology, r: Router, key: nat, x: Route) {
    && AtDistance(top, r, key, x.metric) && x.metric < INFINITY
    && (x.metric == 0 ==> x.kind == LOCAL && x.gateway == None)
    && (x.metric > 0 ==> x.kind == RIP && ThroughCloser(top, r, key, x))
  }

  ghost predicate ThroughCloser(top: Topology, r: Router, key: nat, x: Route)
    requires x.metric > 0
  {
    exists l :: l in top.links && l.to == r && x.gateway == Some(l.src) && AtDistance(top, l.from, key, x.metric - 1)
  }

  /** After k rounds: right routes for exactly the prefixes at distance at most min(k, 15). */
  ghost predicate Settled(top: Topology, r: Router, o: Option<Route>, key: nat, k: nat) {
    && (o.Some? ==> RightRoute(top, r, key, o.value) && o.value.metric <= k)
    && (forall d: nat :: AtDistance(top, r, key, d) && d <= k && d < INFINITY ==> o.Some?)
  }

  ghost predicate AllSettled(top: Topology, ts: Tables, k: nat) {
    forall r :: r in ts ==> OneRoutePerPrefix(ts[r]) && forall key: nat :: Settled(top, r, Lookup(ts[r], key), key, k)
  }

  /** Within a round: settled up to k, and what is learned on the way is at distance k + 1. */
  ghost predicate Learning(top: Topology, r: Router, o: Option<Route>, key: nat, k: nat) {
    && (o.Some? ==> RightRoute(top, r, key, o.value) && o.value.metric <= k + 1)
    && (forall d: nat :: AtDistance(top, r, key, d) && d <= k && d < INFINITY ==> o.Some?)
  }

  ghost predicate SameRoute(o: Option<Route>, o': Option<Route>) {
    o.Some? ==> o'.Some? && o'.value.(lastRefresh := o.value.lastRefresh) == o.value
  }

  /** The gateway's address tells which router it is, and how far away that router is. */
  lemma GatewayCloser(top: Topology, r: Router, key: nat, x: Route, l: Link)
    requires Consistent(top) && l in top.links && RightRoute(top, r, key, x) && x.metric > 0
    ensures x.gateway == Some(l.src) ==> AtDistance(top, l.from, key, x.metric - 1)
  {}

  /** A settled neighbor does not poison the route towards a router that is not one hop closer than itself. */
  lemma NotPoisoned(top: Topology, l: Link, key: nat, x: Route, d: nat)
    requires Consistent(top) && l in top.links
    requires RightRoute(top, l.from, key, x) && AtDistance(top, l.to, key, d) && d != x.metric - 1
    ensures x.gateway != Some(l.dst)
  {}

  /** One full update keeps what is known and adds at most what is one hop further. */
  lemma UpdateKeeps(top: Topology, l: Link, o: Option<Route>, u: Option<Route>, key: nat, k: nat, now: int)
    requires Consistent(top) && l in top.links
    requires Learning(top, l.to, o, key, k) && Settled(top, l.from, u, key, k)
    ensures var o' := ImprovedBy(o, Told(u, l), l.src, now);
      Learning(top, l.to, o', key, k) && SameRoute(o, o')
  {
    if u.Some? && o.Some? {
      KnownStays(top, l, o.value, u.value, key);
      hide Told, RightRoute;
      Refreshed(top, l.to, key, o.value, now);
      OnlyRefreshed(o.value, Told(u, l).value, l.src, now);
    } else if u.Some? {
      var d := DistanceBeyond(top, l, u.value.metric, key);
      hide Told, RightRoute, AtDistance, Consistent;
      UnknownLearned(top, l, u.value, key, k, d, now);
    }
  }

  lemma DistanceBeyond(top: Topology, l: Link, du: nat, key: nat) returns (d: nat)
    requires l in top.links && AtDistance(top, l.from, key, du)
    ensures d <= du + 1 && AtDistance(top, l.to, key, d)
  {
    OneHop(top, l, key, du);
    d := Nearest(top, l.to, key, du + 1);
  }

  lemma Refreshed(top: Topology, r: Router, key: nat, x: Route, now: int)
    requires RightRoute(top, r, key, x)
    ensures RightRoute(top, r, key, x.(lastRefresh := now))
  {}

  /** An entry that neither beats a route nor comes from its gateway with another metric refreshes it at most. */
  lemma OnlyRefreshed(x: Route, e: RipEntry, src: Ip, now: int)
    requires x.kind == LOCAL || (x.metric <= e.cost && (x.gateway == Some(src) ==> e.cost == x.metric))
    ensures Improved(Some(x), e, src, now) in {Some(x), Some(x.(lastRefresh := now))}
  {}

  /** Neighbors are at most one hop further from a prefix. */
  lemma HopBound(top: Topology, l: Link, key: nat, d: nat, e: nat)
    requires l in top.links && AtDistance(top, l.from, key, d) && AtDistance(top, l.to, key, e)
    ensures e <= d + 1
  {
    OneHop(top, l, key, d);
  }

  /** A right route cannot be beaten. */
  lemma NeverBeaten(top: Topology, l: Link, x: Route, u: Route, key: nat)
    requires l in top.links && RightRoute(top, l.to, key, x) && RightRoute(top, l.from, key, u)
    ensures x.metric <= Told(Some(u), l).value.cost
  {
    HopBound(top, l, key, u.metric, x.metric);
    hide AtDistance, ThroughCloser;
    HeardCost(RipEntry(u.metric, u.addr, u.mask), u.gateway, l.dst);
  }

  /** Its own gateway repeats its metric. */
  lemma GatewayRepeats(top: Topology, l: Link, x: Route, u: Route, key: nat)
    requires Consistent(top) && l in top.links
    requires RightRoute(top, l.to, key, x) && RightRoute(top, l.from, key, u)
    requires x.metric > 0 && x.gateway == Some(l.src)
    ensures Told(Some(u), l).value.cost == x.metric
  {
    GatewayCloser(top, l.to, key, x, l);
    DistanceUnique(top, l.from, key, u.metric, x.metric - 1);
    NotPoisoned(top, l, key, u, x.metric);
  }

  /** A route already right is at most refreshed. */
  lemma KnownStays(top: Topology, l: Link, x: Route, u: Route, key: nat)
    requires Consistent(top) && l in top.links
    requires RightRoute(top, l.to, key, x) && RightRoute(top, l.from, key, u)
    ensures var c := Told(Some(u), l).value.cost;
      x.kind == LOCAL || (x.metric <= c && (x.gateway == Some(l.src) ==> c == x.metric))
  {
    hide Told, AtDistance, ThroughCloser, Consistent;
    NeverBeaten(top, l, x, u, key);
    if x.metric > 0 && x.gateway == Some(l.src) {
      GatewayRepeats(top, l, x, u, key);
    }
  }

  /** What a neighbor says of a route that it does not poison. */
  lemma ToldUnpoisoned(l: Link, u: Route)
    requires u.metric < INFINITY && u.gateway != Some(l.dst)
    ensures Told(Some(u), l) == Some(RipEntry(u.metric + 1, u.addr, u.mask))
  {}

  /** A prefix not yet known is learned from a neighbor at distance k, if it is close enough. */
  lemma UnknownLearned(top: Topology, l: Link, u: Route, key: nat, k: nat, d: nat, now: int)
    requires Consistent(top) && l in top.links
    requires RightRoute(top, l.from, key, u) && u.metric <= k
    requires AtDistance(top, l.to, key, d) && d <= u.metric + 1 && (d > k || d >= INFINITY)
    ensures var o' := ImprovedBy(None, Told(Some(u), l), l.src, now);
      o'.Some? ==> RightRoute(top, l.to, key, o'.value) && o'.value.metric <= k + 1
    ensures d < INFINITY ==> ImprovedBy(None, Told(Some(u), l), l.src, now).Some?
  {
    NotPoisoned(top, l, key, u, d);
    ToldUnpoisoned(l, u);
    hide Told, AtDistance, Consistent;
    assert d == u.metric + 1;
    var x := Route(RIP, u.addr, u.mask, Some(l.src), d, now);
    assert ThroughCloser(top, l.to, key, x);
  }

  // ----- A round -----

  /** Handling the inbox keeps the invariant, keeps every known route but for its time stamp, and learns the
      prefixes that some neighbor in the inbox has at distance k. */
  lemma {:induction false} InboxKeeps(top: Topology, ts: Tables, r: Router, t: Table, inbox: seq<Link>, k: nat, now: int, key: nat)
    requires Consistent(top) && Covers(top, ts) && AllSettled(top, ts, k)
    requires forall i :: 0 <= i < |inbox| ==> inbox[i] in top.links && inbox[i].to == r
    requires Learning(top, r, Lookup(t, key), key, k)
    ensures var o' := Lookup(AfterInbox(top, ts, t, inbox, now), key);
      && Learning(top, r, o', key, k)
      && SameRoute(Lookup(t, key), o')
      && (k + 1 < INFINITY && AtDistance(top, r, key, k + 1) && (exists l :: l in inbox && AtDistance(top, l.from, key, k)) ==> o'.Some?)
    decreases |inbox|
  {
    if inbox != [] {
      hide Learning, Settled, AtDistance, Told, HandledAll, FullUpdate, Consistent;
      var l := inbox[0];
      var u := Lookup(ts[l.from], key);
      var t' := HandledAll(t, FullUpdate(ts[l.from], l), l.src, now);
      FullUpdateLookup(t, ts[l.from], l, now, key);
      LookupKey(t, key);
      assert Settled(top, l.from, u, key, k);
      UpdateKeeps(top, l, Lookup(t, key), u, key, k, now);
      InboxKeeps(top, ts, r, t', inbox[1..], k, now, key);
      if AtDistance(top, l.from, key, k) && k + 1 < INFINITY && AtDistance(top, r, key, k + 1) {
        NeighborTeaches(top, l, Lookup(t, key), u, key, k, now);
      }
      assert forall m :: m in inbox ==> m == l || m in inbox[1..];
    }
  }

  /** A neighbor at distance k teaches a router at distance k + 1. */
  lemma NeighborTeaches(top: Topology, l: Link, o: Option<Route>, u: Option<Route>, key: nat, k: nat, now: int)
    requires Consistent(top) && l in top.links && k + 1 < INFINITY
    requires Settled(top, l.from, u, key, k) && Learning(top, l.to, o, key, k)
    requires o.Some? ==> o.value.Key() == key
    requires AtDistance(top, l.from, key, k) && AtDistance(top, l.to, key, k + 1)
    ensures ImprovedBy(o, Told(u, l), l.src, now).Some?
  {}

  lemma {:induction false} InboxUnique(top: Topology, ts: Tables, t: Table, inbox: seq<Link>, now: int)
    requires forall i :: 0 <= i < |inbox| ==> inbox[i].from in ts
    requires OneRoutePerPrefix(t)
    ensures OneRoutePerPrefix(AfterInbox(top, ts, t, inbox, now))
    decreases |inbox|
  {
    if inbox != [] {
      HandledAllKeeps(t, FullUpdate(ts[inbox[0].from], inbox[0]), inbox[0].src, now);
      InboxUnique(top, ts, HandledAll(t, FullUpdate(ts[inbox[0].from], inbox[0]), inbox[0].src, now), inbox[1..], now);
    }
  }

  /** A round settles one more hop and changes no route that was there but for its time stamp. */
  lemma RoundSettles(top: Topology, ts: Tables, ts': Tables, x: Exchange, k: nat)
    requires Consistent(top) && Covers(top, ts) && AllSettled(top, ts, k) && Round(top, ts, ts', x)
    ensures AllSettled(top, ts', k + 1)
    ensures forall r, key: nat :: r in ts ==> SameRoute(Lookup(ts[r], key), Lookup(ts'[r], key))
  {
    forall r | r in ts
      ensures OneRoutePerPrefix(ts'[r])
      ensures forall key: nat :: Settled(top, r, Lookup(ts'[r], key), key, k + 1) && SameRoute(Lookup(ts[r], key), Lookup(ts'[r], key))
    {
      InboxUnique(top, ts, ts[r], x.inboxes[r], x.now);
      forall key: nat
        ensures Settled(top, r, Lookup(ts'[r], key), key, k + 1) && SameRoute(Lookup(ts[r], key), Lookup(ts'[r], key))
      {
        RouterSettles(top, ts, r, x.inboxes[r], k, x.now, key);
      }
    }
  }

  lemma RouterSettles(top: Topology, ts: Tables, r: Router, inbox: seq<Link>, k: nat, now: int, key: nat)
    requires Consistent(top) && Covers(top, ts) && AllSettled(top, ts, k) && r in ts && Inbox(top, r, inbox)
    ensures var o' := Lookup(AfterInbox(top, ts, ts[r], inbox, now), key);
      Settled(top, r, o', key, k + 1) && SameRoute(Lookup(ts[r], key), o')
  {
    assert Settled(top, r, Lookup(ts[r], key), key, k);
    InboxKeeps(top, ts, r, ts[r], inbox, k, now, key);
    var o' := Lookup(AfterInbox(top, ts, ts[r], inbox, now), key);
    if AtDistance(top, r, key, k + 1) && k + 1 < INFINITY {
      var l := Closer(top, r, key, k);
      assert l in inbox;
    }
  }

  // ----- Runs of rounds -----

  /** Tables after each of the rounds: states[i + 1] is one round after states[i]. */
  ghost predicate Rounds(top: Topology, states: seq<Tables>, xs: seq<Exchange>) {
    && |states| == |xs| + 1
    && (forall i :: 0 <= i < |states| ==> Covers(top, states[i]))
    && (forall i {:trigger xs[i]} :: 0 <= i < |xs| ==> Round(top, states[i], states[i + 1], xs[i]))
  }

  lemma RoundAdvances(top: Topology, states: seq<Tables>, xs: seq<Exchange>, i: nat)
    requires Consistent(top) && Rounds(top, states, xs) && i < |xs| && AllSettled(top, states[i], i)
    ensures AllSettled(top, states[i + 1], i + 1) && states[i + 1].Keys == states[i].Keys
  {
    var ts, ts' := states[i], states[i + 1];
    assert Covers(top, ts) && Round(top, ts, ts', xs[i]) && ts'.Keys == ts.Keys;
    hide *;
    RoundSettles(top, ts, ts', xs[i], i);
  }

  lemma LocalSettled(top: Topology, ts: Tables)
    requires forall r :: r in ts ==> OnlyLocal(top, r, ts[r])
    ensures AllSettled(top, ts, 0)
  {
    forall r, key: nat | r in ts ensures Settled(top, r, Lookup(ts[r], key), key, 0) {
      LookupKey(ts[r], key);
    }
  }

  lemma {:induction false} RoundsSettle(top: Topology, states: seq<Tables>, xs: seq<Exchange>, k: nat)
    requires Consistent(top) && Rounds(top, states, xs) && k < |states|
    requires forall r :: r in states[0] ==> OnlyLocal(top, r, states[0][r])
    ensures AllSettled(top, states[k], k) && states[k].Keys == states[0].Keys
  {
    if k == 0 {
      LocalSettled(top, states[0]);
    } else {
      hide *;
      RoundsSettle(top, states, xs, k - 1);
      RoundAdvances(top, states, xs, k - 1);
    }
  }

  /** RIP converges: after k rounds every router at distance d <= min(k, 15) from a prefix has metric d for it, through
      a gateway one hop closer, and there is no other route. */
  lemma RipConverges(top: Topology, states: seq<Tables>, xs: seq<Exchange>, k: nat, r: Router, key: nat)
    requires Consistent(top) && Rounds(top, states, xs) && k < |states|
    requires forall q :: q in states[0] ==> OnlyLocal(top, q, states[0][q])
    requires r in states[0]
    ensures r in states[k]
    ensures var o := Lookup(states[k][r], key);
      forall d: nat :: d <= k && d < INFINITY ==> (AtDistance(top, r, key, d) <==> o.Some? && o.value.metric == d)
    ensures var o := Lookup(states[k][r], key);
      o.Some? ==> o.value.metric <= k && RightRoute(top, r, key, o.value)
  {
    RoundsSettle(top, states, xs, k);
    var o := Lookup(states[k][r], key);
    assert Settled(top, r, o, key, k);
    forall d: nat | d <= k && d < INFINITY && AtDistance(top, r, key, d) ensures o.Some? && o.value.metric == d {
      DistanceUnique(top, r, key, d, o.value.metric);
    }
  }
}
