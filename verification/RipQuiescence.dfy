/** Rounds refresh what they do not change: a converged network is quiescent. */
module RipQuiescence {
  import opened Common
  import opened RipMessages
  import opened RoutingTables
  import opened RipNetwork
  import opened RipConvergence
  import opened Forwarding

  // ----- Every settled route is refreshed in every round -----

  /** One update of a round, for a route that is already right: refreshed if it comes over the gateway's link. */
  lemma UpdateRefreshes(top: Topology, l: Link, x: Route, u: Option<Route>, key: nat, k: nat, now: int)
    requires Consistent(top) && l in top.links
    requires RightRoute(top, l.to, key, x) && 0 < x.metric <= k && Settled(top, l.from, u, key, k)
    ensures var o' := ImprovedBy(Some(x), Told(u, l), l.src, now);
      && o'.Some? && o'.value in {x, x.(lastRefresh := now)}
      && (x.gateway == Some(l.src) ==> o'.value == x.(lastRefresh := now))
  {
    if u.Some? {
      KnownStays(top, l, x, u.value, key);
      hide Told, RightRoute, Settled, Consistent;
      OnlyRefreshed(x, Told(u, l).value, l.src, now);
      ToldSomething(u, l);
    } else if x.gateway == Some(l.src) {
      GatewayCloser(top, l.to, key, x, l);
    }
  }

  lemma ToldSomething(u: Option<Route>, l: Link)
    ensures Told(u, l).Some? <==> u.Some?
  {}

  /** By the end of the round the gateway has spoken. */
  lemma {:induction false} InboxRefreshes(top: Topology, ts: Tables, t: Table, inbox: seq<Link>, k: nat, now: int, key: nat, l: Link)
    requires Consistent(top) && Covers(top, ts) && AllSettled(top, ts, k)
    requires forall i :: 0 <= i < |inbox| ==> inbox[i] in top.links && inbox[i].to == l.to
    requires Lookup(t, key).Some? && RightRoute(top, l.to, key, Lookup(t, key).value) && 0 < Lookup(t, key).value.metric <= k
    requires Lookup(t, key).value.gateway == Some(l.src) && (l in inbox || Lookup(t, key).value.lastRefresh == now)
    ensures Lookup(AfterInbox(top, ts, t, inbox, now), key) == Some(Lookup(t, key).value.(lastRefresh := now))
    decreases |inbox|
  {
    if inbox != [] {
      var m, x := inbox[0], Lookup(t, key).value;
      var u := Lookup(ts[m.from], key);
      assert Settled(top, m.from, u, key, k);
      hide Settled, Told, HandledAll, FullUpdate, Consistent, RightRoute;
      FullUpdateLookup(t, ts[m.from], m, now, key);
      UpdateRefreshes(top, m, x, u, key, k, now);
      Refreshed(top, l.to, key, x, now);
      assert forall n :: n in inbox ==> n == m || n in inbox[1..];
      InboxRefreshes(top, ts, HandledAll(t, FullUpdate(ts[m.from], m), m.src, now), inbox[1..], k, now, key, l);
    }
  }

  lemma GatewayLink(top: Topology, r: Router, key: nat, y: Route) returns (l: Link)
    requires RightRoute(top, r, key, y) && y.kind == RIP
    ensures y.metric > 0 && l in top.links && l.to == r && y.gateway == Some(l.src)
  {
    hide AtDistance;
    l :| l in top.links && l.to == r && y.gateway == Some(l.src) && AtDistance(top, l.from, key, y.metric - 1);
  }

  lemma InboxOf(top: Topology, ts: Tables, ts': Tables, x: Exchange, r: Router)
    requires Covers(top, ts) && Round(top, ts, ts', x) && r in ts
    ensures r in ts' && r in x.inboxes
    ensures forall i :: 0 <= i < |x.inboxes[r]| ==> x.inboxes[r][i] in top.links && x.inboxes[r][i].to == r
    ensures forall l :: l in top.links && l.to == r ==> l in x.inboxes[r]
    ensures forall i :: 0 <= i < |x.inboxes[r]| ==> x.inboxes[r][i].from in ts
    ensures ts'[r] == AfterInbox(top, ts, ts[r], x.inboxes[r], x.now)
  {
    assert Inbox(top, r, x.inboxes[r]);
  }

  lemma SettledRoute(top: Topology, ts: Tables, k: nat, r: Router, key: nat)
    requires AllSettled(top, ts, k) && r in ts && Lookup(ts[r], key).Some?
    ensures RightRoute(top, r, key, Lookup(ts[r], key).value) && Lookup(ts[r], key).value.metric <= k
  {
    assert Settled(top, r, Lookup(ts[r], key), key, k);
  }

  /** After a round every route that was settled before it carries the round's time. */
  lemma RoundRefreshes(top: Topology, ts: Tables, ts': Tables, x: Exchange, k: nat, r: Router, key: nat)
    requires Consistent(top) && Covers(top, ts) && AllSettled(top, ts, k) && Round(top, ts, ts', x) && r in ts
    requires Lookup(ts[r], key).Some? && Lookup(ts[r], key).value.kind == RIP
    ensures r in ts' && Lookup(ts'[r], key) == Some(Lookup(ts[r], key).value.(lastRefresh := x.now))
  {
    hide *;
    SettledRoute(top, ts, k, r, key);
    var l := GatewayLink(top, r, key, Lookup(ts[r], key).value);
    InboxOf(top, ts, ts', x, r);
    InboxRefreshes(top, ts, ts[r], x.inboxes[r], k, x.now, key, l);
  }

  // ----- A settled network changes nothing -----

  /** Everything within reach is known. */
  ghost predicate AllLearned(top: Topology, r: Router, t: Table, k: nat) {
    forall key: nat :: Learning(top, r, Lookup(t, key), key, k)
  }

  /** With every distance below 16 settled, no neighbor's word changes a metric. */
  lemma NothingToChange(top: Topology, l: Link, o: Option<Route>, x: Route, key: nat, k: nat)
    requires Consistent(top) && l in top.links && k >= 15
    requires Learning(top, l.to, o, key, k) && RightRoute(top, l.from, key, x)
    ensures !Changes(o, Told(Some(x), l).value, l.src)
    ensures o.None? ==> Told(Some(x), l).value.cost == INFINITY
  {
    if o.Some? {
      KnownStays(top, l, o.value, x, key);
    } else {
      var d := DistanceBeyond(top, l, x.metric, key);
      assert d >= INFINITY;
      hide AtDistance, Consistent, ThroughCloser;
      HeardCost(RipEntry(x.metric, x.addr, x.mask), x.gateway, l.dst);
    }
  }

  lemma EntryKeepsLearned(top: Topology, l: Link, t: Table, x: Route, k: nat, now: int)
    requires Consistent(top) && l in top.links && k >= 15
    requires AllLearned(top, l.to, t, k) && RightRoute(top, l.from, x.Key(), x)
    ensures var e := Told(Some(x), l).value;
      !Changes(Lookup(t, KeyOf(e)), e, l.src) && AllLearned(top, l.to, Handled(t, e, l.src, now), k)
  {
    var e := Told(Some(x), l).value;
    assert KeyOf(e) == x.Key();
    var o := Lookup(t, x.Key());
    assert Learning(top, l.to, o, x.Key(), k);
    NothingToChange(top, l, o, x, x.Key(), k);
    forall key: nat ensures Learning(top, l.to, Lookup(Handled(t, e, l.src, now), key), key, k) {
      HandledLookup(t, e, l.src, now, key);
      assert Learning(top, l.to, Lookup(t, key), key, k);
      hide Told, Consistent, Handled;
      if key == x.Key() && o.Some? {
        OneWordMore(top, l, o.value, x, key, k, now);
      }
    }
  }

  lemma OneWordMore(top: Topology, l: Link, y: Route, x: Route, key: nat, k: nat, now: int)
    requires Consistent(top) && l in top.links
    requires Learning(top, l.to, Some(y), key, k) && RightRoute(top, l.from, key, x)
    ensures Learning(top, l.to, Improved(Some(y), Told(Some(x), l).value, l.src, now), key, k)
  {
    KnownStays(top, l, y, x, key);
    hide Told, RightRoute, Consistent;
    OnlyRefreshed(y, Told(Some(x), l).value, l.src, now);
    Refreshed(top, l.to, key, y, now);
  }

  /** So a full update from a settled neighbor triggers nothing. */
  lemma {:induction false} UpdateIsQuiet(top: Topology, l: Link, t: Table, u: Table, k: nat, now: int)
    requires Consistent(top) && l in top.links && k >= 15 && AllLearned(top, l.to, t, k)
    requires forall i :: 0 <= i < |u| ==> RightRoute(top, l.from, u[i].Key(), u[i])
    ensures Updates(t, FullUpdate(u, l), l.src, now) == []
    ensures AllLearned(top, l.to, HandledAll(t, FullUpdate(u, l), l.src, now), k)
    decreases |u|
  {
    if u != [] {
      var e := Told(Some(u[0]), l).value;
      assert FullUpdate(u, l) == [e] + FullUpdate(u[1..], l);
      EntryKeepsLearned(top, l, t, u[0], k, now);
      hide AllLearned, RightRoute, Told, Handled, Changes, Consistent, FullUpdate;
      UpdateIsQuiet(top, l, Handled(t, e, l.src, now), u[1..], k, now);
      assert ([e] + FullUpdate(u[1..], l))[1..] == FullUpdate(u[1..], l);
    }
  }

  lemma SettledRoutes(top: Topology, ts: Tables, r: Router, k: nat)
    requires AllSettled(top, ts, k) && r in ts
    ensures forall i :: 0 <= i < |ts[r]| ==> RightRoute(top, r, ts[r][i].Key(), ts[r][i])
    ensures AllLearned(top, r, ts[r], k)
  {
    forall i | 0 <= i < |ts[r]| ensures RightRoute(top, r, ts[r][i].Key(), ts[r][i]) {
      RouteIsLookedUp(ts[r], ts[r][i]);
      assert Settled(top, r, Lookup(ts[r], ts[r][i].Key()), ts[r][i].Key(), k);
    }
    forall key: nat ensures Learning(top, r, Lookup(ts[r], key), key, k) {
      assert Settled(top, r, Lookup(ts[r], key), key, k);
    }
  }

  lemma {:induction false} InboxIsQuiet(top: Topology, ts: Tables, r: Router, t: Table, inbox: seq<Link>, k: nat, now: int)
    requires Consistent(top) && Covers(top, ts) && AllSettled(top, ts, k) && k >= 15 && AllLearned(top, r, t, k)
    requires forall i :: 0 <= i < |inbox| ==> inbox[i] in top.links && inbox[i].to == r
    ensures InboxUpdates(ts, t, inbox, now) == []
    decreases |inbox|
  {
    if inbox != [] {
      var l := inbox[0];
      SettledRoutes(top, ts, l.from, k);
      UpdateIsQuiet(top, l, t, ts[l.from], k, now);
      hide AllLearned, AllSettled, RightRoute, Consistent, FullUpdate, HandledAll, Updates;
      InboxIsQuiet(top, ts, r, HandledAll(t, FullUpdate(ts[l.from], l), l.src, now), inbox[1..], k, now);
    }
  }

  lemma RouterIsQuiet(top: Topology, ts: Tables, ts': Tables, x: Exchange, k: nat, r: Router)
    requires Consistent(top) && Covers(top, ts) && AllSettled(top, ts, k) && k >= 15 && Round(top, ts, ts', x)
    requires r in ts && r in x.inboxes && forall i :: 0 <= i < |x.inboxes[r]| ==> x.inboxes[r][i].from in ts
    ensures WellFormedTable(ts[r]) && InboxUpdates(ts, ts[r], x.inboxes[r], x.now) == []
  {
    InboxOf(top, ts, ts', x, r);
    assert OneRoutePerPrefix(ts[r]);
    hide *;
    SettledRoutes(top, ts, r, k);
    InboxIsQuiet(top, ts, r, ts[r], x.inboxes[r], k, x.now);
    RightIsWellFormed(top, r, ts[r]);
  }

  lemma RouterIsRefreshed(top: Topology, ts: Tables, ts': Tables, x: Exchange, k: nat, r: Router, y: Route)
    requires Consistent(top) && Covers(top, ts) && AllSettled(top, ts, k) && k >= 15 && Round(top, ts, ts', x)
    requires r in ts && r in ts' && y in ts'[r] && y.kind == RIP
    ensures y.lastRefresh == x.now
  {
    hide Consistent, Covers, Round, SameRoute;
    RoundSettles(top, ts, ts', x, k);
    assert OneRoutePerPrefix(ts'[r]);
    hide *;
    RouteIsLookedUp(ts'[r], y);
    NothingNew(top, ts, ts', x, k, r, y);
  }

  /** The next round of a settled network is quiet: it triggers no update and refreshes every learned route. */
  lemma SettledIsQuiet(top: Topology, ts: Tables, ts': Tables, x: Exchange, k: nat)
    requires Consistent(top) && Covers(top, ts) && AllSettled(top, ts, k) && k >= 15 && Round(top, ts, ts', x)
    requires forall r, y :: r in ts && y in ts[r] ==> y.lastRefresh < x.now
    ensures Quiet(top, ts, ts', x)
  {
    hide AllSettled, Consistent, WellFormedTable, InboxUpdates;
    forall r | r in ts ensures WellFormedTable(ts[r]) && InboxUpdates(ts, ts[r], x.inboxes[r], x.now) == [] {
      RouterIsQuiet(top, ts, ts', x, k, r);
    }
    forall r, y | r in ts && y in ts'[r] && y.kind == RIP ensures y.lastRefresh == x.now {
      RouterIsRefreshed(top, ts, ts', x, k, r, y);
    }
  }

  lemma RightIsWellFormed(top: Topology, r: Router, t: Table)
    requires OneRoutePerPrefix(t) && forall i :: 0 <= i < |t| ==> RightRoute(top, r, t[i].Key(), t[i])
    ensures WellFormedTable(t)
  {}

  /** A round of a network with every distance below 16 settled adds no route: what it leaves was there, and refreshed. */
  lemma NothingNew(top: Topology, ts: Tables, ts': Tables, x: Exchange, k: nat, r: Router, y: Route)
    requires Consistent(top) && Covers(top, ts) && AllSettled(top, ts, k) && k >= 15 && Round(top, ts, ts', x)
    requires r in ts && r in ts' && AllSettled(top, ts', k + 1) && Lookup(ts'[r], y.Key()) == Some(y) && y.kind == RIP
    requires SameRoute(Lookup(ts[r], y.Key()), Lookup(ts'[r], y.Key()))
    ensures y.lastRefresh == x.now
  {
    hide Consistent, Covers, Round, AllSettled, Lookup, AtDistance;
    SettledRoute(top, ts', k + 1, r, y.Key());
    AlreadyKnown(top, ts, k, r, y.Key(), y.metric);
    RoundRefreshes(top, ts, ts', x, k, r, y.Key());
  }

  lemma AlreadyKnown(top: Topology, ts: Tables, k: nat, r: Router, key: nat, d: nat)
    requires AllSettled(top, ts, k) && k >= 15 && r in ts && AtDistance(top, r, key, d) && d < INFINITY
    ensures Lookup(ts[r], key).Some?
  {
    hide AtDistance, Lookup, RightRoute;
    assert Settled(top, r, Lookup(ts[r], key), key, k);
  }

  // ----- From local routes to quiescence -----

  /** Rounds at increasing times, from tables older than the first of them. */
  ghost predicate Timed(states: seq<Tables>, xs: seq<Exchange>) {
    && |states| == |xs| + 1
    && (forall i, j :: 0 <= i < j < |xs| ==> xs[i].now < xs[j].now)
    && (|xs| > 0 ==> forall r, y :: r in states[0] && y in states[0][r] ==> y.lastRefresh < xs[0].now)
  }

  lemma {:induction false} InboxStamps(top: Topology, ts: Tables, t: Table, inbox: seq<Link>, now: int, y: Route)
    requires forall i :: 0 <= i < |inbox| ==> inbox[i].from in ts
    requires y in AfterInbox(top, ts, t, inbox, now)
    ensures y in t || y.lastRefresh == now
    decreases |inbox|
  {
    if inbox != [] {
      var t' := HandledAll(t, FullUpdate(ts[inbox[0].from], inbox[0]), inbox[0].src, now);
      InboxStamps(top, ts, t', inbox[1..], now, y);
      if y in t' {
        HandledAllStamps(t, FullUpdate(ts[inbox[0].from], inbox[0]), inbox[0].src, now, y);
      }
    }
  }

  lemma {:induction false} StampsAreOld(top: Topology, states: seq<Tables>, xs: seq<Exchange>, k: nat, r: Router, y: Route)
    requires Rounds(top, states, xs) && Timed(states, xs) && k < |xs| && r in states[k] && y in states[k][r]
    ensures y.lastRefresh < xs[k].now
  {
    if k > 0 {
      var x := xs[k - 1];
      assert Round(top, states[k - 1], states[k - 1 + 1], x) && Covers(top, states[k - 1]);
      assert Inbox(top, r, x.inboxes[r]);
      InboxStamps(top, states[k - 1], states[k - 1][r], x.inboxes[r], x.now, y);
      if y in states[k - 1][r] {
        StampsAreOld(top, states, xs, k - 1, r, y);
      }
    }
  }

  /** From local routes on, every round after the fifteenth is quiet. */
  lemma ConvergedIsQuiet(top: Topology, states: seq<Tables>, xs: seq<Exchange>, k: nat)
    requires Consistent(top) && Rounds(top, states, xs) && Timed(states, xs) && 15 <= k < |xs|
    requires forall r :: r in states[0] ==> OnlyLocal(top, r, states[0][r])
    ensures Quiet(top, states[k], states[k + 1], xs[k])
  {
    RoundsSettle(top, states, xs, k);
    assert Covers(top, states[k]) && Round(top, states[k], states[k + 1], xs[k]);
    forall r, y | r in states[k] && y in states[k][r] ensures y.lastRefresh < xs[k].now {
      StampsAreOld(top, states, xs, k, r, y);
    }
    hide Rounds, Timed, AllSettled, OnlyLocal, Quiet, Round, Covers, Consistent;
    SettledIsQuiet(top, states[k], states[k + 1], xs[k], k);
  }

  /** So every route leads home: a prefix at distance d below 16 is reached in d hops over gateways. */
  lemma ConvergedLeadsHome(top: Topology, states: seq<Tables>, xs: seq<Exchange>, k: nat, r: Router, key: nat, d: nat)
    requires Consistent(top) && Rounds(top, states, xs) && Timed(states, xs) && 15 <= k < |xs|
    requires forall q :: q in states[0] ==> OnlyLocal(top, q, states[0][q])
    requires r in states[0] && AtDistance(top, r, key, d) && d < INFINITY
    ensures LeadsHome(top, states[k], r, key, d)
  {
    RipConverges(top, states, xs, k, r, key);
    ConvergedIsQuiet(top, states, xs, k);
    QuietRoutesLeadHome(top, states[k], states[k + 1], xs[k], r, key, d);
  }
}
