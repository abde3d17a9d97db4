/** The rounds of RIP are runs of the asynchronous network. */
module RipRuns {
  import opened Common
  import opened Subnets
  import opened RipMessages
  import opened RoutingTables
  import opened RipNetwork
  import opened RipConvergence

  lemma {:induction false} RunsJoin(top: Topology, n: Network, a: seq<NetEvent>, b: seq<NetEvent>)
    requires NetRun(top, n, a) && NetRun(top, AfterNetRun(top, n, a), b)
    ensures NetRun(top, n, a + b) && AfterNetRun(top, n, a + b) == AfterNetRun(top, AfterNetRun(top, n, a), b)
    decreases |a|
  {
    if a == [] {
      assert a + b == b;
    } else {
      hide NetStep, NetPossible;
      assert (a + b)[1..] == a[1..] + b;
      RunsJoin(top, NetStep(top, n, a[0]), a[1..], b);
    }
  }

  lemma RunOfOne(top: Topology, n: Network, e: NetEvent)
    requires NetPossible(top, n, e)
    ensures NetRun(top, n, [e]) && AfterNetRun(top, n, [e]) == NetStep(top, n, e)
  {
    assert [e][1..] == [];
    assert AfterNetRun(top, NetStep(top, n, e), []) == NetStep(top, n, e);
  }

  /** The full update of each of some routers is somewhere on the wire for each of their neighbors. */
  ghost predicate Said(top: Topology, ts: Tables, flight: set<Message>, rs: set<Router>) {
    forall l :: l in top.links && l.from in rs && l.from in ts ==> Message(l, FullUpdate(ts[l.from], l)) in flight
  }

  lemma BroadcastSays(top: Topology, n: Network, r: Router)
    requires r in n.tables
    ensures NetPossible(top, n, Broadcast(r))
    ensures var n' := NetStep(top, n, Broadcast(r));
      n'.tables == n.tables && n.flight <= n'.flight && Said(top, n.tables, n'.flight, {r})
  {}

  /** Each router broadcasts its table. */
  lemma {:induction false} AllSay(top: Topology, n: Network, rs: set<Router>) returns (es: seq<NetEvent>)
    requires rs <= n.tables.Keys
    ensures NetRun(top, n, es)
    ensures var n' := AfterNetRun(top, n, es);
      n'.tables == n.tables && n.flight <= n'.flight && Said(top, n.tables, n'.flight, rs)
    decreases |rs|
  {
    hide NetStep, NetPossible, FullUpdate;
    if rs == {} {
      es := [];
    } else {
      var r :| r in rs;
      BroadcastSays(top, n, r);
      RunOfOne(top, n, Broadcast(r));
      var n1 := NetStep(top, n, Broadcast(r));
      es := AllSay(top, n1, rs - {r});
      RunsJoin(top, n, [Broadcast(r)], es);
      es := [Broadcast(r)] + es;
    }
  }

  lemma DeliveryHeard(top: Topology, n: Network, ts: Tables, l: Link, now: int)
    requires l.from in ts && l.to in n.tables && Message(l, FullUpdate(ts[l.from], l)) in n.flight
    ensures var e := Deliver(Message(l, FullUpdate(ts[l.from], l)), now);
      && NetPossible(top, n, e)
      && NetStep(top, n, e).tables == n.tables[l.to := HandledAll(n.tables[l.to], FullUpdate(ts[l.from], l), l.src, now)]
      && n.flight <= NetStep(top, n, e).flight
  {}

  /** A router handles the full updates of its inbox in their order. */
  lemma {:induction false} HearsInbox(top: Topology, n: Network, ts: Tables, r: Router, inbox: seq<Link>, now: int) returns (es: seq<NetEvent>)
    requires r in n.tables && forall i :: 0 <= i < |inbox| ==>
      inbox[i].from in ts && inbox[i].to == r && Message(inbox[i], FullUpdate(ts[inbox[i].from], inbox[i])) in n.flight
    ensures NetRun(top, n, es)
    ensures var n' := AfterNetRun(top, n, es);
      n'.tables == n.tables[r := AfterInbox(top, ts, n.tables[r], inbox, now)] && n.flight <= n'.flight
    decreases |inbox|
  {
    hide NetStep, NetPossible, FullUpdate, HandledAll;
    if inbox == [] {
      es := [];
      assert n.tables[r := n.tables[r]] == n.tables;
    } else {
      var l := inbox[0];
      var e := Deliver(Message(l, FullUpdate(ts[l.from], l)), now);
      DeliveryHeard(top, n, ts, l, now);
      RunOfOne(top, n, e);
      var n1 := NetStep(top, n, e);
      es := HearsInbox(top, n1, ts, r, inbox[1..], now);
      RunsJoin(top, n, [e], es);
      es := [e] + es;
    }
  }

  /** Router after router handles its inbox. */
  lemma {:induction false} AllHear(top: Topology, n: Network, ts: Tables, ts': Tables, x: Exchange, rs: set<Router>) returns (es: seq<NetEvent>)
    requires Covers(top, ts) && Round(top, ts, ts', x) && rs <= ts.Keys == n.tables.Keys
    requires Said(top, ts, n.flight, ts.Keys)
    requires ts'.Keys == ts.Keys && forall r :: r in ts ==> n.tables[r] == if r in rs then ts[r] else ts'[r]
    ensures NetRun(top, n, es) && AfterNetRun(top, n, es).tables == ts'
    decreases |rs|
  {
    hide *;
    if rs == {} {
      NoRun(top, n);
      es := [];
      assert n.tables == ts';
    } else {
      var r :| r in rs;
      InboxSaid(top, ts, ts', x, n.flight, r);
      es := HearsInbox(top, n, ts, r, x.inboxes[r], x.now);
      var n1 := AfterNetRun(top, n, es);
      SaidMore(top, ts, n.flight, n1.flight);
      assert forall q :: q in ts ==> n1.tables[q] == if q in rs - {r} then ts[q] else ts'[q];
      var es' := AllHear(top, n1, ts, ts', x, rs - {r});
      RunsJoin(top, n, es, es');
      es := es + es';
    }
  }

  lemma NoRun(top: Topology, n: Network)
    ensures NetRun(top, n, []) && AfterNetRun(top, n, []) == n
  {}

  lemma SaidMore(top: Topology, ts: Tables, flight: set<Message>, flight': set<Message>)
    requires Said(top, ts, flight, ts.Keys) && flight <= flight'
    ensures Said(top, ts, flight', ts.Keys)
  {}

  lemma InboxSaid(top: Topology, ts: Tables, ts': Tables, x: Exchange, flight: set<Message>, r: Router)
    requires Covers(top, ts) && Round(top, ts, ts', x) && r in ts && Said(top, ts, flight, ts.Keys)
    ensures r in x.inboxes && r in ts' && ts'.Keys == ts.Keys
    ensures forall i :: 0 <= i < |x.inboxes[r]| ==> var l := x.inboxes[r][i];
      l.from in ts && l.to == r && Message(l, FullUpdate(ts[l.from], l)) in flight
    ensures ts'[r] == AfterInbox(top, ts, ts[r], x.inboxes[r], x.now)
  {
    assert Inbox(top, r, x.inboxes[r]);
  }

  /** Whatever is on the wire, a round is a run: every router broadcasts, and every router then handles its inbox. */
  lemma RoundIsARun(top: Topology, ts: Tables, ts': Tables, x: Exchange, flight: set<Message>) returns (es: seq<NetEvent>)
    requires Covers(top, ts) && Round(top, ts, ts', x)
    ensures NetRun(top, Network(ts, flight), es) && AfterNetRun(top, Network(ts, flight), es).tables == ts'
  {
    hide Said, NetRun, AfterNetRun, Covers;
    var n := Network(ts, flight);
    var says := AllSay(top, n, ts.Keys);
    var hears := AllHear(top, AfterNetRun(top, n, says), ts, ts', x, ts.Keys);
    RunsJoin(top, n, says, hears);
    es := says + hears;
  }

  /** So every sequence of rounds is one run of the network. */
  lemma {:induction false} RoundsAreARun(top: Topology, states: seq<Tables>, xs: seq<Exchange>, k: nat) returns (es: seq<NetEvent>)
    requires Rounds(top, states, xs) && k < |states|
    ensures NetRun(top, Network(states[0], {}), es) && AfterNetRun(top, Network(states[0], {}), es).tables == states[k]
  {
    if k == 0 {
      es := [];
    } else {
      es := RoundsAreARun(top, states, xs, k - 1);
      assert Covers(top, states[k - 1]) && Round(top, states[k - 1], states[k - 1 + 1], xs[k - 1]);
      hide NetRun, AfterNetRun, Covers, Round, Rounds;
      var n := AfterNetRun(top, Network(states[0], {}), es);
      var more := RoundIsARun(top, states[k - 1], states[k], xs[k - 1], n.flight);
      RunsJoin(top, Network(states[0], {}), es, more);
      es := es + more;
    }
  }

  // ----- There is always a next round -----

  /** The elements of a set, in some order. */
  ghost function InSomeOrder(s: set<Link>): (q: seq<Link>)
    ensures forall l :: l in q <==> l in s
  {
    if s == {} then [] else var l :| l in s; [l] + InSomeOrder(s - {l})
  }

  lemma NextRound(top: Topology, ts: Tables, now: int) returns (ts': Tables, x: Exchange)
    requires Covers(top, ts)
    ensures Round(top, ts, ts', x) && Covers(top, ts') && x.now == now
  {
    var inboxes := map r | r in ts :: InSomeOrder(set l | l in top.links && l.to == r);
    x := Exchange(inboxes, now);
    forall r | r in ts ensures Inbox(top, r, inboxes[r]) {
      assert forall i :: 0 <= i < |inboxes[r]| ==> inboxes[r][i] in inboxes[r];
    }
    ts' := map r | r in ts :: AfterInbox(top, ts, ts[r], inboxes[r], now);
  }

  lemma {:induction false} SomeRounds(top: Topology, ts: Tables, k: nat, now: int) returns (states: seq<Tables>, xs: seq<Exchange>)
    requires Covers(top, ts)
    ensures Rounds(top, states, xs) && |states| == k + 1 && |xs| == k && states[0] == ts
  {
    if k == 0 {
      states, xs := [ts], [];
    } else {
      states, xs := SomeRounds(top, ts, k - 1, now);
      var ts', x := NextRound(top, states[k - 1], now + k);
      OneMoreRound(top, states, xs, ts', x);
      states, xs := states + [ts'], xs + [x];
    }
  }

  lemma OneMoreRound(top: Topology, states: seq<Tables>, xs: seq<Exchange>, ts': Tables, x: Exchange)
    requires Rounds(top, states, xs)
    requires Covers(top, states[|xs|]) && Round(top, states[|xs|], ts', x) && Covers(top, ts')
    ensures Rounds(top, states + [ts'], xs + [x])
  {
    hide Round, Covers;
    var states', xs' := states + [ts'], xs + [x];
    forall i {:trigger xs'[i]} | 0 <= i < |xs'| ensures Covers(top, states'[i]) && Round(top, states'[i], states'[i + 1], xs'[i]) {
      assert i < |xs| ==> xs'[i] == xs[i];
    }
  }

  /** A router's metrics are its distances, for all that are below 16. */
  ghost predicate RightDistances(top: Topology, ts: Tables, r: Router) {
    r in ts && forall key: nat, d: nat :: d < INFINITY ==>
      (AtDistance(top, r, key, d) <==> Lookup(ts[r], key).Some? && Lookup(ts[r], key).value.metric == d)
  }

  lemma RightAfterRounds(top: Topology, states: seq<Tables>, xs: seq<Exchange>, r: Router)
    requires Consistent(top) && Rounds(top, states, xs) && |xs| == 15
    requires forall q :: q in states[0] ==> OnlyLocal(top, q, states[0][q])
    requires r in states[0]
    ensures RightDistances(top, states[15], r)
  {
    hide Consistent, OnlyLocal, AtDistance, Lookup, Round;
    RipConverges(top, states, xs, 15, r, 0);
    forall key: nat, d: nat | d < INFINITY
      ensures AtDistance(top, r, key, d) <==> Lookup(states[15][r], key).Some? && Lookup(states[15][r], key).value.metric == d
    {
      RipConverges(top, states, xs, 15, r, key);
    }
  }

  /** The asynchronous network can always get there: from local routes there is a run after which every router has
      metric d for a prefix exactly if it is at distance d, for every d below 16. */
  lemma CanConverge(top: Topology, tables: Tables) returns (es: seq<NetEvent>)
    requires Consistent(top) && Covers(top, tables)
    requires forall q :: q in tables ==> OnlyLocal(top, q, tables[q])
    ensures NetRun(top, Network(tables, {}), es)
    ensures forall r :: r in tables ==> RightDistances(top, AfterNetRun(top, Network(tables, {}), es).tables, r)
  {
    hide *;
    var states, xs := SomeRounds(top, tables, 15, 0);
    es := RoundsAreARun(top, states, xs, 15);
    forall r | r in tables ensures RightDistances(top, states[15], r) {
      RightAfterRounds(top, states, xs, r);
    }
  }

  // ----- Triggered updates, expiry and interfaces -----

  lemma {:induction false} DifferentMeansChanged(t: Table, es: seq<RipEntry>, from: Ip, now: int, key: nat)
    requires MetricOf(Lookup(HandledAll(t, es, from, now), key)) != MetricOf(Lookup(t, key))
    ensures ChangesAtSomePoint(t, es, from, now, key)
    decreases |es|
  {
    hide Handled, Lookup;
    var t' := Handled(t, es[0], from, now);
    if MetricOf(Lookup(t', key)) == MetricOf(Lookup(t, key)) {
      DifferentMeansChanged(t', es[1..], from, now, key);
    }
  }

  /** A delivery that changes a metric is passed on: a message about the prefix goes out to every neighbor, and tells the
      one it came from that the prefix is out of reach. */
  lemma ChangeIsPassedOn(top: Topology, n: Network, m: Message, now: int, l: Link, key: nat) returns (news: Message, i: nat)
    requires NetPossible(top, n, Deliver(m, now)) && l in top.links && l.from == m.link.to
    requires var t' := NetStep(top, n, Deliver(m, now)).tables[l.from];
      MetricOf(Lookup(t', key)) != MetricOf(Lookup(n.tables[l.from], key))
    ensures news in NetStep(top, n, Deliver(m, now)).flight && news.link == l
    ensures i < |news.entries| && KeyOf(news.entries[i]) == key
    ensures l.dst == m.link.src ==> news.entries[i].cost == INFINITY
  {
    hide Lookup, Handled;
    var t := n.tables[l.from];
    var us := Updates(t, m.entries, m.link.src, now);
    DifferentMeansChanged(t, m.entries, m.link.src, now, key);
    ReportedIffChanged(t, m.entries, m.link.src, now, key);
    var e :| e in us && KeyOf(e) == key;
    i :| 0 <= i < |us| && us[i] == e;
    news := Message(l, HeardAll(us, seq(|us|, _ => Some(m.link.src)), l.dst));
    assert seq(|us|, _ => Some(m.link.src)) == seq(|us|, j => Some(m.link.src));
  }

  /** An expiry removes what is too old or unreachable from its router's table, and nothing anywhere else. */
  lemma ExpiryRemoves(top: Topology, n: Network, r: Router, now: int, expiration: int, q: Router, x: Route)
    requires r in n.tables && q in n.tables
    ensures NetPossible(top, n, Expire(r, now, expiration))
    ensures var n' := NetStep(top, n, Expire(r, now, expiration));
      q in n'.tables && (x in n'.tables[q] <==>
        x in n.tables[q] && (q != r || x.kind == LOCAL || (x.metric != 16 && x.lastRefresh + expiration >= now)))
  {
    var t := n.tables[r];
    SweptKeeps(t, 0, now, expiration);
    FreshMembers(t, now, expiration, x);
    assert t[..0] == [] && t[0..] == t;
    assert x in Swept(t, 0, now, expiration) <==> x in multiset(Swept(t, 0, now, expiration));
    assert x in Fresh(t, now, expiration) <==> x in multiset(Fresh(t, now, expiration));
  }

  /** Neighbors hear of a connected subnet at cost 1 while its interface is up, and at infinite cost when it goes down. */
  lemma InterfaceHeard(top: Topology, n: Network, l: Link, i: nat, up: bool)
    requires NetSound(top, n) && NetPossible(top, n, InterfaceChange(l.from, i, up)) && l in top.links
    ensures var x := n.tables[l.from][i];
      Message(l, [RipEntry(if up then 1 else 16, x.addr, x.mask)]) in NetStep(top, n, InterfaceChange(l.from, i, up)).flight
  {
    var x := n.tables[l.from][i];
    assert RouteSound(top, l.from, x);
    var e := RipEntry(if up then 0 else INFINITY, x.addr, x.mask);
    var gs := seq(1, _ => x.gateway);
    assert HeardAll([e], gs, l.dst) == [Heard(e, None, l.dst)] by { assert gs[0] == None && gs[1..] == []; }
  }
}
