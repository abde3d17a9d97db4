/** A router's table: local routes and routes learned by RIP. */
module RoutingTables {
  import opened Common
  import opened Subnets
  import opened RipMessages

  datatype Kind = LOCAL | RIP

  datatype Route = Route(kind: Kind, addr: Ip, mask: Ip, gateway: Option<Ip>, metric: nat, lastRefresh: int) {
    /** Routes are told apart by their masked address. */
    function Key(): nat { And(addr, mask) }
  }

  type Table = seq<Route>

  function KeyOf(e: RipEntry): nat { And(e.address, e.mask) }

  // ----- Specification -----

  /** The first route with the key. */
  function Lookup(t: Table, key: nat): Option<Route> {
    if t == [] then None else if t[0].Key() == key then Some(t[0]) else Lookup(t[1..], key)
  }

  ghost predicate OneRoutePerPrefix(t: Table) {
    forall i, j :: 0 <= i < j < |t| ==> t[i].Key() != t[j].Key()
  }

  /** What one heard entry makes of the route it is about. */
  function Improved(o: Option<Route>, e: RipEntry, from: Ip, now: int): Option<Route> {
    match o
    case None => if e.cost < INFINITY then Some(Route(RIP, e.address, e.mask, Some(from), e.cost, now)) else None
    case Some(r) =>
      if r.kind == LOCAL then o
      else if e.cost < r.metric || r.gateway == Some(from)
      then Some(r.(metric := e.cost, gateway := Some(from), lastRefresh := now))
      else o
  }

  /** The entry changes the metric of its prefix, so neighbors are told at once. */
  predicate Changes(o: Option<Route>, e: RipEntry, from: Ip) {
    match o
    case None => e.cost < INFINITY
    case Some(r) => r.kind != LOCAL && (e.cost < r.metric || (r.gateway == Some(from) && e.cost != r.metric))
  }

  /** The table with the route of one key replaced, or added at the end. */
  function Replaced(t: Table, r: Route): Table {
    if t == [] then [r] else if t[0].Key() == r.Key() then [r] + t[1..] else [t[0]] + Replaced(t[1..], r)
  }

  function Handled(t: Table, e: RipEntry, from: Ip, now: int): Table {
    var o := Improved(Lookup(t, KeyOf(e)), e, from, now);
    if o.Some? && o != Lookup(t, KeyOf(e)) then Replaced(t, o.value) else t
  }

  function HandledAll(t: Table, es: seq<RipEntry>, from: Ip, now: int): Table
    decreases |es|
  {
    if es == [] then t else HandledAll(Handled(t, es[0], from, now), es[1..], from, now)
  }

  /** The triggered update: the entries that changed a metric when they were handled. */
  function Updates(t: Table, es: seq<RipEntry>, from: Ip, now: int): seq<RipEntry>
    decreases |es|
  {
    if es == [] then []
    else (if Changes(Lookup(t, KeyOf(es[0])), es[0], from) then [es[0]] else [])
         + Updates(Handled(t, es[0], from, now), es[1..], from, now)
  }

  lemma HandledAllStep(t: Table, es: seq<RipEntry>, from: Ip, now: int)
    ensures es == [] ==> HandledAll(t, es, from, now) == t && Updates(t, es, from, now) == []
    ensures es != [] ==>
      var t' := Handled(t, es[0], from, now);
      && HandledAll(t, es, from, now) == HandledAll(t', es[1..], from, now)
      && Updates(t, es, from, now) ==
         (if Changes(Lookup(t, KeyOf(es[0])), es[0], from) then [es[0]] else []) + Updates(t', es[1..], from, now)
  {}

  // ----- Laws of the table -----

  lemma {:induction false} LookupKey(t: Table, key: nat)
    ensures Lookup(t, key).Some? ==> Lookup(t, key).value.Key() == key && Lookup(t, key).value in t
    ensures Lookup(t, key).None? <==> forall i :: 0 <= i < |t| ==> t[i].Key() != key
  {
    if t != [] {
      LookupKey(t[1..], key);
      if Lookup(t, key).None? {
        forall i | 0 <= i < |t| ensures t[i].Key() != key {
          assert i > 0 ==> t[i] == t[1..][i - 1];
        }
      }
    }
  }

  lemma {:induction false} LookupReplaced(t: Table, r: Route, key: nat)
    ensures Lookup(Replaced(t, r), key) == if key == r.Key() then Some(r) else Lookup(t, key)
  {
    if t != [] {
      LookupReplaced(t[1..], r, key);
    }
  }

  lemma {:induction false} ReplacedKeys(t: Table, r: Route, x: Route)
    requires x in Replaced(t, r)
    ensures x == r || x in t
  {
    if t != [] && t[0].Key() != r.Key() && x != t[0] {
      ReplacedKeys(t[1..], r, x);
    }
  }

  lemma {:induction false} ReplacedUnique(t: Table, r: Route)
    requires OneRoutePerPrefix(t)
    ensures OneRoutePerPrefix(Replaced(t, r))
  {
    if t != [] {
      ReplacedUnique(t[1..], r);
      if t[0].Key() != r.Key() {
        var rest := Replaced(t[1..], r);
        forall j | 0 <= j < |rest| ensures rest[j].Key() != t[0].Key() {
          ReplacedKeys(t[1..], r, rest[j]);
        }
      }
    }
  }

  lemma ImprovedKey(o: Option<Route>, e: RipEntry, from: Ip, now: int)
    requires o.Some? ==> o.value.Key() == KeyOf(e)
    ensures Improved(o, e, from, now).Some? ==> Improved(o, e, from, now).value.Key() == KeyOf(e)
  {}

  /** Handling an entry touches its own prefix only. */
  lemma HandledLookup(t: Table, e: RipEntry, from: Ip, now: int, key: nat)
    ensures Lookup(Handled(t, e, from, now), key) ==
      if key == KeyOf(e) then Improved(Lookup(t, key), e, from, now) else Lookup(t, key)
  {
    var o := Lookup(t, KeyOf(e));
    LookupKey(t, KeyOf(e));
    ImprovedKey(o, e, from, now);
    if Improved(o, e, from, now).Some? {
      LookupReplaced(t, Improved(o, e, from, now).value, key);
    }
  }

  lemma HandledUnique(t: Table, e: RipEntry, from: Ip, now: int)
    requires OneRoutePerPrefix(t)
    ensures OneRoutePerPrefix(Handled(t, e, from, now))
  {
    var o := Improved(Lookup(t, KeyOf(e)), e, from, now);
    if o.Some? {
      ReplacedUnique(t, o.value);
    }
  }

  /** A message keeps one route per prefix and never alters a local route. */
  lemma {:induction false} HandledAllKeeps(t: Table, es: seq<RipEntry>, from: Ip, now: int)
    requires OneRoutePerPrefix(t)
    ensures OneRoutePerPrefix(HandledAll(t, es, from, now))
    ensures forall key :: Lookup(t, key).Some? ==>
      var r' := Lookup(HandledAll(t, es, from, now), key);
      r'.Some? && r'.value.kind == Lookup(t, key).value.kind && (r'.value.kind == LOCAL ==> r' == Lookup(t, key))
    decreases |es|
  {
    if es != [] {
      var t' := Handled(t, es[0], from, now);
      HandledUnique(t, es[0], from, now);
      HandledAllKeeps(t', es[1..], from, now);
      forall key | Lookup(t, key).Some?
        ensures Lookup(t', key).Some? && Lookup(t', key).value.kind == Lookup(t, key).value.kind
        ensures Lookup(t, key).value.kind == LOCAL ==> Lookup(t', key) == Lookup(t, key)
      {
        HandledLookup(t, es[0], from, now, key);
      }
    }
  }

  function MetricOf(o: Option<Route>): nat { if o.Some? then o.value.metric else INFINITY }

  /** Changes says exactly when the metric of the prefix moves (no route at all counts as infinite). */
  lemma ChangesMetric(o: Option<Route>, e: RipEntry, from: Ip, now: int)
    ensures Changes(o, e, from) <==> MetricOf(Improved(o, e, from, now)) != MetricOf(o)
  {}

  /** The metric of `key` changes at some entry of the message. */
  ghost predicate ChangesAtSomePoint(t: Table, es: seq<RipEntry>, from: Ip, now: int, key: nat)
    decreases |es|
  {
    es != [] &&
    (|| MetricOf(Lookup(Handled(t, es[0], from, now), key)) != MetricOf(Lookup(t, key))
     || ChangesAtSomePoint(Handled(t, es[0], from, now), es[1..], from, now, key))
  }

  /** A prefix is reported iff its metric changed at some point in the message. */
  lemma {:induction false} ReportedIffChanged(t: Table, es: seq<RipEntry>, from: Ip, now: int, key: nat)
    ensures (exists e :: e in Updates(t, es, from, now) && KeyOf(e) == key) <==> ChangesAtSomePoint(t, es, from, now, key)
    decreases |es|
  {
    if es != [] {
      var t' := Handled(t, es[0], from, now);
      HandledLookup(t, es[0], from, now, key);
      ChangesMetric(Lookup(t, KeyOf(es[0])), es[0], from, now);
      ReportedIffChanged(t', es[1..], from, now, key);
      var us := Updates(t', es[1..], from, now);
      assert Updates(t, es, from, now) == (if Changes(Lookup(t, KeyOf(es[0])), es[0], from) then [es[0]] else []) + us;
    }
  }

  // ----- Expiry -----

  predicate Stale(r: Route, now: int, expiration: int) {
    r.kind == RIP && (r.metric == INFINITY || now - r.lastRefresh > expiration)
  }

  /** What expiry leaves. */
  function Fresh(t: Table, now: int, expiration: int): Table {
    if t == [] then []
    else (if Stale(t[0], now, expiration) then [] else [t[0]]) + Fresh(t[1..], now, expiration)
  }

  /** What expiry tells the neighbors: timed-out routes that were not already poisoned. */
  function TimedOut(t: Table, now: int, expiration: int): seq<RipEntry> {
    if t == [] then []
    else (if Stale(t[0], now, expiration) && t[0].metric != INFINITY then [RipEntry(INFINITY, t[0].addr, t[0].mask)] else [])
         + TimedOut(t[1..], now, expiration)
  }

  lemma FreshAppend(a: Table, b: Table, now: int, expiration: int)
    ensures Fresh(a + b, now, expiration) == Fresh(a, now, expiration) + Fresh(b, now, expiration)
    ensures TimedOut(a + b, now, expiration) == TimedOut(a, now, expiration) + TimedOut(b, now, expiration)
  {
    FreshJoin(a, b, now, expiration);
    TimedOutJoin(a, b, now, expiration);
  }

  lemma {:induction false} FreshJoin(a: Table, b: Table, now: int, expiration: int)
    ensures Fresh(a + b, now, expiration) == Fresh(a, now, expiration) + Fresh(b, now, expiration)
  {
    hide Stale;
    if a == [] {
      assert a + b == b;
    } else {
      assert (a + b)[1..] == a[1..] + b;
      FreshJoin(a[1..], b, now, expiration);
    }
  }

  lemma {:induction false} TimedOutJoin(a: Table, b: Table, now: int, expiration: int)
    ensures TimedOut(a + b, now, expiration) == TimedOut(a, now, expiration) + TimedOut(b, now, expiration)
  {
    hide Stale;
    if a == [] {
      assert a + b == b;
    } else {
      assert (a + b)[1..] == a[1..] + b;
      TimedOutJoin(a[1..], b, now, expiration);
    }
  }

  /** The i-th route overwritten with the last one, and the last one dropped. */
  function SwapErased(t: Table, i: nat): (r: Table)
    requires i < |t|
    ensures |r| == |t| - 1
  {
    t[i := t[|t| - 1]][..|t| - 1]
  }

  lemma SwapErasedParts(t: Table, i: nat)
    requires i < |t|
    ensures SwapErased(t, i)[..i] == t[..i]
    ensures t[i..] == if i == |t| - 1 then [t[i]] else [t[i]] + (t[i + 1..|t| - 1] + [t[|t| - 1]])
    ensures SwapErased(t, i)[i..] == if i == |t| - 1 then [] else [t[|t| - 1]] + t[i + 1..|t| - 1]
  {}

  /** The erasure takes the route out of what expiry leaves and of what it reports, and nothing else. */
  lemma SwapErasedRest(t: Table, i: nat, now: int, expiration: int)
    requires i < |t|
    ensures multiset(Fresh(t[i..], now, expiration)) ==
      multiset(Fresh([t[i]], now, expiration)) + multiset(Fresh(SwapErased(t, i)[i..], now, expiration))
    ensures multiset(TimedOut(t[i..], now, expiration)) ==
      multiset(TimedOut([t[i]], now, expiration)) + multiset(TimedOut(SwapErased(t, i)[i..], now, expiration))
  {
    hide Fresh, TimedOut, SwapErased;
    SwapErasedParts(t, i);
    NothingStale(now, expiration);
    if i < |t| - 1 {
      var last, mid := [t[|t| - 1]], t[i + 1..|t| - 1];
      FreshAppend([t[i]], mid + last, now, expiration);
      FreshAppend(mid, last, now, expiration);
      FreshAppend(last, mid, now, expiration);
    }
  }

  /** The table after the removal loop, from index i on. */
  function Swept(t: Table, i: nat, now: int, expiration: int): Table
    requires i <= |t|
    decreases |t| - i
  {
    if i == |t| then t
    else if Stale(t[i], now, expiration) then Swept(SwapErased(t, i), i, now, expiration)
    else Swept(t, i + 1, now, expiration)
  }

  /** What the removal loop reports, from index i on. */
  function SweptOut(t: Table, i: nat, now: int, expiration: int): seq<RipEntry>
    requires i <= |t|
    decreases |t| - i
  {
    if i == |t| then []
    else if Stale(t[i], now, expiration) then
      (if t[i].metric != INFINITY then [RipEntry(INFINITY, t[i].addr, t[i].mask)] else [])
      + SweptOut(SwapErased(t, i), i, now, expiration)
    else SweptOut(t, i + 1, now, expiration)
  }

  lemma SweptStep(t: Table, i: nat, now: int, expiration: int)
    requires i <= |t|
    ensures i == |t| ==> Swept(t, i, now, expiration) == t && SweptOut(t, i, now, expiration) == []
    ensures i < |t| && Stale(t[i], now, expiration) ==>
      && Swept(t, i, now, expiration) == Swept(SwapErased(t, i), i, now, expiration)
      && SweptOut(t, i, now, expiration) == TimedOut([t[i]], now, expiration) + SweptOut(SwapErased(t, i), i, now, expiration)
    ensures i < |t| && !Stale(t[i], now, expiration) ==>
      && Swept(t, i, now, expiration) == Swept(t, i + 1, now, expiration)
      && SweptOut(t, i, now, expiration) == SweptOut(t, i + 1, now, expiration)
  {}

  /** The loop with its swaps removes and reports what the order-preserving filters do. */
  lemma {:induction false} SweptKeeps(t: Table, i: nat, now: int, expiration: int)
    requires i <= |t|
    ensures multiset(Swept(t, i, now, expiration)) == multiset(t[..i]) + multiset(Fresh(t[i..], now, expiration))
    ensures multiset(SweptOut(t, i, now, expiration)) == multiset(TimedOut(t[i..], now, expiration))
    decreases |t| - i
  {
    hide Fresh, TimedOut, Stale, SwapErased, Swept, SweptOut;
    SweptStep(t, i, now, expiration);
    if i == |t| {
      NothingStale(now, expiration);
      assert t[..i] == t && t[i..] == [];
    } else {
      FreshOne(t[i], now, expiration);
      if Stale(t[i], now, expiration) {
        SwapErasedParts(t, i);
        SwapErasedRest(t, i, now, expiration);
        SweptKeeps(SwapErased(t, i), i, now, expiration);
      } else {
        assert t[i..] == [t[i]] + t[i + 1..] && t[..i + 1] == t[..i] + [t[i]];
        FreshAppend([t[i]], t[i + 1..], now, expiration);
        SweptKeeps(t, i + 1, now, expiration);
      }
    }
  }

  /** The removal loop keeps one route per prefix and invents no route. */
  lemma {:induction false} SweptUnique(t: Table, i: nat, now: int, expiration: int)
    requires i <= |t| && OneRoutePerPrefix(t)
    ensures OneRoutePerPrefix(Swept(t, i, now, expiration))
    ensures forall r :: r in Swept(t, i, now, expiration) ==> r in t
    ensures forall e :: e in SweptOut(t, i, now, expiration) ==> e.cost == INFINITY
    decreases |t| - i
  {
    if i < |t| {
      if Stale(t[i], now, expiration) {
        SwapErasedUnique(t, i);
        SweptUnique(SwapErased(t, i), i, now, expiration);
      } else {
        SweptUnique(t, i + 1, now, expiration);
      }
    }
  }

  lemma SwapErasedUnique(t: Table, i: nat)
    requires i < |t| && OneRoutePerPrefix(t)
    ensures OneRoutePerPrefix(SwapErased(t, i))
    ensures forall r :: r in SwapErased(t, i) ==> r in t
  {}

  /** Expiry leaves the local routes, and those learned routes that are reachable and were refreshed in time. */
  lemma {:induction false} FreshMembers(t: Table, now: int, expiration: int, r: Route)
    ensures r in Fresh(t, now, expiration) <==>
      r in t && (r.kind == LOCAL || (r.metric != 16 && r.lastRefresh + expiration >= now))
  {
    if t != [] {
      FreshMembers(t[1..], now, expiration, r);
      hide Fresh;
      assert r in t <==> r == t[0] || r in t[1..];
      assert Fresh(t, now, expiration) == Fresh([t[0]], now, expiration) + Fresh(t[1..], now, expiration) by {
        assert [t[0]] + t[1..] == t;
        FreshAppend([t[0]], t[1..], now, expiration);
      }
      FreshOne(t[0], now, expiration);
    }
  }

  /** It tells the neighbors, at infinite cost, of each learned route that it drops for its age alone. */
  lemma {:induction false} TimedOutMembers(t: Table, now: int, expiration: int, e: RipEntry)
    ensures e in TimedOut(t, now, expiration) <==>
      exists r :: r in t && r.kind == RIP && r.metric != 16 && r.lastRefresh + expiration < now && e == RipEntry(16, r.addr, r.mask)
  {
    if t != [] {
      TimedOutMembers(t[1..], now, expiration, e);
      hide TimedOut;
      assert forall r :: r in t <==> r == t[0] || r in t[1..];
      assert TimedOut(t, now, expiration) == TimedOut([t[0]], now, expiration) + TimedOut(t[1..], now, expiration) by {
        assert [t[0]] + t[1..] == t;
        FreshAppend([t[0]], t[1..], now, expiration);
      }
      FreshOne(t[0], now, expiration);
    }
  }

  /** A route's own gateway is believed whatever it says, and keeps the route fresh by saying it again. */
  lemma GatewayRefreshes(t: Table, e: RipEntry, from: Ip, now: int)
    requires Lookup(t, KeyOf(e)).Some? && Lookup(t, KeyOf(e)).value.kind == RIP && Lookup(t, KeyOf(e)).value.gateway == Some(from)
    ensures Lookup(Handled(t, e, from, now), KeyOf(e)) == Some(Lookup(t, KeyOf(e)).value.(metric := e.cost, lastRefresh := now))
  {
    HandledLookup(t, e, from, now, KeyOf(e));
  }

  /** Anyone else only replaces a route by a better one, and does not refresh it otherwise. */
  lemma OthersOnlyImprove(t: Table, e: RipEntry, from: Ip, now: int)
    requires Lookup(t, KeyOf(e)).Some? && Lookup(t, KeyOf(e)).value.kind == RIP && Lookup(t, KeyOf(e)).value.gateway != Some(from)
    ensures var r := Lookup(t, KeyOf(e)).value;
      Lookup(Handled(t, e, from, now), KeyOf(e)) ==
        Some(if e.cost < r.metric then r.(metric := e.cost, gateway := Some(from), lastRefresh := now) else r)
  {
    HandledLookup(t, e, from, now, KeyOf(e));
  }

  /** A route whose gateway has just said that it is reachable survives every sweep up to the expiration time, and no
      sweep after it; a route that is said to be unreachable goes with the next sweep; a local one never goes. */
  lemma KeptAlive(t: Table, e: RipEntry, from: Ip, now: int, later: int, expiration: int)
    requires Lookup(t, KeyOf(e)).Some?
    ensures var r, r' := Lookup(t, KeyOf(e)).value, Lookup(Handled(t, e, from, now), KeyOf(e));
      && r'.Some?
      && (r.kind == RIP && r.gateway == Some(from) ==>
            (Fresh([r'.value], later, expiration) == [] <==> e.cost == INFINITY || later - now > expiration))
      && (r.kind == LOCAL ==> Fresh([r'.value], later, expiration) == [r])
  {
    HandledLookup(t, e, from, now, KeyOf(e));
    FreshOne(Lookup(Handled(t, e, from, now), KeyOf(e)).value, later, expiration);
  }

  lemma HandledStamps(t: Table, e: RipEntry, from: Ip, now: int, x: Route)
    requires x in Handled(t, e, from, now)
    ensures x in t || x.lastRefresh == now
  {
    var o := Improved(Lookup(t, KeyOf(e)), e, from, now);
    if o.Some? && o != Lookup(t, KeyOf(e)) {
      ReplacedKeys(t, o.value, x);
    }
  }

  /** A message stamps the routes it touches with its own time. */
  lemma {:induction false} HandledAllStamps(t: Table, es: seq<RipEntry>, from: Ip, now: int, x: Route)
    requires x in HandledAll(t, es, from, now)
    ensures x in t || x.lastRefresh == now
    decreases |es|
  {
    if es != [] {
      hide Handled;
      HandledAllStamps(Handled(t, es[0], from, now), es[1..], from, now, x);
      if x in Handled(t, es[0], from, now) {
        HandledStamps(t, es[0], from, now, x);
      }
    }
  }

  // ----- Longest prefix match -----

  predicate Matches(r: Route, a: Ip) { SameSubnet(a, r.addr, r.mask) }

  /** i is the first of the matching routes with the numerically greatest mask. */
  ghost predicate IsBestMatch(t: Table, a: Ip, i: int) {
    && 0 <= i < |t| && Matches(t[i], a)
    && (forall j :: 0 <= j < |t| && Matches(t[j], a) ==> t[j].mask <= t[i].mask)
    && (forall j :: 0 <= j < i && Matches(t[j], a) ==> t[j].mask < t[i].mask)
  }

  /** The route the query settles on after looking at all of t. */
  function BestMatch(t: Table, a: Ip): Option<Route> {
    if t == [] then None
    else
      var r, best := t[|t| - 1], BestMatch(t[..|t| - 1], a);
      if Matches(r, a) && (best.None? || r.mask > best.value.mask) then Some(r) else best
  }

  lemma {:induction false} BestMatchMember(t: Table, a: Ip)
    ensures BestMatch(t, a).None? <==> forall r :: r in t ==> !Matches(r, a)
    ensures BestMatch(t, a).Some? ==> BestMatch(t, a).value in t && Matches(BestMatch(t, a).value, a)
  {
    if t != [] {
      BestMatchMember(t[..|t| - 1], a);
      assert t == t[..|t| - 1] + [t[|t| - 1]];
    }
  }

  /** On masks from parseCidr the winner is the first match of greatest prefix length. */
  lemma BestIsLongestPrefix(t: Table, a: Ip, i: nat, lens: seq<nat>)
    requires |lens| == |t| && forall j :: 0 <= j < |t| ==> lens[j] <= 32 && t[j].mask == MaskOf(lens[j])
    requires i < |t|
    ensures IsBestMatch(t, a, i) <==>
      && Matches(t[i], a)
      && (forall j :: 0 <= j < |t| && Matches(t[j], a) ==> lens[j] <= lens[i])
      && (forall j :: 0 <= j < i && Matches(t[j], a) ==> lens[j] < lens[i])
  {
    forall j | 0 <= j < |t| ensures (lens[j] < lens[i] <==> t[j].mask < t[i].mask) && (lens[j] <= lens[i] <==> t[j].mask <= t[i].mask) {
      if lens[j] < lens[i] {
        MaskOrder(lens[j], lens[i]);
      } else if lens[i] < lens[j] {
        MaskOrder(lens[i], lens[j]);
      }
    }
  }

  /** One more route, after the first i. */
  lemma BestSoFar(t: Table, a: Ip, i: nat, best: Option<nat>)
    requires i < |t|
    requires best.None? <==> forall j :: 0 <= j < i ==> !Matches(t[j], a)
    requires best.Some? ==> best.value < i && IsBestMatch(t[..i], a, best.value)
    requires BestMatch(t[..i], a) == if best.Some? then Some(t[best.value]) else None
    ensures var next := if SameSubnet(a, t[i].addr, t[i].mask) && (best.None? || t[i].mask > t[best.value].mask) then Some(i) else best;
      && (next.None? <==> forall j :: 0 <= j < i + 1 ==> !Matches(t[j], a))
      && (next.Some? ==> next.value < i + 1 && IsBestMatch(t[..i + 1], a, next.value))
      && BestMatch(t[..i + 1], a) == if next.Some? then Some(t[next.value]) else None
  {
    assert t[..i + 1][..i] == t[..i];
  }

  // ----- The class -----

  class RoutingTable {
    var entries: Table

    constructor ()
      ensures entries == []
    {
      entries := [];
    }

    method AddEntry(r: Route)
      modifies this
      ensures entries == old(entries) + [r]
    {
      entries := entries + [r];
    }

    /** The index of the first route with the key, or the end. */
    method FindEntry(addr: Ip, mask: Ip) returns (i: nat)
      ensures i <= |entries| && forall j :: 0 <= j < i ==> entries[j].Key() != And(addr, mask)
      ensures i < |entries| ==> entries[i].Key() == And(addr, mask)
    {
      i := 0;
      while i < |entries| && And(entries[i].addr, entries[i].mask) != And(addr, mask)
        invariant i <= |entries| && forall j :: 0 <= j < i ==> entries[j].Key() != And(addr, mask)
      {
        i := i + 1;
      }
    }

    /** Every route, with the gateway it was learned from, for a response. */
    method GenerateRipEntries() returns (m: RipMessage)
      ensures m.command == RESPONSE && m.entries == Advertised(entries) && m.learnedFrom == Gateways(entries)
    {
      var es: seq<RipEntry>, gs: seq<Option<Ip>> := [], [];
      var i := 0;
      while i < |entries|
        invariant i <= |entries|
        invariant es + Advertised(entries[i..]) == Advertised(entries)
        invariant gs + Gateways(entries[i..]) == Gateways(entries)
      {
        assert entries[i..][1..] == entries[i + 1..];
        es, gs := es + [RipEntry(entries[i].metric, entries[i].addr, entries[i].mask)], gs + [entries[i].gateway];
        i := i + 1;
      }
      m := RipMessage(RESPONSE, es, gs);
    }

    /** Learns from a neighbor's response and returns the triggered update. */
    method HandleRipEntries(es: seq<RipEntry>, from: Ip, now: int) returns (m: RipMessage)
      modifies this
      ensures entries == HandledAll(old(entries), es, from, now)
      ensures OneRoutePerPrefix(old(entries)) ==> OneRoutePerPrefix(entries)
      ensures m.command == RESPONSE && m.entries == Updates(old(entries), es, from, now)
      ensures |m.learnedFrom| == |m.entries| && forall i :: 0 <= i < |m.learnedFrom| ==> m.learnedFrom[i] == Some(from)
    {
      hide Handled, HandledAll, Updates, Changes, Lookup, OneRoutePerPrefix;
      ghost var t := entries;
      if OneRoutePerPrefix(t) {
        HandledAllKeeps(t, es, from, now);
      }
      assert es[0..] == es;
      var updated: seq<RipEntry>, learned: seq<Option<Ip>> := [], [];
      var i := 0;
      while i < |es|
        invariant i <= |es|
        invariant HandledAll(entries, es[i..], from, now) == HandledAll(t, es, from, now)
        invariant updated + Updates(entries, es[i..], from, now) == Updates(t, es, from, now)
        invariant |learned| == |updated| && forall j :: 0 <= j < |learned| ==> learned[j] == Some(from)
      {
        assert es[i..][0] == es[i] && es[i..][1..] == es[i + 1..];
        HandledAllStep(entries, es[i..], from, now);
        var changed := HandleRipEntry(es[i], from, now);
        if changed {
          updated, learned := updated + [es[i]], learned + [Some(from)];
        }
        i := i + 1;
      }
      HandledAllStep(entries, es[i..], from, now);
      m := RipMessage(RESPONSE, updated, learned);
    }

    /** The body of the loop in handleRipEntries_. */
    method HandleRipEntry(e: RipEntry, from: Ip, now: int) returns (changed: bool)
      modifies this
      ensures entries == Handled(old(entries), e, from, now)
      ensures OneRoutePerPrefix(old(entries)) ==> OneRoutePerPrefix(entries)
      ensures changed == Changes(Lookup(old(entries), KeyOf(e)), e, from)
    {
      var it := FindEntry(e.address, e.mask);
      FoundIsLookup(entries, it, KeyOf(e));
      if OneRoutePerPrefix(entries) {
        HandledUnique(entries, e, from, now);
      }
      if it != |entries| {
        var r := entries[it];
        if r.kind == LOCAL {
          return false;
        }
        if e.cost < r.metric {
          ReplacedAt(entries, it, r.(metric := e.cost, gateway := Some(from), lastRefresh := now));
          entries := entries[it := r.(metric := e.cost, gateway := Some(from), lastRefresh := now)];
        } else if r.gateway == Some(from) {
          ReplacedAt(entries, it, r.(metric := e.cost, lastRefresh := now));
          entries := entries[it := r.(metric := e.cost, lastRefresh := now)];
          if e.cost == r.metric {
            return false;
          }
        } else {
          return false;
        }
      } else if e.cost < INFINITY {
        ReplacedEnd(entries, Route(RIP, e.address, e.mask, Some(from), e.cost, now));
        entries := entries + [Route(RIP, e.address, e.mask, Some(from), e.cost, now)];
      } else {
        return false;
      }
      changed := true;
    }

    /** Drops poisoned and timed-out routes; tells the neighbors about the latter. */
    method RemoveStaleRipEntries(now: int, expiration: int) returns (m: RipMessage)
      modifies this
      ensures multiset(entries) == multiset(Fresh(old(entries), now, expiration))
      ensures m.command == RESPONSE && multiset(m.entries) == multiset(TimedOut(old(entries), now, expiration))
      ensures |m.learnedFrom| == |m.entries| && forall i :: 0 <= i < |m.learnedFrom| ==> m.learnedFrom[i] == None
    {
      hide Fresh, TimedOut, Stale;
      ghost var t := entries;
      var expired: seq<RipEntry>, learned: seq<Option<Ip>> := [], [];
      var i := 0;
      while i < |entries|
        invariant i <= |entries|
        invariant Swept(entries, i, now, expiration) == Swept(t, 0, now, expiration)
        invariant expired + SweptOut(entries, i, now, expiration) == SweptOut(t, 0, now, expiration)
        invariant |learned| == |expired| && forall j :: 0 <= j < |learned| ==> learned[j] == None
        decreases |entries| - i
      {
        var r := entries[i];
        if Stale(r, now, expiration) {
          if r.metric != INFINITY {
            expired, learned := expired + [RipEntry(INFINITY, r.addr, r.mask)], learned + [None];
          }
          entries := entries[i := entries[|entries| - 1]];
          entries := entries[..|entries| - 1];
        } else {
          i := i + 1;
        }
      }
      SweptKeeps(t, 0, now, expiration);
      assert t[..0] == [] && t[0..] == t;
      m := RipMessage(RESPONSE, expired, learned);
    }

    /** The index of the best match, or nothing when no route matches. */
    method QueryLongestPrefixMatch(a: Ip) returns (best: Option<nat>)
      ensures best.None? <==> forall j :: 0 <= j < |entries| ==> !Matches(entries[j], a)
      ensures best.Some? ==> IsBestMatch(entries, a, best.value) && BestMatch(entries, a) == Some(entries[best.value])
      ensures best.None? ==> BestMatch(entries, a) == None
    {
      best := None;
      var i := 0;
      while i < |entries|
        invariant i <= |entries|
        invariant best.None? <==> forall j :: 0 <= j < i ==> !Matches(entries[j], a)
        invariant best.Some? ==> best.value < i && IsBestMatch(entries[..i], a, best.value)
        invariant BestMatch(entries[..i], a) == if best.Some? then Some(entries[best.value]) else None
      {
        BestSoFar(entries, a, i, best);
        hide IsBestMatch, BestMatch, Matches;
        if SameSubnet(a, entries[i].addr, entries[i].mask) {
          if best.None? || entries[i].mask > entries[best.value].mask {
            best := Some(i);
          }
        }
        i := i + 1;
      }
      assert entries[..i] == entries;
    }
  }

  /** The entries generateRipEntries_ emits. */
  function Advertised(t: Table): (es: seq<RipEntry>)
    ensures |es| == |t|
  {
    if t == [] then [] else [RipEntry(t[0].metric, t[0].addr, t[0].mask)] + Advertised(t[1..])
  }

  function Gateways(t: Table): (gs: seq<Option<Ip>>)
    ensures |gs| == |t|
  {
    if t == [] then [] else [t[0].gateway] + Gateways(t[1..])
  }

  lemma {:induction false} FoundIsLookup(t: Table, i: nat, key: nat)
    requires i <= |t| && forall j :: 0 <= j < i ==> t[j].Key() != key
    requires i < |t| ==> t[i].Key() == key
    ensures Lookup(t, key) == if i < |t| then Some(t[i]) else None
  {
    if i > 0 {
      assert forall j :: 0 <= j < i - 1 ==> t[1..][j] == t[j + 1];
      FoundIsLookup(t[1..], i - 1, key);
    }
  }

  lemma {:induction false} ReplacedAt(t: Table, i: nat, r: Route)
    requires i < |t| && t[i].Key() == r.Key() && forall j :: 0 <= j < i ==> t[j].Key() != r.Key()
    ensures Replaced(t, r) == t[i := r]
  {
    if i > 0 {
      assert forall j :: 0 <= j < i - 1 ==> t[1..][j] == t[j + 1];
      ReplacedAt(t[1..], i - 1, r);
    }
  }

  lemma {:induction false} ReplacedEnd(t: Table, r: Route)
    requires forall j :: 0 <= j < |t| ==> t[j].Key() != r.Key()
    ensures Replaced(t, r) == t + [r]
  {
    if t != [] {
      assert forall j :: 0 <= j < |t| - 1 ==> t[1..][j] == t[j + 1];
      ReplacedEnd(t[1..], r);
    }
  }

  lemma NothingStale(now: int, expiration: int)
    ensures Fresh([], now, expiration) == [] && TimedOut([], now, expiration) == []
  {}

  lemma FreshOne(r: Route, now: int, expiration: int)
    ensures Fresh([r], now, expiration) == if Stale(r, now, expiration) then [] else [r]
    ensures TimedOut([r], now, expiration) ==
      if Stale(r, now, expiration) && r.metric != INFINITY then [RipEntry(INFINITY, r.addr, r.mask)] else []
  {}
}
