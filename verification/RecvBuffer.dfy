/** The receive buffer: in-order bytes [nbr, nxt) ready to read, and early arrivals beyond nxt. */
module RecvBuffers {
  import opened Common
  import opened RingBuffers
  import opened Intervals

  /** The number of values of std::size_t. */
  const U64: int := 0x1_0000_0000_0000_0000

  /** A snapshot of the receive buffer. */
  datatype RecvState = RecvState(ring: seq<byte>, nbr: nat, nxt: nat, early: seq<Interval>)

  // ----- Specification: one function for each section run under the buffer's mutex -----

  function SizeToRead(r: RecvState): nat {
    (r.nxt - r.nbr) % U32
  }

  /** The advertised window. */
  function Window(r: RecvState): nat {
    (|r.ring| - SizeToRead(r)) % U64
  }

  /** The positions an incoming segment's bytes are stored at: nothing below nxt, nothing beyond the window. */
  function Accepted(r: RecvState, seqNum: nat, len: nat): Interval {
    var last := r.nbr + |r.ring| - 1;
    if seqNum > r.nxt then Interval(seqNum, seqNum + WriteCount(seqNum, last, len))
    else if r.nxt - seqNum >= len then Interval(r.nxt, r.nxt)
    else Interval(r.nxt, r.nxt + WriteCount(r.nxt, last, seqNum + len - r.nxt))
  }

  datatype Received = Received(state: RecvState, ack: nat, wnd: nat)

  /** What onRecv does with a segment, and the acknowledgment it asks for. */
  function Receive(r: RecvState, seqNum: nat, payload: seq<byte>): Received
    requires |r.ring| > 0 && r.nbr <= r.nxt
  {
    var a := Accepted(r, seqNum, |payload|);
    var n := a.end - a.begin;
    if n == 0 then Received(r, r.nxt, Window(r))
    else
      var ring := Stored(r.ring, a.begin, payload[a.begin - seqNum..][..n]);
      if seqNum > r.nxt then
        Received(r.(ring := ring, early := Merge(r.early, a)), r.nxt, Window(r))
      else
        var iv := Interval(seqNum, seqNum + n);
        var nxt := ComponentEnd(r.early, iv);
        Received(r.(ring := ring, nxt := nxt, early := Untouched(r.early, iv)), nxt, (Window(r) - n) % U64)
  }

  /** What onCtrl does with a FIN: it occupies a position that holds no byte. */
  function Consume(r: RecvState, seqNum: nat): RecvState {
    if seqNum == r.nxt then r.(nxt := r.nxt + 1) else r
  }

  /** The bytes a read of at most n returns. */
  function ReadBytes(r: RecvState, n: nat): seq<byte>
    requires |r.ring| > 0
  {
    Span(r.ring, r.nbr, Min(n, SizeToRead(r)))
  }

  function AfterRead(r: RecvState, n: nat): RecvState {
    r.(nbr := r.nbr + Min(n, SizeToRead(r)))
  }

  // ----- The naive receiver -----

  /** Position p has been stored. */
  ghost predicate Holds(r: RecvState, p: int) {
    p < r.nxt || Covers(r.early, p)
  }

  ghost predicate RecvInv(r: RecvState) {
    && |r.ring| > 0
    && r.nbr <= r.nxt <= r.nbr + |r.ring|
    && Separated(r.early)
    && (forall i :: 0 <= i < |r.early| ==> r.nxt < r.early[i].begin && r.early[i].end <= r.nbr + |r.ring|)
  }

  /** Every unread stored position holds its byte of the stream that starts at `base`. */
  ghost predicate Matches(r: RecvState, base: nat, data: seq<byte>)
    requires |r.ring| > 0
  {
    forall p: nat {:trigger At(r.ring, p)} ::
      r.nbr <= p && Holds(r, p) && base <= p < base + |data| ==> At(r.ring, p) == data[p - base]
  }

  /** The segment neither straddles nxt, or what it adds already lies inside one early interval
      that begins within reach of the untrimmed segment. */
  ghost predicate Faithful(r: RecvState, seqNum: nat, len: nat) {
    var a := Accepted(r, seqNum, len);
    || r.nxt <= seqNum
    || a.begin == a.end
    || exists i :: 0 <= i < |r.early| && r.early[i].begin <= seqNum + (a.end - a.begin) && a.end <= r.early[i].end
  }

  /** The naive receiver: exactly the accepted positions become stored. */
  ghost predicate StoresExactly(r: RecvState, r': RecvState, a: Interval) {
    forall p: int :: Holds(r', p) <==> Holds(r, p) || a.Covers(p)
  }

  lemma AcceptedBounds(r: RecvState, seqNum: nat, len: nat)
    requires |r.ring| > 0 && r.nbr <= r.nxt
    ensures var a := Accepted(r, seqNum, len);
      && r.nxt <= a.begin <= a.end
      && (a.begin < a.end ==> seqNum <= a.begin && a.end <= seqNum + len && a.end <= r.nbr + |r.ring|)
  {}

  /** On a faithful segment, merging from seqNum and from nxt is the same. */
  lemma FaithfulMerge(r: RecvState, seqNum: nat, len: nat)
    requires RecvInv(r) && Faithful(r, seqNum, len) && seqNum <= r.nxt
    requires var a := Accepted(r, seqNum, len); a.begin < a.end
    ensures var a := Accepted(r, seqNum, len);
      var iv := Interval(seqNum, seqNum + (a.end - a.begin));
      ComponentEnd(r.early, iv) == ComponentEnd(r.early, a) && Untouched(r.early, iv) == Untouched(r.early, a)
  {
    var a := Accepted(r, seqNum, len);
    var iv := Interval(seqNum, seqNum + (a.end - a.begin));
    if seqNum < r.nxt {
      var i :| 0 <= i < |r.early| && r.early[i].begin <= iv.end && a.end <= r.early[i].end;
      ReachOf(r.early, iv, i);
      ReachOf(r.early, a, i);
    }
  }

  /** An interval before all of `s` that reaches into s[i] but not past it fuses s[..i + 1]. */
  lemma ReachOf(s: seq<Interval>, iv: Interval, i: nat)
    requires Separated(s) && iv.Proper() && i < |s|
    requires iv.begin < s[0].begin && s[i].begin <= iv.end <= s[i].end
    ensures ComponentEnd(s, iv) == s[i].end && Untouched(s, iv) == s[i + 1..]
  {
    assert forall j :: 0 <= j <= i ==> s[j].begin <= s[i].begin && s[0].begin <= s[j].begin;
    MergeIndexed(s, iv, 0, i + 1);
  }

  /** An early arrival joins the early intervals. */
  lemma EarlyArrival(r: RecvState, a: Interval)
    requires RecvInv(r) && a.Proper() && r.nxt < a.begin && a.end <= r.nbr + |r.ring|
    ensures var r' := r.(early := Merge(r.early, a)); RecvInv(r') && StoresExactly(r, r', a)
  {
    MergeSeparated(r.early, a, r.nxt);
    MergeBounded(r.early, a, r.nbr + |r.ring|);
    forall p: int ensures Covers(Merge(r.early, a), p) <==> Covers(r.early, p) || a.Covers(p) {
      MergeCovers(r.early, a, p);
    }
  }

  /** In-order bytes move nxt to the end of the component they complete. */
  lemma InOrderArrival(r: RecvState, a: Interval)
    requires RecvInv(r) && a.Proper() && r.nxt == a.begin && a.end <= r.nbr + |r.ring|
    ensures var r' := r.(nxt := ComponentEnd(r.early, a), early := Untouched(r.early, a));
      RecvInv(r') && r.nxt <= r'.nxt && StoresExactly(r, r', a)
  {
    MergeBounded(r.early, a, r.nbr + |r.ring|);
    UntouchedSeparated(r.early, a);
    ComponentEndMissing(r.early, a);
    RemovalSplitsPoints(r.early, a, 0);
    var early := Untouched(r.early, a);
    forall i | 0 <= i < |early| ensures ComponentEnd(r.early, a) < early[i].begin && early[i].end <= r.nbr + |r.ring| {
      UntouchedMembers(r.early, a, early[i]);
    }
    forall p: int ensures Covers(r.early, p) || a.Covers(p) <==> Covers(early, p) || a.begin <= p < ComponentEnd(r.early, a) {
      RemovalSplitsPoints(r.early, a, p);
    }
  }

  lemma EarlyStores(r: RecvState, seqNum: nat, payload: seq<byte>)
    requires RecvInv(r) && seqNum > r.nxt
    requires var a := Accepted(r, seqNum, |payload|); a.begin < a.end
    ensures var r' := Receive(r, seqNum, payload).state;
      && RecvInv(r') && r.nxt <= r'.nxt && r'.nbr == r.nbr && |r'.ring| == |r.ring|
      && StoresExactly(r, r', Accepted(r, seqNum, |payload|))
  {
    hide Merge, Separated, Covers, Stored;
    AcceptedBounds(r, seqNum, |payload|);
    EarlyArrival(r, Accepted(r, seqNum, |payload|));
  }

  lemma InOrderStores(r: RecvState, seqNum: nat, payload: seq<byte>)
    requires RecvInv(r) && Faithful(r, seqNum, |payload|) && seqNum <= r.nxt
    requires var a := Accepted(r, seqNum, |payload|); a.begin < a.end
    ensures var r' := Receive(r, seqNum, payload).state;
      && RecvInv(r') && r.nxt <= r'.nxt && r'.nbr == r.nbr && |r'.ring| == |r.ring|
      && StoresExactly(r, r', Accepted(r, seqNum, |payload|))
  {
    hide ComponentEnd, Untouched, Separated, Faithful, Covers, Stored;
    AcceptedBounds(r, seqNum, |payload|);
    FaithfulMerge(r, seqNum, |payload|);
    InOrderArrival(r, Accepted(r, seqNum, |payload|));
  }

  /** Reassembly refines the naive receiver: a faithful segment stores exactly what it is accepted for,
      and nxt stays the first position that is not stored. */
  lemma OnRecvStores(r: RecvState, seqNum: nat, payload: seq<byte>)
    requires RecvInv(r) && Faithful(r, seqNum, |payload|)
    ensures var r' := Receive(r, seqNum, payload).state;
      && RecvInv(r') && r.nxt <= r'.nxt && r'.nbr == r.nbr && |r'.ring| == |r.ring|
      && StoresExactly(r, r', Accepted(r, seqNum, |payload|))
      && !Holds(r', r'.nxt)
  {
    var a := Accepted(r, seqNum, |payload|);
    if a.begin < a.end {
      hide *;
      if seqNum > r.nxt {
        EarlyStores(r, seqNum, payload);
      } else {
        InOrderStores(r, seqNum, payload);
      }
    } else {
      NothingStored(r, seqNum, payload);
    }
    NxtMissing(Receive(r, seqNum, payload).state);
  }

  /** In terms of the segment alone: what becomes stored is every byte of it from nxt on that lies in the window, unless
      the window has room for no more than one byte there. */
  lemma SegmentStored(r: RecvState, seqNum: nat, payload: seq<byte>, p: nat)
    requires RecvInv(r) && Faithful(r, seqNum, |payload|)
    ensures var edge := r.nbr + |r.ring|;
      Holds(Receive(r, seqNum, payload).state, p) <==>
        || Holds(r, p)
        || (r.nxt <= p < edge && seqNum <= p < seqNum + |payload| && Max(r.nxt, seqNum) + 1 < edge)
  {
    OnRecvStores(r, seqNum, payload);
    hide Receive, Faithful, Holds;
  }

  /** The number acknowledged is always RCV.NXT. */
  lemma AckIsNxt(r: RecvState, seqNum: nat, payload: seq<byte>)
    requires |r.ring| > 0 && r.nbr <= r.nxt
    ensures Receive(r, seqNum, payload).ack == Receive(r, seqNum, payload).state.nxt
  {
    hide Merge, ComponentEnd, Untouched, Stored;
  }

  lemma NothingStored(r: RecvState, seqNum: nat, payload: seq<byte>)
    requires RecvInv(r)
    requires var a := Accepted(r, seqNum, |payload|); a.begin >= a.end
    ensures Receive(r, seqNum, payload).state == r && StoresExactly(r, r, Accepted(r, seqNum, |payload|))
  {
    hide Separated, Covers;
    AcceptedBounds(r, seqNum, |payload|);
  }

  lemma NxtMissing(r: RecvState)
    requires RecvInv(r)
    ensures !Holds(r, r.nxt)
  {}

  /** Faithful is exact: on any other segment some accepted position is not stored. */
  lemma FaithfulExactly(r: RecvState, seqNum: nat, payload: seq<byte>)
    requires RecvInv(r)
    ensures StoresExactly(r, Receive(r, seqNum, payload).state, Accepted(r, seqNum, |payload|))
      <==> Faithful(r, seqNum, |payload|)
  {
    if Faithful(r, seqNum, |payload|) {
      OnRecvStores(r, seqNum, payload);
    } else {
      var p := LostPosition(r, seqNum, payload);
      assert Accepted(r, seqNum, |payload|).Covers(p);
    }
  }

  /** The accepted position that an unfaithful segment loses. */
  lemma LostPosition(r: RecvState, seqNum: nat, payload: seq<byte>) returns (p: nat)
    requires RecvInv(r) && !Faithful(r, seqNum, |payload|)
    ensures Accepted(r, seqNum, |payload|).Covers(p)
    ensures !Holds(Receive(r, seqNum, payload).state, p)
  {
    hide Merge, ComponentEnd, Untouched, Stored;
    var r' := Receive(r, seqNum, payload).state;
    var a := Accepted(r, seqNum, |payload|);
    var iv := Interval(seqNum, seqNum + (a.end - a.begin));
    var e := ComponentEnd(r.early, iv);
    ComponentEndMissing(r.early, iv);
    p := Max(r.nxt, e);
    if a.end <= e {
      assert Covers(r.early, iv.end);
      var i :| 0 <= i < |r.early| && r.early[i].Covers(iv.end);
      EndNotCovered(r.early, i);
      assert false;
    }
    assert !Covers(r.early, p);
    if Covers(r'.early, p) {
      var i :| 0 <= i < |r'.early| && r'.early[i].Covers(p);
      UntouchedMembers(r.early, iv, r'.early[i]);
      assert false;
    }
  }

  /** A part of a part of the stream. */
  lemma PartOfPart(data: seq<byte>, at: nat, len: nat, from: nat, n: nat)
    requires at + len <= |data| && from + n <= len
    ensures data[at..][..len][from..][..n] == data[at + from..at + from + n]
  {}

  /** Storing the stream's bytes at their positions keeps every position that was right, and makes the new ones so. */
  lemma StoredMatches(r: RecvState, part: seq<byte>, a: Interval, base: nat, data: seq<byte>, p: nat)
    requires |r.ring| > 0 && Matches(r, base, data)
    requires r.nbr <= a.begin <= a.end <= r.nbr + |r.ring| && base <= a.begin && a.end <= base + |data|
    requires part == data[a.begin - base..a.end - base]
    requires r.nbr <= p < r.nbr + |r.ring| && base <= p < base + |data| && (Holds(r, p) || a.Covers(p))
    ensures At(Stored(r.ring, a.begin, part), p) == data[p - base]
  {
    hide Stored, Covers;
    StoredBelow(r, part, a, p);
  }

  /** A faithful segment whose payload is its part of the stream keeps every stored byte right. */
  lemma OnRecvMatches(r: RecvState, seqNum: nat, payload: seq<byte>, base: nat, data: seq<byte>)
    requires RecvInv(r) && Faithful(r, seqNum, |payload|) && Matches(r, base, data)
    requires base <= seqNum && seqNum + |payload| <= base + |data|
    requires payload == data[seqNum - base..][..|payload|]
    ensures Matches(Receive(r, seqNum, payload).state, base, data)
  {
    hide Merge, ComponentEnd, Untouched, Separated, Faithful, Covers, Stored;
    var r' := Receive(r, seqNum, payload).state;
    var a := Accepted(r, seqNum, |payload|);
    OnRecvStores(r, seqNum, payload);
    AcceptedBounds(r, seqNum, |payload|);
    if a.begin < a.end {
      var part := payload[a.begin - seqNum..][..a.end - a.begin];
      assert r'.ring == Stored(r.ring, a.begin, part);
      PartOfPart(data, seqNum - base, |payload|, a.begin - seqNum, a.end - a.begin);
      hide Receive, Accepted, At;
      forall p: nat | r.nbr <= p && Holds(r', p) && base <= p < base + |data| ensures At(r'.ring, p) == data[p - base] {
        HoldsBelowEdge(r', p);
        hide Holds, Matches;
        StoredMatches(r, part, a, base, data, p);
      }
    }
  }

  lemma HoldsBelowEdge(r: RecvState, p: int)
    requires RecvInv(r) && Holds(r, p)
    ensures p < r.nbr + |r.ring|
  {}

  /** Storing accepted bytes leaves every other position of the window alone, also those before them. */
  lemma StoredBelow(r: RecvState, part: seq<byte>, a: Interval, p: nat)
    requires |r.ring| > 0 && r.nbr <= a.begin <= a.end <= r.nbr + |r.ring| && |part| == a.end - a.begin
    requires r.nbr <= p < r.nbr + |r.ring|
    ensures At(Stored(r.ring, a.begin, part), p) == if a.Covers(p) then part[p - a.begin] else At(r.ring, p)
  {
    if a.begin <= p {
      StoredAt(r.ring, a.begin, part, p);
    } else {
      StoredAt(r.ring, a.begin, part, p + |r.ring|);
      ModUnique(p + |r.ring|, |r.ring|, p / |r.ring| + 1, p % |r.ring|);
      assert At(r.ring, p + |r.ring|) == At(r.ring, p);
      assert At(Stored(r.ring, a.begin, part), p + |r.ring|) == At(Stored(r.ring, a.begin, part), p);
    }
  }

  /** A read returns the next bytes of the stream and nothing else. */
  lemma ReadReturnsStream(r: RecvState, n: nat, base: nat, data: seq<byte>)
    requires RecvInv(r) && Matches(r, base, data) && base <= r.nbr && r.nxt <= base + |data|
    requires |r.ring| < U32
    ensures ReadBytes(r, n) == data[r.nbr - base..][..Min(n, r.nxt - r.nbr)]
    ensures RecvInv(AfterRead(r, n)) && Matches(AfterRead(r, n), base, data)
    ensures AfterRead(r, n).nbr == r.nbr + Min(n, r.nxt - r.nbr)
  {}

  /** Neither size wraps. */
  lemma SizesExact(r: RecvState)
    requires r.nbr <= r.nxt <= r.nbr + |r.ring| < r.nbr + U32
    ensures SizeToRead(r) == r.nxt - r.nbr && Window(r) == r.nbr + |r.ring| - r.nxt
  {}

  /** The window returned for in-order data overstates the free space by the early bytes it absorbed;
      the window read afterwards does not. */
  lemma ReturnedWindow(r: RecvState, seqNum: nat, payload: seq<byte>)
    requires RecvInv(r) && Faithful(r, seqNum, |payload|) && |r.ring| < U32
    ensures var o := Receive(r, seqNum, payload);
      var a := Accepted(r, seqNum, |payload|);
      && o.ack == o.state.nxt
      && Window(o.state) == r.nbr + |r.ring| - o.state.nxt
      && o.wnd == Window(o.state) + (if a.begin < a.end && seqNum <= r.nxt then o.state.nxt - a.end else 0)
  {
    hide Merge, ComponentEnd, Untouched, Separated, Faithful, Covers, Stored, StoresExactly;
    var o := Receive(r, seqNum, payload);
    var a := Accepted(r, seqNum, |payload|);
    OnRecvStores(r, seqNum, payload);
    SizesExact(r);
    SizesExact(o.state);
    if a.begin < a.end && seqNum <= r.nxt {
      assert o.wnd == (Window(r) - (a.end - a.begin)) % U64;
      assert r.nxt == a.begin;
    }
  }

  /** It never exceeds what was free before, and is exact where there is nothing early. */
  lemma WindowBetween(r: RecvState, seqNum: nat, payload: seq<byte>)
    requires RecvInv(r) && Faithful(r, seqNum, |payload|) && |r.ring| < 0x1_0000
    ensures var o := Receive(r, seqNum, payload);
      var free := o.state.nbr + |o.state.ring| - o.state.nxt;
      0 <= free <= o.wnd <= r.nbr + |r.ring| - r.nxt < 0x1_0000 && (r.early == [] ==> o.wnd == free)
  {
    ReturnedWindow(r, seqNum, payload);
    OnRecvStores(r, seqNum, payload);
    SizesExact(r);
  }

  // ----- The class -----

  class RecvBuffer {
    const ring: RingBuffer
    var nbr: u32
    var nxt: u32
    const earlyArrivals: RightOpenIntervalSet
    var stopped: bool

    ghost predicate Valid() {
      ring.Valid() && ring.N < U32
    }

    ghost function State(): RecvState
      reads this, ring.buf, earlyArrivals
    {
      RecvState(ring.buf[..], nbr, nxt, earlyArrivals.intervals)
    }

    /** No number formed from the window or the segment wraps. */
    ghost predicate NoWrap(end: int)
      reads this, earlyArrivals
    {
      end + 2 < U32 && forall i :: 0 <= i < |earlyArrivals.intervals| ==> earlyArrivals.intervals[i].end + 2 < U32
    }

    constructor (n: nat, initRecvNxt: u32)
      requires 0 < n < U32
      ensures Valid() && ring.N == n && !stopped
      ensures State() == RecvState(ring.buf[..], initRecvNxt, initRecvNxt, [])
      ensures fresh(ring.buf) && fresh(earlyArrivals)
    {
      ring := new RingBuffer(n);
      nbr, nxt := initRecvNxt, initRecvNxt;
      earlyArrivals := new RightOpenIntervalSet();
      stopped := false;
    }

    method SetPointersNoLock(initRecvNxt: u32)
      modifies this`nbr, this`nxt
      ensures State() == old(State()).(nbr := initRecvNxt, nxt := initRecvNxt)
    {
      nbr, nxt := initRecvNxt, initRecvNxt;
    }

    /** The section of readAtMostNBytes after its wait. */
    method ReadAtMostNBytes(buff: array<byte>, n: nat) returns (r: Result<nat, SocketError>)
      requires Valid() && buff != ring.buf
      requires n == 0 || SizeToRead(State()) > 0 || stopped
      requires n <= buff.Length && Min(n, SizeToRead(State())) <= ring.N
      requires nbr + Min(n, SizeToRead(State())) < U32
      modifies this`nbr, buff
      ensures r == if n == 0 then Success(0) else if stopped then Failure(CLOSING) else Success(Min(n, SizeToRead(old(State()))))
      ensures r.Success? ==> State() == AfterRead(old(State()), n) && buff[..r.value] == ReadBytes(old(State()), n)
      ensures r.Failure? ==> State() == old(State()) && buff[..] == old(buff[..])
    {
      if n == 0 {
        return Success(0);
      }
      if stopped {
        return Failure(CLOSING);
      }
      var k := Min(n, (nxt - nbr) % U32);
      var nRead := ring.Read(buff, nbr, nbr + k - 1);
      nbr := nbr + k;
      r := Success(k);
    }

    method Shutdown()
      modifies this`stopped
      ensures stopped
    {
      stopped := true;
    }

    method OnCtrl(seqNum: u32) returns (ack: u32, wnd: nat)
      requires Valid() && nxt + 1 < U32
      modifies this`nxt
      ensures State() == Consume(old(State()), seqNum)
      ensures ack == nxt && wnd == Window(State())
    {
      if seqNum == nxt {
        nxt := nxt + 1;
      }
      ack, wnd := GetAckWnd();
    }

    method GetAckWnd() returns (ack: u32, wnd: nat)
      requires Valid()
      ensures ack == nxt && wnd == Window(State())
    {
      ack, wnd := nxt, (ring.N - (nxt - nbr) % U32) % U64;
    }

    method OnRecv(seqNum: u32, payload: seq<byte>) returns (ack: u32, wnd: nat)
      requires Valid() && payload != []
      requires nbr <= nxt && Separated(State().early)
      requires NoWrap(seqNum + |payload|) && NoWrap(nbr + ring.N)
      modifies this`nxt, ring.buf, earlyArrivals
      ensures State() == Receive(old(State()), seqNum, payload).state
      ensures ack == Receive(old(State()), seqNum, payload).ack
      ensures wnd == Receive(old(State()), seqNum, payload).wnd
    {
      hide Merge, ComponentEnd, Untouched, Separated, Stored;
      ghost var r := State();
      StoredNothing(r.ring, seqNum);
      StoredNothing(r.ring, nxt);
      ghost var a := Accepted(r, seqNum, |payload|);
      ack, wnd := GetAckWnd();
      if seqNum > nxt {
        var n := ring.Write(payload, seqNum, nbr + ring.N - 1);
        assert n == a.end - a.begin && payload[a.begin - seqNum..][..n] == payload[..n];
        assert n == 0 ==> payload[..n] == [];
        if n > 0 {
          var end := earlyArrivals.EmplaceMerge(Interval(seqNum, seqNum + n));
        }
        return;
      }
      var offset := nxt - seqNum;
      if offset >= |payload| {
        return;
      }
      var n := ring.Write(payload[offset..], nxt, nbr + ring.N - 1);
      assert a.begin == r.nxt && n == a.end - a.begin;
      if n == 0 {
        assert payload[offset..][..n] == [];
        return;
      }
      MergeBounded(earlyArrivals.intervals, Interval(seqNum, seqNum + n), U32 - 3);
      var end := earlyArrivals.MergeRemove(Interval(seqNum, seqNum + n));
      nxt := end;
      ack, wnd := nxt, (wnd - n) % U64;
      assert State() == r.(ring := Stored(r.ring, a.begin, payload[a.begin - seqNum..][..n]), nxt := end,
        early := Untouched(r.early, Interval(seqNum, seqNum + n)));
    }
  }
}
