/** RIP messages: what a router says, and what the neighbor makes of it on the wire. */
module RipMessages {
  import opened Common
  import opened Subnets

  /** The cost of an unreachable subnet. */
  const INFINITY: nat := 16

  datatype RipEntry = RipEntry(cost: nat, address: Ip, mask: Ip)

  datatype Command = REQUEST | RESPONSE

  /** `learnedFrom` runs parallel to `entries`: the gateway each route was learned from, if any. */
  datatype RipMessage = RipMessage(command: Command, entries: seq<RipEntry>, learnedFrom: seq<Option<Ip>>)

  ghost predicate WellFormed(m: RipMessage) {
    |m.entries| == |m.learnedFrom| < 0x1_0000 && forall i :: 0 <= i < |m.entries| ==> m.entries[i].cost < U32
  }

  /** Poisoned reverse: a route is told to the neighbor it was learned from at infinite cost. */
  function SentCost(cost: nat, learnedFrom: Option<Ip>, dest: Ip): nat {
    if learnedFrom == Some(dest) then INFINITY else cost
  }

  /** The receiver adds one, in 32 bits, and caps. */
  function ParsedCost(cost: nat): nat {
    Min((cost + 1) % U32, INFINITY)
  }

  /** The entry as the neighbor at `dest` reads it. */
  function Heard(e: RipEntry, learnedFrom: Option<Ip>, dest: Ip): RipEntry {
    e.(cost := ParsedCost(SentCost(e.cost, learnedFrom, dest)))
  }

  function HeardAll(entries: seq<RipEntry>, learnedFrom: seq<Option<Ip>>, dest: Ip): (r: seq<RipEntry>)
    requires |entries| == |learnedFrom|
    ensures |r| == |entries|
    ensures forall i :: 0 <= i < |r| ==> r[i] == Heard(entries[i], learnedFrom[i], dest)
  {
    if entries == [] then []
    else [Heard(entries[0], learnedFrom[0], dest)] + HeardAll(entries[1..], learnedFrom[1..], dest)
  }

  /** Costs up to INFINITY arrive one higher, capped, or infinite where poisoned. */
  lemma HeardCost(e: RipEntry, learnedFrom: Option<Ip>, dest: Ip)
    requires e.cost <= INFINITY
    ensures Heard(e, learnedFrom, dest).cost ==
      if learnedFrom == Some(dest) then INFINITY else Min(INFINITY, 1 + e.cost)
    ensures 1 <= Heard(e, learnedFrom, dest).cost <= INFINITY
  {}

  /** The receiver hears one more than was sent, capped, for every 32-bit cost but the last, which it hears as 0. */
  lemma CostWraps(cost: nat)
    requires cost < U32
    ensures ParsedCost(cost) == Min(cost + 1, INFINITY) <==> cost < U32 - 1
    ensures ParsedCost(cost) == 0 <==> cost == U32 - 1
  {}

  // ----- The wire format -----

  /** A 32-bit number as four bytes, most significant first. */
  function Bytes4(x: nat): (b: seq<byte>)
    requires x < U32
    ensures |b| == 4
  {
    [x / 0x100_0000, x / 0x1_0000 % 0x100, x / 0x100 % 0x100, x % 0x100]
  }

  function Bytes2(x: nat): (b: seq<byte>)
    requires x < 0x1_0000
    ensures |b| == 2
  {
    [x / 0x100, x % 0x100]
  }

  function Number4(b: seq<byte>, at: nat): (x: nat)
    requires at + 4 <= |b|
    ensures x < U32
  {
    0x100_0000 * (b[at] as int) + 0x1_0000 * (b[at + 1] as int) + 0x100 * (b[at + 2] as int) + b[at + 3]
  }

  function Number2(b: seq<byte>, at: nat): (x: nat)
    requires at + 2 <= |b|
    ensures x < 0x1_0000
  {
    0x100 * (b[at] as int) + b[at + 1]
  }

  function CommandCode(c: Command): nat { if c == REQUEST then 1 else 2 }

  function EntryBytes(e: RipEntry, learnedFrom: Option<Ip>, dest: Ip): (b: seq<byte>)
    requires e.cost < U32
    ensures |b| == 12
  {
    Bytes4(SentCost(e.cost, learnedFrom, dest)) + Bytes4(e.address) + Bytes4(e.mask)
  }

  /** The entries that `payload` holds, from the i-th on, as the parser reads them. */
  function EntryAt(payload: seq<byte>, i: nat): RipEntry
    requires 4 + 12 * i + 12 <= |payload|
  {
    var p := 4 + 12 * i;
    RipEntry(ParsedCost(Number4(payload, p)), Number4(payload, p + 4), Number4(payload, p + 8))
  }

  lemma Recompose(x: nat)
    requires x < U32
    ensures 0x100_0000 * (x / 0x100_0000) + 0x1_0000 * (x / 0x1_0000 % 0x100) + 0x100 * (x / 0x100 % 0x100) + x % 0x100 == x
  {
    var q1 := x / 0x100;
    var q2 := q1 / 0x100;
    var q3 := q2 / 0x100;
    ModUnique(x, 0x1_0000, q2, 0x100 * (q1 % 0x100) + x % 0x100);
    ModUnique(x, 0x100_0000, q3, 0x1_0000 * (q2 % 0x100) + 0x100 * (q1 % 0x100) + x % 0x100);
  }

  lemma Number4Of(b: seq<byte>, at: nat, x: nat)
    requires x < U32 && at + 4 <= |b| && b[at..at + 4] == Bytes4(x)
    ensures Number4(b, at) == x
  {
    var s := b[at..at + 4];
    assert s[0] == b[at] && s[1] == b[at + 1] && s[2] == b[at + 2] && s[3] == b[at + 3];
    Recompose(x);
  }

  /** The number that some bytes stand for, most significant first, whatever their count. */
  function BigEndian(b: seq<byte>): nat {
    if b == [] then 0 else 256 * BigEndian(b[..|b| - 1]) + b[|b| - 1]
  }

  lemma BigEndian2(b: seq<byte>, at: nat)
    requires at + 2 <= |b|
    ensures BigEndian(b[at..at + 2]) == Number2(b, at)
  {
    var s := b[at..at + 2];
    assert s[..1][0] == b[at] && s[1] == b[at + 1];
    assert BigEndian(s[..1]) == 256 * BigEndian([]) + b[at] by { assert s[..1][..0] == []; }
  }

  lemma BigEndian4(b: seq<byte>, at: nat)
    requires at + 4 <= |b|
    ensures BigEndian(b[at..at + 4]) == Number4(b, at)
  {
    var s := b[at..at + 4];
    BigEndian2(b, at);
    assert s[..3][..2] == b[at..at + 2] && s[..3][2] == b[at + 2] && s[3] == b[at + 3];
    assert BigEndian(s[..3]) == 256 * BigEndian(b[at..at + 2]) + b[at + 2];
  }

  /** Network order: an entry is its cost to this neighbor, its address and its mask. */
  lemma EntryLayout(e: RipEntry, learnedFrom: Option<Ip>, dest: Ip)
    requires e.cost < U32
    ensures var b := EntryBytes(e, learnedFrom, dest);
      && BigEndian(b[..4]) == (if learnedFrom == Some(dest) then 16 else e.cost)
      && BigEndian(b[4..8]) == e.address && BigEndian(b[8..]) == e.mask
  {
    hide BigEndian, Bytes4;
    var b := EntryBytes(e, learnedFrom, dest);
    BytesOf(b, 0, SentCost(e.cost, learnedFrom, dest));
    BytesOf(b, 4, e.address);
    BytesOf(b, 8, e.mask);
    assert b[8..] == b[8..12] && b[..4] == b[0..4];
  }

  lemma BytesOf(b: seq<byte>, at: nat, x: nat)
    requires x < U32 && at + 4 <= |b| && b[at..at + 4] == Bytes4(x)
    ensures BigEndian(b[at..at + 4]) == x
  {
    hide Bytes4, BigEndian, Number4;
    BigEndian4(b, at);
    Number4Of(b, at, x);
  }

  /** The parser reads the same three numbers at 12 bytes an entry, behind four bytes of header. */
  lemma ParsedLayout(payload: seq<byte>, i: nat)
    requires 4 + 12 * i + 12 <= |payload|
    ensures var e, p := EntryAt(payload, i), 4 + 12 * i;
      && e.cost == (if BigEndian(payload[p..p + 4]) == U32 - 1 then 0 else Min(BigEndian(payload[p..p + 4]) + 1, 16))
      && e.address == BigEndian(payload[p + 4..p + 8]) && e.mask == BigEndian(payload[p + 8..p + 12])
  {
    hide BigEndian, Number4;
    var p := 4 + 12 * i;
    BigEndian4(payload, p);
    BigEndian4(payload, p + 4);
    BigEndian4(payload, p + 8);
    CostWraps(Number4(payload, p));
  }

  /** The header: 1 for a request or 2 for a response, and the number of entries. */
  lemma HeaderLayout(c: Command, n: nat)
    requires n < 0x1_0000
    ensures BigEndian(Bytes2(CommandCode(c))) == (if c.REQUEST? then 1 else 2) && BigEndian(Bytes2(n)) == n
  {
    BigEndian2(Bytes2(CommandCode(c)), 0);
    BigEndian2(Bytes2(n), 0);
    assert Bytes2(n)[0..2] == Bytes2(n) && Bytes2(CommandCode(c))[0..2] == Bytes2(CommandCode(c));
  }

  /** Appending keeps every earlier part, and the new part is at the end. */
  lemma Appended(before: seq<byte>, more: seq<byte>, at: nat, n: nat)
    requires at + n <= |before|
    ensures (before + more)[at..at + n] == before[at..at + n]
    ensures (before + more)[|before|..|before| + |more|] == more
  {}

  /** Serializes the message for one neighbor. */
  method Serialize(m: RipMessage, dest: Ip) returns (payload: seq<byte>)
    requires WellFormed(m)
    ensures |payload| == 4 + 12 * |m.entries|
    ensures payload[..2] == Bytes2(CommandCode(m.command)) && payload[2..4] == Bytes2(|m.entries|)
    ensures forall i :: 0 <= i < |m.entries| ==>
      payload[4 + 12 * i..4 + 12 * i + 12] == EntryBytes(m.entries[i], m.learnedFrom[i], dest)
  {
    payload := Bytes2(CommandCode(m.command)) + Bytes2(|m.entries|);
    var i := 0;
    while i < |m.entries|
      invariant i <= |m.entries| && |payload| == 4 + 12 * i
      invariant payload[..2] == Bytes2(CommandCode(m.command)) && payload[2..4] == Bytes2(|m.entries|)
      invariant forall j :: 0 <= j < i ==>
        payload[4 + 12 * j..4 + 12 * j + 12] == EntryBytes(m.entries[j], m.learnedFrom[j], dest)
    {
      hide EntryBytes, Bytes2;
      ghost var before := payload;
      var e := EntryBytes(m.entries[i], m.learnedFrom[i], dest);
      payload := payload + e;
      Appended(before, e, 0, 2);
      Appended(before, e, 2, 2);
      forall j | 0 <= j < i ensures payload[4 + 12 * j..4 + 12 * j + 12] == before[4 + 12 * j..4 + 12 * j + 12] {
        Appended(before, e, 4 + 12 * j, 12);
      }
      i := i + 1;
    }
  }

  /** Parses a payload long enough for the number of entries it announces. */
  method Parse(payload: seq<byte>) returns (code: nat, entries: seq<RipEntry>)
    requires |payload| >= 4 && |payload| >= 4 + 12 * Number2(payload, 2)
    ensures code == Number2(payload, 0) && |entries| == Number2(payload, 2)
    ensures forall i :: 0 <= i < |entries| ==> entries[i] == EntryAt(payload, i)
  {
    code := Number2(payload, 0);
    var numEntries := Number2(payload, 2);
    var p := 4;
    entries := [];
    while |entries| < numEntries
      invariant |entries| <= numEntries && p == 4 + 12 * |entries|
      invariant forall i :: 0 <= i < |entries| ==> entries[i] == EntryAt(payload, i)
    {
      var cost := Min((Number4(payload, p) + 1) % U32, INFINITY);
      entries := entries + [RipEntry(cost, Number4(payload, p + 4), Number4(payload, p + 8))];
      p := p + 12;
    }
  }

  /** What one entry's bytes parse to. */
  lemma EntryRoundTrip(payload: seq<byte>, i: nat, e: RipEntry, learnedFrom: Option<Ip>, dest: Ip)
    requires e.cost < U32 && 4 + 12 * i + 12 <= |payload|
    requires payload[4 + 12 * i..4 + 12 * i + 12] == EntryBytes(e, learnedFrom, dest)
    ensures EntryAt(payload, i) == Heard(e, learnedFrom, dest)
  {
    hide Bytes4, Number4;
    var p := 4 + 12 * i;
    var b := EntryBytes(e, learnedFrom, dest);
    assert payload[p..p + 4] == b[..4] && payload[p + 4..p + 8] == b[4..8] && payload[p + 8..p + 12] == b[8..];
    Number4Of(payload, p, SentCost(e.cost, learnedFrom, dest));
    Number4Of(payload, p + 4, e.address);
    Number4Of(payload, p + 8, e.mask);
  }

  /** The wire round trip: the neighbor parses the same command and subnets in order, each with the cost
      one higher and capped, or infinite where the route was learned from that neighbor. */
  method SendAndParse(m: RipMessage, dest: Ip) returns (code: nat, entries: seq<RipEntry>)
    requires WellFormed(m)
    ensures code == CommandCode(m.command)
    ensures entries == HeardAll(m.entries, m.learnedFrom, dest)
  {
    var payload := Serialize(m, dest);
    assert payload[0] == payload[..2][0] && payload[1] == payload[..2][1];
    assert payload[2] == payload[2..4][0] && payload[3] == payload[2..4][1];
    code, entries := Parse(payload);
    forall i | 0 <= i < |entries| ensures entries[i] == Heard(m.entries[i], m.learnedFrom[i], dest) {
      EntryRoundTrip(payload, i, m.entries[i], m.learnedFrom[i], dest);
    }
  }
}
