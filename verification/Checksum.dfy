/** The Internet checksum of RFC 1071: 16-bit one's complement sums with deferred carries. */
module Checksums {
  import opened Common

  const M: int := 0x1_0000

  /** 16-bit one's complement addition: the carry out comes back in. */
  function OnesAdd(a: nat, b: nat): nat {
    if a + b >= M then a + b - (M - 1) else a + b
  }

  function Word(lo: byte, hi: byte): nat { 256 * (hi as int) + lo }

  /** The one's complement sum of the 16-bit words, low byte first, a last odd byte padded with 0. */
  function OnesSum(b: seq<byte>): nat {
    if b == [] then 0
    else if |b| == 1 then b[0]
    else OnesAdd(Word(b[0], b[1]), OnesSum(b[2..]))
  }

  /** The same, high byte first, as the standard reads the words. */
  function OnesSumNetwork(b: seq<byte>): nat {
    if b == [] then 0
    else if |b| == 1 then Word(0, b[0])
    else OnesAdd(Word(b[1], b[0]), OnesSumNetwork(b[2..]))
  }

  function Swap(x: nat): nat { x % 256 * 256 + x / 256 }

  /** The plain sum of the words, as the loop accumulates it. */
  function PlainSum(b: seq<byte>): nat {
    if b == [] then 0 else if |b| == 1 then b[0] else Word(b[0], b[1]) + PlainSum(b[2..])
  }

  /** The two folds of the upper half, cut to 16 bits. */
  function Fold(sum: nat): nat {
    var t := sum / M + sum % M;
    (t + t / M) % M
  }

  /** The 16-bit one's complement value of a sum: 0 only for 0, else in 1..65535, equal modulo 65535. */
  function Canon(sum: nat): nat {
    if sum == 0 then 0 else (sum - 1) % (M - 1) + 1
  }

  lemma FoldIsCanon(sum: nat)
    requires sum < U32
    ensures Fold(sum) == Canon(sum)
  {
    var hi, lo := sum / M, sum % M;
    var t := hi + lo;
    if 0 < t < M {
      ModUnique(t, M, 0, t);
      ModUnique(sum - 1, M - 1, hi, t - 1);
    } else if t > 0 {
      ModUnique(t, M, 1, t - M);
      ModUnique(t + 1, M, 1, t + 1 - M);
      ModUnique(sum - 1, M - 1, hi + 1, t - M);
    }
  }

  lemma CanonAdd(w: nat, s: nat)
    requires w < M
    ensures OnesAdd(w, Canon(s)) == Canon(w + s)
  {
    if s != 0 {
      var q, r := (s - 1) / (M - 1), (s - 1) % (M - 1);
      if w + r < M - 1 {
        ModUnique(w + s - 1, M - 1, q, w + r);
      } else {
        ModUnique(w + s - 1, M - 1, q + 1, w + r - (M - 1));
      }
    } else if w > 0 {
      ModUnique(w - 1, M - 1, 0, w - 1);
    }
  }

  lemma {:induction false} OnesSumIsCanon(b: seq<byte>)
    ensures OnesSum(b) == Canon(PlainSum(b)) && OnesSum(b) < M
  {
    if |b| >= 2 {
      OnesSumIsCanon(b[2..]);
      CanonAdd(Word(b[0], b[1]), PlainSum(b[2..]));
    }
  }

  /** The deferred carries fit in 32 bits up to 131074 bytes. */
  lemma {:induction false} PlainSumBound(b: seq<byte>)
    ensures PlainSum(b) <= (M - 1) * ((|b| + 1) / 2)
  {
    if |b| >= 2 {
      PlainSumBound(b[2..]);
    }
  }

  lemma {:induction false} PlainSumAppend(a: seq<byte>, b: seq<byte>)
    requires |a| % 2 == 0
    ensures PlainSum(a + b) == PlainSum(a) + PlainSum(b)
  {
    if a == [] {
      assert a + b == b;
    } else {
      assert (a + b)[2..] == a[2..] + b;
      PlainSumAppend(a[2..], b);
    }
  }

  /** The deferred-carry loop in 32-bit arithmetic: the complement of the one's complement sum. */
  method InetChecksum(buffer: seq<byte>) returns (c: nat)
    requires |buffer| <= 131074
    ensures c == M - 1 - OnesSum(buffer)
  {
    var p, len := 0, |buffer|;
    var sum: u32 := 0;
    hide OnesSum, Canon;
    PlainSumBound(buffer);
    assert buffer[0..] == buffer;
    while len > 1
      invariant 0 <= p && 0 <= len && p + len == |buffer|
      invariant sum + PlainSum(buffer[p..]) == PlainSum(buffer)
      decreases len
    {
      assert buffer[p..][2..] == buffer[p + 2..];
      sum := sum + 256 * (buffer[p + 1] as int) + buffer[p];
      len, p := len - 2, p + 2;
    }
    if len == 1 {
      sum := sum + buffer[p];
    }
    OnesSumIsCanon(buffer);
    c := FoldComplement(sum);
  }

  /** The two folds and the complement that end both checksums. */
  method FoldComplement(total: u32) returns (c: nat)
    ensures c == M - 1 - Canon(total)
  {
    FoldIsCanon(total);
    var sum := total / M + total % M;
    sum := sum + sum / M;
    c := M - 1 - sum % M;
  }

  /** The sum of 16-bit words. */
  function SumOf(ws: seq<nat>): nat {
    if ws == [] then 0 else ws[0] + SumOf(ws[1..])
  }

  lemma {:induction false} SumOfBound(ws: seq<nat>)
    requires forall i :: 0 <= i < |ws| ==> ws[i] < M
    ensures SumOf(ws) <= (M - 1) * |ws|
  {
    if ws != [] {
      SumOfBound(ws[1..]);
    }
  }

  /** All words of a header but the sixth, the checksum field. */
  function HeaderSum(hdr: seq<nat>): nat
    requires |hdr| >= 10
  {
    hdr[0] + hdr[1] + hdr[2] + hdr[3] + hdr[4] + hdr[6] + hdr[7] + hdr[8] + hdr[9] + SumOf(hdr[10..])
  }

  /** The checksum of an IP header of `ihl` 32-bit words, with options or without. */
  method Ipv4Checksum(hdr: seq<nat>, ihl: nat) returns (c: nat)
    requires 5 <= ihl <= 15 && |hdr| == 2 * ihl && forall i :: 0 <= i < |hdr| ==> hdr[i] < M
    ensures c < M && OnesAdd(c, Canon(HeaderSum(hdr))) == M - 1
  {
    SumOfBound(hdr[10..]);
    var csum: u32 := hdr[0] + hdr[1] + hdr[2] + hdr[3] + hdr[4] + hdr[6] + hdr[7] + hdr[8] + hdr[9] + SumOf(hdr[10..]);
    c := FoldComplement(csum);
  }

  // ----- The TCP checksum -----

  const TCP_PROTOCOL: byte := 6

  /** Pseudo header, header with an empty checksum field, and payload. The length is a 16-bit number, high byte first. */
  function Segment(src: seq<byte>, dst: seq<byte>, hdr: seq<byte>, payload: seq<byte>): (s: seq<byte>)
    requires |src| == 4 && |dst| == 4 && |hdr| == 20
    ensures |s| == 32 + |payload|
  {
    SegmentAround(src, dst, hdr, payload, 0, 0)
  }

  /** The same with the checksum field filled in. */
  function SegmentAround(src: seq<byte>, dst: seq<byte>, hdr: seq<byte>, payload: seq<byte>, lo: byte, hi: byte): (s: seq<byte>)
    requires |src| == 4 && |dst| == 4 && |hdr| == 20
    ensures |s| == 32 + |payload|
  {
    SegmentHead(src, dst, hdr, |payload|) + ([lo, hi] + (hdr[18..] + payload))
  }

  /** Addresses, protocol, and the length of header and payload as a 16-bit number, high byte first. */
  function PseudoHeader(src: seq<byte>, dst: seq<byte>, n: nat): (s: seq<byte>)
    requires |src| == 4 && |dst| == 4
    ensures |s| == 12
  {
    var len := (20 + n) % M;
    src + dst + [0, TCP_PROTOCOL, len / 256, len % 256]
  }

  /** Where everything is in the pseudo header of section 3.1 of RFC 9293: the length is right up to 65515 bytes of payload. */
  lemma PseudoHeaderLayout(src: seq<byte>, dst: seq<byte>, n: nat)
    requires |src| == 4 && |dst| == 4
    ensures var s := PseudoHeader(src, dst, n);
      && s[..4] == src && s[4..8] == dst && s[8] == 0 && s[9] == 6
      && (Word(s[11], s[10]) == 20 + n <==> n <= 65515)
  {}

  function SegmentHead(src: seq<byte>, dst: seq<byte>, hdr: seq<byte>, n: nat): (s: seq<byte>)
    requires |src| == 4 && |dst| == 4 && |hdr| == 20
    ensures |s| == 28
  {
    PseudoHeader(src, dst, n) + hdr[..16]
  }

  /** The three parts are copied into one buffer, and the checksum field is cleared. */
  method FillBuffer(ph: seq<byte>, hdr: seq<byte>, payload: seq<byte>) returns (buffer: array<byte>)
    requires |ph| == 12 && |hdr| == 20
    ensures buffer[..] == ph + hdr[..16] + ([0, 0] + (hdr[18..] + payload))
  {
    buffer := new byte[32 + |payload|];
    forall i | 0 <= i < 12 { buffer[i] := ph[i]; }
    forall i | 0 <= i < 20 { buffer[12 + i] := hdr[i]; }
    forall i | 0 <= i < |payload| { buffer[32 + i] := payload[i]; }
    assert buffer[12 + 18] == hdr[18] && buffer[12 + 19] == hdr[19];
    buffer[28], buffer[29] := 0, 0;
    BufferIsSegment(buffer[..], ph, hdr, payload);
  }

  /** The complement of the one's complement sum over pseudo header, header and payload. */
  method TcpChecksum(src: seq<byte>, dst: seq<byte>, hdr: seq<byte>, payload: seq<byte>) returns (c: nat)
    requires |src| == 4 && |dst| == 4 && |hdr| == 20 && 32 + |payload| <= 131074
    ensures c == M - 1 - OnesSum(Segment(src, dst, hdr, payload))
  {
    hide OnesSum, PseudoHeader;
    var buffer := FillBuffer(PseudoHeader(src, dst, |payload|), hdr, payload);
    c := InetChecksum(buffer[..]);
  }

  lemma BufferIsSegment(b: seq<byte>, ph: seq<byte>, hdr: seq<byte>, payload: seq<byte>)
    requires |ph| == 12 && |hdr| == 20 && |b| == 32 + |payload|
    requires forall i :: 0 <= i < 12 ==> b[i] == ph[i]
    requires forall i :: 0 <= i < 16 ==> b[12 + i] == hdr[i]
    requires b[28] == b[29] == 0 && b[30] == hdr[18] && b[31] == hdr[19]
    requires forall i :: 0 <= i < |payload| ==> b[32 + i] == payload[i]
    ensures b == ph + hdr[..16] + ([0, 0] + (hdr[18..] + payload))
  {}

  /** A segment that carries its checksum sums to all ones, and no other value of the field does that but for
      one: a field of all ones passes for one of 0. */
  lemma ChecksumCompletes(src: seq<byte>, dst: seq<byte>, hdr: seq<byte>, payload: seq<byte>, lo: byte, hi: byte)
    requires |src| == 4 && |dst| == 4 && |hdr| == 20
    ensures var c := M - 1 - OnesSum(Segment(src, dst, hdr, payload));
      OnesSum(SegmentAround(src, dst, hdr, payload, lo, hi)) == M - 1 <==>
        Word(lo, hi) == c || (c == 0 && Word(lo, hi) == M - 1)
  {
    hide OnesSum, PlainSum, Canon;
    var pre, post := SegmentHead(src, dst, hdr, |payload|), hdr[18..] + payload;
    var rest := PlainSum(pre) + PlainSum(post);
    SumAround(pre, lo, hi, post);
    SumAround(pre, 0, 0, post);
    CanonAdd(Word(lo, hi), rest);
    OnesSumIsCanon(Segment(src, dst, hdr, payload));
    HeadNotZero(src, dst, hdr, |payload|);
    CanonPositive(rest);
  }

  lemma CanonPositive(s: nat)
    requires s > 0
    ensures 0 < Canon(s) < M
  {}

  /** The protocol number alone makes the sum positive. */
  lemma HeadNotZero(src: seq<byte>, dst: seq<byte>, hdr: seq<byte>, n: nat)
    requires |src| == 4 && |dst| == 4 && |hdr| == 20
    ensures PlainSum(SegmentHead(src, dst, hdr, n)) > 0
  {
    var h := SegmentHead(src, dst, hdr, n);
    assert h == h[..8] + h[8..];
    PlainSumAppend(h[..8], h[8..]);
    assert h[8..][1] == TCP_PROTOCOL;
  }

  // ----- Byte order -----

  lemma SwapAdd(a1: nat, a0: nat, b1: nat, b0: nat)
    requires a1 < 256 && a0 < 256 && b1 < 256 && b0 < 256
    ensures OnesAdd(256 * a0 + a1, 256 * b0 + b1) == Swap(OnesAdd(256 * a1 + a0, 256 * b1 + b0))
  {
    var l, h := a0 + b0, a1 + b1;
    var c0 := if l >= 256 then 1 else 0;
    var c1 := if h + c0 >= 256 then 1 else 0;
    var c2 := if l - 256 * c0 + c1 == 256 then 1 else 0;
    var u, v := h + c0 - 256 * c1 + c2, l - 256 * c0 + c1 - 256 * c2;
    SwapOf(u, v);
    assert OnesAdd(256 * a1 + a0, 256 * b1 + b0) == 256 * u + v;
    assert OnesAdd(256 * a0 + a1, 256 * b0 + b1) == 256 * v + u;
  }

  lemma SwapOf(u: nat, v: nat)
    requires u < 256 && v < 256
    ensures Swap(256 * u + v) == 256 * v + u
  {
    ModUnique(256 * u + v, 256, u, v);
  }

  /** Byte order does not matter: the sum of the swapped words is the swapped sum. */
  lemma {:induction false} ByteOrderIndependent(b: seq<byte>)
    ensures OnesSum(b) == Swap(OnesSumNetwork(b)) && OnesSumNetwork(b) < M
  {
    if |b| >= 2 {
      ByteOrderIndependent(b[2..]);
      var n := OnesSumNetwork(b[2..]);
      hide OnesSum;
      SwapWord(b[0], b[1], n);
      hide Swap, OnesAdd;
      assert OnesSum(b) == OnesAdd(Word(b[0], b[1]), OnesSum(b[2..])) by { OnesSumStep(b); }
    }
  }

  lemma OnesSumStep(b: seq<byte>)
    requires |b| >= 2
    ensures OnesSum(b) == OnesAdd(Word(b[0], b[1]), OnesSum(b[2..]))
  {}

  lemma SwapWord(hi: byte, lo: byte, n: nat)
    requires n < M
    ensures OnesAdd(Word(hi, lo), Swap(n)) == Swap(OnesAdd(Word(lo, hi), n)) && OnesAdd(Word(lo, hi), n) < M
  {
    SwapAdd(hi, lo, n / 256, n % 256);
  }

  // ----- What the checksum detects -----

  /** Two buffers that differ in one aligned word have the same checksum exactly when the words are equal, or
      are 0 and 65535 with something non-zero beside them. */
  lemma OneWordChange(pre: seq<byte>, lo: byte, hi: byte, lo': byte, hi': byte, post: seq<byte>)
    requires |pre| % 2 == 0
    ensures OnesSum(pre + ([lo, hi] + post)) == OnesSum(pre + ([lo', hi'] + post)) <==>
      || (lo == lo' && hi == hi')
      || (Word(lo, hi) + Word(lo', hi') == M - 1 && (Word(lo, hi) == 0 || Word(lo', hi') == 0) && PlainSum(pre) + PlainSum(post) > 0)
  {
    hide Canon, OnesSum, PlainSum, Word;
    SumAround(pre, lo, hi, post);
    SumAround(pre, lo', hi', post);
    WordInjective(lo, hi, lo', hi');
    WordInjective(lo', hi', lo, hi);
    CanonEqual(PlainSum(pre) + PlainSum(post), Word(lo, hi), Word(lo', hi'));
  }

  lemma SumAround(pre: seq<byte>, lo: byte, hi: byte, post: seq<byte>)
    requires |pre| % 2 == 0
    ensures OnesSum(pre + ([lo, hi] + post)) == Canon(PlainSum(pre) + PlainSum(post) + Word(lo, hi))
  {
    TwoBytes(lo, hi);
    hide Canon, OnesSum, PlainSum, Word;
    OnesSumIsCanon(pre + ([lo, hi] + post));
    PlainSumAppend(pre, [lo, hi] + post);
    PlainSumAppend([lo, hi], post);
  }

  lemma TwoBytes(lo: byte, hi: byte)
    ensures PlainSum([lo, hi]) == Word(lo, hi)
  {
    assert [lo, hi][2..] == [];
  }

  lemma WordInjective(lo: byte, hi: byte, lo': byte, hi': byte)
    ensures Word(lo, hi) < M
    ensures Word(lo, hi) == Word(lo', hi') <==> lo == lo' && hi == hi'
  {}

  lemma CanonEqual(r: nat, w: nat, w': nat)
    requires w < M && w' < M
    ensures Canon(r + w) == Canon(r + w') <==> w == w' || (w + w' == M - 1 && (w == 0 || w' == 0) && r > 0)
  {
    if w < w' {
      CanonStep(r, w, w');
    } else if w' < w {
      CanonStep(r, w', w);
    }
  }

  lemma CanonStep(r: nat, w: nat, w': nat)
    requires w < w' < M
    ensures Canon(r + w) == Canon(r + w') <==> w == 0 && w' == M - 1 && r > 0
    ensures w + w' == M - 1 && (w == 0 || w' == 0) <==> w == 0 && w' == M - 1
  {}

}
