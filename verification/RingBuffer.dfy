/** The circular buffer under both TCP buffers: slot `p % N` holds the byte of sequence number `p`. */
module RingBuffers {
  import opened Common

  // ----- Specification: what a ring holds, in terms of absolute positions -----

  /** The byte of absolute position `p`. */
  function At(ring: seq<byte>, p: nat): byte
    requires |ring| > 0
  {
    ring[p % |ring|]
  }

  /** The bytes of positions [at, at + n). */
  function Span(ring: seq<byte>, at: nat, n: nat): (s: seq<byte>)
    requires |ring| > 0
    ensures |s| == n
  {
    seq<byte>(n, k requires 0 <= k < n => At(ring, at + k))
  }

  /** The ring after `data` has been placed at positions [at, at + |data|). */
  function Stored(ring: seq<byte>, at: nat, data: seq<byte>): (r: seq<byte>)
    requires 0 < |ring| && |data| <= |ring|
    ensures |r| == |ring|
  {
    seq<byte>(|ring|, i requires 0 <= i < |ring| =>
      var k := (i - at) % |ring|;
      if k < |data| then data[k] else ring[i])
  }

  /** How many of `len` bytes a write to positions [at, last] takes.
      A span of exactly one position takes nothing. */
  function WriteCount(at: int, last: int, len: nat): nat {
    if at >= last then 0 else Min(last - at + 1, len)
  }

  // ----- Modular arithmetic of slots -----

  lemma DivMod(p: nat, n: nat)
    requires n > 0
    ensures p == n * (p / n) + p % n && 0 <= p % n < n
  {}

  /** Positions less than N apart share no slot. */
  lemma SlotsDistinct(p: nat, q: nat, n: nat)
    requires n > 0 && p < q < p + n
    ensures p % n != q % n
  {
    DivMod(p, n);
    DivMod(q, n);
    if p % n == q % n {
      var d := q / n - p / n;
      assert q - p == n * d;
      SmallMultiple(n, d);
    }
  }

  /** Slot of the k-th position after `at`, and back. */
  lemma SlotOffset(at: nat, k: nat, n: nat)
    requires n > 0 && k < n
    ensures ((at + k) % n - at) % n == k
  {
    DivMod(at + k, n);
    assert (at + k) % n - at == n * -((at + k) / n) + k;
    ModUnique((at + k) % n - at, n, -((at + k) / n), k);
  }

  lemma OffsetSlot(at: nat, i: nat, n: nat)
    requires n > 0 && i < n
    ensures (at + (i - at) % n) % n == i
  {
    var k := (i - at) % n;
    var q := (i - at) / n;
    assert i - at == n * q + k;
    assert at + k == n * (-q) + i;
    ModUnique(at + k, n, -q, i);
  }

  // ----- Laws of the ring -----

  /** Stored puts data[k] at position at + k and leaves the rest of the window [at, at + N) alone. */
  lemma {:induction false} StoredAt(ring: seq<byte>, at: nat, data: seq<byte>, p: nat)
    requires 0 < |ring| && |data| <= |ring|
    requires at <= p < at + |ring|
    ensures At(Stored(ring, at, data), p) == if p < at + |data| then data[p - at] else At(ring, p)
  {
    SlotOffset(at, p - at, |ring|);
  }

  /** What is written is what a later read of the same span returns. */
  lemma SpanOfStored(ring: seq<byte>, at: nat, data: seq<byte>)
    requires 0 < |ring| && |data| <= |ring|
    ensures Span(Stored(ring, at, data), at, |data|) == data
  {
    forall k | 0 <= k < |data| ensures At(Stored(ring, at, data), at + k) == data[k] {
      StoredAt(ring, at, data, at + k);
    }
  }

  /** Two rings that agree on one window of N consecutive positions are the same ring. */
  lemma WindowDetermines(r1: seq<byte>, r2: seq<byte>, at: nat)
    requires |r1| == |r2| > 0
    requires forall p {:trigger At(r1, p)} :: at <= p < at + |r1| ==> At(r1, p) == At(r2, p)
    ensures r1 == r2
  {
    forall i | 0 <= i < |r1| ensures r1[i] == r2[i] {
      OffsetSlot(at, i, |r1|);
      assert At(r1, at + (i - at) % |r1|) == At(r2, at + (i - at) % |r1|);
    }
  }

  // ----- The class -----

  class RingBuffer {
    const N: nat
    const buf: array<byte>

    ghost predicate Valid() {
      0 < N == buf.Length
    }

    constructor (n: nat)
      requires n > 0
      ensures Valid() && N == n && fresh(buf)
    {
      N := n;
      buf := new byte[n];
    }

    /** Writes a prefix of `data` to the positions [at, last]. */
    method Write(data: seq<byte>, at: nat, last: int) returns (n: nat)
      requires Valid()
      requires at < last ==> last - at < N
      modifies buf
      ensures n == WriteCount(at, last, |data|) <= N
      ensures buf[..] == Stored(old(buf[..]), at, data[..n])
    {
      ghost var before := buf[..];
      if at >= last {
        StoredNothing(before, at);
        return 0;
      }
      var atIdx, lastIdx := at % N, last % N;
      WrapCases(at, last, N);
      if atIdx <= lastIdx {
        n := Min(lastIdx + 1 - atIdx, |data|);
        forall k | 0 <= k < n { buf[atIdx + k] := data[k]; }
        StoredFlat(before, buf[..], at, data[..n]);
      } else {
        var n1 := N - atIdx;
        if n1 >= |data| {
          n := |data|;
          forall k | 0 <= k < n { buf[atIdx + k] := data[k]; }
          StoredFlat(before, buf[..], at, data[..n]);
        } else {
          forall k | 0 <= k < n1 { buf[atIdx + k] := data[k]; }
          var n2 := Min(lastIdx + 1, |data| - n1);
          forall k | 0 <= k < n2 { buf[k] := data[n1 + k]; }
          n := n1 + n2;
          StoredWrapped(before, buf[..], at, data[..n]);
        }
      }
    }

    /** Copies n slots, from `from` on, to the start of `buff`. */
    method CopyFlat(buff: array<byte>, from: nat, n: nat)
      requires Valid() && buff != buf && n <= buff.Length && from + n <= N
      modifies buff
      ensures buff[..n] == buf[from..from + n] && buff[n..] == old(buff[n..])
    {
      forall k | 0 <= k < n { buff[k] := buf[from + k]; }
    }

    /** Copies the slots from `from` to the end, and then n more from the start. */
    method CopyWrapped(buff: array<byte>, from: nat, n: nat)
      requires Valid() && buff != buf && from <= N && N - from + n <= buff.Length && n <= N
      modifies buff
      ensures buff[..N - from + n] == buf[from..] + buf[..n] && buff[N - from + n..] == old(buff[N - from + n..])
    {
      var n1 := N - from;
      forall k | 0 <= k < n1 { buff[k] := buf[from + k]; }
      forall k | 0 <= k < n { buff[n1 + k] := buf[k]; }
      assert forall k :: 0 <= k < n ==> buff[n1 + k] == buf[k];
    }

    /** Reads the positions [at, last] into `buff`, truncated to its length. */
    method Read(buff: array<byte>, at: nat, last: int) returns (n: nat)
      requires Valid() && buff != buf
      requires at <= last ==> last - at < N
      modifies buff
      ensures n == if at > last then 0 else Min(last - at + 1, buff.Length)
      ensures buff[..n] == Span(buf[..], at, n)
      ensures buff[n..] == old(buff[n..])
    {
      if at > last {
        return 0;
      }
      hide Span;
      var atIdx, lastIdx := at % N, last % N;
      WrapCases(at, last, N);
      if atIdx <= lastIdx {
        n := Min(lastIdx + 1 - atIdx, buff.Length);
        CopyFlat(buff, atIdx, n);
        SpanFlat(buf[..], at, n);
      } else {
        var n1 := N - atIdx;
        if n1 >= buff.Length {
          n := buff.Length;
          CopyFlat(buff, atIdx, n);
          SpanFlat(buf[..], at, n);
        } else {
          var n2 := Min(lastIdx + 1, buff.Length - n1);
          CopyWrapped(buff, atIdx, n2);
          n := n1 + n2;
          SpanWrapped(buf[..], at, n);
        }
      }
    }
  }

  // ----- Lemmas for the methods -----

  /** The slot k positions after `at`: straight on, or wrapped to the start. */
  lemma SlotAhead(at: nat, k: nat, n: nat)
    requires n > 0 && k < n
    ensures (at + k) % n == if at % n + k < n then at % n + k else at % n + k - n
  {
    DivMod(at, n);
    if at % n + k < n {
      ModUnique(at + k, n, at / n, at % n + k);
    } else {
      assert at + k == n * (at / n + 1) + (at % n + k - n);
      ModUnique(at + k, n, at / n + 1, at % n + k - n);
    }
  }

  /** The slots from that of `at` on, wrapped at the end, are the span. */
  lemma ReadSlots(ring: seq<byte>, out: seq<byte>, at: nat)
    requires 0 < |ring| && |out| <= |ring|
    requires forall k :: 0 <= k < |out| ==>
      out[k] == ring[if at % |ring| + k < |ring| then at % |ring| + k else at % |ring| + k - |ring|]
    ensures out == Span(ring, at, |out|)
  {
    forall k | 0 <= k < |out| ensures out[k] == At(ring, at + k) {
      SlotAhead(at, k, |ring|);
    }
  }

  /** A span that ends before the array does. */
  lemma SpanFlat(ring: seq<byte>, at: nat, n: nat)
    requires 0 < |ring| && at % |ring| + n <= |ring|
    ensures Span(ring, at, n) == ring[at % |ring|..at % |ring| + n]
  {
    ReadSlots(ring, ring[at % |ring|..at % |ring| + n], at);
  }

  /** A span that wraps. */
  lemma SpanWrapped(ring: seq<byte>, at: nat, n: nat)
    requires 0 < |ring| && |ring| - at % |ring| <= n <= |ring|
    ensures Span(ring, at, n) == ring[at % |ring|..] + ring[..n - (|ring| - at % |ring|)]
  {
    ReadSlots(ring, ring[at % |ring|..] + ring[..n - (|ring| - at % |ring|)], at);
  }

  /** How far apart two positions are, from their slots. */
  lemma WrapCases(at: nat, last: nat, n: nat)
    requires n > 0 && at <= last < at + n
    ensures last - at == if at % n <= last % n then last % n - at % n else last % n + n - at % n
  {
    SlotAhead(at, last - at, n);
  }

  lemma StoredNothing(ring: seq<byte>, at: nat)
    requires 0 < |ring|
    ensures Stored(ring, at, []) == ring
  {}

  /** Copying to consecutive slots without wrapping is Stored. */
  lemma StoredFlat(before: seq<byte>, after: seq<byte>, at: nat, data: seq<byte>)
    requires 0 < |before| == |after| && at % |before| + |data| <= |before|
    requires forall k :: 0 <= k < |data| ==> after[at % |before| + k] == data[k]
    requires forall i :: 0 <= i < |before| && !(at % |before| <= i < at % |before| + |data|) ==> after[i] == before[i]
    ensures after == Stored(before, at, data)
  {
    var n := |before|;
    forall i | 0 <= i < n ensures after[i] == Stored(before, at, data)[i] {
      SlotOf(at, i, n);
      var k := (i - at) % n;
      if at % n <= i < at % n + |data| {
        assert after[at % n + (i - at % n)] == data[i - at % n];
      }
    }
  }

  /** Copying up to the end and then from the start is Stored. */
  lemma StoredWrapped(before: seq<byte>, after: seq<byte>, at: nat, data: seq<byte>)
    requires 0 < |before| == |after|
    requires |before| - at % |before| <= |data| <= |before|
    requires var n1 := |before| - at % |before|;
      && (forall k :: 0 <= k < n1 ==> after[at % |before| + k] == data[k])
      && (forall k :: 0 <= k < |data| - n1 ==> after[k] == data[n1 + k])
      && (forall i :: |data| - n1 <= i < at % |before| ==> after[i] == before[i])
    ensures after == Stored(before, at, data)
  {
    var n := |before|;
    var n1 := n - at % n;
    forall i | 0 <= i < n ensures after[i] == Stored(before, at, data)[i] {
      SlotOf(at, i, n);
      if at % n <= i {
        assert after[at % n + (i - at % n)] == data[i - at % n];
      }
    }
  }

  /** Which position after `at` slot i holds. */
  lemma SlotOf(at: nat, i: nat, n: nat)
    requires n > 0 && i < n
    ensures (i - at) % n == if at % n <= i then i - at % n else i - at % n + n
  {
    var k := if at % n <= i then i - at % n else i - at % n + n;
    SlotAhead(at, k, n);
    SlotOffset(at, k, n);
  }
}
