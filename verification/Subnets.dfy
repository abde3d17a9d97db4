/** Subnet arithmetic on 32-bit host-order addresses. */
module Subnets {
  import opened Common

  type Ip = u32

  /** Bitwise and. */
  function And(a: nat, b: nat): (c: nat)
    ensures c <= a && c <= b
  {
    if a == 0 || b == 0 then 0 else 2 * And(a / 2, b / 2) + (if a % 2 == 1 && b % 2 == 1 then 1 else 0)
  }

  function Pow2(n: nat): (p: nat)
    ensures p >= 1
  {
    if n == 0 then 1 else 2 * Pow2(n - 1)
  }

  lemma {:induction false} Pow2Order(a: nat, b: nat)
    requires a < b
    ensures Pow2(a) < Pow2(b)
  {
    if a + 1 < b {
      Pow2Order(a, b - 1);
    }
  }

  lemma Pow2Of32()
    ensures Pow2(32) == U32
  {
    assert Pow2(8) == 0x100;
    assert Pow2(16) == 0x1_0000;
    assert Pow2(24) == 0x100_0000;
  }

  /** The mask parseCidr computes for a prefix length: that many ones, then zeros. */
  function MaskOf(len: nat): Ip
    requires len <= 32
  {
    Pow2Of32();
    if len > 0 then Pow2Order(32 - len, 32); U32 - Pow2(32 - len) else 0
  }

  /** The two addresses agree on the bits of the mask. Byte order does not matter for this. */
  predicate SameSubnet(a: Ip, b: Ip, mask: Ip) {
    And(a, mask) == And(b, mask)
  }

  /** A longer prefix is a numerically greater mask. */
  lemma MaskOrder(a: nat, b: nat)
    requires a < b <= 32
    ensures MaskOf(a) < MaskOf(b)
  {
    Pow2Of32();
    Pow2Order(32 - b, 32 - a);
  }

  /** `m` shifted left n times by one bit, as a 32-bit number. */
  function Shifted(m: Ip, n: nat): Ip {
    if n == 0 then m else 2 * Shifted(m, n - 1) % U32
  }

  lemma {:induction false} ShiftedIsProduct(m: Ip, n: nat)
    ensures Shifted(m, n) == m * Pow2(n) % U32
  {
    if n > 0 {
      ShiftedIsProduct(m, n - 1);
      assert m * Pow2(n) == 2 * (m * Pow2(n - 1));
      DoubleMod(m * Pow2(n - 1));
    }
  }

  lemma DoubleMod(x: nat)
    ensures 2 * (x % U32) % U32 == 2 * x % U32
  {
    var q, r := x / U32, x % U32;
    var c := if 2 * r < U32 then 0 else 1;
    ModUnique(2 * r, U32, c, 2 * r - c * U32);
    ModUnique(2 * x, U32, 2 * q + c, 2 * r - c * U32);
  }

  /** 32 shifts empty any mask. */
  lemma ShiftedOut(m: Ip)
    ensures Shifted(m, 32) == 0
  {
    Pow2Of32();
    ShiftedIsProduct(m, 32);
  }

  /** The least number of left shifts that empties the mask. */
  method SubnetMaskLength(m: Ip) returns (n: nat)
    ensures n <= 32 && Shifted(m, n) == 0
    ensures n > 0 ==> Shifted(m, n - 1) != 0
  {
    var mask := m;
    n := 0;
    ShiftedOut(m);
    while mask != 0
      invariant n <= 32 && mask == Shifted(m, n)
      invariant n > 0 ==> Shifted(m, n - 1) != 0
      decreases 32 - n
    {
      n, mask := n + 1, 2 * mask % U32;
    }
  }

  lemma {:induction false} ShiftedMask(len: nat, n: nat)
    requires len <= 32
    ensures Shifted(MaskOf(len), n) == MaskOf(if n <= len then len - n else 0)
  {
    if n > 0 {
      ShiftedMask(len, n - 1);
      if n <= len {
        OneShift(len - n);
      } else {
        Pow2Of32();
      }
    }
  }

  lemma OneShift(len: nat)
    requires len < 32
    ensures 2 * MaskOf(len + 1) % U32 == MaskOf(len)
  {
    Pow2Of32();
    assert 2 * MaskOf(len + 1) == U32 + MaskOf(len);
    ModUnique(2 * MaskOf(len + 1), U32, 1, MaskOf(len));
  }

  /** On a mask from parseCidr the count is the prefix length, and no other count has its properties. */
  lemma MaskLength(len: nat, n: nat)
    requires len <= 32 && Shifted(MaskOf(len), n) == 0 && (n > 0 ==> Shifted(MaskOf(len), n - 1) != 0)
    ensures n == len
  {
    ShiftedMask(len, n);
    if n < len {
      MaskOrder(0, len - n);
    }
    if n > 0 {
      ShiftedMask(len, n - 1);
    }
  }
}
