/** Types shared by every part of the model. */
module Common {

  /** An octet (std::byte). */
  type byte = b: int | 0 <= b < 256

  /** The number of values of a 32-bit unsigned integer. */
  const U32: int := 0x1_0000_0000

  /** A 32-bit unsigned integer that must not wrap. */
  type u32 = x: int | 0 <= x < 0x1_0000_0000

  datatype Option<+T> = None | Some(value: T)

  /** tl::expected: a value, or the reason there is none. */
  datatype Result<+T, +E> = Success(value: T) | Failure(error: E)

  datatype SocketError = CLOSING | TIMEOUT | RESET | CONN_NOT_EXIST | DUPLICATE_SOCKET | NO_RESOURCES | NYI

  function Min(x: int, y: int): int { if x <= y then x else y }

  function Max(x: int, y: int): int { if x >= y then x else y }

  lemma SmallMultiple(n: int, q: int)
    requires n > 0
    ensures q >= 1 ==> n * q >= n
    ensures q <= -1 ==> n * q <= -n
  {}

  /** The quotient and remainder are unique. */
  lemma ModUnique(x: int, n: nat, q: int, r: nat)
    requires n > 0 && r < n && x == n * q + r
    ensures x % n == r && x / n == q
  {
    var d := x / n - q;
    assert x == n * (x / n) + x % n;
    assert n * d == r - x % n;
    SmallMultiple(n, d);
  }
}
