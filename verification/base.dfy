/** Small vocabulary shared by every layer of the stack: bytes, optional
    values and the unsigned wrap-around of C's `uint32_t`. */
module Base {

  /** One octet, as carried on the serial link. */
  type byte = x: int | 0 <= x < 0x100

  const U16Limit: nat := 0x1_0000
  const U32Limit: nat := 0x1_0000_0000

  /** A C pointer that may be NULL, or a result that may be absent. */
  datatype Option<+T> = None | Some(value: T)

  /** `n` zero bytes: what `memset(p, 0, n)` leaves behind. */
  function Zeros(n: nat): (z: seq<byte>)
    ensures |z| == n
    ensures forall i :: 0 <= i < n ==> z[i] == 0
  {
    seq(n, _ => 0)
  }

  /** The value a `uint32_t` holds after the (possibly negative) integer
      `x` is stored into it: C unsigned arithmetic is modulo 2^32. */
  function Wrap32(x: int): (r: nat)
    ensures r < U32Limit
    ensures 0 <= x < U32Limit ==> r == x
    ensures -(U32Limit as int) <= x < 0 ==> r == x + U32Limit
  {
    x % U32Limit
  }
}
