/** Value types shared by the modules of this model: Go's fixed-width
    unsigned integers, byte strings and an optional value. */
module Types {

  /** Go's `uint16`. */
  type uint16 = x: int | 0 <= x < 0x1_0000

  /** Go's `uint32`. */
  type uint32 = x: int | 0 <= x < 0x1_0000_0000

  /** Go's `byte`. */
  type byte = x: int | 0 <= x < 0x100

  /** A Go `[]byte` or the bytes of a Go `string`. */
  type Bytes = seq<byte>

  /** Go's conversion `uint32(n)` of a non-negative `int`: keeps the low 32 bits. */
  function ToUint32(n: nat): (r: uint32)
    ensures n < 0x1_0000_0000 ==> r == n
    ensures r <= n
    // r is congruent to n modulo 2^32: the low 32 bits of n
    ensures (n - r) % 0x1_0000_0000 == 0
  {
    n % 0x1_0000_0000
  }

  /** A value that may be absent (Go's nil pointer or failed decode). */
  datatype Option<+T> = None | Some(value: T)
}
