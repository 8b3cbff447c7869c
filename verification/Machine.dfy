/** Widths, bytes and results shared by every module. */
module Machine {

  /** One octet of a buffer. */
  type byte = b: int | 0 <= b < 256

  type bytes = seq<byte>

  const SIZE_MAX: int := 0xFFFF_FFFF_FFFF_FFFF
  const SSIZE_MAX: int := 0x7FFF_FFFF_FFFF_FFFF
  const TWO_TO_THE_64: int := 0x1_0000_0000_0000_0000

  /** A `size_t` on a 64-bit target. */
  type size_t = n: int | 0 <= n <= SIZE_MAX

  const LF: byte := 10
  const CR: byte := 13

  /** The `errno` values that the modelled code raises. Every one is positive. */
  const EAGAIN: nat := 11
  const ENOMEM: nat := 12
  const EINVAL: nat := 22
  const EPIPE: nat := 32
  const ERANGE: nat := 34
  const ENOENT: nat := 2
  const EPROTO: nat := 71
  const ENOBUFS: nat := 105

  datatype Option<+T> = None | Some(value: T)

  datatype Result<+T> = Ok(value: T) | Err(errno: nat)

  function Min(a: int, b: int): int {
    if a < b then a else b
  }

  /** A `size_t` read as an `int`. */
  function AsInt(n: size_t): int {
    var low := n % 0x1_0000_0000;
    if low < 0x8000_0000 then low else low - 0x1_0000_0000
  }
}
