/**
  Byte-level vocabulary shared by the wire codec and the device bridge:
  bytes, fixed-width byte arrays, the little-endian `u32` used by the
  packet header, and the Option/Result wrappers used for error paths.
 */
module Bytes {

  /** An unsigned 8-bit value (`u8`). */
  type byte = x: int | 0 <= x < 256

  /** An unsigned 32-bit value (`u32`). */
  type u32 = x: int | 0 <= x < 0x1_0000_0000

  /** An unsigned 16-bit value (`u16`), the type of the bridge's port. */
  type u16 = x: int | 0 <= x < 0x1_0000

  /** `[u8; 16]`: session ids, user ids, camera ids and auth keys. */
  type Bytes16 = s: seq<byte> | |s| == 16 witness [0, 0, 0, 0, 0, 0, 0, 0, 0, 0, 0, 0, 0, 0, 0, 0]

  /** `[u8; 6]`: a MAC address. */
  type Bytes6 = s: seq<byte> | |s| == 6 witness [0, 0, 0, 0, 0, 0]

  datatype Option<+T> = None | Some(value: T)

  datatype Result<+T, +E> = Ok(value: T) | Err(error: E)

  /** The all-zero 16-byte id (`[0; 16]`). */
  const ZeroId: Bytes16 := [0, 0, 0, 0, 0, 0, 0, 0, 0, 0, 0, 0, 0, 0, 0, 0]

  /** Value of four bytes read least significant first. */
  function LeToU32(b: seq<byte>): (x: u32)
    requires |b| == 4
    ensures x % 256 == b[0]
  {
    b[0] as int + 256 * (b[1] as int + 256 * (b[2] as int + 256 * b[3] as int))
  }

  /** The four bytes of `x`, least significant first. */
  function U32ToLe(x: u32): (b: seq<byte>)
    ensures |b| == 4
    ensures b[0] == x % 256
  {
    var r1 := x / 256;
    var r2 := r1 / 256;
    [x % 256, r1 % 256, r2 % 256, r2 / 256]
  }

  /** Writing a `u32` little-endian and reading it back gives the value. */
  lemma U32RoundTrip(x: u32)
    ensures LeToU32(U32ToLe(x)) == x
  {
    var r1 := x / 256;
    var r2 := r1 / 256;
    assert x == x % 256 + 256 * r1;
    assert r1 == r1 % 256 + 256 * r2;
    assert r2 == r2 % 256 + 256 * (r2 / 256);
  }

  /** Reading four bytes and writing the value back gives the same bytes:
      every 4-byte pattern is the encoding of exactly one `u32`. */
  lemma LeBytesRoundTrip(b: seq<byte>)
    requires |b| == 4
    ensures U32ToLe(LeToU32(b)) == b
  {
    var x := LeToU32(b);
    var hi := b[1] as int + 256 * (b[2] as int + 256 * b[3] as int);
    assert x == b[0] as int + 256 * hi;
    assert x % 256 == b[0] && x / 256 == hi;
    var top := b[2] as int + 256 * b[3] as int;
    assert hi % 256 == b[1] && hi / 256 == top;
    assert top % 256 == b[2] && top / 256 == b[3];
  }
}
