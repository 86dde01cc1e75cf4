/**
 * Fixed-width integers as the Go code sees them (`byte`, `uint32`, `int32`,
 * `int64`), their little-endian byte encodings, and the two's-complement
 * conversions Go performs when it writes a signed value as unsigned bytes.
 */
module Bytes {

  type Byte = b: int | 0 <= b < 0x100

  const TWO_31: int := 0x8000_0000
  const TWO_32: int := 0x1_0000_0000
  const TWO_63: int := 0x8000_0000_0000_0000
  const TWO_64: int := 0x1_0000_0000_0000_0000

  type Uint32 = x: int | 0 <= x < TWO_32
  type Int32 = x: int | -TWO_31 <= x < TWO_31
  type Uint64 = x: int | 0 <= x < TWO_64
  type Int64 = x: int | -TWO_63 <= x < TWO_63

  const MAX_INT64: Int64 := TWO_63 - 1
  const MIN_INT64: Int64 := -TWO_63

  /** 256 to the power n: the number of values `n` bytes can hold. */
  function Pow256(n: nat): (p: nat)
    ensures p > 0
  {
    if n == 0 then 1 else 256 * Pow256(n - 1)
  }

  /** The powers of 256 the fixed-width fields use. */
  lemma Pow256Widths()
    ensures Pow256(1) == 0x100 && Pow256(2) == 0x1_0000 && Pow256(4) == TWO_32 && Pow256(8) == TWO_64
  {
    assert Pow256(1) == 0x100;
    assert Pow256(2) == 0x1_0000;
    assert Pow256(3) == 0x100_0000;
    assert Pow256(4) == TWO_32;
    assert Pow256(5) == 0x100_0000_0000;
    assert Pow256(6) == 0x1_0000_0000_0000;
    assert Pow256(7) == 0x100_0000_0000_0000;
  }

  /**
   * The `width` low-order bytes of `x`, least significant first, as
   * `binary.LittleEndian.PutUint*` writes them (higher bytes are dropped).
   */
  function LE(x: nat, width: nat): (r: seq<Byte>)
    ensures |r| == width
  {
    if width == 0 then [] else [x % 256] + LE(x / 256, width - 1)
  }

  /** The number a little-endian byte string stands for. */
  function FromLE(s: seq<Byte>): (x: nat)
    ensures x < Pow256(|s|)
  {
    if s == [] then 0 else s[0] + 256 * FromLE(s[1..])
  }

  /** Reading back `width` little-endian bytes recovers any value that fits in them. */
  lemma {:induction false} FromLEOfLE(x: nat, width: nat)
    requires x < Pow256(width)
    ensures FromLE(LE(x, width)) == x
  {
    if width > 0 {
      assert x / 256 < Pow256(width - 1);
      FromLEOfLE(x / 256, width - 1);
      assert LE(x, width)[1..] == LE(x / 256, width - 1);
    }
  }

  /** `uint32(x)` for an `int32` x: two's complement. */
  function Unsigned32(x: Int32): (u: Uint32)
    ensures x >= 0 ==> u == x
    ensures x < 0 ==> u >= TWO_31
  {
    if x < 0 then x + TWO_32 else x
  }

  /** `int32(u)` for a `uint32` u: the inverse of Unsigned32. */
  function Signed32(u: Uint32): (x: Int32)
    ensures Unsigned32(x) == u
  {
    if u >= TWO_31 then u - TWO_32 else u
  }

  /** `uint64(x)` for an `int64` x: two's complement. */
  function Unsigned64(x: Int64): (u: Uint64)
    ensures x >= 0 ==> u == x
    ensures x < 0 ==> u >= TWO_63
  {
    if x < 0 then x + TWO_64 else x
  }

  /** `int64(u)` for a `uint64` u: the inverse of Unsigned64. */
  function Signed64(u: Uint64): (x: Int64)
    ensures Unsigned64(x) == u
  {
    if u >= TWO_63 then u - TWO_64 else u
  }

  /** Converting to unsigned and back is the identity. */
  lemma SignedUnsigned32(x: Int32)
    ensures Signed32(Unsigned32(x)) == x
  {
  }

  lemma SignedUnsigned64(x: Int64)
    ensures Signed64(Unsigned64(x)) == x
  {
  }

  /**
   * The `int64` that Go's wrapping arithmetic yields for the mathematical
   * result `x`: the unique value in range congruent to `x` modulo 2^64.
   */
  function Wrap64(x: int): (r: Int64)
    ensures r % TWO_64 == x % TWO_64
    ensures MIN_INT64 <= x <= MAX_INT64 ==> r == x
  {
    (x + TWO_63) % TWO_64 - TWO_63
  }
}
