/**
 * Byte-level vocabulary shared by the host serialiser and the kernel's buffer
 * layouts: bytes, unsigned 32-bit integers in the host's (little-endian) byte
 * order, and IEEE 754 binary64 values treated as opaque 8-byte patterns.
 */
module Bytes {

  newtype byte = x: int | 0 <= x < 256

  newtype uint32 = x: int | 0 <= x < 0x1_0000_0000

  const DoubleSize: nat := 8

  /** A double-precision value, known only by its eight bytes in memory order. */
  type Double = s: seq<byte> | |s| == 8 witness [0, 0, 0, 0, 0, 0, 0, 0]

  /** +0.0, whose binary64 encoding is eight zero bytes. */
  const PositiveZero: Double := [0, 0, 0, 0, 0, 0, 0, 0]

  function Zeros(n: nat): (z: seq<byte>)
    ensures |z| == n
    ensures forall i :: 0 <= i < n ==> z[i] == 0
  {
    seq(n, _ => 0 as byte)
  }

  /** The four bytes of a uint32 in little-endian order (what struct.pack's 'I' writes on the host). */
  function U32ToBytes(x: uint32): (b: seq<byte>)
    ensures |b| == 4
  {
    var v := x as int;
    [(v % 256) as byte, (v / 256 % 256) as byte, (v / 65536 % 256) as byte, (v / 16777216) as byte]
  }

  function BytesToU32(b: seq<byte>): uint32
    requires |b| == 4
  {
    (b[0] as int + 256 * b[1] as int + 65536 * b[2] as int + 16777216 * b[3] as int) as uint32
  }

  lemma U32RoundTrip(x: uint32)
    ensures BytesToU32(U32ToBytes(x)) == x
  {
    var v := x as int;
    var b := U32ToBytes(x);
    assert v / 16777216 < 256;
    assert v % 16777216 == v / 65536 % 256 * 65536 + v % 65536;
    assert v % 65536 == v / 256 % 256 * 256 + v % 256;
    assert v == b[0] as int + 256 * b[1] as int + 65536 * b[2] as int + 16777216 * b[3] as int;
  }

  lemma BytesRoundTrip(b: seq<byte>)
    requires |b| == 4
    ensures U32ToBytes(BytesToU32(b)) == b
  {
    var v := BytesToU32(b) as int;
    var b0, b1, b2, b3 := b[0] as int, b[1] as int, b[2] as int, b[3] as int;
    assert v == b0 + 256 * (b1 + 256 * b2 + 65536 * b3);
    assert v / 256 == b1 + 256 * b2 + 65536 * b3;
    assert v == (b0 + 256 * b1) + 65536 * (b2 + 256 * b3);
    assert v / 65536 == b2 + 256 * b3;
    assert v == (b0 + 256 * b1 + 65536 * b2) + 16777216 * b3;
    assert v / 16777216 == b3;
  }

  lemma SliceOfSlice<T>(s: seq<T>, i: nat, j: nat, x: nat, y: nat)
    requires i <= j <= |s| && x <= y <= j - i
    ensures s[i..j][x..y] == s[i + x..i + y]
  {
    var inner := s[i..j];
    forall k | 0 <= k < y - x ensures inner[x..y][k] == s[i + x..i + y][k] {
      assert inner[x..y][k] == inner[x + k] == s[i + x + k];
    }
  }
}
