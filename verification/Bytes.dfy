/**
 Go strings and byte slices are sequences of bytes; fixed-width integers are
 written little-endian, as encoding/binary does.
 */
module Bytes {

  type Byte = x: int | 0 <= x < 256
  type ByteString = seq<Byte>
  type Int64 = x: int | -0x8000_0000_0000_0000 <= x < 0x8000_0000_0000_0000
  type UInt32 = x: int | 0 <= x < 0x1_0000_0000

  /** Two's-complement reinterpretations between int64 and uint64. */
  function Unsigned(x: Int64): (n: nat)
    ensures n < Pow256(8)
  {
    if x < 0 then x + 0x1_0000_0000_0000_0000 else x
  }

  function Signed(n: nat): (x: Int64)
    requires n < Pow256(8)
    ensures Unsigned(x) == n
  {
    if n < 0x8000_0000_0000_0000 then n else n - 0x1_0000_0000_0000_0000
  }

  function Pow256(width: nat): (p: nat)
    ensures p > 0
    ensures width == 4 ==> p == 0x1_0000_0000
    ensures width == 8 ==> p == 0x1_0000_0000_0000_0000
  {
    if width == 0 then 1
    else if width == 4 then assert Pow256(3) == 0x100_0000; 256 * Pow256(3)
    else if width == 8 then assert Pow256(7) == 0x100_0000_0000_0000; 256 * Pow256(7)
    else 256 * Pow256(width - 1)
  }

  /** `width` little-endian bytes of n (the low-order ones when n is larger). */
  function LittleEndian(width: nat, n: nat): (b: ByteString)
    ensures |b| == width
  {
    if width == 0 then [] else [n % 256] + LittleEndian(width - 1, n / 256)
  }

  function FromLittleEndian(b: ByteString): (n: nat)
    ensures n < Pow256(|b|)
  {
    if b == [] then 0 else b[0] + 256 * FromLittleEndian(b[1..])
  }

  lemma {:induction false} ReadsWhatWasWritten(width: nat, n: nat)
    requires n < Pow256(width)
    ensures FromLittleEndian(LittleEndian(width, n)) == n
  {
    if width > 0 {
      var b := LittleEndian(width, n);
      assert b[1..] == LittleEndian(width - 1, n / 256);
      assert n / 256 < Pow256(width - 1);
      ReadsWhatWasWritten(width - 1, n / 256);
    }
  }

  lemma {:induction false} WritesWhatWasRead(b: ByteString)
    ensures LittleEndian(|b|, FromLittleEndian(b)) == b
  {
    if b != [] {
      WritesWhatWasRead(b[1..]);
      assert FromLittleEndian(b) % 256 == b[0];
      assert FromLittleEndian(b) / 256 == FromLittleEndian(b[1..]);
    }
  }
}
