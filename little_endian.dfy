/** Little-endian integers inside byte strings: `struct.unpack_from("<H")`,
    `struct.unpack_from("<I")` and the matching `struct.pack` calls of
    timlib.py. */
module LittleEndian {

  /** One byte of a `bytes` object. */
  type byte = x: int | 0 <= x < 256

  /** `u16(data, off)`: the unsigned 16-bit little-endian value at `off`. */
  function U16(data: seq<byte>, off: nat): (v: nat)
    requires off + 2 <= |data|
    ensures v < 0x1_0000
    ensures v % 256 == data[off] && v / 256 == data[off + 1]
  {
    data[off] as int + data[off + 1] as int * 256
  }

  /** `u32(data, off)`: the unsigned 32-bit little-endian value at `off`. */
  function U32(data: seq<byte>, off: nat): (v: nat)
    requires off + 4 <= |data|
    ensures v < 0x1_0000_0000
    ensures v % 0x1_0000 == U16(data, off) && v / 0x1_0000 == U16(data, off + 2)
  {
    U16(data, off) + U16(data, off + 2) * 0x1_0000
  }

  /** `struct.pack("<H", v)`. */
  function Le16(v: nat): (s: seq<byte>)
    requires v < 0x1_0000
    ensures |s| == 2
  {
    [v % 256, v / 256]
  }

  /** `struct.pack("<I", v)`. */
  function Le32(v: nat): (s: seq<byte>)
    requires v < 0x1_0000_0000
    ensures |s| == 4
  {
    Le16(v % 0x1_0000) + Le16(v / 0x1_0000)
  }

  /** Reading back what was packed gives the value (16 bits). */
  lemma U16OfLe16(v: nat, prefix: seq<byte>, suffix: seq<byte>)
    requires v < 0x1_0000
    ensures U16(prefix + Le16(v) + suffix, |prefix|) == v
  {
    var s := prefix + Le16(v) + suffix;
    assert s[|prefix|] == v % 256 && s[|prefix| + 1] == v / 256;
  }

  /** Reading back what was packed gives the value (32 bits). */
  lemma U32OfLe32(v: nat, prefix: seq<byte>, suffix: seq<byte>)
    requires v < 0x1_0000_0000
    ensures U32(prefix + Le32(v) + suffix, |prefix|) == v
  {
    var s := prefix + Le32(v) + suffix;
    assert s == prefix + Le16(v % 0x1_0000) + (Le16(v / 0x1_0000) + suffix);
    U16OfLe16(v % 0x1_0000, prefix, Le16(v / 0x1_0000) + suffix);
    assert s == (prefix + Le16(v % 0x1_0000)) + Le16(v / 0x1_0000) + suffix;
    U16OfLe16(v / 0x1_0000, prefix + Le16(v % 0x1_0000), suffix);
  }

  /** Reading the front of a packed value gives it back (16 bits). */
  lemma U16Head(v: nat, suffix: seq<byte>)
    requires v < 0x1_0000
    ensures U16(Le16(v) + suffix, 0) == v
  {
    var s := Le16(v) + suffix;
    assert s[0] == v % 256 && s[1] == v / 256;
  }

  /** Reading the front of a packed value gives it back (32 bits). */
  lemma U32Head(v: nat, suffix: seq<byte>)
    requires v < 0x1_0000_0000
    ensures U32(Le32(v) + suffix, 0) == v
  {
    var lo, hi := Le16(v % 0x1_0000), Le16(v / 0x1_0000);
    assert Le32(v) + suffix == lo + (hi + suffix);
    U16Head(v % 0x1_0000, hi + suffix);
    U16Head(v / 0x1_0000, suffix);
    U16Shift(lo, hi + suffix, 0);
  }

  /** A read inside the tail of a concatenation is a read of the tail. */
  lemma U16Shift(p: seq<byte>, s: seq<byte>, k: nat)
    requires k + 2 <= |s|
    ensures U16(p + s, |p| + k) == U16(s, k)
  {
    assert (p + s)[|p| + k] == s[k] && (p + s)[|p| + k + 1] == s[k + 1];
  }

  /** A read inside the tail of a concatenation is a read of the tail. */
  lemma U32Shift(p: seq<byte>, s: seq<byte>, k: nat)
    requires k + 4 <= |s|
    ensures U32(p + s, |p| + k) == U32(s, k)
  {
    U16Shift(p, s, k);
    U16Shift(p, s, k + 2);
  }

  /** Packing what was read gives the bytes back (16 bits). */
  lemma Le16OfU16(data: seq<byte>, off: nat)
    requires off + 2 <= |data|
    ensures Le16(U16(data, off)) == data[off..off + 2]
  {
  }

  /** Packing what was read gives the bytes back (32 bits). */
  lemma Le32OfU32(data: seq<byte>, off: nat)
    requires off + 4 <= |data|
    ensures Le32(U32(data, off)) == data[off..off + 4]
  {
    Le16OfU16(data, off);
    Le16OfU16(data, off + 2);
    assert data[off..off + 4] == data[off..off + 2] + data[off + 2..off + 4];
  }
}
