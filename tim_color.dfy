/** The PlayStation 15-bit colour word (`0bSBBBBBGGGGGRRRRR`, S the
    semitransparency bit) and its conversion to 8-bit RGBA. */
module TimColor {
  import opened Common
  import opened LittleEndian

  datatype Rgba = Rgba(r: byte, g: byte, b: byte, a: byte)

  /** `(c5 << 3) | (c5 >> 2)`: a 5-bit channel widened to 8 bits by
      repeating its top bits in the new low bits. */
  function Expand5(c5: nat): (v: byte)
    requires c5 < 32
    ensures v == c5 * 8 + c5 / 4
    ensures v / 8 == c5 && v % 8 == c5 / 4
  {
    var x := c5 as bv8;
    ShiftsOfChannel(x);
    DisjointOr(x);
    ((x << 3) | (x >> 2)) as int
  }

  /** On a 5-bit value the shifts are a multiplication and a division. */
  lemma ShiftsOfChannel(x: bv8)
    requires x < 32
    ensures (x << 3) as int == x as int * 8 && (x >> 2) as int == x as int / 4
  {
  }

  /** The two shifted copies share no bit, so or-ing them adds them. */
  lemma DisjointOr(x: bv8)
    requires x < 32
    ensures (x << 3) | (x >> 2) == (x << 3) + (x >> 2)
  {
  }

  /** The widening keeps the ends of the range and the order of values. */
  lemma Expand5Range(c5: nat, d5: nat)
    requires c5 < 32 && d5 < 32
    ensures Expand5(0) == 0 && Expand5(31) == 255
    ensures c5 < d5 ==> Expand5(c5) < Expand5(d5)
  {
  }

  /** `ps1_15bit_to_rgba(c)`. Python's shifts and masks on an int are
      floor division and Euclidean remainder by powers of two. */
  function Ps1ToRgba(c: int): (col: Rgba)
    ensures col.r / 8 == c % 32
    ensures col.g / 8 == (c / 32) % 32
    ensures col.b / 8 == (c / 1024) % 32
    // the low three bits of each channel repeat the top three bits of its field
    ensures col.r == (c % 32) * 8 + (c % 32) / 4
    ensures col.g == ((c / 32) % 32) * 8 + ((c / 32) % 32) / 4
    ensures col.b == ((c / 1024) % 32) * 8 + ((c / 1024) % 32) / 4
    ensures col.a == 0 || col.a == 255
    ensures col.a == 0 <==> c % 0x8000 == 0
  {
    var r5 := c % 32;
    var g5 := (c / 32) % 32;
    var b5 := (c / 1024) % 32;
    Rgba(Expand5(r5), Expand5(g5), Expand5(b5), if c % 0x8000 == 0 then 0 else 255)
  }

  /** Repacks the top five bits of each channel into a 15-bit word. */
  function Rgb555(col: Rgba): nat
  {
    col.r / 8 + (col.g / 8) * 32 + (col.b / 8) * 1024
  }

  /** The three 5-bit fields make up the low 15 bits. */
  lemma FieldsMakeLow15Bits(c: int)
    ensures c % 0x8000 == c % 32 + ((c / 32) % 32) * 32 + ((c / 1024) % 32) * 1024
  {
    var r5, g5, b5 := c % 32, (c / 32) % 32, (c / 1024) % 32;
    var q := c / 32;
    var q2 := q / 32;
    DivUnique(c, 1024, q2, g5 * 32 + r5);
    DivUnique(c, 0x8000, q2 / 32, b5 * 1024 + g5 * 32 + r5);
  }

  /** The conversion loses nothing of the low 15 bits: they are recovered
      from the colour. */
  lemma Ps1ToRgbaKeepsLow15Bits(c: int)
    ensures Rgb555(Ps1ToRgba(c)) == c % 0x8000
  {
    FieldsMakeLow15Bits(c);
  }

  /** Adding bit 15 leaves every field and the low 15 bits as they were. */
  lemma Bit15LeavesFields(c: int)
    ensures (c + 0x8000) % 32 == c % 32
    ensures ((c + 0x8000) / 32) % 32 == (c / 32) % 32
    ensures ((c + 0x8000) / 1024) % 32 == (c / 1024) % 32
    ensures (c + 0x8000) % 0x8000 == c % 0x8000
  {
    var q := c / 32;
    DivUnique(c + 0x8000, 32, q + 1024, c % 32);
    DivUnique(q + 1024, 32, q / 32 + 32, q % 32);
    var p := c / 1024;
    DivUnique(c + 0x8000, 1024, p + 32, c % 1024);
    DivUnique(p + 32, 32, p / 32 + 1, p % 32);
    DivUnique(c + 0x8000, 0x8000, c / 0x8000 + 1, c % 0x8000);
  }

  /** Bit 15 (the semitransparency flag) does not change the colour. */
  lemma Ps1ToRgbaIgnoresBit15(c: int)
    ensures Ps1ToRgba(c + 0x8000) == Ps1ToRgba(c)
  {
    Bit15LeavesFields(c);
  }
}
