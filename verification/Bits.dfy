/**
 * Bitwise operators on bytes, and the facts that turn the masks and shifts of the TLV header
 * byte into arithmetic on its fields.
 */
module Bits {

  type byte = b: int | 0 <= b < 256

  lemma Doubled(v: bv8)
    ensures v as int < 128 ==> (v << 1) as int == 2 * v as int && ((v << 1) | 1) as int == 2 * v as int + 1
  {
  }

  /** The bits of a byte. */
  function Vector(b: byte): (v: bv8)
    ensures v as int == b
  {
    if b == 0 then 0
    else
      Doubled(Vector(b / 2));
      if b % 2 == 0 then Vector(b / 2) << 1 else (Vector(b / 2) << 1) | 1
  }

  lemma SameVector(v: bv8, w: bv8)
    requires v as int == w as int
    ensures v == w
  {
  }

  function Or(a: byte, b: byte): byte {
    (Vector(a) | Vector(b)) as int
  }

  function And(a: byte, mask: byte): byte {
    (Vector(a) & Vector(mask)) as int
  }

  lemma TypeBits(v: bv8)
    ensures (v & 0xC0) as int == v as int / 64 * 64
  {
  }

  lemma IdWidthBit(v: bv8)
    ensures (v & 0x20) as int == v as int / 32 % 2 * 32
  {
  }

  lemma LengthWidthBits(v: bv8)
    ensures (v & 0x18) as int == v as int / 8 % 4 * 8
  {
  }

  lemma ShortLengthBits(v: bv8)
    ensures (v & 0x07) as int == v as int % 8
  {
  }

  lemma TypeMask(b: byte)
    ensures And(b, 0xC0) == b / 64 * 64
  {
    SameVector(Vector(0xC0), 0xC0);
    TypeBits(Vector(b));
  }

  lemma IdWidthMask(b: byte)
    ensures And(b, 0x20) == b / 32 % 2 * 32
  {
    SameVector(Vector(0x20), 0x20);
    IdWidthBit(Vector(b));
  }

  lemma LengthWidthMask(b: byte)
    ensures And(b, 0x18) == b / 8 % 4 * 8
  {
    SameVector(Vector(0x18), 0x18);
    LengthWidthBits(Vector(b));
  }

  lemma ShortLengthMask(b: byte)
    ensures And(b, 0x07) == b % 8
  {
    SameVector(Vector(0x07), 0x07);
    ShortLengthBits(Vector(b));
  }

  // ---------------------------------------------------------------- writing fields

  lemma DisjointBits(v: bv8, w: bv8)
    requires v & w == 0
    ensures (v | w) as int == v as int + w as int
  {
  }

  lemma ShortBits(v: bv8, w: bv8)
    ensures v & 7 == 0 && w & 7 == w ==> v & w == 0
    ensures v & 7 == w ==> v | w == v
  {
  }

  lemma LengthWidthClear(v: bv8)
    requires v & 0x18 == 0
    ensures v & 0x08 == 0 && v & 0x10 == 0
  {
  }

  /** The type and id-width fields of a header byte, before any length is written into it. */
  predicate HighField(b: byte) {
    b % 32 == 0
  }

  lemma FieldArithmetic(high: int, low: int)
    requires high % 8 == 0 && 0 <= low < 8
    ensures (high + low) % 8 == low && (high + low) / 8 == high / 8
    ensures high % 32 == 0 ==> high / 8 % 4 == 0 && (high % 64 == 32 <==> high / 32 % 2 == 1)
  {
  }

  /** The lengths below eight go into the three free bits. */
  lemma OrShort(high: byte, low: byte)
    requires high % 8 == 0 && low < 8
    ensures Or(high, low) == high + low
  {
    var v, w := Vector(high), Vector(low);
    ShortLengthBits(v);
    ShortLengthBits(w);
    SameVector(v & 7, 0);
    SameVector(w & 7, w);
    ShortBits(v, w);
    DisjointBits(v, w);
  }

  lemma OrShortAgain(high: byte, low: byte)
    requires high % 8 == 0 && low < 8 && high + low < 256
    ensures Or(high + low, low) == high + low
  {
    FieldArithmetic(high, low);
    var v, w := Vector(high + low), Vector(low);
    ShortLengthBits(v);
    SameVector(v & 7, w);
    ShortBits(v, w);
  }

  /** A count of length bytes goes into its field while that is clear. */
  lemma OrLengthWidth(b: byte, width: byte)
    requires b / 8 % 4 == 0 && width in {0x08, 0x10, 0x18}
    ensures Or(b, width) == b + width
  {
    var v: bv8 := Vector(b);
    LengthWidthBits(v);
    SameVector(v & 0x18, 0);
    LengthWidthClear(v);
    SameVector(Vector(0x08), 0x08);
    SameVector(Vector(0x10), 0x10);
    SameVector(Vector(0x18), 0x18);
    DisjointBits(v, Vector(width));
  }

  lemma OrIdWidth(b: byte)
    ensures Or(b, 0x20) == if b / 32 % 2 == 1 then b else b + 0x20
  {
    var v := Vector(b);
    IdWidthBit(v);
    SameVector(Vector(0x20), 0x20);
    if b / 32 % 2 == 0 {
      SameVector(v & 0x20, 0);
      DisjointBits(v, 0x20);
    } else {
      SameVector(v & 0x20, 0x20);
      IdWidthSet(v);
    }
  }

  lemma IdWidthSet(v: bv8)
    requires v & 0x20 == 0x20
    ensures v | 0x20 == v
  {
  }

  lemma OrType(code: byte)
    requires code in {0, 64, 128, 192}
    ensures Or(0, code) == code
    ensures Or(code, 0) == code && Or(code, 0x20) == code + 0x20
  {
    OrIdWidth(code);
    SameVector(Vector(0), 0);
    DisjointBits(0, Vector(code));
    DisjointBits(Vector(code), 0);
  }

  lemma OrOneLengthByte(high: byte, low: byte)
    requires HighField(high) && low < 8
    ensures Or(high + low, 8) == high + low + 8
  {
    hide Or;
    FieldArithmetic(high, low);
    OrLengthWidth(high + low, 8);
  }

  /** Four length bytes do not fit their field: the shifted count lands on the id-width bit. */
  lemma OrMoreLengthBytes(high: byte)
    requires HighField(high)
    ensures Or(high, 16) == high + 16 && Or(high, 24) == high + 24
    ensures Or(high, 32) == if high % 64 == 32 then high else high + 32
  {
    hide Or;
    FieldArithmetic(high, 0);
    OrLengthWidth(high, 16);
    OrLengthWidth(high, 24);
    OrIdWidth(high);
  }
}
