/**
 * Single-precision floats as the program stores them: by their 32-bit IEEE 754
 * patterns. Arithmetic on them is never interpreted here; what the model needs
 * is equality, the `>=` comparison, and the four bytes a float occupies in memory.
 */
module Float32 {

  /** An IEEE 754 binary32 value, given by its bit pattern. */
  type Float = bv32

  type Byte = bv8

  /** +0.0f */
  const PositiveZero: Float := 0x0000_0000

  /** -0.0f */
  const NegativeZero: Float := 0x8000_0000

  /** All exponent bits set and a non-zero fraction. */
  predicate IsNaN(f: Float) {
    f & 0x7F80_0000 == 0x7F80_0000 && f & 0x007F_FFFF != 0
  }

  /**
   * The position of a non-NaN value on the extended real line, as an integer
   * with the same order: sign and magnitude are stored separately, and the
   * magnitude bits of non-negative floats increase with the value. +0 and -0
   * share the key 0.
   */
  function OrderKey(f: Float): int {
    var magnitude := (f & 0x7FFF_FFFF) as int;
    if f & 0x8000_0000 == 0 then magnitude else -magnitude
  }

  /** The IEEE comparison `a >= b`; false as soon as either operand is NaN. */
  predicate AtLeast(a: Float, b: Float) {
    !IsNaN(a) && !IsNaN(b) && OrderKey(a) >= OrderKey(b)
  }

  /** +inf */
  const PositiveInfinity: Float := 0x7F80_0000

  /** -inf */
  const NegativeInfinity: Float := 0xFF80_0000

  /**
   * The IEEE `>=`: false as soon as an operand is NaN, a total preorder on
   * the other values in which +0 and -0 are equal, with +inf on top and -inf
   * at the bottom, and 5.0f above 4.0f.
   */
  lemma AtLeastOrder(a: Float, b: Float, c: Float)
    ensures IsNaN(a) || IsNaN(b) ==> !AtLeast(a, b)
    ensures AtLeast(a, a) <==> !IsNaN(a)
    ensures !IsNaN(a) && !IsNaN(b) ==> AtLeast(a, b) || AtLeast(b, a)
    ensures AtLeast(a, b) && AtLeast(b, c) ==> AtLeast(a, c)
    ensures AtLeast(PositiveZero, NegativeZero) && AtLeast(NegativeZero, PositiveZero)
    ensures !IsNaN(b) ==> AtLeast(PositiveInfinity, b) && AtLeast(b, NegativeInfinity)
    ensures AtLeast(0x40A0_0000, 0x4080_0000) && !AtLeast(0x4080_0000, 0x40A0_0000)
  {
    if !IsNaN(b) {
      Infinities(b);
    }
  }

  /** +inf and -inf bound every non-NaN value. */
  lemma Infinities(b: Float)
    requires !IsNaN(b)
    ensures AtLeast(PositiveInfinity, b) && AtLeast(b, NegativeInfinity)
  {
    KeyBound(b);
    assert OrderKey(PositiveInfinity) == 0x7F80_0000;
    assert OrderKey(NegativeInfinity) == -0x7F80_0000;
  }

  /** The key of a non-NaN value lies between those of -inf and +inf. */
  lemma KeyBound(b: Float)
    requires !IsNaN(b)
    ensures -0x7F80_0000 <= OrderKey(b) <= 0x7F80_0000
  {
    MagnitudeBound(b);
    InfinityAsInt(b & 0x7FFF_FFFF);
  }

  /** A pattern at most that of +inf stays so as an integer. */
  lemma InfinityAsInt(m: bv32)
    requires m <= PositiveInfinity
    ensures m as int <= 0x7F80_0000
  {
  }

  /** No non-NaN value has a magnitude above that of infinity. */
  lemma MagnitudeBound(b: Float)
    requires !IsNaN(b)
    ensures b & 0x7FFF_FFFF <= PositiveInfinity
  {
  }

  /** A number below 256 survives the conversion to a byte. */
  lemma ByteValue(m: nat)
    requires m < 256
    ensures (m as Byte) as nat == m
  {
    assert m % 256 == m;
  }

  /** Reads four bytes in little-endian order as one float. */
  function FromBytes(b: seq<Byte>): Float
    requires |b| == 4
  {
    (b[0] as bv32) | ((b[1] as bv32) << 8) | ((b[2] as bv32) << 16) | ((b[3] as bv32) << 24)
  }

  /** Byte i of a float's pattern, counting from the least significant. */
  function ByteAt(f: Float, i: nat): Byte
    requires i < 4
    decreases i
  {
    if i == 0 then (f & 0xFF) as bv8 else ByteAt(f >> 8, i - 1)
  }

  /** The four bytes of a float in memory on a little-endian host, lowest first. */
  function ToBytes(f: Float): (r: seq<Byte>)
    ensures |r| == 4
  {
    [ByteAt(f, 0), ByteAt(f, 1), ByteAt(f, 2), ByteAt(f, 3)]
  }

  lemma ToBytesShifts(f: Float)
    ensures ToBytes(f) == [(f & 0xFF) as bv8, ((f >> 8) & 0xFF) as bv8, ((f >> 16) & 0xFF) as bv8, ((f >> 24) & 0xFF) as bv8]
  {
    assert ByteAt(f, 1) == ByteAt(f >> 8, 0);
    assert ByteAt(f, 2) == ByteAt(f >> 8, 1) == ByteAt(f >> 16, 0);
    assert ByteAt(f, 3) == ByteAt(f >> 8, 2) == ByteAt(f >> 16, 1) == ByteAt(f >> 24, 0);
  }

  /** Reading back the bytes of a float gives the same float. */
  lemma FromBytesToBytes(f: Float)
    ensures FromBytes(ToBytes(f)) == f
  {
    ToBytesShifts(f);
  }

  /** Each byte of a decoded float is recovered by the matching shift and mask. */
  lemma DecodedBytes(a: Byte, b: Byte, c: Byte, d: Byte)
    ensures (FromBytes([a, b, c, d]) & 0xFF) as bv8 == a
    ensures ((FromBytes([a, b, c, d]) >> 8) & 0xFF) as bv8 == b
    ensures ((FromBytes([a, b, c, d]) >> 16) & 0xFF) as bv8 == c
    ensures ((FromBytes([a, b, c, d]) >> 24) & 0xFF) as bv8 == d
  {
  }

  /** The other direction: every four bytes are the image of the float they encode. */
  lemma ToBytesFromBytes(b: seq<Byte>)
    requires |b| == 4
    ensures ToBytes(FromBytes(b)) == b
  {
    assert b == [b[0], b[1], b[2], b[3]];
    DecodedBytes(b[0], b[1], b[2], b[3]);
    ToBytesShifts(FromBytes(b));
  }
}
