/**
 * Fixed-width integers of the AVR firmware, written out explicitly.
 *
 * Dafny integers are unbounded; the firmware computes in uint8_t, uint16_t, int16_t and
 * uint32_t. The subset types below bound the stored values, and the functions below perform
 * the wrap-around, truncation and byte packing that the C++ arithmetic performs.
 */
module Words {

  const BYTE_MOD: int := 0x100
  const U16_MOD: int := 0x1_0000
  const U32_MOD: int := 0x1_0000_0000

  type Byte = x: int | 0 <= x < 0x100
  type U16 = x: int | 0 <= x < 0x1_0000
  type U32 = x: int | 0 <= x < 0x1_0000_0000
  type I16 = x: int | -0x8000 <= x < 0x8000

  /** `a - b` on uint32_t: the difference modulo 2^32 (millis and micros stamps). */
  function Sub32(a: U32, b: U32): (r: U32)
    ensures a >= b ==> r == a - b
    ensures a < b ==> r == a - b + U32_MOD
  {
    (a - b) % U32_MOD
  }

  /** `a + d` on uint32_t, for a non-negative offset d. */
  function Add32(a: U32, d: nat): (r: U32)
    ensures Sub32(r, a) == d % U32_MOD
  {
    (a + d) % U32_MOD
  }

  /** Conversion of any integer to int16_t: two's-complement wrap into [-2^15, 2^15). */
  function ToInt16(x: int): (r: I16)
    ensures -0x8000 <= x < 0x8000 ==> r == x
    ensures (x - r) % U16_MOD == 0
  {
    (x + 0x8000) % U16_MOD - 0x8000
  }

  /** Integer division as C++ performs it: the quotient is truncated toward zero. */
  function CDiv(a: int, d: int): (q: int)
    requires d > 0
    ensures a >= 0 ==> q == a / d
    ensures a < 0 ==> q == -((-a) / d)
  {
    if a >= 0 then a / d else -((-a) / d)
  }

  /** `t & 0xFF` for an int16_t t: the low byte of its two's-complement form. */
  function LowByte(t: I16): (b: Byte)
    ensures (t - b) % BYTE_MOD == 0
  {
    t % BYTE_MOD
  }

  /**
   * `(t >> 8) & 0xFF` for an int16_t t. The shift is arithmetic (it rounds toward minus
   * infinity), which is Dafny's `/` by a positive divisor.
   */
  function HighByte(t: I16): (b: Byte)
    // the high byte, read as a signed int8, carries the multiple of 256 that the low byte leaves
    ensures t == (if b < 0x80 then b else b - BYTE_MOD) * BYTE_MOD + LowByte(t)
  {
    var q := t / BYTE_MOD;
    assert -128 <= q < 128;
    q % BYTE_MOD
  }

  /**
   * `lo | (hi << 8)` for two bytes, read as uint16_t. The two operands occupy disjoint bits,
   * so the bitwise or is the sum.
   */
  function U16OfBytes(lo: Byte, hi: Byte): (r: U16)
    ensures r % BYTE_MOD == lo && r / BYTE_MOD == hi
  {
    lo + hi * BYTE_MOD
  }

  /** `static_cast<int16_t>(lo | (hi << 8))`: a little-endian two's-complement int16. */
  function I16OfBytes(lo: Byte, hi: Byte): (r: I16)
    ensures r >= 0 <==> hi < 0x80
  {
    ToInt16(U16OfBytes(lo, hi))
  }

  /** Splitting an int16 into its low and high byte and reading them back gives it back. */
  lemma Int16BytesRoundTrip(t: I16)
    ensures I16OfBytes(LowByte(t), HighByte(t)) == t
  {
    var lo, q := t % BYTE_MOD, t / BYTE_MOD;
    assert t == q * BYTE_MOD + lo;
    assert -128 <= q < 128;
    if q >= 0 {
      assert HighByte(t) == q;
      assert U16OfBytes(lo, q) == t;
    } else {
      assert HighByte(t) == q + BYTE_MOD;
      assert U16OfBytes(lo, q + BYTE_MOD) == t + U16_MOD;
    }
  }

  /** Reading two bytes and splitting the int16 again gives back the same two bytes. */
  lemma BytesInt16RoundTrip(lo: Byte, hi: Byte)
    ensures LowByte(I16OfBytes(lo, hi)) == lo && HighByte(I16OfBytes(lo, hi)) == hi
  {
    var t := I16OfBytes(lo, hi);
    if hi < 0x80 {
      assert t == lo + hi * BYTE_MOD;
      assert t / BYTE_MOD == hi;
    } else {
      assert t == lo + (hi - BYTE_MOD) * BYTE_MOD;
      assert t / BYTE_MOD == hi - BYTE_MOD;
    }
  }
}
