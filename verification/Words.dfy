/** Fixed-width integers of the MicroBlaze target: u8, u16, u32, s16 and s32 of xil_types.h,
    and the narrowing conversions C performs between them. */
module Words {

  type u8 = x: int | 0 <= x < 0x100
  type u16 = x: int | 0 <= x < 0x1_0000
  type u32 = x: int | 0 <= x < 0x1_0000_0000
  type s16 = x: int | -0x8000 <= x < 0x8000
  type s32 = x: int | -0x8000_0000 <= x < 0x8000_0000

  /** The conversion `(u16) v`. */
  function U16(v: int): u16 {
    v % 0x1_0000
  }

  /** The conversion `(s16) v`: keep the low 16 bits and read them as two's complement. */
  function S16(v: int): s16 {
    (v + 0x8000) % 0x1_0000 - 0x8000
  }

  /** A 32-bit signed result, wrapped as gcc does. */
  function S32(v: int): s32 {
    (v + 0x8000_0000) % 0x1_0000_0000 - 0x8000_0000
  }

  /** C division of signed integers: the quotient is truncated toward zero. */
  function TruncatedQuotient(a: int, b: int): int
    requires b != 0
  {
    if a >= 0 then (if b > 0 then a / b else -(a / -b))
    else (if b > 0 then -(-a / b) else -a / -b)
  }

  /** S16 is the only 16-bit value congruent to its argument, so it is the identity exactly on the 16-bit range. */
  lemma S16Characterised(v: int, r: s16)
    ensures r == S16(v) <==> (r - v) % 0x1_0000 == 0
    ensures S16(v) == v <==> -0x8000 <= v < 0x8000
  {
  }

  lemma S32Characterised(v: int, r: s32)
    ensures r == S32(v) <==> (r - v) % 0x1_0000_0000 == 0
  {
  }

  /** Wrapping early or late makes no difference to a sum. */
  lemma S16Absorbs(a: int, b: int)
    ensures S16(S16(a) + b) == S16(a + b)
  {
  }

  /** A 16-bit value survives masking to 16 bits and casting back, and widening and narrowing again. */
  lemma S16OfNarrow(c: s16)
    ensures S16(U16(c)) == c && S16(c) == c
  {
  }

  lemma S16Shift(v: int, q: int)
    ensures S16(v + q * 0x1_0000) == S16(v)
  {
  }

  /** Going through 32 bits first does not change the low 16. */
  lemma S16OfS32(v: int)
    ensures S16(S32(v)) == S16(v)
  {
    var q := (v + 0x8000_0000) / 0x1_0000_0000;
    assert S32(v) == v - q * 0x1_0000_0000;
    S16Shift(v, -q * 0x1_0000);
  }

  /** The whole path of an update: mask, cast, add in 32 bits, narrow, narrow again. */
  lemma SumStored(c: s16, error: s32)
    ensures S16(S16(S32(S16(U16(c)) + error))) == S16(c + error)
  {
    hide S16, S32, U16;
    S16OfNarrow(c);
    S16OfS32(c + error);
    S16OfNarrow(S16(c + error));
  }
}
