/** Fixed-point numbers with six fractional bits (`fxp6`): a signed 32-bit word
    holding the value times 64. The bit operations of the original are written
    here by their two's-complement meaning: the low six bits of a word are its
    Euclidean remainder by 64, clearing them subtracts that remainder, and an
    arithmetic shift right by six is floor division by 64 (Dafny's `/` and `%`
    on `int` are Euclidean, which for the positive divisor 64 is floor). */
module Fxp {

  type I32 = x: int | -0x8000_0000 <= x < 0x8000_0000

  datatype Fxp6 = Fxp6(raw: I32)

  /** `fxp6::new`: wraps a raw word without scaling. */
  function New(x: I32): Fxp6 { Fxp6(x) }

  /** `fxp6::i32`: `raw >> 6`, the integer part rounded towards minus infinity. */
  function ToI32(x: Fxp6): (r: I32)
    ensures r * 64 <= x.raw < r * 64 + 64
  {
    x.raw / 64
  }

  /** `fxp6::trunc`: `raw & !63`, the integer part kept in fixed point. */
  function Trunc(x: Fxp6): (r: Fxp6)
    ensures r.raw <= x.raw < r.raw + 64
  {
    Fxp6(x.raw - x.raw % 64)
  }

  /** `fxp6::fract`: `raw & 63`, the six fractional bits. */
  function Fract(x: Fxp6): (r: Fxp6)
    ensures 0 <= r.raw <= 63
  {
    Fxp6(x.raw % 64)
  }

  /** The integer and fractional parts add back up to the value, negative values included. */
  lemma TruncPlusFract(x: Fxp6)
    ensures Trunc(x).raw + Fract(x).raw == x.raw
  {
  }

  /** The integer part is a multiple of 64 below the value, and `i32` is that multiple divided by 64. */
  lemma TruncIsScaledI32(x: Fxp6)
    ensures Trunc(x).raw % 64 == 0
    ensures Trunc(x).raw == ToI32(x) * 64
    ensures ToI32(x) == Trunc(x).raw / 64
  {
  }

  /** `trunc` and `fract` are idempotent and each annihilates the other. */
  lemma TruncFractIdempotent(x: Fxp6)
    ensures Trunc(Trunc(x)) == Trunc(x)
    ensures Fract(Fract(x)) == Fract(x)
    ensures Fract(Trunc(x)).raw == 0
    ensures Trunc(Fract(x)).raw == 0
  {
  }

  /** Two values with the same integer and fractional parts are equal: the split loses nothing. */
  lemma SplitIsInjective(x: Fxp6, y: Fxp6)
    requires Trunc(x) == Trunc(y) && Fract(x) == Fract(y)
    ensures x == y
  {
    TruncPlusFract(x);
    TruncPlusFract(y);
  }

  /** Adding whole pixels (multiples of 64) moves the integer part and keeps the subpixel part. */
  lemma FractIgnoresWholePixels(x: Fxp6, k: int)
    requires -0x8000_0000 <= x.raw + 64 * k < 0x8000_0000
    ensures Fract(Fxp6(x.raw + 64 * k)) == Fract(x)
    ensures Trunc(Fxp6(x.raw + 64 * k)).raw == Trunc(x).raw + 64 * k
    ensures ToI32(Fxp6(x.raw + 64 * k)) == ToI32(x) + k
  {
    var y := x.raw + 64 * k;
    assert y == (x.raw / 64 + k) * 64 + x.raw % 64;
  }

  /** On a negative word the bit semantics differ from truncation towards zero:
      -1 (that is -1/64 px) has integer part -64 (-1 px) and fraction 63. */
  lemma NegativeValues()
    ensures Trunc(Fxp6(-1)).raw == -64 && Fract(Fxp6(-1)).raw == 63 && ToI32(Fxp6(-1)) == -1
    ensures Trunc(Fxp6(-65)).raw == -128 && Fract(Fxp6(-65)).raw == 63
    ensures Trunc(Fxp6(130)).raw == 128 && Fract(Fxp6(130)).raw == 2 && ToI32(Fxp6(130)) == 2
  {
  }
}
