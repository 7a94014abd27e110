/** How exact the scaled errors are that the learning loops add. */
module Scaling {
  import opened Words
  import opened Grids
  import opened Pictures
  import opened Hardware
  import opened Semantics

  lemma Negate(q: int, d: int)
    ensures -q * d == -(q * d)
  {
  }

  lemma Division(a: nat, b: int)
    requires b > 0
    ensures 0 <= a / b && a / b * b <= a < a / b * b + b
  {
    assert a == a / b * b + a % b;
  }

  lemma QuotientBounds(a: int, b: int)
    requires b > 0
    ensures var q := TruncatedQuotient(a, b);
      if a >= 0 then 0 <= q && q * b <= a < q * b + b else q <= 0 && q * b - b < a <= q * b
  {
    if a >= 0 {
      Division(a, b);
    } else {
      Division(-a, b);
      Negate(-a / b, b);
    }
  }

  predicate Fits32(v: int) {
    -0x8000_0000 <= v < 0x8000_0000
  }

  predicate Fits16(v: int) {
    -0x8000 <= v < 0x8000
  }

  lemma Wrapped(p: int) returns (k: int)
    requires !Fits32(p)
    ensures k != 0 && p - S32(p) == 0x1_0000_0000 * k
  {
    k := (p + 0x8000_0000) / 0x1_0000_0000;
  }

  lemma Bounded(q: int, d: nat)
    requires Fits16(q) && d <= 64512
    ensures -32768 * 64512 <= q * d <= 32767 * 64512
  {
    var m: nat := if q >= 0 then q else -q;
    assert q * d == if q >= 0 then m * d else -(m * d);
    MulMonotone(m, if q >= 0 then 32768 else 32769, d);
    Distribute(if q >= 0 then 32767 else 32768, d);
    assert m * d <= (if q >= 0 then 32767 else 32768) * d;
  }

  /** A product too large for 32 bits with a 16-bit quotient has a large divisor. */
  lemma LargeDivisor(p: int, d: nat, q: int)
    requires !Fits32(p) && d % 1024 == 0 && Fits16(q)
    requires if p >= 0 then q * d <= p < q * d + d else q * d - d < p <= q * d
    ensures d >= 0x1_0000
  {
    if d < 0x1_0000 {
      assert d <= 64512;
      Bounded(q, d);
    }
  }

  /** With a large divisor the quotient of any 32-bit number is a 16-bit number. */
  lemma SmallQuotient(s: s32, d: nat, q: int)
    requires d >= 0x1_0000
    requires if s >= 0 then 0 <= q && q * d <= s else q <= 0 && s <= q * d
    ensures Fits16(q)
  {
    if q >= 0x8000 {
      MulMonotone(0x7fff, q, d);
    }
    if q < -0x8000 {
      Negate(q, d);
      MulMonotone(0x8000, -q, d);
    }
  }

  lemma QuotientZero(s: s32, d: nat, q: int)
    requires d > 0x8000_0000
    requires if s >= 0 then 0 <= q && q * d <= s else q <= 0 && s <= q * d
    ensures q == 0 && q * d == 0
  {
    if q >= 1 {
      MulMonotone(0, q, d);
    }
    if q <= -1 {
      Negate(q, d);
      MulMonotone(0, -q, d);
    }
  }

  /** When the product wraps, the right quotient can only come out if it is zero. */
  lemma WrapShows(p: int, d: int)
    requires d > 0 && d % 1024 == 0 && !Fits32(p)
    requires S16(TruncatedQuotient(S32(p), d)) == TruncatedQuotient(p, d)
    ensures -d < p < d
  {
    hide TruncatedQuotient, S32, S16;
    var s, q, t := S32(p), TruncatedQuotient(p, d), TruncatedQuotient(S32(p), d);
    QuotientBounds(p, d);
    QuotientBounds(s, d);
    LargeDivisor(p, d, q);
    SmallQuotient(s, d, t);
    S16OfNarrow(t);
    var k := Wrapped(p);
    if d > 0x8000_0000 {
      QuotientZero(s, d, t);
    }
  }

  lemma ZeroQuotient(p: int, d: int, q: int)
    requires -d < p < d
    requires if p >= 0 then 0 <= q && q * d <= p else q <= 0 && p <= q * d
    ensures q == 0
  {
    if q >= 1 {
      MulMonotone(0, q, d);
    }
    if q <= -1 {
      Negate(q, d);
      MulMonotone(0, -q, d);
    }
  }

  lemma S32OfNarrow(p: int)
    requires Fits32(p)
    ensures S32(p) == p
  {
  }

  lemma TooSmall(p: int, d: int)
    requires d > 0 && -d < p < d && d % 1024 == 0
    ensures S16(TruncatedQuotient(S32(p), d)) == TruncatedQuotient(p, d)
  {
    hide TruncatedQuotient, S32, S16;
    QuotientBounds(p, d);
    ZeroQuotient(p, d, TruncatedQuotient(p, d));
    if Fits32(p) {
      S32OfNarrow(p);
    } else {
      QuotientBounds(S32(p), d);
      QuotientZero(S32(p), d, TruncatedQuotient(S32(p), d));
    }
    S16OfNarrow(0);
  }

  /** The scaled error is the exact quotient if and only if the product is a 32-bit number and the quotient a 16-bit
      number, or the product is too small to give anything but zero; for every error, rate and number of pixels. */
  lemma ScaledExactly(error: s32, rate: u16, pixels: nat)
    requires pixels > 0
    ensures var product: int, divisor: int := error * rate, 1024 * pixels;
      var exact := TruncatedQuotient(product, divisor);
      Scaled(error, rate, pixels) == exact
      <==> (Fits32(product) && Fits16(exact)) || -divisor < product < divisor
  {
    hide TruncatedQuotient, S32, S16;
    var p: int, d: int := error * rate, 1024 * pixels;
    var exact := TruncatedQuotient(p, d);
    if -d < p < d {
      TooSmall(p, d);
    } else if !Fits32(p) {
      if Scaled(error, rate, pixels) == exact {
        WrapShows(p, d);
      }
    } else {
      S32OfNarrow(p);
      S16Characterised(exact, S16(exact));
    }
  }

  /** What the scaled error is in every case, also where it is not exact: reduce the product to 32 bits, divide with
      truncation, reduce the quotient to 16 bits. Whatever numbers do that are the firmware's. */
  lemma ScaledCharacterised(error: s32, rate: u16, pixels: nat, product: s32, r: s16)
    requires pixels > 0 && (product - error * rate) % 0x1_0000_0000 == 0
    requires (r - TruncatedQuotient(product, 1024 * pixels)) % 0x1_0000 == 0
    ensures Scaled(error, rate, pixels) == r
  {
    hide TruncatedQuotient, S32, S16;
    S32Characterised(error * rate, product);
    S16Characterised(TruncatedQuotient(product, 1024 * pixels), r);
  }

  /** error_get cell by cell: each of the 19 numbers of the record is the register of the same name, scaled. */
  lemma ScaledRecord(e: Errors<s32>, rate: u16, pixels: nat, i: nat, j: nat)
    requires i < 3 && j < 3
    ensures ErrorAt(e, ErrorU(i, j)) == e.u.At(i, j) && ErrorAt(e, ErrorX(i, j)) == e.x.At(i, j)
    ensures ErrorAt(e, ErrorI) == e.i
    ensures var r := ScaledErrors(e, rate, pixels);
      && r.u.At(i, j) == Scaled(ErrorAt(e, ErrorU(i, j)), rate, pixels)
      && r.x.At(i, j) == Scaled(ErrorAt(e, ErrorX(i, j)), rate, pixels)
      && r.i == Scaled(ErrorAt(e, ErrorI), rate, pixels)
  {
    hide Scaled;
  }

  /** An input that wraps, at the board's own image size: the exact step is 1024, the firmware adds nothing. */
  lemma ScaledWraps()
    ensures TruncatedQuotient(0x100_0000 * 1024, 1024 * 16384) == 1024 && Scaled(0x100_0000, 1024, 16384) == 0
  {
  }
}
