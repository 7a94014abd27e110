/** Powers of two and the bitwise operators the C code uses on them. */
module Bits {

  function Pow2(k: nat): nat {
    if k == 0 then 1 else 2 * Pow2(k - 1)
  }

  /** Bitwise and, bit by bit from the lowest. */
  function BitAnd(x: nat, y: nat): nat
    decreases x
  {
    if x == 0 then 0 else 2 * BitAnd(x / 2, y / 2) + (x % 2) * (y % 2)
  }

  /** Bitwise or. */
  function BitOr(x: nat, y: nat): nat
    decreases x + y
  {
    if x == 0 && y == 0 then 0
    else 2 * BitOr(x / 2, y / 2) + if x % 2 == 1 || y % 2 == 1 then 1 else 0
  }

  /** x >> k */
  function Shift(x: nat, k: nat): nat {
    if k == 0 then x else Shift(x / 2, k - 1)
  }

  lemma {:induction false} Positive(k: nat)
    ensures Pow2(k) >= 1
  {
    if k > 0 {
      Positive(k - 1);
    }
  }

  lemma {:induction false} Pow2Add(a: nat, b: nat)
    ensures Pow2(a + b) == Pow2(a) * Pow2(b)
  {
    if a > 0 {
      Pow2Add(a - 1, b);
      assert 2 * (Pow2(a - 1) * Pow2(b)) == 2 * Pow2(a - 1) * Pow2(b);
    }
  }

  lemma Pow2Values()
    ensures Pow2(32) == 0x1_0000_0000 && Pow2(31) == 0x8000_0000 && Pow2(16) == 0x1_0000 && Pow2(12) == 0x1000
  {
    assert Pow2(8) == 0x100;
    assert Pow2(12) == 0x1000 by { Pow2Add(4, 8); }
    assert Pow2(16) == 0x1_0000 by { Pow2Add(8, 8); }
    Pow2Add(16, 16);
  }

  lemma {:induction false} Pow2Grows(n: nat, k: nat)
    requires k <= n
    ensures Pow2(k) <= Pow2(n)
  {
    if k < n {
      Pow2Grows(n - 1, k);
    }
  }

  lemma Pow2Bound(k: nat)
    requires k < 32
    ensures 1 <= Pow2(k) <= 0x8000_0000
  {
    Positive(k);
    Pow2Grows(31, k);
    Pow2Values();
  }

  lemma Pow2Exact(k: nat)
    requires k <= 32
    ensures Pow2(k) * Pow2(32 - k) == 0x1_0000_0000
  {
    Pow2Add(k, 32 - k);
    Pow2Values();
  }

  /** 2^n - 2^k */
  function Pow2Difference(n: nat, k: nat): nat
    requires k <= n
  {
    Pow2Grows(n, k);
    Pow2(n) - Pow2(k)
  }

  /** The bits of 2^n - 2^k: k zeros, then ones. */
  lemma HalfDifference(n: nat, k: nat)
    requires k <= n && n > 0
    ensures Pow2Difference(n, k) / 2 == Pow2Difference(n - 1, if k == 0 then 0 else k - 1)
    ensures Pow2Difference(n, k) % 2 == if k == 0 then 1 else 0
  {
  }

  lemma Doubled(a: nat, b: nat)
    ensures 2 * a * b == 2 * (a * b)
  {
  }

  /** Masking with the complement of 2^k - 1 clears the low k bits. */
  lemma {:induction false} MaskClearsLowBits(x: nat, n: nat, k: nat)
    requires k <= n && x < Pow2(n)
    ensures BitAnd(x, Pow2Difference(n, k)) == Pow2(k) * Shift(x, k)
    ensures Pow2(k) * Shift(x, k) <= x < Pow2(k) * Shift(x, k) + Pow2(k)
    decreases n
  {
    if n > 0 {
      var m := if k == 0 then 0 else k - 1;
      HalfDifference(n, k);
      MaskClearsLowBits(x / 2, n - 1, m);
      if k > 0 {
        Doubled(Pow2(k - 1), Shift(x / 2, k - 1));
      }
    }
  }

  lemma {:induction false} OrNothing(x: nat)
    ensures BitOr(x, 0) == x
  {
    if x > 0 {
      OrNothing(x / 2);
    }
  }

  lemma OrHalves(x: nat, y: nat)
    ensures BitOr(2 * x, y) == 2 * BitOr(x, y / 2) + y % 2
  {
  }

  /** When the bits do not overlap, `|` adds. */
  lemma {:induction false} OrAdds(q: nat, y: nat, k: nat)
    requires y < Pow2(k)
    ensures BitOr(Pow2(k) * q, y) == Pow2(k) * q + y
  {
    if k == 0 {
      OrNothing(q);
    } else {
      OrAdds(q, y / 2, k - 1);
      Doubled(Pow2(k - 1), q);
      OrHalves(Pow2(k - 1) * q, y);
    }
  }

  /** ... which is how the firmware joins two halves. */
  lemma OrByte(high: nat, low: nat)
    requires high % 0x100 == 0 && low < 0x100
    ensures BitOr(high, low) == high + low
  {
    assert Pow2(8) == 0x100;
    OrAdds(high / 0x100, low, 8);
  }

  lemma OrHalfWord(high: nat, low: nat)
    requires low < 0x1_0000
    ensures BitOr(0x1_0000 * high, low) == 0x1_0000 * high + low
  {
    Pow2Values();
    OrAdds(high, low, 16);
  }
}
