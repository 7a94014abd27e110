/** LWIP_MEM_ALIGN_SIZE and LWIP_MEM_ALIGN: rounding up to an alignment with a mask, for every power of two. */
module MemAlign {
  import opened Words
  import opened Pictures
  import opened Bits

  /** Bitwise complement in 32 bits. */
  function Not(x: u32): u32 {
    0xffff_ffff - x
  }

  /** q * 2^k */
  function Times(q: nat, k: nat): nat {
    Pow2(k) * q
  }

  ghost predicate Multiple(m: nat, k: nat) {
    exists q: nat :: m == Times(q, k)
  }

  /** 2^k - 1 */
  function Pow2Minus1(k: nat): u32
    requires k < 32
  {
    Pow2Bound(k);
    Pow2(k) - 1
  }

  lemma Rounded(x: nat, k: nat)
    requires k < 32 && x < 0x1_0000_0000
    ensures Pow2(k) >= 1 && Multiple(BitAnd(x, Not(Pow2Minus1(k))), k)
    ensures BitAnd(x, Not(Pow2Minus1(k))) <= x < BitAnd(x, Not(Pow2Minus1(k))) + Pow2(k)
  {
    Pow2Values();
    Pow2Bound(k);
    MaskClearsLowBits(x, 32, k);
    assert Not(Pow2Minus1(k)) == Pow2Difference(32, k);
    assert BitAnd(x, Pow2Difference(32, k)) == Times(Shift(x, k), k);
  }

  /** LWIP_MEM_ALIGN_SIZE with MEM_ALIGNMENT 2^k, in 32-bit unsigned arithmetic. The board sets 2^6. */
  function AlignSize(size: u32, k: nat): u32
    requires k < 32
  {
    Pow2Bound(k);
    Rounded((size + Pow2(k) - 1) % 0x1_0000_0000, k);
    BitAnd((size + Pow2(k) - 1) % 0x1_0000_0000, Not(Pow2Minus1(k)))
  }

  lemma MultipleSum(a: nat, b: nat, k: nat)
    requires Multiple(a, k) && Multiple(b, k)
    ensures Multiple(a + b, k)
  {
    var p: nat :| a == Times(p, k);
    var q: nat :| b == Times(q, k);
    assert Times(p + q, k) == a + b;
  }

  lemma Apart(p: nat, q: nat, n: nat)
    ensures n * p < n * q ==> n * p + n <= n * q
  {
    MulMonotone(p, q, n);
    MulMonotone(q, p, n);
    Commute(p, n);
    Commute(q, n);
  }

  /** Multiples are at least the alignment apart. */
  lemma MultiplesApart(a: nat, b: nat, k: nat)
    requires Multiple(a, k) && Multiple(b, k)
    ensures a < b ==> a + Pow2(k) <= b
  {
    var p: nat :| a == Times(p, k);
    var q: nat :| b == Times(q, k);
    Positive(k);
    Apart(p, q, Pow2(k));
  }

  lemma MultipleZero(k: nat)
    ensures Multiple(0, k)
  {
    assert 0 == Times(0, k);
  }

  /** The size leaves room for rounding up in 32 bits. */
  predicate Room(size: u32, k: nat) {
    size + Pow2(k) <= 0x1_0000_0000
  }

  lemma Wrap(x: nat)
    requires x < 0x2_0000_0000
    ensures x % 0x1_0000_0000 == if x < 0x1_0000_0000 then x else x - 0x1_0000_0000
  {
  }

  /** LWIP_MEM_ALIGN_SIZE gives the least multiple of the alignment that is not below the size, for every power of two,
      exactly when the size leaves room for rounding in 32 bits; otherwise it wraps to zero. */
  lemma AlignSizeExact(size: u32, k: nat)
    requires k < 32
    ensures Multiple(AlignSize(size, k), k)
    ensures size <= AlignSize(size, k) <==> Room(size, k)
    ensures Room(size, k) ==> size <= AlignSize(size, k) < size + Pow2(k)
    ensures !Room(size, k) ==> AlignSize(size, k) == 0
  {
    hide BitAnd, Not, Multiple, Pow2Minus1, Pow2;
    Pow2Bound(k);
    var a := Pow2(k);
    Wrap(size + a - 1);
    if size + a <= 0x1_0000_0000 {
      Rounded(size + a - 1, k);
    } else {
      Rounded(size + a - 1 - 0x1_0000_0000, k);
      MultipleZero(k);
      MultiplesApart(0, AlignSize(size, k), k);
    }
  }

  lemma AlignSizeLeast(size: u32, m: nat, k: nat)
    requires k < 32 && Room(size, k) && Multiple(m, k) && size <= m
    ensures AlignSize(size, k) <= m
  {
    hide AlignSize;
    AlignSizeExact(size, k);
    MultiplesApart(m, AlignSize(size, k), k);
  }

  lemma FullRange(k: nat)
    requires k < 32
    ensures Multiple(0x1_0000_0000, k)
  {
    Pow2Exact(k);
    assert 0x1_0000_0000 == Times(Pow2(32 - k), k);
  }

  /** Rounding twice is rounding once, and a larger size never needs less. */
  lemma AlignSizeIdempotentMonotone(size: u32, larger: u32, k: nat)
    requires k < 32 && size <= larger && Room(larger, k)
    ensures Room(AlignSize(size, k), k) && AlignSize(AlignSize(size, k), k) == AlignSize(size, k)
    ensures AlignSize(size, k) <= AlignSize(larger, k)
  {
    hide AlignSize, Multiple;
    var r := AlignSize(size, k);
    AlignSizeExact(size, k);
    AlignSizeExact(larger, k);
    AlignSizeLeast(size, AlignSize(larger, k), k);
    FullRange(k);
    MultiplesApart(r, 0x1_0000_0000, k);
    Pow2Bound(k);
    AlignSizeExact(r, k);
    AlignSizeLeast(r, r, k);
  }

  /** Block starts when blocks of the given sizes are laid end to end from an aligned start. */
  function Starts(start: nat, sizes: seq<u32>, k: nat): (starts: seq<nat>)
    requires k < 32
    ensures |starts| == |sizes|
    decreases |sizes|
  {
    if sizes == [] then [] else [start] + Starts(start + AlignSize(sizes[0], k), sizes[1..], k)
  }

  /** Every block starts at a multiple of the alignment, and no block reaches into a later one. */
  lemma {:induction false} BlocksAlignedAndDisjoint(start: nat, sizes: seq<u32>, k: nat)
    requires k < 32 && Multiple(start, k)
    requires forall b :: 0 <= b < |sizes| ==> Room(sizes[b], k)
    ensures forall b :: 0 <= b < |sizes| ==>
      start <= Starts(start, sizes, k)[b] && Multiple(Starts(start, sizes, k)[b], k)
    ensures forall b, c :: 0 <= b < c < |sizes| ==>
      Starts(start, sizes, k)[b] + sizes[b] <= Starts(start, sizes, k)[c]
    decreases |sizes|
  {
    hide AlignSize, Multiple, Room;
    if sizes != [] {
      var r, rest := AlignSize(sizes[0], k), sizes[1..];
      AlignSizeExact(sizes[0], k);
      MultipleSum(start, r, k);
      BlocksAlignedAndDisjoint(start + r, rest, k);
      var starts := Starts(start, sizes, k);
      assert starts == [start] + Starts(start + r, rest, k);
      assert forall b :: 1 <= b < |sizes| ==> starts[b] == Starts(start + r, rest, k)[b - 1] && sizes[b] == rest[b - 1];
    }
  }
}
