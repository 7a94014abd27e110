/** The Internet checksum of lwIP, as section 1 of RFC 1071 defines it: the 16-bit one's complement sum of the words of
    a buffer. The three C implementations, the checksum of a chain of buffers and the TCP/UDP pseudo-header checksum are
    all proved equal to one definition. The target is little-endian, so a word in memory is low byte first. */
module Checksum {
  import opened Words

  // ------------------------------------------------------------------------------------------------------------------
  // The definition
  // ------------------------------------------------------------------------------------------------------------------

  /** Two bytes in memory, read as a word. */
  function Word(low: u8, high: u8): u16 {
    low + 0x100 * high
  }

  /** The exact sum of the words of a buffer; an odd last byte is padded with zero. */
  function WordSum(data: seq<u8>): nat {
    if data == [] then 0
    else if |data| == 1 then data[0]
    else data[0] + 0x100 * data[1] + WordSum(data[2..])
  }

  /** One's complement reduction to 16 bits: zero only for zero. */
  function Reduced(n: nat): u16 {
    if n == 0 then 0 else (n - 1) % 0xffff + 1
  }

  /** The sum of a buffer in one's complement arithmetic. */
  function OnesSum(data: seq<u8>): u16 {
    Reduced(WordSum(data))
  }

  ghost predicate Congruent(a: int, b: int) {
    (a - b) % 0xffff == 0
  }

  /** Reduced(n) is the only 16-bit number congruent to n that is zero just when n is. */
  lemma ReducedUnique(r: u16, n: nat)
    requires Congruent(r, n) && (r == 0 <==> n == 0)
    ensures r == Reduced(n)
  {
  }

  lemma ReducedCongruent(n: nat)
    ensures Congruent(Reduced(n), n) && (Reduced(n) == 0 <==> n == 0)
  {
  }

  lemma Quotient(a: int, b: int) returns (q: int)
    requires Congruent(a, b)
    ensures a == b + 0xffff * q
  {
    q := (a - b) / 0xffff;
  }

  lemma CongruentBy(a: int, b: int, q: int)
    requires a == b + 0xffff * q
    ensures Congruent(a, b)
  {
    assert (a - b) % 0xffff == 0xffff * q % 0xffff;
  }

  lemma CongruentAdd(a: int, b: int, c: int, d: int)
    requires Congruent(a, b) && Congruent(c, d)
    ensures Congruent(a + c, b + d)
  {
  }

  lemma CongruentTransitive(a: int, b: int, c: int)
    requires Congruent(a, b) && Congruent(b, c)
    ensures Congruent(a, c)
  {
  }

  lemma CongruentSame(a: int)
    ensures Congruent(a, a)
  {
  }

  /** Multiplying by 256 respects congruence, and doing it twice is doing nothing, since 65536 = 65535 + 1. */
  lemma CongruentTimes256(a: int, b: int)
    requires Congruent(a, b)
    ensures Congruent(0x100 * a, 0x100 * b)
    ensures Congruent(0x1_0000 * a, b)
  {
    hide Congruent;
    var q := Quotient(a, b);
    CongruentBy(0x100 * a, 0x100 * b, 0x100 * q);
    CongruentBy(0x1_0000 * a, b, q + a);
  }

  // ------------------------------------------------------------------------------------------------------------------
  // The macros
  // ------------------------------------------------------------------------------------------------------------------

  /** FOLD_U32T */
  function Fold(u: u32): u32 {
    u / 0x1_0000 + u % 0x1_0000
  }

  /** SWAP_BYTES_IN_WORD, which is also htons on this target. It drops anything above 16 bits. */
  function SwapBytes(w: u32): u16 {
    w % 0x100 * 0x100 + w / 0x100 % 0x100
  }

  lemma FoldCongruent(u: u32)
    ensures Congruent(Fold(u), u) && (Fold(u) == 0 <==> u == 0)
    ensures Fold(u) <= 0x1_fffe && (u <= 0x1_fffe ==> Fold(u) <= 0xffff)
  {
    hide Congruent;
    assert u == 0x1_0000 * (u / 0x1_0000) + u % 0x1_0000;
    CongruentBy(Fold(u), u, -(u / 0x1_0000));
  }

  /** Folding twice reduces any 32-bit sum. */
  lemma FoldTwice(u: u32)
    ensures Fold(Fold(u)) == Reduced(u)
  {
    hide Fold, Reduced, Congruent;
    FoldCongruent(u);
    FoldCongruent(Fold(u));
    CongruentTransitive(Fold(Fold(u)), Fold(u), u);
    ReducedUnique(Fold(Fold(u)), u);
  }

  lemma FoldOnce(u: u32)
    ensures u < 0x1_0000 ==> Fold(u) == u
  {
  }

  /** Swapping the bytes of a word multiplies it by 256. */
  lemma SwapCongruent(w: u16)
    ensures Congruent(SwapBytes(w), 0x100 * w) && (SwapBytes(w) == 0 <==> w == 0)
    ensures SwapBytes(SwapBytes(w)) == w
  {
    hide Congruent;
    assert w == 0x100 * (w / 0x100) + w % 0x100;
    CongruentBy(SwapBytes(w), 0x100 * w, -(w / 0x100));
  }

  /** So swapping commutes with reducing: section 2(B) of RFC 1071. */
  lemma SwapReduced(n: nat)
    ensures SwapBytes(Reduced(n)) == Reduced(0x100 * n)
  {
    hide Congruent, Reduced, SwapBytes;
    ReducedCongruent(n);
    SwapCongruent(Reduced(n));
    CongruentTimes256(Reduced(n), n);
    CongruentTransitive(SwapBytes(Reduced(n)), 0x100 * Reduced(n), 0x100 * n);
    ReducedUnique(SwapBytes(Reduced(n)), 0x100 * n);
  }

  lemma ReducedEqual(m: nat, n: nat)
    requires Congruent(m, n) && (m == 0 <==> n == 0)
    ensures Reduced(m) == Reduced(n)
  {
  }

  // ------------------------------------------------------------------------------------------------------------------
  // Word sums
  // ------------------------------------------------------------------------------------------------------------------

  lemma ShiftStep(c: int, d: int, x: int, r: int)
    requires Congruent(x, d + 0x100 * r)
    ensures Congruent(c + 0x100 * d + r, c + 0x100 * x)
  {
    hide Congruent;
    var q := Quotient(x, d + 0x100 * r);
    CongruentBy(c + 0x100 * d + r, c + 0x100 * x, -(0x100 * q) - r);
  }

  /** Shifting a buffer by one byte multiplies its weight by 256. */
  lemma {:induction false} WordSumShift(data: seq<u8>)
    requires data != []
    ensures Congruent(WordSum(data), data[0] + 0x100 * WordSum(data[1..]))
  {
    hide Congruent;
    if |data| == 1 {
      CongruentSame(data[0]);
    } else {
      WordSumShift(data[1..]);
      assert data[1..][1..] == data[2..];
      ShiftStep(data[0], data[1], WordSum(data[1..]), WordSum(data[2..]));
    }
  }

  lemma {:induction false} WordSumZero(data: seq<u8>)
    ensures WordSum(data) == 0 <==> forall k :: 0 <= k < |data| ==> data[k] == 0
  {
    if |data| > 1 {
      WordSumZero(data[2..]);
      assert forall k :: 2 <= k < |data| ==> data[k] == data[2..][k - 2];
    }
  }

  /** The weight of what follows a bytes. */
  function Weight(a: nat): nat {
    if a % 2 == 0 then 1 else 0x100
  }

  /** If t is c + 256 x, x is y + z and r is c + 256 y, then t is r + 256 z. */
  lemma Combine(t: int, c: int, x: int, y: int, z: int, r: int)
    requires Congruent(t, c + 0x100 * x) && Congruent(x, y + z) && Congruent(r, c + 0x100 * y)
    ensures Congruent(t, r + 0x100 * z)
  {
    hide Congruent;
    var p := Quotient(t, c + 0x100 * x);
    var q := Quotient(x, y + z);
    var o := Quotient(r, c + 0x100 * y);
    CongruentBy(t, r + 0x100 * z, p + 0x100 * q - o);
  }

  lemma ShiftedWeight(r: int, n: nat, s: nat)
    requires n > 0
    ensures Congruent(r + 0x100 * (Weight(n - 1) * s), r + Weight(n) * s)
  {
    hide Congruent;
    CongruentBy(r + 0x100 * (Weight(n - 1) * s), r + Weight(n) * s, if n % 2 == 0 then s else 0);
  }

  lemma ConcatZero(a: seq<u8>, b: seq<u8>)
    ensures WordSum(a + b) == 0 <==> WordSum(a) == 0 && WordSum(b) == 0
  {
    WordSumZero(a);
    WordSumZero(b);
    WordSumZero(a + b);
    assert forall k :: 0 <= k < |a| ==> (a + b)[k] == a[k];
    assert forall k :: 0 <= k < |b| ==> (a + b)[|a| + k] == b[k];
  }

  /** The sum of a concatenation: the second part counts from its own start, shifted if the first has odd length. */
  lemma {:induction false} WordSumConcat(a: seq<u8>, b: seq<u8>)
    ensures Congruent(WordSum(a + b), WordSum(a) + Weight(|a|) * WordSum(b))
    ensures WordSum(a + b) == 0 <==> WordSum(a) == 0 && WordSum(b) == 0
  {
    hide Congruent;
    ConcatZero(a, b);
    if a == [] {
      assert a + b == b;
      CongruentSame(WordSum(b));
    } else {
      hide WordSum;
      assert (a + b)[1..] == a[1..] + b;
      WordSumConcat(a[1..], b);
      WordSumShift(a + b);
      WordSumShift(a);
      var x, y, s := WordSum(a[1..] + b), WordSum(a[1..]), WordSum(b);
      Combine(WordSum(a + b), a[0], x, y, Weight(|a| - 1) * s, WordSum(a));
      ShiftedWeight(WordSum(a), |a|, s);
      CongruentTransitive(WordSum(a + b), WordSum(a) + 0x100 * (Weight(|a| - 1) * s), WordSum(a) + Weight(|a|) * s);
    }
  }

  lemma {:induction false} WordSumBound(data: seq<u8>)
    ensures WordSum(data) <= 0xffff * ((|data| + 1) / 2)
  {
    if |data| > 1 {
      WordSumBound(data[2..]);
    }
  }

  // ------------------------------------------------------------------------------------------------------------------
  // The three versions of lwip_standard_chksum
  // ------------------------------------------------------------------------------------------------------------------

  /** The exact sum of the words of a buffer read high byte first. */
  function BigEndianSum(data: seq<u8>): nat {
    if data == [] then 0
    else if |data| == 1 then 0x100 * data[0]
    else 0x100 * data[0] + data[1] + BigEndianSum(data[2..])
  }

  lemma BigEndianStep(c: int, d: int, be: int, ws: int)
    requires Congruent(be, 0x100 * ws)
    ensures Congruent(0x100 * c + d + be, 0x100 * (c + 0x100 * d + ws))
  {
    hide Congruent;
    var p := Quotient(be, 0x100 * ws);
    CongruentBy(0x100 * c + d + be, 0x100 * (c + 0x100 * d + ws), p - d);
  }

  lemma {:induction false} BigEndianIsShifted(data: seq<u8>)
    ensures Congruent(BigEndianSum(data), 0x100 * WordSum(data))
    ensures BigEndianSum(data) == 0 <==> WordSum(data) == 0
    ensures BigEndianSum(data) <= 0xffff * ((|data| + 1) / 2)
  {
    hide Congruent;
    if |data| <= 1 {
      CongruentSame(BigEndianSum(data));
    } else {
      BigEndianIsShifted(data[2..]);
      BigEndianStep(data[0], data[1], BigEndianSum(data[2..]), WordSum(data[2..]));
    }
  }

  lemma ShiftTwice(m: nat, n: nat)
    requires Congruent(m, 0x100 * n) && (m == 0 <==> n == 0)
    ensures Reduced(0x100 * m) == Reduced(n)
  {
    hide Congruent, Reduced;
    var p := Quotient(m, 0x100 * n);
    CongruentBy(0x100 * m, n, 0x100 * p + n);
    ReducedEqual(0x100 * m, n);
  }

  /** Algorithm 1: words read in network order, result swapped at the end. */
  method StandardChksum1(data: seq<u8>) returns (r: u16)
    requires |data| < 0x1_0000
    ensures r == OnesSum(data)
  {
    hide Congruent, Reduced, SwapBytes, Fold;
    BigEndianIsShifted(data);
    var acc: u32 := 0;
    var k := 0;
    while |data| - k > 1
      invariant 0 <= k <= |data|
      invariant acc + BigEndianSum(data[k..]) == BigEndianSum(data)
    {
      var src := Word(data[k + 1], data[k]);
      assert data[k..][2..] == data[k + 2..];
      acc := acc + src;
      k := k + 2;
    }
    if |data| - k > 0 {
      var src := Word(0, data[k]);
      acc := acc + src;
    }
    assert acc == BigEndianSum(data);
    ghost var total := acc;
    FoldTwice(acc);
    FoldCongruent(acc);
    FoldOnce(Fold(acc));
    acc := Fold(acc);
    if acc >= 0x1_0000 {
      acc := Fold(acc);
    }
    assert acc == Reduced(total);
    r := SwapBytes(acc);
    SwapReduced(total);
    ShiftTwice(total, WordSum(data));
  }

  /** What is in the accumulator accounts for everything but the rest. */
  ghost predicate Accounts(sum: nat, rest: seq<u8>, whole: seq<u8>) {
    && Congruent(sum + WordSum(rest), WordSum(whole))
    && (sum + WordSum(rest) == 0 <==> WordSum(whole) == 0)
  }

  lemma IntoStep(sum: int, b: int, r: int, t: int)
    requires Congruent(sum, 0x100 * b + r) && Congruent(t, b + 0x100 * r)
    ensures Congruent(0x100 * sum, t)
  {
    hide Congruent;
    var p := Quotient(sum, 0x100 * b + r);
    var q := Quotient(t, b + 0x100 * r);
    CongruentBy(0x100 * sum, t, 0x100 * p + b - q);
  }

  /** A buffer at an odd address is summed one byte out of step; swapping the folded sum puts it in step. */
  lemma OutOfStep(data: seq<u8>, sum: nat)
    requires data != []
    requires Congruent(sum, 0x100 * data[0] + WordSum(data[1..]))
    requires sum == 0 <==> data[0] == 0 && WordSum(data[1..]) == 0
    ensures SwapBytes(Reduced(sum)) == OnesSum(data)
  {
    hide Congruent, Reduced, SwapBytes;
    SwapReduced(sum);
    WordSumShift(data);
    ConcatZero(data[..1], data[1..]);
    assert data[..1] + data[1..] == data;
    IntoStep(sum, data[0], WordSum(data[1..]), WordSum(data));
    ReducedEqual(0x100 * sum, WordSum(data));
  }

  lemma SwapZero()
    ensures SwapBytes(Reduced(0)) == Reduced(0)
  {
  }

  /** The end of algorithms 2 and 3: the dangling byte and the first byte of an odd buffer are added, the sum is folded
      twice and, if the buffer began at an odd address, swapped. */
  lemma Finish(data: seq<u8>, odd: bool, sum: nat, tail: seq<u8>, total: u32)
    requires var k := if odd && data != [] then 1 else 0;
      |tail| <= 1 && Accounts(sum, tail, data[k..]) &&
      total == sum + WordSum(tail) + (if k == 1 then Word(0, data[0]) else 0)
    ensures (if odd then SwapBytes(Fold(Fold(total))) else Fold(Fold(total))) == OnesSum(data)
  {
    hide Congruent, Reduced, SwapBytes, Fold;
    FoldTwice(total);
    if odd && data != [] {
      CongruentSame(Word(0, data[0]));
      CongruentAdd(sum + WordSum(tail), WordSum(data[1..]), Word(0, data[0]), Word(0, data[0]));
      OutOfStep(data, total);
    } else {
      assert data[0..] == data;
      ReducedEqual(total, WordSum(data));
      if odd {
        SwapZero();
      }
    }
  }

  lemma Exact(sum: nat, rest: seq<u8>, whole: seq<u8>)
    requires sum + WordSum(rest) == WordSum(whole)
    ensures Accounts(sum, rest, whole)
  {
  }

  lemma Dangling(tail: seq<u8>, last: u8)
    requires |tail| <= 1 && last == if tail == [] then 0 else tail[0]
    ensures WordSum(tail) == last
  {
  }

  /** Algorithm 2: words read in memory order from the first even address. */
  method StandardChksum2(data: seq<u8>, address: u32) returns (r: u16)
    requires |data| <= 0x2_0000
    ensures r == OnesSum(data)
  {
    hide Congruent, Reduced, SwapBytes, Fold;
    var sum: u32 := 0;
    var first: u8, last: u8 := 0, 0;
    var odd := address % 2 == 1;
    var k := 0;
    if odd && |data| > 0 {
      first := data[0];
      k := 1;
    }
    ghost var whole := data[k..];
    WordSumBound(whole);
    while |data| - k > 1
      invariant 0 <= k <= |data|
      invariant sum + WordSum(data[k..]) == WordSum(whole)
    {
      assert data[k..][2..] == data[k + 2..];
      sum := sum + Word(data[k], data[k + 1]);
      k := k + 2;
    }
    if |data| - k > 0 {
      last := data[k];
    }
    ghost var before := sum;
    sum := sum + Word(last, first);
    Exact(before, data[k..], whole);
    Dangling(data[k..], last);
    Finish(data, odd, before, data[k..], sum);

    sum := Fold(sum);
    sum := Fold(sum);
    if odd {
      sum := SwapBytes(sum);
    }
    r := sum;
  }

  /** Addition of 32-bit words with end-around carry, as algorithm 3 does it. */
  function AddCarry(sum: u32, w: u32): u32 {
    var t := (sum + w) % 0x1_0000_0000;
    if t < sum then t + 1 else t
  }

  /** 32 bits is also a one's complement word size: 2^32 - 1 is a multiple of 65535. */
  lemma AddCarryCongruent(sum: u32, w: u32)
    ensures Congruent(AddCarry(sum, w), sum + w) && (AddCarry(sum, w) == 0 <==> sum + w == 0)
  {
    hide Congruent;
    CongruentBy(AddCarry(sum, w), sum + w, if sum + w >= 0x1_0000_0000 then -0x1_0001 else 0);
  }

  /** Four bytes in memory, read as a 32-bit word. */
  function LongWord(b0: u8, b1: u8, b2: u8, b3: u8): u32 {
    b0 + 0x100 * b1 + 0x1_0000 * b2 + 0x100_0000 * b3
  }

  lemma LongWordSplit(b0: u8, b1: u8, b2: u8, b3: u8)
    ensures LongWord(b0, b1, b2, b3) == Word(b0, b1) + 0x1_0000 * Word(b2, b3)
  {
  }

  lemma TwoWords(data: seq<u8>)
    requires |data| >= 4
    ensures WordSum(data) == Word(data[0], data[1]) + (Word(data[2], data[3]) + WordSum(data[4..]))
  {
    assert data[2..][2..] == data[4..];
  }

  lemma LongArithmetic(t: int, sum: int, low: int, high: int, rest: int, whole: int)
    requires Congruent(t, sum + (low + 0x1_0000 * high)) && Congruent(sum + (low + (high + rest)), whole)
    ensures Congruent(t + rest, whole)
  {
    hide Congruent;
    var p := Quotient(t, sum + (low + 0x1_0000 * high));
    var q := Quotient(sum + (low + (high + rest)), whole);
    CongruentBy(t + rest, whole, p + q + high);
  }

  /** One 32-bit word accounts for the two 16-bit words it covers. */
  lemma LongStep(sum: u32, data: seq<u8>, whole: seq<u8>)
    requires |data| >= 4 && Accounts(sum, data, whole)
    ensures Accounts(AddCarry(sum, LongWord(data[0], data[1], data[2], data[3])), data[4..], whole)
  {
    hide Congruent, AddCarry, LongWord, Word, WordSum;
    var w := LongWord(data[0], data[1], data[2], data[3]);
    LongWordSplit(data[0], data[1], data[2], data[3]);
    TwoWords(data);
    AddCarryCongruent(sum, w);
    var rest := WordSum(data[4..]);
    var low, high := Word(data[0], data[1]), Word(data[2], data[3]);
    LongArithmetic(AddCarry(sum, w), sum, low, high, rest, WordSum(whole));
  }

  /** One 16-bit word accounts for itself. */
  lemma WordStep(sum: nat, data: seq<u8>, whole: seq<u8>)
    requires |data| >= 2 && Accounts(sum, data, whole)
    ensures Accounts(sum + Word(data[0], data[1]), data[2..], whole)
  {
  }

  lemma FoldStep(sum: u32, data: seq<u8>, whole: seq<u8>)
    requires Accounts(sum, data, whole)
    ensures Accounts(Fold(sum), data, whole) && Fold(sum) <= 0x1_fffe
  {
    FoldCongruent(sum);
    CongruentSame(WordSum(data));
    CongruentAdd(Fold(sum), sum, WordSum(data), WordSum(data));
    CongruentTransitive(Fold(sum) + WordSum(data), sum + WordSum(data), WordSum(whole));
  }

  lemma Begin(whole: seq<u8>)
    ensures Accounts(0, whole, whole)
  {
  }

  lemma DropDrop(data: seq<u8>, k: nat, n: nat)
    requires k + n <= |data|
    ensures data[k..][n..] == data[k + n..]
  {
  }

  /** The main loop of algorithm 3: eight bytes a turn, as two 32-bit words with end-around carry. */
  method SumLongs(data: seq<u8>, ghost whole: seq<u8>, start: nat, initial: u32) returns (k: nat, sum: u32)
    requires start <= |data| && Accounts(initial, data[start..], whole)
    ensures k <= |data| <= k + 7 && Accounts(sum, data[k..], whole)
  {
    hide Congruent, Accounts, AddCarry, WordSum, LongWord;
    k, sum := start, initial;
    while |data| - k > 7
      invariant k <= |data| && Accounts(sum, data[k..], whole)
    {
      LongStep(sum, data[k..], whole);
      var tmp := AddCarry(sum, LongWord(data[k], data[k + 1], data[k + 2], data[k + 3]));
      DropDrop(data, k, 4);
      LongStep(tmp, data[k + 4..], whole);
      sum := AddCarry(tmp, LongWord(data[k + 4], data[k + 5], data[k + 6], data[k + 7]));
      DropDrop(data, k + 4, 4);
      k := k + 8;
    }
  }

  /** The loop for what the main loop leaves: 16-bit words. */
  method SumWords(data: seq<u8>, ghost whole: seq<u8>, start: nat, initial: u32) returns (k: nat, sum: u32)
    requires start <= |data| <= start + 7 && Accounts(initial, data[start..], whole) && initial <= 0x1_fffe
    ensures k <= |data| <= k + 1 && Accounts(sum, data[k..], whole) && sum <= 0x1_fffe + 0xffff * 7
  {
    hide Congruent, Accounts, WordSum, Word;
    k, sum := start, initial;
    while |data| - k > 1
      invariant k <= |data| <= k + 7 && Accounts(sum, data[k..], whole)
      invariant sum <= 0x1_fffe + 0xffff * (7 - (|data| - k))
    {
      WordStep(sum, data[k..], whole);
      sum := sum + Word(data[k], data[k + 1]);
      DropDrop(data, k, 2);
      k := k + 2;
    }
  }

  /** Algorithm 3, the one this board configures (lwipopts.h:40): 32-bit words with end-around carry in the middle,
      16-bit words and single bytes at the ends. It has no length limit. */
  method StandardChksum3(data: seq<u8>, address: u32) returns (r: u16)
    ensures r == OnesSum(data)
  {
    hide Congruent, Accounts, AddCarry, SwapBytes, Fold, OnesSum, WordSum, LongWord;
    var sum: u32 := 0;
    var first: u8, last: u8 := 0, 0;
    var odd := address % 2 == 1;
    var k := 0;
    if odd && |data| > 0 {
      first := data[0];
      k := 1;
    }
    ghost var whole := data[k..];
    Begin(whole);

    if (address + k) % 4 != 0 && |data| - k > 1 {
      WordStep(sum, data[k..], whole);
      sum := sum + Word(data[k], data[k + 1]);
      DropDrop(data, k, 2);
      k := k + 2;
    }

    k, sum := SumLongs(data, whole, k, sum);

    FoldStep(sum, data[k..], whole);
    k, sum := SumWords(data, whole, k, Fold(sum));

    if |data| - k > 0 {
      last := data[k];
    }
    ghost var before := sum;
    sum := sum + Word(last, first);
    Dangling(data[k..], last);
    Finish(data, odd, before, data[k..], sum);

    sum := Fold(sum);
    sum := Fold(sum);
    if odd {
      sum := SwapBytes(sum);
    }
    r := sum;
  }

  // ------------------------------------------------------------------------------------------------------------------
  // Checksums of buffers, of chains, and with a pseudo-header
  // ------------------------------------------------------------------------------------------------------------------

  /** inet_chksum: the complement of the sum. */
  method InetChksum(data: seq<u8>, address: u32) returns (r: u16)
    ensures r == 0xffff - OnesSum(data)
  {
    var sum := StandardChksum3(data, address);
    r := 0xffff - sum;
  }

  /** One buffer of a chain: its payload, and the address it happens to be stored at. */
  datatype Pbuf = Pbuf(payload: seq<u8>, address: u32)

  function Contents(chain: seq<Pbuf>): seq<u8> {
    if chain == [] then [] else Contents(chain[..|chain| - 1]) + chain[|chain| - 1].payload
  }

  /** The contents of a chain are those of its first part followed by those of the rest; of one buffer, its payload. */
  lemma {:induction false} ContentsConcat(a: seq<Pbuf>, b: seq<Pbuf>)
    ensures Contents(a + b) == Contents(a) + Contents(b)
  {
    if b == [] {
      assert a + b == a;
    } else {
      assert (a + b)[..|a + b| - 1] == a + b[..|b| - 1];
      ContentsConcat(a, b[..|b| - 1]);
    }
  }

  lemma ContentsOne(p: Pbuf)
    ensures Contents([p]) == p.payload
  {
    assert [p][..0] == [];
    assert Contents([]) == [];
  }

  /** The chain is a cut of one buffer into consecutive pieces: the first piece, then a cut of the rest. */
  predicate CutOf(chain: seq<Pbuf>, whole: seq<u8>) {
    if chain == [] then whole == [] else chain[0].payload <= whole && CutOf(chain[1..], whole[|chain[0].payload|..])
  }

  lemma {:induction false} CutContents(chain: seq<Pbuf>, whole: seq<u8>)
    ensures CutOf(chain, whole) <==> whole == Contents(chain)
    decreases |chain|
  {
    if chain != [] {
      var first := chain[0].payload;
      assert chain == [chain[0]] + chain[1..];
      ContentsConcat([chain[0]], chain[1..]);
      ContentsOne(chain[0]);
      if first <= whole {
        CutContents(chain[1..], whole[|first|..]);
        assert whole == first + whole[|first|..];
      }
    }
  }

  /** The accumulator between two buffers: the sum so far, shifted by one byte if an odd number of bytes went before. */
  ghost predicate Tracks(acc: u32, before: seq<u8>) {
    && acc <= 0xffff
    && Congruent(acc, Weight(|before|) * WordSum(before))
    && (acc == 0 <==> WordSum(before) == 0)
  }

  lemma SameWeight(m: nat, n: nat)
    requires m % 2 == n % 2
    ensures Weight(m) == Weight(n)
  {
  }

  lemma InFrame(folded: int, acc: int, p: int, w: nat, s: nat, t: nat, all: nat, n: nat)
    requires w == Weight(n)
    requires Congruent(folded, acc + p) && Congruent(acc, w * s) && Congruent(p, t) && Congruent(all, s + w * t)
    ensures Congruent(folded, w * all)
  {
    hide Congruent;
    var a := Quotient(folded, acc + p);
    var b := Quotient(acc, w * s);
    var c := Quotient(p, t);
    var d := Quotient(all, s + w * t);
    if w == 1 {
      CongruentBy(folded, w * all, a + b + c - d);
    } else {
      CongruentBy(folded, w * all, a + b + c - 0x100 * d - t);
    }
  }

  lemma NextFrame(swapped: int, folded: int, all: nat, n: nat)
    requires Congruent(swapped, 0x100 * folded) && Congruent(folded, Weight(n) * all)
    ensures Congruent(swapped, Weight(n + 1) * all)
  {
    hide Congruent;
    var a := Quotient(swapped, 0x100 * folded);
    var b := Quotient(folded, Weight(n) * all);
    CongruentBy(swapped, Weight(n + 1) * all, a + 0x100 * b + (if n % 2 == 0 then 0 else all));
  }

  /** Adding a buffer and folding once, then swapping if the buffer has odd length, keeps track. */
  lemma ChainStep(acc: u32, before: seq<u8>, payload: seq<u8>)
    requires Tracks(acc, before)
    ensures acc + OnesSum(payload) <= 0x1_fffe
    ensures var folded := Fold(acc + OnesSum(payload));
      Tracks(if |payload| % 2 != 0 then SwapBytes(folded) else folded, before + payload)
  {
    hide Congruent, Fold, SwapBytes, Reduced, WordSum, Weight;
    var p := OnesSum(payload);
    var folded := Fold(acc + p);
    var s, t, all := WordSum(before), WordSum(payload), WordSum(before + payload);
    FoldCongruent(acc + p);
    ReducedCongruent(t);
    WordSumConcat(before, payload);
    var w := Weight(|before|);
    InFrame(folded, acc, p, w, s, t, all, |before|);
    if |payload| % 2 != 0 {
      SwapCongruent(folded);
      NextFrame(SwapBytes(folded), folded, all, |before|);
      assert Weight(|before + payload|) == Weight(|before| + 1) by { SameWeight(|before + payload|, |before| + 1); }
    } else {
      assert Weight(|before + payload|) == w by { SameWeight(|before + payload|, |before|); }
    }
  }

  /** When the whole chain has been read, undoing the last swap gives the sum of the contents. */
  lemma ChainEnd(acc: u32, before: seq<u8>)
    requires Tracks(acc, before)
    ensures (if |before| % 2 == 1 then SwapBytes(acc) else acc) == OnesSum(before)
  {
    hide Congruent, SwapBytes, Reduced, WordSum;
    var s := WordSum(before);
    if |before| % 2 == 1 {
      SwapCongruent(acc);
      NextFrame(SwapBytes(acc), acc, s, |before|);
      ReducedUnique(SwapBytes(acc), s);
    } else {
      ReducedUnique(acc, s);
    }
  }

  lemma StartOfChain()
    ensures Tracks(0, [])
  {
  }

  /** The loop that inet_chksum_pbuf and inet_chksum_pseudo share: a chain sums to what its contents would as one
      buffer, wherever the pieces are stored and however the data is cut. */
  method SumChain(chain: seq<Pbuf>) returns (acc: u32)
    ensures acc == OnesSum(Contents(chain))
  {
    hide Congruent, OnesSum, WordSum, Tracks, Fold, SwapBytes;
    acc := 0;
    var swapped := 0;
    StartOfChain();
    for i := 0 to |chain|
      invariant Tracks(acc, Contents(chain[..i]))
      invariant swapped == |Contents(chain[..i])| % 2
    {
      var q := chain[i];
      assert chain[..i + 1][..i] == chain[..i];
      ChainStep(acc, Contents(chain[..i]), q.payload);
      var sum := StandardChksum3(q.payload, q.address);
      acc := acc + sum;
      acc := Fold(acc);
      if |q.payload| % 2 != 0 {
        swapped := 1 - swapped;
        acc := SwapBytes(acc);
      }
    }
    assert chain[..|chain|] == chain;
    ChainEnd(acc, Contents(chain));
    if swapped == 1 {
      acc := SwapBytes(acc);
    }
  }

  /** inet_chksum_pbuf: for every buffer and every way to cut it into pieces at any addresses, the checksum of the
      pieces is that of the buffer. */
  method InetChksumPbuf(chain: seq<Pbuf>) returns (r: u16)
    ensures r == 0xffff - OnesSum(Contents(chain))
    ensures forall whole :: CutOf(chain, whole) ==> r == 0xffff - OnesSum(whole)
  {
    hide OnesSum, CutOf, Contents;
    forall whole | CutOf(chain, whole)
      ensures whole == Contents(chain)
    {
      CutContents(chain, whole);
    }
    var acc := SumChain(chain);
    r := 0xffff - acc % 0x1_0000;
  }

  /** The pseudo-header of section 3.1 of RFC 793, byte by byte. */
  function PseudoHeader(src: seq<u8>, dest: seq<u8>, proto: u8, protoLen: u16): seq<u8> {
    src + dest + [0, proto, protoLen / 0x100, protoLen % 0x100]
  }

  /** Where each field lies. */
  lemma PseudoHeaderFields(src: seq<u8>, dest: seq<u8>, proto: u8, protoLen: u16)
    requires |src| == |dest| == 4
    ensures var h := PseudoHeader(src, dest, proto, protoLen);
      && |h| == 12 && h[..4] == src && h[4..8] == dest && h[8] == 0 && h[9] == proto
      && Word(h[11], h[10]) == protoLen
  {
  }

  lemma Halves(b0: u8, b1: u8, b2: u8, b3: u8)
    ensures var w := LongWord(b0, b1, b2, b3);
      w % 0x1_0000 == Word(b0, b1) && w / 0x1_0000 % 0x1_0000 == Word(b2, b3)
  {
    LongWordSplit(b0, b1, b2, b3);
  }

  /** htons of a number is the word whose bytes in memory are the number high byte first. */
  lemma NetworkOrder(v: u16)
    ensures SwapBytes(v) == Word(v / 0x100, v % 0x100)
  {
  }

  lemma HeaderSum(src: seq<u8>, dest: seq<u8>, proto: u8, protoLen: u16)
    requires |src| == |dest| == 4
    ensures var s, d := LongWord(src[0], src[1], src[2], src[3]), LongWord(dest[0], dest[1], dest[2], dest[3]);
      WordSum(PseudoHeader(src, dest, proto, protoLen)) ==
      s % 0x1_0000 + s / 0x1_0000 % 0x1_0000 + d % 0x1_0000 + d / 0x1_0000 % 0x1_0000 +
      SwapBytes(proto) + SwapBytes(protoLen)
  {
    var h := PseudoHeader(src, dest, proto, protoLen);
    hide LongWord, SwapBytes, Word, WordSum;
    Halves(src[0], src[1], src[2], src[3]);
    Halves(dest[0], dest[1], dest[2], dest[3]);
    NetworkOrder(proto);
    NetworkOrder(protoLen);
    TwoWords(h);
    TwoWords(h[4..]);
    TwoWords(h[8..]);
    assert h[4..][4..] == h[8..];
    assert h[8..][4..] == [];
    assert WordSum([]) == 0 by { Dangling([], 0); }
  }

  lemma HeaderThenData(header: seq<u8>, data: seq<u8>, total: nat)
    requires |header| % 2 == 0 && total == WordSum(header) + OnesSum(data)
    ensures Reduced(total) == OnesSum(header + data)
  {
    hide Congruent, Reduced, WordSum;
    WordSumConcat(header, data);
    ReducedCongruent(WordSum(data));
    var p := Quotient(Reduced(WordSum(data)), WordSum(data));
    var q := Quotient(WordSum(header + data), WordSum(header) + Weight(|header|) * WordSum(data));
    CongruentBy(total, WordSum(header + data), p - q);
    ReducedEqual(total, WordSum(header + data));
  }

  /** inet_chksum_pseudo: exactly the checksum of the pseudo-header followed by the data. The addresses are the 32-bit
      values the target reads from four bytes in network order. */
  method InetChksumPseudo(chain: seq<Pbuf>, src: seq<u8>, dest: seq<u8>, proto: u8, protoLen: u16) returns (r: u16)
    requires |src| == |dest| == 4
    ensures r == 0xffff - OnesSum(PseudoHeader(src, dest, proto, protoLen) + Contents(chain))
    ensures forall whole :: CutOf(chain, whole) ==>
      r == 0xffff - OnesSum(PseudoHeader(src, dest, proto, protoLen) + whole)
  {
    hide Congruent, OnesSum, Fold, LongWord, SwapBytes, WordSum, CutOf, Contents, PseudoHeader;
    forall whole | CutOf(chain, whole)
      ensures whole == Contents(chain)
    {
      CutContents(chain, whole);
    }
    var acc := SumChain(chain);
    ghost var data := acc;
    var addr := LongWord(src[0], src[1], src[2], src[3]);
    acc := acc + addr % 0x1_0000;
    acc := acc + addr / 0x1_0000 % 0x1_0000;
    addr := LongWord(dest[0], dest[1], dest[2], dest[3]);
    acc := acc + addr % 0x1_0000;
    acc := acc + addr / 0x1_0000 % 0x1_0000;
    acc := acc + SwapBytes(proto);
    acc := acc + SwapBytes(protoLen);
    HeaderSum(src, dest, proto, protoLen);
    PseudoHeaderFields(src, dest, proto, protoLen);
    assert acc == data + WordSum(PseudoHeader(src, dest, proto, protoLen));
    HeaderThenData(PseudoHeader(src, dest, proto, protoLen), Contents(chain), acc);
    FoldTwice(acc);

    acc := Fold(acc);
    acc := Fold(acc);
    r := 0xffff - acc % 0x1_0000;
  }

  lemma FieldFirst(low: u8, high: u8, after: seq<u8>)
    ensures WordSum([low, high] + after) == Word(low, high) + WordSum(after)
  {
    assert ([low, high] + after)[2..] == after;
  }

  /** An even prefix adds its own sum, exactly. */
  lemma {:induction false} WordSumEven(a: seq<u8>, b: seq<u8>)
    requires |a| % 2 == 0
    ensures WordSum(a + b) == WordSum(a) + WordSum(b)
  {
    if a == [] {
      assert a + b == b;
    } else {
      assert (a + b)[2..] == a[2..] + b;
      WordSumEven(a[2..], b);
    }
  }

  lemma AddMultiple(a: int, q: int)
    ensures (0xffff * q + a) % 0xffff == a % 0xffff
    decreases if q < 0 then -q else q
  {
    if q > 0 {
      AddMultiple(a, q - 1);
    } else if q < 0 {
      AddMultiple(a, q + 1);
    }
  }

  lemma Acceptance(n: nat, v: u16)
    ensures Reduced(n + v) == 0xffff <==> v == 0xffff - Reduced(n) || (Reduced(n) == 0xffff && v == 0xffff)
  {
    hide Congruent;
    ReducedCongruent(n);
    var q := Quotient(Reduced(n), n);
    if n > 0 {
      assert n + v - 1 == 0xffff * -q + (Reduced(n) + v - 1);
      AddMultiple(Reduced(n) + v - 1, -q);
    }
  }

  /** The receiver's test: with value v in a checksum field at an even offset the whole sums to 0xffff, so that
      inet_chksum gives 0, exactly when v is the checksum computed over a zero field, or its other representation when
      that checksum is zero. Every other change to that word is detected. */
  lemma FieldAccepted(before: seq<u8>, after: seq<u8>, v: u16)
    requires |before| % 2 == 0
    ensures var c := 0xffff - OnesSum(before + [0, 0] + after);
      OnesSum(before + [v % 0x100, v / 0x100] + after) == 0xffff <==> v == c || (c == 0 && v == 0xffff)
  {
    hide Congruent, Reduced, WordSum;
    var zero, full := before + [0, 0] + after, before + [v % 0x100, v / 0x100] + after;
    assert zero == before + ([0, 0] + after);
    assert full == before + ([v % 0x100, v / 0x100] + after);
    WordSumEven(before, [0, 0] + after);
    WordSumEven(before, [v % 0x100, v / 0x100] + after);
    FieldFirst(0, 0, after);
    FieldFirst(v % 0x100, v / 0x100, after);
    assert WordSum(full) == WordSum(zero) + v;
    Acceptance(WordSum(zero), v);
  }

  // ------------------------------------------------------------------------------------------------------------------
  // Byte order independence: section 2(B) of RFC 1071
  // ------------------------------------------------------------------------------------------------------------------

  function Sum(words: seq<u16>): nat {
    if words == [] then 0 else words[0] + Sum(words[1..])
  }

  function Swapped(words: seq<u16>): seq<u16> {
    seq(|words|, k requires 0 <= k < |words| => SwapBytes(words[k]))
  }

  /** The words of a buffer of even length as they lie in memory. */
  function WordsOf(data: seq<u8>): seq<u16>
    requires |data| % 2 == 0
  {
    seq<u16>(|data| / 2, k requires 0 <= k < |data| / 2 => Word(data[2 * k], data[2 * k + 1]))
  }

  /** The definition at the top is the plain sum of the 16-bit words of the buffer; an odd last byte counts as if a zero
      byte followed. */
  lemma {:induction false} WordSumIsSum(data: seq<u8>)
    requires |data| % 2 == 0
    ensures WordSum(data) == Sum(WordsOf(data))
    decreases |data|
  {
    if data != [] {
      WordSumIsSum(data[2..]);
      assert WordsOf(data)[1..] == WordsOf(data[2..]);
    }
  }

  lemma {:induction false} WordSumPads(data: seq<u8>)
    requires |data| % 2 == 1
    ensures WordSum(data) == WordSum(data + [0])
    decreases |data|
  {
    if |data| > 1 {
      WordSumPads(data[2..]);
      assert (data + [0])[2..] == data[2..] + [0];
    } else {
      assert (data + [0])[2..] == [];
    }
  }

  /** The worked example of section 3 of RFC 1071. */
  lemma Example()
    ensures SwapBytes(OnesSum([0x00, 0x01, 0xf2, 0x03, 0xf4, 0xf5, 0xf6, 0xf7])) == 0xddf2
  {
    var d := [0x00, 0x01, 0xf2, 0x03, 0xf4, 0xf5, 0xf6, 0xf7];
    assert d[2..] == [0xf2, 0x03, 0xf4, 0xf5, 0xf6, 0xf7];
    assert d[2..][2..] == [0xf4, 0xf5, 0xf6, 0xf7];
    assert d[2..][2..][2..] == [0xf6, 0xf7];
    assert d[2..][2..][2..][2..] == [];
  }

  lemma {:induction false} SumBound(words: seq<u16>)
    ensures Sum(words) <= 0xffff * |words|
  {
    if words != [] {
      SumBound(words[1..]);
    }
  }

  lemma {:induction false} SwappedSum(words: seq<u16>)
    ensures Congruent(Sum(Swapped(words)), 0x100 * Sum(words))
    ensures Sum(Swapped(words)) == 0 <==> Sum(words) == 0
  {
    hide Congruent, SwapBytes;
    if words == [] {
      CongruentSame(0);
    } else {
      assert Swapped(words)[1..] == Swapped(words[1..]);
      SwappedSum(words[1..]);
      var first: int := words[0];
      SwapCongruent(words[0]);
      CongruentAdd(SwapBytes(words[0]), 0x100 * first, Sum(Swapped(words[1..])), 0x100 * Sum(words[1..]));
    }
  }

  /** For up to 65537 words the 32-bit accumulator cannot overflow, folding it twice gives the one's complement sum, and
      swapping the bytes of every word first gives exactly the swapped result. */
  lemma ByteOrderIndependence(words: seq<u16>)
    requires |words| <= 0x1_0001
    ensures Sum(words) < 0x1_0000_0000 && Sum(Swapped(words)) < 0x1_0000_0000
    ensures Fold(Fold(Sum(words))) == Reduced(Sum(words))
    ensures Fold(Fold(Sum(Swapped(words)))) == SwapBytes(Fold(Fold(Sum(words))))
  {
    hide Congruent, Fold, Reduced, SwapBytes;
    SumBound(words);
    SumBound(Swapped(words));
    FoldTwice(Sum(words));
    FoldTwice(Sum(Swapped(words)));
    SwappedSum(words);
    SwapReduced(Sum(words));
    ReducedEqual(Sum(Swapped(words)), 0x100 * Sum(words));
  }
}
