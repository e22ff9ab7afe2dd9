// 64-bit words by their binary digits: bitwise or, and, complement and shifts,
// single-bit set, clear and test, and the positions of the highest and lowest
// set bit (std::countl_zero and std::countr_zero).
//
// A word is a natural number below 2^64, and every operation is defined one
// binary digit at a time, so every fact below is an induction on digits.
module Bits {

  function Pow2(n: nat): (p: nat)
    ensures p > 0
  {
    if n == 0 then 1 else 2 * Pow2(n - 1)
  }

  lemma {:induction false} Pow2Add(a: nat, b: nat)
    ensures Pow2(a + b) == Pow2(a) * Pow2(b)
  {
    if a > 0 {
      Pow2Add(a - 1, b);
    }
  }

  lemma Pow2Words()
    ensures Pow2(63) == TOP
    ensures Pow2(64) == ONES + 1
  {
    assert Pow2(8) == 256 by {
      assert Pow2(4) == 16;
    }
    Pow2Add(8, 8);
    Pow2Add(16, 16);
    Pow2Add(32, 32);
  }

  const TOP: nat := 0x8000_0000_0000_0000
  const ONES: nat := 0xFFFF_FFFF_FFFF_FFFF

  type Word = w: nat | w <= ONES

  predicate TestBit(w: nat, k: nat) {
    if k == 0 then w % 2 == 1 else TestBit(w / 2, k - 1)
  }

  function Or(a: nat, b: nat): (c: nat)
    ensures c <= a + b
    decreases a + b
  {
    if a == 0 && b == 0 then 0
    else 2 * Or(a / 2, b / 2) + (if a % 2 == 1 || b % 2 == 1 then 1 else 0)
  }

  function And(a: nat, b: nat): (c: nat)
    ensures c <= a && c <= b
  {
    if a == 0 then 0
    else 2 * And(a / 2, b / 2) + (if a % 2 == 1 && b % 2 == 1 then 1 else 0)
  }

  function Not(w: Word): Word {
    ONES - w
  }

  // Left shift drops the digit that leaves the top; right shift drops the low one.
  function Shl(w: Word, n: nat): Word {
    if n == 0 then w
    else
      var x := Shl(w, n - 1);
      2 * (if x >= TOP then x - TOP else x)
  }

  function Shr(w: nat, n: nat): (r: nat)
    ensures r <= w
  {
    if n == 0 then w else Shr(w / 2, n - 1)
  }

  function SetBit(w: Word, k: nat): nat {
    Or(w, Shl(1, k))
  }

  function ClearBit(w: Word, k: nat): Word {
    And(w, Not(Shl(1, k)))
  }

  // Zero digits above the highest set digit at or below digit `k`.
  function CountlZeroFrom(w: nat, k: nat): (n: nat)
    requires k < 64
    ensures 63 - k <= n <= 64
  {
    if TestBit(w, k) then 63 - k else if k == 0 then 64 else CountlZeroFrom(w, k - 1)
  }

  function CountlZero(w: Word): nat {
    CountlZeroFrom(w, 63)
  }

  // Zero digits below the lowest set digit at or above digit `k`.
  function CountrZeroFrom(w: nat, k: nat): (n: nat)
    requires k < 64
    ensures k <= n <= 64
    decreases 64 - k
  {
    if TestBit(w, k) then k else if k == 63 then 64 else CountrZeroFrom(w, k + 1)
  }

  function CountrZero(w: Word): nat {
    CountrZeroFrom(w, 0)
  }

  // ---- digits through the operators ----

  lemma {:induction false} TestZero(k: nat)
    ensures !TestBit(0, k)
  {
    if k > 0 {
      TestZero(k - 1);
    }
  }

  lemma {:induction false} TestOr(a: nat, b: nat, k: nat)
    ensures TestBit(Or(a, b), k) <==> TestBit(a, k) || TestBit(b, k)
    decreases k
  {
    if a == 0 && b == 0 {
    } else if k > 0 {
      TestOr(a / 2, b / 2, k - 1);
    }
  }

  lemma {:induction false} TestAnd(a: nat, b: nat, k: nat)
    ensures TestBit(And(a, b), k) <==> TestBit(a, k) && TestBit(b, k)
    decreases k
  {
    if a == 0 {
      TestZero(k);
    } else if k > 0 {
      TestAnd(a / 2, b / 2, k - 1);
    }
  }

  // The complement within n digits flips each of them.
  lemma {:induction false} TestComplement(w: nat, n: nat, k: nat)
    requires k < n && w < Pow2(n)
    ensures TestBit(Pow2(n) - 1 - w, k) <==> !TestBit(w, k)
  {
    if k > 0 {
      assert (Pow2(n) - 1 - w) / 2 == Pow2(n - 1) - 1 - w / 2;
      TestComplement(w / 2, n - 1, k - 1);
    }
  }

  lemma TestNot(w: Word, k: nat)
    requires k < 64
    ensures TestBit(Not(w), k) <==> !TestBit(w, k)
  {
    Pow2Words();
    TestComplement(w, 64, k);
  }

  lemma OnesBit(k: nat)
    requires k < 64
    ensures TestBit(ONES, k)
  {
    TestNot(0, k);
    TestZero(k);
  }

  // Taking away the digit of weight 2^n leaves the digits below it alone.
  lemma {:induction false} TestDropTop(w: nat, n: nat, k: nat)
    requires k < n && Pow2(n) <= w
    ensures TestBit(w - Pow2(n), k) <==> TestBit(w, k)
  {
    if k > 0 {
      TestDropTop(w / 2, n - 1, k - 1);
    }
  }

  lemma {:induction false} TestShl(w: Word, n: nat, k: nat)
    requires n < 64 && k < 64
    ensures TestBit(Shl(w, n), k) <==> n <= k && TestBit(w, k - n)
    decreases n
  {
    if n > 0 && k > 0 {
      var x := Shl(w, n - 1);
      Pow2Words();
      if x >= TOP {
        TestDropTop(x, 63, k - 1);
      }
      TestShl(w, n - 1, k - 1);
    }
  }

  lemma {:induction false} TestShr(w: nat, n: nat, k: nat)
    ensures TestBit(Shr(w, n), k) <==> TestBit(w, n + k)
    decreases n
  {
    if n > 0 {
      TestShr(w / 2, n - 1, k);
    }
  }

  lemma {:induction false} TestTooHigh(w: nat, n: nat, k: nat)
    requires w < Pow2(n) && n <= k
    ensures !TestBit(w, k)
  {
    if n == 0 {
      TestZero(k);
    } else {
      TestTooHigh(w / 2, n - 1, k - 1);
    }
  }

  lemma TestOne(k: nat)
    ensures TestBit(1, k) <==> k == 0
  {
    if k > 0 {
      TestTooHigh(1, 1, k);
    }
  }

  // The or of two words is a word.
  lemma {:induction false} OrFits(a: nat, b: nat, n: nat)
    requires a < Pow2(n) && b < Pow2(n)
    ensures Or(a, b) < Pow2(n)
  {
    if n > 0 {
      OrFits(a / 2, b / 2, n - 1);
    }
  }

  lemma {:induction false} AndZero(x: nat)
    ensures And(x, 0) == 0
  {
    if x != 0 {
      AndZero(x / 2);
    }
  }

  lemma Multiple(k: int, d: int)
    requires d > 0
    ensures (k >= 1 ==> k * d >= d) && (k <= -1 ==> k * d <= -d)
  {
    if k >= 1 {
      assert (k - 1) * d >= 0;
    }
    if k <= -1 {
      assert (-k - 1) * d >= 0;
    }
  }

  lemma RemainderIs(x: nat, d: nat, q: nat, r: nat)
    requires r < d && x == q * d + r
    ensures x % d == r
  {
    var q' := x / d;
    assert x == q' * d + x % d;
    assert (q - q') * d == q * d - q' * d;
    Multiple(q - q', d);
  }

  lemma DoubledRemainder(x: nat, p: nat)
    requires p > 0
    ensures x % (2 * p) == 2 * ((x / 2) % p) + x % 2
  {
    var q, r := (x / 2) / p, (x / 2) % p;
    assert x / 2 == q * p + r;
    assert q * (2 * p) == 2 * (q * p);
    RemainderIs(x, 2 * p, q, 2 * r + x % 2);
  }

  // Masking with a power of two less one is the remainder by that power.
  lemma {:induction false} MaskIsRemainder(x: nat, k: nat)
    ensures And(x, Pow2(k) - 1) == x % Pow2(k)
    decreases k
  {
    if k == 0 {
      AndZero(x);
    } else if x > 0 {
      MaskIsRemainder(x / 2, k - 1);
      DoubledRemainder(x, Pow2(k - 1));
      assert (Pow2(k) - 1) / 2 == Pow2(k - 1) - 1;
    } else {
      assert x % Pow2(k) == 0 by { RemainderIs(0, Pow2(k), 0, 0); }
    }
  }

  // ---- what the book needs ----

  lemma TestAfterSet(w: Word, k: nat, j: nat)
    requires k < 64 && j < 64
    ensures TestBit(SetBit(w, k), j) <==> j == k || TestBit(w, j)
  {
    TestOr(w, Shl(1, k), j);
    TestShl(1, k, j);
    if k <= j {
      TestOne(j - k);
    }
  }

  lemma SetBitFits(w: Word, k: nat)
    ensures SetBit(w, k) <= ONES
  {
    Pow2Words();
    OrFits(w, Shl(1, k), 64);
  }

  lemma TestAfterClear(w: Word, k: nat, j: nat)
    requires k < 64 && j < 64
    ensures TestBit(ClearBit(w, k), j) <==> j != k && TestBit(w, j)
  {
    TestAnd(w, Not(Shl(1, k)), j);
    TestNot(Shl(1, k), j);
    TestShl(1, k, j);
    if k <= j {
      TestOne(j - k);
    }
  }

  // The scan-down mask keeps exactly the bits at or below `from`.
  lemma TestAtOrBelow(w: Word, from: nat, j: nat)
    requires from < 64 && j < 64
    ensures TestBit(And(w, Shr(ONES, 63 - from)), j) <==> j <= from && TestBit(w, j)
  {
    TestAnd(w, Shr(ONES, 63 - from), j);
    TestShr(ONES, 63 - from, j);
    if j <= from {
      OnesBit(63 - from + j);
    } else {
      Pow2Words();
      TestTooHigh(ONES, 64, 63 - from + j);
    }
  }

  // The scan-up mask keeps exactly the bits at or above `from`.
  lemma TestAtOrAbove(w: Word, from: nat, j: nat)
    requires from < 64 && j < 64
    ensures TestBit(And(w, Shl(ONES, from)), j) <==> from <= j && TestBit(w, j)
  {
    TestAnd(w, Shl(ONES, from), j);
    TestShl(ONES, from, j);
    if from <= j {
      OnesBit(j - from);
    }
  }

  lemma {:induction false} NonzeroHasBit(w: nat, n: nat) returns (k: nat)
    requires 0 < w < Pow2(n)
    ensures k < n && TestBit(w, k)
  {
    if w % 2 == 1 {
      k := 0;
    } else {
      k := NonzeroHasBit(w / 2, n - 1);
      k := k + 1;
    }
  }

  lemma {:induction false} CountlFrom(w: nat, k: nat, j: nat)
    requires j <= k < 64 && TestBit(w, j)
    ensures var h := 63 - CountlZeroFrom(w, k);
            j <= h <= k && TestBit(w, h) && forall i: nat | h < i <= k :: !TestBit(w, i)
  {
    if !TestBit(w, k) {
      CountlFrom(w, k - 1, j);
    }
  }

  lemma {:induction false} CountrFrom(w: nat, k: nat, j: nat)
    requires k <= j < 64 && TestBit(w, j)
    ensures var l := CountrZeroFrom(w, k);
            k <= l <= j && TestBit(w, l) && forall i: nat | k <= i < l :: !TestBit(w, i)
    decreases 64 - k
  {
    if !TestBit(w, k) {
      CountrFrom(w, k + 1, j);
    }
  }

  lemma HighestBit(w: Word)
    requires w != 0
    ensures var h := 63 - CountlZero(w);
            0 <= h < 64 && TestBit(w, h) && forall i: nat | h < i < 64 :: !TestBit(w, i)
  {
    Pow2Words();
    var k := NonzeroHasBit(w, 64);
    CountlFrom(w, 63, k);
  }

  lemma LowestBit(w: Word)
    requires w != 0
    ensures var l := CountrZero(w);
            0 <= l < 64 && TestBit(w, l) && forall i: nat | i < l :: !TestBit(w, i)
  {
    Pow2Words();
    var k := NonzeroHasBit(w, 64);
    CountrFrom(w, 0, k);
  }
}
