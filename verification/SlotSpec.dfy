// How a high-dynamic-range histogram lays values out in slots. A value below
// twice the half-count has a slot of its own; a larger one is halved until it is
// below, climbing one half-count of slots at each halving.
//
// The program finds the slot with bit tricks; those are shown to agree.
module SlotSpec {
  import opened Bits

  // half is the number of slots per doubling.
  function Slot(half: nat, v: nat): nat
    requires half > 0
  {
    if v < 2 * half then v else half + Slot(half, v / 2)
  }

  function Low(half: nat, v: nat): (l: nat)
    requires half > 0
    ensures l <= v
  {
    if v < 2 * half then v else 2 * Low(half, v / 2)
  }

  function High(half: nat, v: nat): (h: nat)
    requires half > 0
    ensures h >= v
  {
    if v < 2 * half then v else 2 * High(half, v / 2) + 1
  }

  function Width(half: nat, v: nat): nat
    requires half > 0
  {
    if v < 2 * half then 1 else 2 * Width(half, v / 2)
  }

  function FromSlot(half: nat, i: nat): nat
    requires half > 0
  {
    if i < 2 * half then i else 2 * FromSlot(half, i - half)
  }

  // ---- the slots partition the values into intervals, in order ----

  lemma {:induction false} SlotAtLeast(half: nat, v: nat)
    requires half > 0 && v >= half
    ensures Slot(half, v) >= half
  {
  }

  lemma {:induction false} SlotMonotone(half: nat, v: nat, w: nat)
    requires half > 0 && v <= w
    ensures Slot(half, v) <= Slot(half, w)
  {
    if v < 2 * half <= w {
      SlotLarge(half, w);
    } else if v >= 2 * half {
      SlotMonotone(half, v / 2, w / 2);
    }
  }

  lemma {:induction false} SlotLarge(half: nat, w: nat)
    requires half > 0 && w >= 2 * half
    ensures Slot(half, w) >= 2 * half
  {
    SlotAtLeast(half, w / 2);
  }

  // The values that share v's slot are exactly those from its low to its high edge.
  lemma {:induction false} SameSlot(half: nat, v: nat, x: nat)
    requires half > 0
    ensures Slot(half, x) == Slot(half, v) <==> Low(half, v) <= x <= High(half, v)
    decreases v + x
  {
    if v < 2 * half && x < 2 * half {
    } else if v < 2 * half {
      SlotLarge(half, x);
    } else if x < 2 * half {
      SlotLarge(half, v);
      LowLarge(half, v);
    } else {
      SameSlot(half, v / 2, x / 2);
    }
  }

  lemma {:induction false} LowLarge(half: nat, v: nat)
    requires half > 0 && v >= 2 * half
    ensures Low(half, v) >= 2 * half
  {
    if v / 2 < 2 * half {
    } else {
      LowLarge(half, v / 2);
    }
  }

  // The edges: width, and what the slot's number alone gives back.
  lemma {:induction false} SlotEdges(half: nat, v: nat)
    requires half > 0
    ensures High(half, v) == Low(half, v) + Width(half, v) - 1
    ensures FromSlot(half, Slot(half, v)) == Low(half, v)
    ensures Slot(half, Low(half, v)) == Slot(half, v) == Slot(half, High(half, v))
  {
    SameSlot(half, v, Low(half, v));
    SameSlot(half, v, High(half, v));
    if v >= 2 * half {
      SlotEdges(half, v / 2);
      SlotLarge(half, v);
    }
  }

  // The slot is one wide, or at most 1/half of the value.
  lemma {:induction false} Precision(half: nat, v: nat)
    requires half > 0
    ensures Width(half, v) == 1 || Width(half, v) * half <= Low(half, v)
  {
    if v >= 2 * half {
      Precision(half, v / 2);
      if v / 2 >= 2 * half {
        WidthLarge(half, v / 2);
      }
    }
  }

  lemma {:induction false} WidthLarge(half: nat, v: nat)
    requires half > 0 && v >= 2 * half
    ensures Width(half, v) >= 2
  {
    if v / 2 >= 2 * half {
      WidthLarge(half, v / 2);
    }
  }

  // Every slot number stands for the low edge of its slot.
  lemma {:induction false} SlotFromSlot(half: nat, i: nat)
    requires half > 0
    ensures Slot(half, FromSlot(half, i)) == i && Low(half, FromSlot(half, i)) == FromSlot(half, i)
  {
    if i >= 2 * half {
      SlotFromSlot(half, i - half);
      FromSlotAtLeast(half, i - half);
    }
  }

  lemma {:induction false} FromSlotAtLeast(half: nat, i: nat)
    requires half > 0 && i >= half
    ensures FromSlot(half, i) >= half
  {
    if i >= 2 * half {
      FromSlotAtLeast(half, i - half);
    }
  }

  lemma LowMonotone(half: nat, v: nat, w: nat)
    requires half > 0 && v <= w
    ensures Low(half, v) <= Low(half, w)
  {
    if Low(half, w) < Low(half, v) {
      SameSlot(half, v, w);
      SlotEdges(half, w);
      SlotEdges(half, v);
      SlotMonotone(half, v, w);
      SlotMonotone(half, Low(half, w), Low(half, v));
    }
  }

  // Values below 2^k half-counts have slots below k + 1 half-counts.
  lemma {:induction false} SlotBound(half: nat, v: nat, k: nat)
    requires half > 0 && v < 2 * half * Pow2(k)
    ensures Slot(half, v) < (k + 2) * half
  {
    if v >= 2 * half {
      assert v / 2 < half * Pow2(k);
      SlotBound(half, v / 2, k - 1);
    }
  }

  // ---- the bit arithmetic ----

  // Slots per doubling and per bucket, as powers of two.
  function Half(m: nat): (h: nat)
    requires m > 0
    ensures h > 0
  {
    Pow2(m - 1)
  }

  function Mask(m: nat): nat {
    Pow2(m) - 1
  }

  // 64 - m, less the zeros above the highest bit of v or-ed with the mask.
  function BucketIndex(m: nat, v: nat): int
    requires m <= 63 && Or(v, Mask(m)) <= ONES
  {
    64 - m - CountlZero(Or(v, Mask(m)))
  }

  // How often v is halved.
  function Halvings(half: nat, v: nat): nat
    requires half > 0
  {
    if v < 2 * half then 0 else 1 + Halvings(half, v / 2)
  }

  lemma {:induction false} OrAtLeast(a: nat, b: nat)
    ensures Or(a, b) >= a && Or(a, b) >= b
    decreases a + b
  {
    if a != 0 || b != 0 {
      OrAtLeast(a / 2, b / 2);
    }
  }

  lemma {:induction false} TopBit(w: nat, h: nat)
    requires Pow2(h) <= w < Pow2(h + 1)
    ensures TestBit(w, h)
  {
    if h > 0 {
      TopBit(w / 2, h - 1);
    }
  }

  lemma CountlOf(w: Word, h: nat)
    requires h < 64 && Pow2(h) <= w < Pow2(h + 1)
    ensures CountlZero(w) == 63 - h
  {
    TopBit(w, h);
    HighestBit(w);
    var k := 63 - CountlZero(w);
    if h < k {
      TestTooHigh(w, h + 1, k);
    }
  }

  lemma {:induction false} Pow2Grows(a: nat, b: nat)
    requires a <= b
    ensures Pow2(a) <= Pow2(b)
  {
    if a < b {
      Pow2Grows(a, b - 1);
    }
  }

  lemma {:induction false} HalvingsRange(m: nat, v: nat)
    requires m > 0
    ensures var b := Halvings(Half(m), v); v < Pow2(m + b) && (b > 0 ==> Pow2(m + b - 1) <= v)
    decreases v
  {
    if v >= 2 * Half(m) {
      HalvingsRange(m, v / 2);
    }
  }

  lemma MaskFits(m: nat, v: nat)
    requires 0 < m <= 63 && v <= ONES
    ensures Or(v, Mask(m)) <= ONES
  {
    Pow2Words();
    Pow2Grows(m, 64);
    OrFits(v, Mask(m), 64);
  }

  lemma BucketIsHalvings(m: nat, v: nat)
    requires 0 < m <= 63 && v <= ONES
    ensures Or(v, Mask(m)) <= ONES && BucketIndex(m, v) == Halvings(Half(m), v)
  {
    hide Or, Halvings, CountlZero;
    MaskFits(m, v);
    var w := Or(v, Mask(m));
    var b := Halvings(Half(m), v);
    HalvingsRange(m, v);
    OrAtLeast(v, Mask(m));
    Pow2Grows(m, m + b);
    OrFits(v, Mask(m), m + b);
    HalvingsBound(m, v);
    CountlOf(w, m + b - 1);
  }

  lemma HalvingsBound(m: nat, v: nat)
    requires 0 < m <= 63 && v <= ONES
    ensures m + Halvings(Half(m), v) <= 64
  {
    var b := Halvings(Half(m), v);
    HalvingsRange(m, v);
    Pow2Words();
    if m + b > 64 && b > 0 {
      Pow2Grows(64, m + b - 1);
    }
  }

  // x shifted left b places.
  function Up(x: nat, b: nat): nat {
    if b == 0 then x else 2 * Up(x, b - 1)
  }

  lemma {:induction false} UpIsTimes(x: nat, b: nat)
    ensures Up(x, b) == x * Pow2(b)
  {
    if b > 0 {
      UpIsTimes(x, b - 1);
      DoubledRight(x, Pow2(b - 1));
    }
  }

  lemma DoubledRight(x: nat, y: nat)
    ensures x * (2 * y) == 2 * (x * y)
  {
  }

  lemma OneMore(q: nat, half: nat)
    ensures (q + 1) * half == q * half + half
  {
  }

  // Shifting right by the halvings leaves the leading digits; shifting back gives
  // the low edge.
  lemma {:induction false} ShiftedSlot(half: nat, v: nat)
    requires half > 0
    ensures var b := Halvings(half, v);
            && Slot(half, v) == b * half + Shr(v, b)
            && Low(half, v) == Up(Shr(v, b), b)
            && Width(half, v) == Pow2(b)
            && Shr(v, b) < 2 * half
  {
    if v >= 2 * half {
      ShiftedSlot(half, v / 2);
      var b := Halvings(half, v / 2);
      OneMore(b, half);
    }
  }

  // An index splits into its digits above and below the half-count.
  lemma {:induction false} SplitIndex(i: nat, k: nat)
    ensures i == Up(Shr(i, k), k) + And(i, Pow2(k) - 1) && And(i, Pow2(k) - 1) < Pow2(k)
  {
    if i == 0 {
      ShrZero(k);
      UpZero(k);
    } else if k > 0 {
      SplitIndex(i / 2, k - 1);
      assert (Pow2(k) - 1) / 2 == Pow2(k - 1) - 1;
    }
  }

  lemma {:induction false} ShrZero(k: nat)
    ensures Shr(0, k) == 0
  {
    if k > 0 {
      ShrZero(k - 1);
    }
  }

  lemma {:induction false} UpZero(k: nat)
    ensures Up(0, k) == 0
  {
    if k > 0 {
      UpZero(k - 1);
    }
  }

  lemma {:induction false} FromSplit(half: nat, q: nat, r: nat)
    requires half > 0 && r < half
    ensures FromSlot(half, q * half + r) == if q == 0 then r else Up(r + half, q - 1)
    decreases q
  {
    if q == 1 {
      assert q * half + r == half + r;
    } else if q >= 2 {
      OneMore(q - 1, half);
      OneMore(q - 2, half);
      FromSplit(half, q - 1, r);
      var i := q * half + r;
      assert i - half == (q - 1) * half + r;
      NotNegative(q - 2, half);
      assert i >= 2 * half;
    }
  }

  lemma NotNegative(q: nat, half: nat)
    ensures q * half >= 0
  {
  }

  // The index the program computes from bucket and leading digits is the slot.
  lemma IndexOfDigits(m: nat, v: nat)
    requires 0 < m <= 63
    ensures var b := Halvings(Half(m), v);
            Up(b + 1, m - 1) + (Shr(v, b) - Half(m)) == Slot(Half(m), v) && Shr(v, b) < Pow2(m)
  {
    var b := Halvings(Half(m), v);
    ShiftedSlot(Half(m), v);
    UpIsTimes(b + 1, m - 1);
    OneMore(b, Half(m));
  }

  lemma IndexInBounds(m: nat, v: nat, buckets: nat)
    requires 0 < m && buckets >= 1 && v < Pow2(m + buckets - 1)
    ensures Slot(Half(m), v) < (buckets + 1) * Half(m)
  {
    Pow2Add(m, buckets - 1);
    SlotBound(Half(m), v, buckets - 1);
  }

  // A word with its top bit set has a slot past an array of this many buckets.
  lemma TopIsOutside(m: nat, v: nat, buckets: nat)
    requires 0 < m <= 63 && TOP <= v <= ONES && m + buckets <= 64
    ensures Slot(Half(m), v) >= (buckets + 1) * Half(m)
  {
    var b, half := Halvings(Half(m), v), Half(m);
    HalvingsBound(m, v);
    HalvingsRange(m, v);
    Pow2Words();
    if m + b < 64 {
      Pow2Grows(m + b, 63);
    }
    ShiftedSlot(half, v);
    LeadingDigit(half, v);
    OneMore(b, half);
    MoreTimes(buckets + 1, b + 1, half);
  }

  lemma {:induction false} LeadingDigit(half: nat, v: nat)
    requires half > 0 && v >= 2 * half
    ensures Shr(v, Halvings(half, v)) >= half
  {
    if v / 2 >= 2 * half {
      LeadingDigit(half, v / 2);
    }
  }

  lemma MoreTimes(x: nat, y: nat, half: nat)
    requires x <= y
    ensures x * half <= y * half
  {
  }

  // What an index's digits give back is the low edge of its slot.
  lemma DigitsOfIndex(m: nat, i: nat)
    requires m > 0
    ensures var q, r := Shr(i, m - 1), And(i, Half(m) - 1);
            FromSlot(Half(m), i) == if q == 0 then r else Up(r + Half(m), q - 1)
  {
    hide FromSlot, Up, Shr, And, Pow2;
    SplitIndex(i, m - 1);
    UpIsTimes(Shr(i, m - 1), m - 1);
    FromSplit(Half(m), Shr(i, m - 1), And(i, Half(m) - 1));
  }
}
