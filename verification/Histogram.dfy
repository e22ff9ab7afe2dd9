// The HDR histogram: a fixed array of counts, indexed by bit arithmetic on the
// value, with exact count and extremes beside it.
module Histograms {
  import opened Types
  import opened Bits
  import opened SlotSpec
  import opened HistSpec

  // The smallest power of two that is at least v.
  method CeilLog2(v: nat) returns (n: nat)
    requires v >= 1
    ensures v <= Pow2(n) && (n > 0 ==> Pow2(n - 1) < v)
  {
    n := 0;
    var x := 1;
    while x < v
      invariant x == Pow2(n) && (n > 0 ==> Pow2(n - 1) < v)
      decreases v - x
    {
      x := 2 * x;
      n := n + 1;
    }
  }

  // Just enough slots per doubling for the digits, and just enough doublings for the
  // ceiling.
  ghost predicate FitsLayout(m: nat, buckets: nat, highest: nat, digits: nat) {
    && 0 < m <= 18 && buckets >= 1 && 2 <= highest <= INT64_MAX
    && Pow10(digits) <= Half(m) && (m > 1 ==> Half(m - 1) < Pow10(digits))
    && highest < Pow2(m + buckets - 1) && (buckets > 1 ==> Pow2(m + buckets - 2) <= highest)
  }

  method Layout(highest: nat, digits: nat) returns (m: nat, buckets: nat)
    requires 1 <= digits <= 5 && 2 <= highest <= INT64_MAX
    ensures FitsLayout(m, buckets, highest, digits)
  {
    var unit := 2;
    for i := 0 to digits
      invariant unit == 2 * Pow10(i)
    {
      unit := unit * 10;
    }
    DigitsFit(digits);
    m := CeilLog2(unit);
    if m > 18 {
      Pow2Grows(18, m - 1);
    }
    buckets := BucketsFor(m, highest);
  }

  // The fewest doublings that reach past the ceiling.
  method BucketsFor(m: nat, highest: nat) returns (buckets: nat)
    requires 0 < m <= 18 && 2 <= highest <= INT64_MAX
    ensures buckets >= 1 && highest < Pow2(m + buckets - 1) && (buckets > 1 ==> Pow2(m + buckets - 2) <= highest)
  {
    var smallest := Pow2(m);
    buckets := 1;
    Pow2Words();
    while smallest <= highest
      invariant buckets >= 1 && smallest == Pow2(m + buckets - 1) && (buckets > 1 ==> Pow2(m + buckets - 2) <= highest)
      decreases highest - smallest
    {
      if smallest > INT64_MAX / 2 {
        buckets := buckets + 1;
        assert Pow2(m + buckets - 1) == 2 * smallest;
        break;
      }
      smallest := 2 * smallest;
      buckets := buckets + 1;
    }
  }

  // So a slot is one wide, or narrow enough for the digits asked for.
  lemma FineEnough(half: nat, digits: nat, v: nat)
    requires 0 < Pow10(digits) <= half
    ensures Width(half, v) == 1 || Width(half, v) * Pow10(digits) <= v
  {
    hide Width, Low, Slot, High, Pow10;
    Precision(half, v);
    SlotEdges(half, v);
    SameSlot(half, v, v);
    LessTimes(Width(half, v), Pow10(digits), half);
  }

  lemma LessTimes(w: nat, x: nat, y: nat)
    requires x <= y
    ensures w * x <= w * y
  {
  }

  // One ceiling and one number of digits have one layout.
  lemma LayoutUnique(m: nat, buckets: nat, m': nat, buckets': nat, highest: nat, digits: nat)
    requires FitsLayout(m, buckets, highest, digits) && FitsLayout(m', buckets', highest, digits)
    ensures m == m' && buckets == buckets'
  {
    if m < m' {
      Pow2Grows(m - 1, m' - 2);
    } else if m' < m {
      Pow2Grows(m' - 1, m - 2);
    } else if buckets < buckets' {
      Pow2Grows(m + buckets - 1, m + buckets' - 2);
    } else if buckets' < buckets {
      Pow2Grows(m + buckets' - 1, m + buckets - 2);
    }
  }

  lemma DigitsFit(digits: nat)
    requires 1 <= digits <= 5
    ensures 10 <= Pow10(digits) <= 100000 && Pow2(18) == 262144
  {
    assert Pow2(6) == 64;
    assert Pow2(12) == 4096;
  }

  // A 64-bit integer as the word that holds it.
  function BitsOf(v: int): Word
    requires INT64_MIN <= v <= INT64_MAX
  {
    if v < 0 then ONES + 1 + v else v
  }

  // What the fields other than the counts should be, min apart: a merge lowers it
  // to the edge of its slot.
  ghost predicate Matches(t: Summary, half: nat, count: nat, max: nat, trueMax: int, overflow: nat, min: nat)
    requires half > 0
  {
    && count == t.count && max == t.max && trueMax == t.trueMax && overflow == t.overflow
    && Low(half, t.min) <= min <= t.min
  }

  class Histogram {
    const highest: nat
    const digits: nat
    const m: nat
    const half: nat
    const buckets: nat
    const counts: array<nat>
    var count: nat
    var min: nat
    var max: nat
    var trueMax: int
    var overflow: nat
    ghost var log: Log

    ghost predicate Shape()
      reads this
    {
      FitsLayout(m, buckets, highest, digits) && half == Half(m) && counts.Length == (buckets + 1) * half
    }

    ghost predicate Valid()
      reads this, counts
    {
      && Shape()
      && (forall i | 0 <= i < counts.Length :: counts[i] == CountAt(log, half, highest, i))
      && Matches(Summarized(log, highest), half, count, max, trueMax, overflow, min)
    }

    constructor (highest: nat, digits: nat)
      requires 1 <= digits <= 5 && 2 <= highest <= INT64_MAX
      ensures Valid() && log == [] && min == INT64_MAX && this.highest == highest && this.digits == digits
      ensures fresh(this) && fresh(counts)
    {
      var m, buckets := Layout(highest, digits);
      this.highest, this.digits, this.m, this.half, this.buckets := highest, digits, m, Pow2(m - 1), buckets;
      counts := new nat[(buckets + 1) * Pow2(m - 1)](_ => 0);
      count, min, max, trueMax, overflow, log := 0, INT64_MAX, 0, 0, 0, [];
    }

    // ---- the index arithmetic ----

    function BucketOf(v: nat): int
      requires m <= 63 && Or(v, Mask(m)) <= ONES
    {
      BucketIndex(m, v)
    }

    function CountsIndex(bucket: nat, sub: int): int
      requires m > 0
    {
      Up(bucket + 1, m - 1) + (sub - half)
    }

    lemma IndexIsSlot(v: nat)
      requires Shape() && v <= ONES
      ensures Or(v, Mask(m)) <= ONES && BucketOf(v) == Halvings(half, v)
      ensures CountsIndex(Halvings(half, v), Shr(v, Halvings(half, v))) == Slot(half, v)
      ensures v <= highest ==> Slot(half, v) < counts.Length
      ensures Up(Shr(v, Halvings(half, v)), Halvings(half, v)) == Low(half, v)
              && Pow2(Halvings(half, v)) == Width(half, v)
      ensures Shr(v, Halvings(half, v)) < Pow2(m)
    {
      hide Pow2, Slot, Low, Width, Shr, Up, Or, Halvings, BucketIndex, Pow10;
      BucketIsHalvings(m, v);
      ShiftedSlot(half, v);
      IndexOfDigits(m, v);
      if v <= highest {
        IndexInBounds(m, v, buckets);
      }
    }

    lemma HighestHasSlot()
      requires Shape()
      ensures highest <= INT64_MAX && Slot(half, highest) < counts.Length
    {
      hide Pow2, Slot, Pow10;
      IndexInBounds(m, highest, buckets);
    }

    lemma NegativeIsOutside(v: nat)
      requires Shape() && TOP <= v <= ONES
      ensures Slot(half, v) >= counts.Length
    {
      hide Pow2, Slot, Pow10;
      Pow2Words();
      if m + buckets > 64 {
        Pow2Grows(63, m + buckets - 2);
      }
      TopIsOutside(m, v, buckets);
    }

    // The index computed from a value is its bits' slot: in bounds for a value up to
    // the ceiling, past the array for a negative one.
    method IndexFor(v: int) returns (i: nat)
      requires Shape() && INT64_MIN <= v <= INT64_MAX
      ensures i == Slot(half, BitsOf(v)) && (0 <= v <= highest ==> i < counts.Length) && (v < 0 ==> i >= counts.Length)
    {
      var u := BitsOf(v);
      IndexIsSlot(u);
      if v < 0 {
        NegativeIsOutside(u);
      }
      var b: nat := BucketOf(u);
      i := CountsIndex(b, Shr(u, b));
    }

    method ValueFromIndex(i: nat) returns (v: nat)
      requires Shape()
      ensures v == FromSlot(half, i)
    {
      DigitsOfIndex(m, i);
      var bucket := Shr(i, m - 1) - 1;
      var sub := And(i, half - 1) + half;
      if bucket < 0 {
        sub := sub - half;
        bucket := 0;
      }
      v := Up(sub, bucket);
    }

    method LowestEquivalent(v: nat) returns (l: nat)
      requires Shape() && v <= INT64_MAX
      ensures l == Low(half, v)
    {
      IndexIsSlot(v);
      var b: nat := BucketOf(v);
      l := Up(Shr(v, b), b);
    }

    method EquivalentRange(v: nat) returns (w: nat)
      requires Shape() && v <= INT64_MAX
      ensures w == Width(half, v) && (w == 1 || w * Pow10(digits) <= v)
    {
      FineEnough(half, digits, v);
      IndexIsSlot(v);
      var b: nat := BucketOf(v);
      var shift: int := if Shr(v, b) >= Pow2(m) then b + 1 else b;
      w := Pow2(shift);
    }

    method HighestEquivalent(v: nat) returns (h: nat)
      requires Shape() && v <= INT64_MAX
      ensures h == High(half, v)
    {
      var l := LowestEquivalent(v);
      var w := EquivalentRange(v);
      SlotEdges(half, v);
      h := l + w - 1;
    }

    // ---- recording ----

    // The fields after one more sample, whatever they were before.
    method RecordN(value: int, n: nat)
      requires Shape()
      modifies this`count, this`min, this`max, this`trueMax, this`overflow, counts
      ensures var c := Clamped(highest, value);
              && Slot(half, c) < counts.Length
              && (forall i | 0 <= i < counts.Length ::
                    counts[i] == old(counts[i]) + if i == Slot(half, c) then n else 0)
              && count == old(count) + n && min == Min(old(min), c) && max == Max(old(max), c)
              && trueMax == Max(old(trueMax), Max(value, 0))
              && overflow == old(overflow) + if value > highest then n else 0
    {
      var v := value;
      if v < 0 {
        v := 0;
      }
      if v > trueMax {
        trueMax := v;
      }
      if v > highest {
        v := highest;
        overflow := overflow + n;
      }
      var i := IndexFor(v);
      counts[i] := counts[i] + n;
      count := count + n;
      if v < min {
        min := v;
      }
      if v > max {
        max := v;
      }
    }

    method Record(value: int, n: nat)
      requires Valid()
      modifies this, counts
      ensures Valid() && log == old(log) + [Sample(value, n)] && min == Min(old(min), Clamped(highest, value))
    {
      hide Slot, CountAt, Summarized, Pow2, Pow10, Clamped, Half;
      ghost var was := log;
      forall i | 0 <= i < counts.Length
        ensures CountAt(was + [Sample(value, n)], half, highest, i)
                == CountAt(was, half, highest, i) + if SlotOf(half, highest, Sample(value, n)) == i then n else 0
      {
        LogSnoc(was, Sample(value, n), half, highest, i);
      }
      LogSnoc(was, Sample(value, n), half, highest, 0);
      SummaryRanges(was, highest);
      MinStays(half, Summarized(was, highest).min, min, Clamped(highest, value));
      RecordN(value, n);
      log := log + [Sample(value, n)];
    }

    // A value longer than the interval stands for samples never taken: one each
    // interval shorter is recorded too.
    method RecordCorrected(value: int, interval: int)
      requires Valid()
      modifies this, counts
      ensures Valid() && log == old(log) + [Sample(value, 1)] + Missed(value, interval)
    {
      hide Slot, CountAt, Summarized, FitsLayout, Clamped, Matches;
      ghost var was := log;
      Record(value, 1);
      if interval <= 0 || value <= interval {
        return;
      }
      var missing := value - interval;
      while missing >= interval
        invariant Valid() && log + Backfill(missing, interval)
                  == was + [Sample(value, 1)] + Backfill(value - interval, interval)
        decreases missing
      {
        ghost var before := log;
        Record(missing, 1);
        assert before + ([Sample(missing, 1)] + Backfill(missing - interval, interval))
               == log + Backfill(missing - interval, interval);
        missing := missing - interval;
      }
    }

    method Reset()
      requires Valid()
      modifies this, counts
      ensures Valid() && log == []
    {
      hide Pow2, Pow10, Half, Low;
      for i := 0 to counts.Length
        invariant Shape() && forall k | 0 <= k < i :: counts[k] == 0
      {
        counts[i] := 0;
      }
      count, min, max, trueMax, overflow, log := 0, INT64_MAX, 0, 0, 0, [];
    }

    // ---- reading ----

    // The value of the slot where the running count first reaches the rank: its
    // low edge for the zeroth percentile, its high edge otherwise.
    method ValueAtRank(target: int, zero: bool) returns (v: nat)
      requires Valid()
      ensures count == 0 ==> v == 0
      ensures count > 0 && Max(target, 1) > count ==> v == max
      ensures count > 0 && Max(target, 1) <= count ==> exists x :: HasRank(log, highest, Max(target, 1), x)
      ensures count > 0 && Max(target, 1) <= count ==>
                forall x | HasRank(log, highest, Max(target, 1), x) :: v == if zero then Low(half, x) else High(half, x)
    {
      hide CountAt, Summarized, Pow2, Pow10, Half, Slot, Low, High, FromSlot, HasRank, SlotsBelow;
      if count == 0 {
        return 0;
      }
      var rank := Max(target, 1);
      var running := 0;
      HighestHasSlot();
      SlotsBelowNone(log, half, highest);
      SlotsBelowAll(log, half, highest, counts.Length);
      if rank <= count {
        RankOfCount(log, highest, rank);
      }
      for i := 0 to counts.Length
        invariant running == SlotsBelow(log, half, highest, i) < rank
      {
        SlotsBelowNext(log, half, highest, i);
        SlotsBelowMonotone(log, half, highest, i + 1, counts.Length);
        running := running + counts[i];
        if running >= rank {
          SlotEdge(log, half, highest, i);
          v := EdgeOfSlot(i, zero);
          forall x | HasRank(log, highest, rank, x) ensures v == if zero then Low(half, x) else High(half, x) {
            RankSlot(log, half, highest, rank, x, i);
            SlotEdges(half, x);
            SlotOfEdge(half, x, i);
          }
          return;
        }
      }
      return max;
    }

    // How many samples are at or below the value, or share its slot; below zero, all
    // of them, because the index is past the array.
    method CountAtOrBelow(value: int) returns (running: nat)
      requires Valid() && INT64_MIN <= value <= INT64_MAX
      ensures running == if value < 0 then count else Below(log, highest, High(half, value) + 1)
    {
      hide CountAt, Summarized, Pow2, Pow10, Half, Slot, Low, High, FromSlot, SlotsBelow, Below;
      var target := IndexFor(value);
      var last := Min(target + 1, counts.Length);
      HighestHasSlot();
      SlotsBelowNone(log, half, highest);
      SlotsBelowAll(log, half, highest, counts.Length);
      if last < target + 1 {
        SlotsBelowAll(log, half, highest, target + 1);
      }
      if value >= 0 {
        BelowSlot(log, half, highest, value);
      }
      running := 0;
      for i := 0 to last
        invariant running == SlotsBelow(log, half, highest, i)
      {
        SlotsBelowNext(log, half, highest, i);
        running := running + counts[i];
      }
    }

    // An edge of the i-th slot, from its number.
    method EdgeOfSlot(i: nat, zero: bool) returns (e: nat)
      requires Shape() && FromSlot(half, i) <= INT64_MAX
      ensures e == if zero then Low(half, FromSlot(half, i)) else High(half, FromSlot(half, i))
    {
      var v := ValueFromIndex(i);
      if zero {
        e := LowestEquivalent(v);
      } else {
        e := HighestEquivalent(v);
      }
    }

    // ---- merging ----

    // One slot of the other histogram, recorded again at its low edge.
    method MergeSlot(i: nat, n: nat, ghost from: Log)
      requires Shape() && i < counts.Length && n == CountAt(from, half, highest, i)
      modifies this`count, this`min, this`max, this`trueMax, this`overflow, counts
      ensures forall k | 0 <= k < counts.Length :: counts[k] == old(counts[k]) + if k == i then n else 0
      ensures count == old(count) + n && overflow == old(overflow)
      ensures var u := Summarized(from, highest);
              && old(max) <= max <= Max(old(max), u.max) && old(trueMax) <= trueMax <= Max(old(trueMax), u.max)
              && Min(old(min), Low(half, u.min)) <= min == if n > 0 then Min(old(min), FromSlot(half, i)) else old(min)
    {
      hide Slot, CountAt, Summarized, Pow2, Pow10, Half, FromSlot, Low;
      if n != 0 {
        SlotEdge(from, half, highest, i);
        var v := ValueFromIndex(i);
        RecordN(v, n);
      }
    }

    // Every slot of the other histogram recorded again at its low edge.
    method MergeCounts(other: Histogram)
      requires Valid() && other.Valid() && other != this && other.counts != counts
      requires highest == other.highest && m == other.m && buckets == other.buckets
      modifies this`count, this`min, this`max, this`trueMax, this`overflow, counts
      ensures forall k | 0 <= k < counts.Length ::
                counts[k] == CountAt(log, half, highest, k) + CountAt(other.log, half, highest, k)
      ensures var t, u := Summarized(log, highest), Summarized(other.log, highest);
              && count == t.count + u.count && overflow == t.overflow
              && t.max <= max <= Max(t.max, u.max) && t.trueMax <= trueMax <= Max(t.trueMax, u.max)
              && Min(old(min), Low(half, u.min)) <= min <= old(min)
              && (if CountAt(other.log, half, highest, Slot(half, u.min)) > 0 then min <= Low(half, u.min)
                  else Min(old(min), High(half, u.min) + 1) <= min)
    {
      hide Slot, CountAt, Summarized, Pow10, Pow2, Half, FromSlot, Low, High, SlotsBelow, FitsLayout;
      ghost var t, u := Summarized(log, highest), Summarized(other.log, highest);
      ghost var least, floor := Slot(half, u.min), Low(half, u.min);
      SlotOfEdge(half, u.min, least);
      HighestHasSlot();
      SlotsBelowNone(other.log, half, highest);
      for i := 0 to counts.Length
        invariant forall k | 0 <= k < counts.Length ::
                    counts[k] == CountAt(log, half, highest, k)
                      + if k < i then CountAt(other.log, half, highest, k) else 0
        invariant count == t.count + SlotsBelow(other.log, half, highest, i) && overflow == t.overflow
        invariant t.max <= max <= Max(t.max, u.max) && t.trueMax <= trueMax <= Max(t.trueMax, u.max)
        invariant Min(old(min), floor) <= min <= old(min)
        invariant i > least && CountAt(other.log, half, highest, least) > 0 ==> min <= floor
        invariant CountAt(other.log, half, highest, least) == 0 ==> Min(old(min), High(half, u.min) + 1) <= min
      {
        SlotsBelowNext(other.log, half, highest, i);
        AboveLeast(other.log, half, highest, i);
        MergeSlot(i, other.counts[i], other.log);
      }
      SlotsBelowAll(other.log, half, highest, counts.Length);
      if CountAt(other.log, half, highest, least) > 0 {
        LeastInBounds(other.log, half, highest, counts.Length);
      }
    }

    // Slot by slot the counts add up, and so do the totals; the extremes are the
    // two histograms' own, but for the minimum, which drops to the low edge of the
    // other's least slot.
    method Merge(other: Histogram)
      requires Valid() && other.Valid() && other != this && other.counts != counts
      requires highest == other.highest && m == other.m && buckets == other.buckets
      modifies this, counts
      ensures Valid()
      ensures log == if other.count == 0 then old(log) else old(log) + other.log
      ensures other.count == 0 ==> min == old(min)
      ensures other.count != 0 ==>
                var empty, edge := CountAt(other.log, half, highest, Slot(half, other.min)) == 0, Low(half, other.min);
                && min == Min(old(min), if empty then other.min else edge)
                && (min == Min(old(min), other.min) <==> empty || old(min) <= edge || edge == other.min)
    {
      hide Slot, CountAt, Summarized, Pow10, Pow2, Half, FromSlot, Low, High, FitsLayout;
      if other.count == 0 {
        return;
      }
      ghost var was, t, u := log, Summarized(log, highest), Summarized(other.log, highest);
      HighestHasSlot();
      MergeStart(was, other.log, half, highest, min);
      EdgesOfMin(half, u.min, other.min);
      MergeCounts(other);
      MergedMin(half, old(min), u.min, other.min, min, CountAt(other.log, half, highest, Slot(half, u.min)) == 0);
      if other.max > max {
        max := other.max;
      }
      if other.trueMax > trueMax {
        trueMax := other.trueMax;
      }
      if other.min < min {
        min := other.min;
      }
      overflow := overflow + other.overflow;
      log := was + other.log;
      Merged(was, other.log, half, highest);
    }
  }

  // Histograms of one layout that have been told the same hold the same counts and
  // totals; their minima are in one slot. So merging is recording both streams.
  lemma SameLogSameCounts(a: Histogram, b: Histogram)
    requires a.Valid() && b.Valid() && a.log == b.log && a.log != []
    requires a.highest == b.highest && a.m == b.m && a.buckets == b.buckets
    ensures a.counts[..] == b.counts[..]
    ensures a.count == b.count && a.max == b.max && a.trueMax == b.trueMax && a.overflow == b.overflow
    ensures Slot(a.half, a.min) == Slot(a.half, b.min)
  {
    hide CountAt, Summarized, Pow2, Pow10, Slot, Low, Half;
    var exact := Summarized(a.log, a.highest).min;
    SlotEdges(a.half, exact);
    SameSlot(a.half, exact, a.min);
    SameSlot(a.half, exact, b.min);
  }

  lemma LeastInBounds(log: Log, half: nat, highest: nat, slots: nat)
    requires half > 0 && highest <= INT64_MAX && Slot(half, highest) < slots
    requires CountAt(log, half, highest, Slot(half, Summarized(log, highest).min)) > 0
    ensures Slot(half, Summarized(log, highest).min) < slots
  {
    hide CountAt, Summarized, Slot;
    var c := SlotWitness(log, half, highest, Slot(half, Summarized(log, highest).min));
    SlotMonotone(half, c, highest);
  }

  // Where merging starts: the two minima and their low edges.
  lemma MergeStart(was: Log, from: Log, half: nat, highest: nat, min: nat)
    requires half > 0 && highest <= INT64_MAX
    requires Low(half, Summarized(was, highest).min) <= min
    ensures var t, u := Summarized(was, highest), Summarized(from, highest);
            && Low(half, Min(t.min, u.min)) <= min && Low(half, Min(t.min, u.min)) <= Low(half, u.min)
            && u.max <= u.trueMax
  {
    hide Low, Summarized;
    var t, u := Summarized(was, highest), Summarized(from, highest);
    SummaryRanges(from, highest);
    LowMonotone(half, Min(t.min, u.min), t.min);
    LowMonotone(half, Min(t.min, u.min), u.min);
  }

  lemma Merged(was: Log, from: Log, half: nat, highest: nat)
    requires half > 0 && highest <= INT64_MAX
    ensures forall i ::
            CountAt(was + from, half, highest, i) == CountAt(was, half, highest, i) + CountAt(from, half, highest, i)
    ensures Summarized(was + from, highest) == Both(Summarized(was, highest), Summarized(from, highest))
  {
    hide CountAt, Summarized;
    forall i ensures CountAt(was + from, half, highest, i)
      == CountAt(was, half, highest, i) + CountAt(from, half, highest, i) {
      CountConcat(was, from, half, highest, i);
    }
    SummaryConcat(was, from, highest);
  }

  // When the least value was only ever recorded zero times, every slot with samples
  // in it starts above that value's slot.
  lemma AboveLeast(log: Log, half: nat, highest: nat, i: nat)
    requires half > 0 && highest <= INT64_MAX
    ensures var least := Summarized(log, highest).min;
            CountAt(log, half, highest, Slot(half, least)) == 0 && CountAt(log, half, highest, i) > 0 ==>
              FromSlot(half, i) > High(half, least)
  {
    hide CountAt, Summarized, Slot, Low, High, FromSlot;
    var least := Summarized(log, highest).min;
    if CountAt(log, half, highest, Slot(half, least)) == 0 && CountAt(log, half, highest, i) > 0 {
      SlotEdge(log, half, highest, i);
      SameSlot(half, least, FromSlot(half, i));
    }
  }

  lemma EdgesOfMin(half: nat, exact: nat, min: nat)
    requires half > 0 && Low(half, exact) <= min <= exact
    ensures Slot(half, min) == Slot(half, exact) && Low(half, min) == Low(half, exact) && min <= High(half, exact)
  {
    hide Slot, Low, High;
    SlotEdges(half, exact);
    SameSlot(half, exact, min);
    SameEdges(half, exact, min);
  }

  // The minimum after the other's slots were swept and its own minimum taken.
  lemma MergedMin(half: nat, mine: nat, exact: nat, theirs: nat, swept: nat, empty: bool)
    requires half > 0 && Low(half, exact) <= theirs <= exact && Min(mine, Low(half, exact)) <= swept <= mine
    requires if empty then Min(mine, High(half, exact) + 1) <= swept else swept <= Low(half, exact)
    ensures var edge := Low(half, theirs);
            && Min(swept, theirs) == Min(mine, if empty then theirs else edge)
            && (Min(swept, theirs) == Min(mine, theirs) <==> empty || mine <= edge || edge == theirs)
  {
    hide Low, High, Slot;
    EdgesOfMin(half, exact, theirs);
    MinIsExact(half, mine, theirs);
  }

  // Recording the other's least value at its low edge gives the true minimum of
  // both exactly when that value is its slot's low edge, or is not the lower one.
  lemma MinIsExact(half: nat, mine: nat, theirs: nat)
    requires half > 0
    ensures Min(mine, Low(half, theirs)) == Min(mine, theirs) <==>
            mine <= Low(half, theirs) || Low(half, theirs) == theirs
  {
    LowMonotone(half, theirs, theirs);
    SameSlot(half, theirs, theirs);
  }

  // Merging one sample of 33 into one of 40, at one digit, makes the minimum 32.
  method MergeLosesMin() returns (a: Histogram, b: Histogram, before: nat)
    ensures a.Valid() && b.Valid() && a.log == [Sample(40, 1), Sample(33, 1)] && b.log == [Sample(33, 1)]
    ensures before == 40 && b.min == 33 && a.min == 32 < Min(before, b.min)
  {
    hide FitsLayout, Pow2, Pow10, Half, Slot, Low, CountAt, Summarized;
    a := new Histogram(1000, 1);
    b := new Histogram(1000, 1);
    LayoutUnique(a.m, a.buckets, b.m, b.buckets, 1000, 1);
    OneDigit(a.m, a.buckets, 1000);
    a.Record(40, 1);
    b.Record(33, 1);
    before := a.min;
    assert [] + [Sample(33, 1)] == [Sample(33, 1)] && [] + [Sample(40, 1)] == [Sample(40, 1)];
    assert [Sample(40, 1)] + [Sample(33, 1)] == [Sample(40, 1), Sample(33, 1)];
    Has33();
    a.Merge(b);
  }

  lemma OneDigit(m: nat, buckets: nat, highest: nat)
    requires FitsLayout(m, buckets, highest, 1)
    ensures Half(m) == 16
  {
    assert Pow2(4) == 16 && Pow10(1) == 10;
    if m < 5 {
      Pow2Grows(m - 1, 3);
    } else if m > 5 {
      Pow2Grows(4, m - 2);
    }
  }

  lemma Has33()
    ensures Low(16, 33) == 32
            && CountAt([Sample(33, 1)], 16, 1000, Slot(16, 33)) == 1 == Summarized([Sample(33, 1)], 1000).count
  {
    assert [Sample(33, 1)][..0] == [];
  }

  // The low edge of a slot with samples in it is a kept value's, or just below one.
  lemma SlotEdge(log: Log, half: nat, highest: nat, i: nat)
    requires half > 0 && highest <= INT64_MAX && CountAt(log, half, highest, i) > 0
    ensures var v, u := FromSlot(half, i), Summarized(log, highest);
            v <= highest && Slot(half, v) == i && Low(half, u.min) <= v <= u.max
  {
    hide Summarized, CountAt;
    var c := SlotWitness(log, half, highest, i);
    SlotEdges(half, c);
    SlotFromSlot(half, i);
    LowMonotone(half, Summarized(log, highest).min, c);
  }

  lemma SlotOfEdge(half: nat, x: nat, i: nat)
    requires half > 0 && Slot(half, x) == i
    ensures FromSlot(half, i) == Low(half, x)
    ensures Low(half, Low(half, x)) == Low(half, x) && High(half, Low(half, x)) == High(half, x)
  {
    hide Slot, Low, High, FromSlot, Width;
    SlotEdges(half, x);
    SlotFromSlot(half, i);
    SameEdges(half, x, Low(half, x));
  }

  // Values of one slot have the same edges.
  lemma SameEdges(half: nat, x: nat, y: nat)
    requires half > 0 && Slot(half, x) == Slot(half, y)
    ensures Low(half, x) == Low(half, y) && High(half, x) == High(half, y)
  {
    hide Slot, Low, High, FromSlot, Width;
    SlotEdges(half, x);
    SlotEdges(half, y);
    SameSlot(half, x, Low(half, y));
    SameSlot(half, y, Low(half, x));
    SameSlot(half, x, High(half, y));
    SameSlot(half, y, High(half, x));
  }

  function Backfill(missing: int, interval: int): Log
    requires interval > 0
    decreases missing
  {
    if missing < interval then [] else [Sample(missing, 1)] + Backfill(missing - interval, interval)
  }

  function Missed(value: int, interval: int): Log {
    if interval <= 0 || value <= interval then [] else Backfill(value - interval, interval)
  }

  // The filled-in samples lie whole intervals below the first, down to the last
  // that is at least one interval.
  lemma {:induction false} BackfillIs(missing: int, interval: int, k: nat)
    requires interval > 0
    ensures k < |Backfill(missing, interval)| <==> missing - k * interval >= interval
    ensures k < |Backfill(missing, interval)| ==> Backfill(missing, interval)[k] == Sample(missing - k * interval, 1)
    decreases missing
  {
    if missing >= interval && k > 0 {
      BackfillIs(missing - interval, interval, k - 1);
      assert (k - 1) * interval == k * interval - interval;
    } else if missing < interval {
      assert k * interval >= 0;
    }
  }

  // A minimum off by less than its slot stays so.
  lemma MinStays(half: nat, exact: nat, min: nat, c: nat)
    requires half > 0 && Low(half, exact) <= min <= exact
    ensures Low(half, Min(exact, c)) <= Min(min, c) <= Min(exact, c)
  {
    LowMonotone(half, Min(exact, c), exact);
  }
}
