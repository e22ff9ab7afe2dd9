// What a histogram has been told, and what it should therefore say: how many
// samples are in each slot, how many are below a value, and the extremes.
module HistSpec {
  import opened Types
  import opened SlotSpec

  // A value recorded n times.
  datatype Sample = Sample(value: int, n: nat)

  type Log = seq<Sample>

  // What is kept of a value: nothing below zero, nothing above the ceiling.
  function Clamped(highest: nat, v: int): nat {
    if v < 0 then 0 else if v > highest then highest else v
  }

  function SlotOf(half: nat, highest: nat, s: Sample): nat
    requires half > 0
  {
    Slot(half, Clamped(highest, s.value))
  }

  function CountAt(log: Log, half: nat, highest: nat, i: nat): nat
    requires half > 0
  {
    if log == [] then 0
    else
      var s := log[|log| - 1];
      CountAt(log[..|log| - 1], half, highest, i) + if SlotOf(half, highest, s) == i then s.n else 0
  }

  // Samples in slots before the i-th.
  function SlotsBelow(log: Log, half: nat, highest: nat, i: nat): nat
    requires half > 0
  {
    if log == [] then 0
    else
      var s := log[|log| - 1];
      SlotsBelow(log[..|log| - 1], half, highest, i) + if SlotOf(half, highest, s) < i then s.n else 0
  }

  // Samples below x, as kept.
  function Below(log: Log, highest: nat, x: nat): nat {
    if log == [] then 0
    else
      var s := log[|log| - 1];
      Below(log[..|log| - 1], highest, x) + if Clamped(highest, s.value) < x then s.n else 0
  }

  datatype Summary = Summary(count: nat, max: nat, trueMax: int, overflow: nat, min: nat)

  const NOTHING := Summary(0, 0, 0, 0, INT64_MAX)

  function Including(t: Summary, highest: nat, s: Sample): Summary {
    var c := Clamped(highest, s.value);
    Summary(t.count + s.n, Max(t.max, c), Max(t.trueMax, s.value),
            t.overflow + (if s.value > highest then s.n else 0), Min(t.min, c))
  }

  function Summarized(log: Log, highest: nat): Summary {
    if log == [] then NOTHING else Including(Summarized(log[..|log| - 1], highest), highest, log[|log| - 1])
  }

  function Both(t: Summary, u: Summary): Summary {
    Summary(t.count + u.count, Max(t.max, u.max), Max(t.trueMax, u.trueMax), t.overflow + u.overflow, Min(t.min, u.min))
  }

  // ---- what these mean ----

  // How many of the samples told are as p says.
  function Total(log: Log, p: int -> bool): nat {
    if log == [] then 0
    else
      Total(log[..|log| - 1], p) + if p(log[|log| - 1].value) then log[|log| - 1].n else 0
  }

  // A value is kept as the nearest one the range has.
  lemma ClampedIsNearest(highest: nat, v: int, x: nat)
    requires x <= highest
    ensures Clamped(highest, v) <= highest && Distance(v, Clamped(highest, v)) <= Distance(v, x)
  {
  }

  function Distance(v: int, w: int): int {
    Max(v - w, w - v)
  }

  // The totals count the samples told, and those of them past the ceiling.
  lemma {:induction false} TotalsAre(log: Log, highest: nat, all: int -> bool, over: int -> bool)
    requires forall v :: all(v) && (over(v) <==> v > highest)
    ensures Summarized(log, highest).count == Total(log, all) && Summarized(log, highest).overflow == Total(log, over)
    decreases |log|
  {
    if log != [] {
      TotalsAre(log[..|log| - 1], highest, all, over);
    }
  }

  // The extremes bound every kept value, and are kept values themselves; the largest
  // value told is not clamped from above.
  lemma {:induction false} ExtremesAre(log: Log, highest: nat)
    requires highest <= INT64_MAX
    ensures var t := Summarized(log, highest);
            && (forall k | 0 <= k < |log| :: t.min <= Clamped(highest, log[k].value) <= t.max)
            && (forall k | 0 <= k < |log| :: log[k].value <= t.trueMax)
            && (log != [] ==> exists k :: 0 <= k < |log| && Clamped(highest, log[k].value) == t.max)
            && (log != [] ==> exists k :: 0 <= k < |log| && Clamped(highest, log[k].value) == t.min)
            && (t.trueMax == 0 || exists k :: 0 <= k < |log| && log[k].value == t.trueMax)
    decreases |log|
  {
    hide Clamped;
    if log != [] {
      var before := log[..|log| - 1];
      ExtremesAre(before, highest);
      SummaryRanges(before, highest);
      var t, u, c := Summarized(log, highest), Summarized(before, highest), Clamped(highest, log[|log| - 1].value);
      ClampedIsNearest(highest, log[|log| - 1].value, 0);
      forall k | 0 <= k < |log|
        ensures t.min <= Clamped(highest, log[k].value) <= t.max
        ensures log[k].value <= t.trueMax
      {
        if k < |before| {
          assert before[k] == log[k];
        }
      }
      if t.max != c {
        var k :| 0 <= k < |before| && Clamped(highest, before[k].value) == t.max;
        assert Clamped(highest, log[k].value) == t.max;
      }
      if t.min != c {
        var k :| 0 <= k < |before| && Clamped(highest, before[k].value) == t.min;
        assert Clamped(highest, log[k].value) == t.min;
      }
      if t.trueMax != log[|log| - 1].value && t.trueMax != 0 {
        var k :| 0 <= k < |before| && before[k].value == t.trueMax;
        assert log[k].value == t.trueMax;
      }
    }
  }

  // Inside the range, the samples kept below x are those told below x.
  lemma {:induction false} BelowIs(log: Log, highest: nat, x: nat, less: int -> bool)
    requires 0 < x <= highest && forall v :: less(v) <==> v < x
    ensures Below(log, highest, x) == Total(log, less)
    decreases |log|
  {
    if log != [] {
      BelowIs(log[..|log| - 1], highest, x, less);
    }
  }

  // And a slot's count is of the samples whose kept value lies between its edges.
  lemma {:induction false} CountIs(log: Log, half: nat, highest: nat, x: nat, within: int -> bool)
    requires half > 0 && forall v :: within(v) <==> Low(half, x) <= Clamped(highest, v) <= High(half, x)
    ensures CountAt(log, half, highest, Slot(half, x)) == Total(log, within)
    decreases |log|
  {
    hide Slot, Low, High, Clamped;
    if log != [] {
      CountIs(log[..|log| - 1], half, highest, x, within);
      SameSlot(half, x, Clamped(highest, log[|log| - 1].value));
    }
  }

  // ---- one more sample, and two logs together ----

  lemma LogSnoc(log: Log, s: Sample, half: nat, highest: nat, i: nat)
    requires half > 0
    ensures CountAt(log + [s], half, highest, i) == CountAt(log, half, highest, i)
            + if SlotOf(half, highest, s) == i then s.n else 0
    ensures Summarized(log + [s], highest) == Including(Summarized(log, highest), highest, s)
  {
    assert (log + [s])[..|log|] == log;
  }

  lemma {:induction false} CountConcat(x: Log, y: Log, half: nat, highest: nat, i: nat)
    requires half > 0
    ensures CountAt(x + y, half, highest, i) == CountAt(x, half, highest, i) + CountAt(y, half, highest, i)
    decreases |y|
  {
    if y == [] {
      assert x + y == x;
    } else {
      assert (x + y)[..|x + y| - 1] == x + y[..|y| - 1];
      CountConcat(x, y[..|y| - 1], half, highest, i);
    }
  }

  lemma {:induction false} SummaryConcat(x: Log, y: Log, highest: nat)
    requires highest <= INT64_MAX
    ensures Summarized(x + y, highest) == Both(Summarized(x, highest), Summarized(y, highest))
    decreases |y|
  {
    hide Including, Clamped;
    SummaryRanges(x, highest);
    if y == [] {
      assert x + y == x;
    } else {
      assert (x + y)[..|x + y| - 1] == x + y[..|y| - 1];
      SummaryConcat(x, y[..|y| - 1], highest);
      IncludingBoth(Summarized(x, highest), Summarized(y[..|y| - 1], highest), highest, y[|y| - 1]);
    }
  }

  lemma IncludingBoth(t: Summary, u: Summary, highest: nat, s: Sample)
    ensures Including(Both(t, u), highest, s) == Both(t, Including(u, highest, s))
  {
  }

  lemma {:induction false} SummaryRanges(log: Log, highest: nat)
    requires highest <= INT64_MAX
    ensures var t := Summarized(log, highest); t.max <= highest && t.trueMax >= t.max && t.min <= INT64_MAX
    ensures log != [] ==> Summarized(log, highest).min <= Summarized(log, highest).max
    decreases |log|
  {
    if log != [] {
      SummaryRanges(log[..|log| - 1], highest);
    }
  }

  // A slot with samples in it holds one of the kept values.
  lemma {:induction false} SlotWitness(log: Log, half: nat, highest: nat, i: nat) returns (c: nat)
    requires half > 0 && highest <= INT64_MAX && CountAt(log, half, highest, i) > 0
    ensures var t := Summarized(log, highest); Slot(half, c) == i && t.min <= c <= t.max && c <= highest
    decreases |log|
  {
    var s := log[|log| - 1];
    if SlotOf(half, highest, s) == i {
      c := Clamped(highest, s.value);
    } else {
      c := SlotWitness(log[..|log| - 1], half, highest, i);
    }
  }

  // ---- order statistics ----

  lemma {:induction false} SlotsBelowNext(log: Log, half: nat, highest: nat, i: nat)
    requires half > 0
    ensures SlotsBelow(log, half, highest, i + 1) == SlotsBelow(log, half, highest, i) + CountAt(log, half, highest, i)
    decreases |log|
  {
    if log != [] {
      SlotsBelowNext(log[..|log| - 1], half, highest, i);
    }
  }

  lemma {:induction false} SlotsBelowNone(log: Log, half: nat, highest: nat)
    requires half > 0
    ensures SlotsBelow(log, half, highest, 0) == 0
    decreases |log|
  {
    if log != [] {
      SlotsBelowNone(log[..|log| - 1], half, highest);
    }
  }

  lemma {:induction false} SlotsBelowMonotone(log: Log, half: nat, highest: nat, i: nat, j: nat)
    requires half > 0 && i <= j
    ensures SlotsBelow(log, half, highest, i) <= SlotsBelow(log, half, highest, j)
    decreases |log|
  {
    if log != [] {
      SlotsBelowMonotone(log[..|log| - 1], half, highest, i, j);
    }
  }

  lemma {:induction false} SlotsBelowAll(log: Log, half: nat, highest: nat, n: nat)
    requires half > 0 && Slot(half, highest) < n
    ensures SlotsBelow(log, half, highest, n) == Summarized(log, highest).count
    decreases |log|
  {
    if log != [] {
      SlotsBelowAll(log[..|log| - 1], half, highest, n);
      SlotMonotone(half, Clamped(highest, log[|log| - 1].value), highest);
    }
  }

  // x is the kept value of that rank: fewer than `rank` samples are below it, and
  // at least `rank` are at or below it.
  predicate HasRank(log: Log, highest: nat, rank: nat, x: nat) {
    Below(log, highest, x) < rank <= Below(log, highest, x + 1)
  }

  // Counting by slots brackets counting by values.
  lemma {:induction false} SlotsBracket(log: Log, half: nat, highest: nat, x: nat)
    requires half > 0
    ensures SlotsBelow(log, half, highest, Slot(half, x)) <= Below(log, highest, x)
    ensures Below(log, highest, x + 1) <= SlotsBelow(log, half, highest, Slot(half, x) + 1)
    decreases |log|
  {
    if log != [] {
      SlotsBracket(log[..|log| - 1], half, highest, x);
      var c := Clamped(highest, log[|log| - 1].value);
      if c < x {
        SlotMonotone(half, c, x);
      } else {
        SlotMonotone(half, x, c);
      }
    }
  }

  // Up to the end of a slot the two counts are the same.
  lemma BelowSlot(log: Log, half: nat, highest: nat, x: nat)
    requires half > 0
    ensures SlotsBelow(log, half, highest, Slot(half, x) + 1) == Below(log, highest, High(half, x) + 1)
  {
    hide SlotsBelow, Below, Slot, High, Low;
    var h := High(half, x);
    SlotEdges(half, x);
    SlotsBracket(log, half, highest, h);
    SlotsBracket(log, half, highest, h + 1);
    SameSlot(half, x, h + 1);
    SlotMonotone(half, h, h + 1);
    SlotsBelowMonotone(log, half, highest, Slot(half, x) + 1, Slot(half, h + 1));
  }

  // So the slot at which the running count first reaches a rank is the slot of the
  // value that has it.
  lemma RankSlot(log: Log, half: nat, highest: nat, rank: nat, x: nat, i: nat)
    requires half > 0 && HasRank(log, highest, rank, x)
    requires SlotsBelow(log, half, highest, i) < rank <= SlotsBelow(log, half, highest, i + 1)
    ensures Slot(half, x) == i
  {
    SlotsBracket(log, half, highest, x);
    var s := Slot(half, x);
    if s < i {
      SlotsBelowMonotone(log, half, highest, s + 1, i);
    } else if s > i {
      SlotsBelowMonotone(log, half, highest, i + 1, s);
    }
  }

  // Every rank up to the number of samples below n belongs to a kept value below n.
  lemma {:induction false} RankExists(log: Log, highest: nat, rank: nat, n: nat) returns (x: nat)
    requires 0 < rank <= Below(log, highest, n)
    ensures x < n && HasRank(log, highest, rank, x)
    decreases n
  {
    BelowNone(log, highest);
    if rank <= Below(log, highest, n - 1) {
      x := RankExists(log, highest, rank, n - 1);
    } else {
      x := n - 1;
    }
  }

  lemma {:induction false} BelowNone(log: Log, highest: nat)
    ensures Below(log, highest, 0) == 0
    decreases |log|
  {
    if log != [] {
      BelowNone(log[..|log| - 1], highest);
    }
  }

  lemma {:induction false} BelowAll(log: Log, highest: nat)
    ensures Below(log, highest, highest + 1) == Summarized(log, highest).count
    decreases |log|
  {
    if log != [] {
      BelowAll(log[..|log| - 1], highest);
    }
  }

  // So every rank up to the count is some kept value's.
  lemma RankOfCount(log: Log, highest: nat, rank: nat)
    requires 0 < rank <= Summarized(log, highest).count
    ensures exists x :: HasRank(log, highest, rank, x)
  {
    hide HasRank, Summarized;
    BelowAll(log, highest);
    var x := RankExists(log, highest, rank, highest + 1);
  }
}
