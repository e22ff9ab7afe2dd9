// Occupancy words and the cached touch: which levels hold orders, and where the
// best one is.
module Touch {
  import opened Types
  import opened Bits
  import opened Queues
  import opened BookSpec
  import opened BookViews
  import opened LevelQueue
  import opened BookCore

  // Level i's bit in a side's words.
  predicate BitAt(words: seq<Word>, i: nat) {
    i / 64 < |words| && TestBit(words[i / 64], i % 64)
  }

  // A bit is set exactly when its level holds size; no bit lies past the window.
  ghost predicate BitsOk(words: seq<Word>, levels: seq<Level>) {
    && |words| == (|levels| + 63) / 64
    && forall i: nat :: BitMeans(words, levels, i)
  }

  predicate BitMeans(words: seq<Word>, levels: seq<Level>, i: nat) {
    BitAt(words, i) <==> i < |levels| && levels[i].total != 0
  }

  // At or nearer the touch.
  predicate Nearer(s: Side, i: nat, j: nat) {
    if s.Bid? then i >= j else i <= j
  }

  // The occupied level nearest the touch, or none.
  ghost predicate IsTouch(levels: seq<Level>, s: Side, best: nat) {
    if best == NO_LEVEL then forall i | 0 <= i < |levels| :: levels[i].total == 0
    else best < |levels| && levels[best].total != 0
         && forall i | 0 <= i < |levels| && levels[i].total != 0 :: Nearer(s, best, i)
  }

  // What a downward or upward scan from `from` must find.
  ghost predicate HighestAtOrBelow(words: seq<Word>, from: nat, r: nat) {
    if r == NO_LEVEL then forall i: nat | i <= from :: !BitAt(words, i)
    else r <= from && BitAt(words, r) && forall i: nat | r < i <= from :: !BitAt(words, i)
  }

  ghost predicate LowestAtOrAbove(words: seq<Word>, from: nat, r: nat) {
    if r == NO_LEVEL then forall i: nat | from <= i :: !BitAt(words, i)
    else from <= r && BitAt(words, r) && forall i: nat | from <= i < r :: !BitAt(words, i)
  }

  lemma BitsAfterSet(words: seq<Word>, levels: seq<Level>, i: nat, lv: Level)
    requires BitsOk(words, levels) && i < |levels| && lv.total != 0
    ensures i / 64 < |words| && SetBit(words[i / 64], i % 64) <= ONES
    ensures BitsOk(words[i / 64 := SetBit(words[i / 64], i % 64)], levels[i := lv])
  {
    SetBitFits(words[i / 64], i % 64);
    var words' := words[i / 64 := SetBit(words[i / 64], i % 64)];
    var levels' := levels[i := lv];
    forall j: nat ensures BitMeans(words', levels', j) {
      assert BitMeans(words, levels, j);
      if j / 64 == i / 64 {
        TestAfterSet(words[i / 64], i % 64, j % 64);
      }
    }
  }

  lemma BitsAfterClear(words: seq<Word>, levels: seq<Level>, i: nat, lv: Level)
    requires BitsOk(words, levels) && i < |levels| && lv.total == 0
    ensures i / 64 < |words|
    ensures BitsOk(words[i / 64 := ClearBit(words[i / 64], i % 64)], levels[i := lv])
  {
    var words' := words[i / 64 := ClearBit(words[i / 64], i % 64)];
    var levels' := levels[i := lv];
    forall j: nat ensures BitMeans(words', levels', j) {
      assert BitMeans(words, levels, j);
      if j / 64 == i / 64 {
        TestAfterClear(words[i / 64], i % 64, j % 64);
      }
    }
  }

  // A level that holds size before and after keeps its bit and the touch.
  lemma BitsUnchanged(words: seq<Word>, levels: seq<Level>, i: nat, lv: Level)
    requires BitsOk(words, levels) && i < |levels| && (lv.total != 0 <==> levels[i].total != 0)
    ensures BitsOk(words, levels[i := lv])
  {
    var levels' := levels[i := lv];
    forall j: nat ensures BitMeans(words, levels', j) {
      assert BitMeans(words, levels, j);
    }
  }

  lemma TouchUnchanged(levels: seq<Level>, s: Side, best: nat, i: nat, lv: Level)
    requires IsTouch(levels, s, best) && i < |levels| && (lv.total != 0 <==> levels[i].total != 0)
    ensures IsTouch(levels[i := lv], s, best)
  {
    var l' := levels[i := lv];
    assert forall j | 0 <= j < |levels| :: l'[j].total != 0 <==> levels[j].total != 0;
  }

  // A level that fills becomes the touch exactly when it improves on it.
  lemma TouchAfterFill(levels: seq<Level>, s: Side, best: nat, i: nat, lv: Level)
    requires IsTouch(levels, s, best) && i < |levels| <= NO_LEVEL && lv.total != 0
    ensures IsTouch(levels[i := lv], s, if best == NO_LEVEL || !Nearer(s, best, i) then i else best)
  {
    var l' := levels[i := lv];
    assert forall j | 0 <= j < |levels| && j != i :: l'[j] == levels[j];
  }

  // A level that empties leaves the touch alone unless it was the touch.
  lemma TouchAfterEmpty(levels: seq<Level>, s: Side, best: nat, i: nat, lv: Level)
    requires IsTouch(levels, s, best) && i < |levels| && lv.total == 0 && i != best
    ensures IsTouch(levels[i := lv], s, best)
  {
    var l' := levels[i := lv];
    assert forall j | 0 <= j < |levels| && j != i :: l'[j] == levels[j];
  }

  // Once the best level is empty, a scan from it finds the new touch.
  lemma BidTouchAfterScan(words: seq<Word>, levels: seq<Level>, i: nat, lv: Level, r: nat)
    requires IsTouch(levels, Bid, i) && i < |levels| <= NO_LEVEL && lv.total == 0 && BitsOk(words, levels[i := lv])
    requires if i == 0 then r == NO_LEVEL else HighestAtOrBelow(words, i - 1, r)
    ensures IsTouch(levels[i := lv], Bid, r)
  {
    var l' := levels[i := lv];
    forall j: nat | j < |levels| ensures l'[j].total != 0 <==> BitAt(words, j) {
      assert BitMeans(words, l', j);
    }
    forall j: nat | j < |levels| && l'[j].total != 0 ensures j < i {
      assert j != i && levels[j].total != 0;
    }
    if r != NO_LEVEL {
      assert BitMeans(words, l', r);
    }
  }

  lemma AskTouchAfterScan(words: seq<Word>, levels: seq<Level>, i: nat, lv: Level, r: nat)
    requires IsTouch(levels, Ask, i) && i < |levels| <= NO_LEVEL && lv.total == 0 && BitsOk(words, levels[i := lv])
    requires LowestAtOrAbove(words, i + 1, r)
    ensures IsTouch(levels[i := lv], Ask, r)
  {
    var l' := levels[i := lv];
    forall j: nat | j < |levels| ensures l'[j].total != 0 <==> BitAt(words, j) {
      assert BitMeans(words, l', j);
    }
    forall j: nat | j < |levels| && l'[j].total != 0 ensures j > i {
      assert j != i && levels[j].total != 0;
    }
    if r != NO_LEVEL {
      assert BitMeans(words, l', r);
    }
  }

  function NoBits(levels: nat): (words: seq<Word>)
    ensures |words| == (levels + 63) / 64 && forall w | 0 <= w < |words| :: words[w] == 0
  {
    seq((levels + 63) / 64, _ => 0)
  }

  lemma EmptySide(words: seq<Word>, levels: seq<Level>, s: Side)
    requires |words| == (|levels| + 63) / 64 && forall w | 0 <= w < |words| :: words[w] == 0
    requires forall i | 0 <= i < |levels| :: levels[i] == EMPTY_LEVEL
    ensures BitsOk(words, levels) && IsTouch(levels, s, NO_LEVEL)
  {
    forall i: nat ensures BitMeans(words, levels, i) {
      TestZero(i % 64);
    }
  }

  // ---- scans ----

  // Bits of one word, at absolute positions.
  lemma WordBits(words: seq<Word>, w: nat, j: nat)
    requires w < |words| && j < 64
    ensures BitAt(words, 64 * w + j) <==> TestBit(words[w], j)
  {
    assert (64 * w + j) / 64 == w && (64 * w + j) % 64 == j;
  }

  // From the highest level the caller allows, downwards, a word at a time.
  method ScanDown(words: seq<Word>, from: nat) returns (r: nat)
    requires 64 * |words| <= NO_LEVEL + 64
    requires from == NO_LEVEL || (from < NO_LEVEL && from < 64 * |words|)
    ensures from == NO_LEVEL ==> r == NO_LEVEL
    ensures from != NO_LEVEL ==> HighestAtOrBelow(words, from, r)
  {
    if from == NO_LEVEL {
      return NO_LEVEL;
    }
    var w := from / 64;
    var word: Word := And(words[w], Shr(ONES, 63 - from % 64));
    forall j: nat | j < 64 ensures TestBit(word, j) <==> 64 * w + j <= from && BitAt(words, 64 * w + j) {
      TestAtOrBelow(words[w], from % 64, j);
      WordBits(words, w, j);
    }
    while true
      invariant w < |words| && word <= ONES && 64 * w <= from
      invariant forall j: nat | j < 64 :: TestBit(word, j) <==> 64 * w + j <= from && BitAt(words, 64 * w + j)
      invariant forall i: nat | 64 * w + 64 <= i <= from :: !BitAt(words, i)
      decreases w
    {
      if word != 0 {
        HighestBit(word);
        r := w * 64 + (63 - CountlZero(word));
        NoneAbove(words, w, word, from, r);
        return r;
      }
      AllClear(words, w, word, from);
      if w == 0 {
        return NO_LEVEL;
      }
      w := w - 1;
      word := words[w];
      forall j: nat | j < 64 ensures TestBit(word, j) <==> 64 * w + j <= from && BitAt(words, 64 * w + j) {
        WordBits(words, w, j);
      }
    }
  }

  lemma AllClear(words: seq<Word>, w: nat, word: Word, from: nat)
    requires w < |words| && word == 0
    requires forall j: nat | j < 64 :: TestBit(word, j) <==> 64 * w + j <= from && BitAt(words, 64 * w + j)
    ensures forall i: nat | 64 * w <= i <= from && i < 64 * w + 64 :: !BitAt(words, i)
  {
    forall i: nat | 64 * w <= i <= from && i < 64 * w + 64 ensures !BitAt(words, i) {
      TestZero(i - 64 * w);
      assert 64 * w + (i - 64 * w) == i;
      assert TestBit(word, i - 64 * w) <==> i <= from && BitAt(words, i);
    }
  }

  lemma NoneAbove(words: seq<Word>, w: nat, word: Word, from: nat, r: nat)
    requires w < |words| && 64 * w <= r < 64 * w + 64
    requires forall j: nat | j < 64 :: TestBit(word, j) <==> 64 * w + j <= from && BitAt(words, 64 * w + j)
    requires TestBit(word, r - 64 * w) && forall j: nat | r - 64 * w < j < 64 :: !TestBit(word, j)
    requires forall i: nat | 64 * w + 64 <= i <= from :: !BitAt(words, i)
    requires r != NO_LEVEL || from < NO_LEVEL
    ensures HighestAtOrBelow(words, from, r)
  {
    assert 64 * w + (r - 64 * w) == r;
    assert r <= from && BitAt(words, r);
    forall i: nat | r < i <= from ensures !BitAt(words, i) {
      if i < 64 * w + 64 {
        assert 64 * w + (i - 64 * w) == i;
        assert TestBit(word, i - 64 * w) <==> i <= from && BitAt(words, i);
      }
    }
  }

  // From the lowest level the caller allows, upwards, a word at a time.
  method ScanUp(words: seq<Word>, from: nat) returns (r: nat)
    requires 64 * |words| <= NO_LEVEL + 64
    requires from <= NO_LEVEL && forall i: nat | NO_LEVEL <= i :: !BitAt(words, i)
    ensures LowestAtOrAbove(words, from, r)
  {
    if from == NO_LEVEL {
      return NO_LEVEL;
    }
    var w := from / 64;
    if w >= |words| {
      return NO_LEVEL;
    }
    var word: Word := And(words[w], Shl(ONES, from % 64));
    forall j: nat | j < 64 ensures TestBit(word, j) <==> from <= 64 * w + j && BitAt(words, 64 * w + j) {
      TestAtOrAbove(words[w], from % 64, j);
      WordBits(words, w, j);
    }
    while true
      invariant w < |words| && word <= ONES && from < 64 * w + 64
      invariant forall j: nat | j < 64 :: TestBit(word, j) <==> from <= 64 * w + j && BitAt(words, 64 * w + j)
      invariant forall i: nat | from <= i < 64 * w :: !BitAt(words, i)
      decreases |words| - w
    {
      if word != 0 {
        LowestBit(word);
        r := w * 64 + CountrZero(word);
        NoneBelow(words, w, word, from, r);
        return r;
      }
      AllClearUp(words, w, word, from);
      w := w + 1;
      if w >= |words| {
        return NO_LEVEL;
      }
      word := words[w];
      forall j: nat | j < 64 ensures TestBit(word, j) <==> from <= 64 * w + j && BitAt(words, 64 * w + j) {
        WordBits(words, w, j);
      }
    }
  }

  lemma AllClearUp(words: seq<Word>, w: nat, word: Word, from: nat)
    requires w < |words| && word == 0
    requires forall j: nat | j < 64 :: TestBit(word, j) <==> from <= 64 * w + j && BitAt(words, 64 * w + j)
    requires forall i: nat | from <= i < 64 * w :: !BitAt(words, i)
    ensures forall i: nat | from <= i < 64 * w + 64 :: !BitAt(words, i)
    ensures w + 1 >= |words| ==> forall i: nat | from <= i :: !BitAt(words, i)
  {
    forall i: nat | from <= i < 64 * w + 64 ensures !BitAt(words, i) {
      if 64 * w <= i {
        TestZero(i - 64 * w);
        assert 64 * w + (i - 64 * w) == i;
        assert TestBit(word, i - 64 * w) <==> from <= i && BitAt(words, i);
      }
    }
  }

  lemma NoneBelow(words: seq<Word>, w: nat, word: Word, from: nat, r: nat)
    requires w < |words| && 64 * w <= r < 64 * w + 64
    requires forall j: nat | j < 64 :: TestBit(word, j) <==> from <= 64 * w + j && BitAt(words, 64 * w + j)
    requires TestBit(word, r - 64 * w) && forall j: nat | j < r - 64 * w :: !TestBit(word, j)
    requires forall i: nat | from <= i < 64 * w :: !BitAt(words, i)
    requires forall i: nat | NO_LEVEL <= i :: !BitAt(words, i)
    ensures LowestAtOrAbove(words, from, r)
  {
    assert 64 * w + (r - 64 * w) == r;
    assert from <= r && BitAt(words, r);
    forall i: nat | from <= i < r ensures !BitAt(words, i) {
      if 64 * w <= i {
        assert 64 * w + (i - 64 * w) == i;
        assert TestBit(word, i - 64 * w) <==> from <= i && BitAt(words, i);
      }
    }
  }

  // ---- the touch against the abstract book ----

  // The cached best level of the other side answers whether a price would cross.
  lemma CrossingByTouch(c: Core, s: Side, best: nat, price: Ticks)
    requires Inv(c) && IsTouch(Levels(c, Opposite(s)), Opposite(s), best)
    ensures Crossing(Abs(c), s, price) <==> best != NO_LEVEL && Through(s, price, c.base + best)
  {
    var o := Opposite(s);
    forall i: nat | i < Window(c) ensures Levels(c, o)[i].total != 0 <==> c.base + i in LadderOf(Abs(c), o) {
      assert LevelAt(c, o, i);
      TotalZero(Levels(c, o)[i], c.pool, ChainAt(c, o, i), o, i);
      QueueAtAbs(c, o, c.base + i);
    }
    forall p | p in LadderOf(Abs(c), o)
      ensures c.base <= p < c.base + Window(c) && Levels(c, o)[p - c.base].total != 0
    {
      QueueAtAbs(c, o, p);
      assert c.base + (p - c.base) == p;
    }
  }

  // The cached best level is the best price of the abstract book.
  lemma TouchIsBest(c: Core, s: Side, best: nat)
    requires Inv(c) && IsTouch(Levels(c, s), s, best)
    ensures best == NO_LEVEL <==> forall p :: p !in LadderOf(Abs(c), s)
    ensures best != NO_LEVEL ==> IsBest(LadderOf(Abs(c), s), s, c.base + best)
  {
    hide Abs, LadderOf;
    forall p
      ensures p in LadderOf(Abs(c), s) <==> c.base <= p < c.base + Window(c) && Levels(c, s)[p - c.base].total != 0
    {
      QueueAtAbs(c, s, p);
      if c.base <= p < c.base + Window(c) {
        Occupancy(c, s, p - c.base);
      }
    }
    forall i: nat | i < Window(c) ensures c.base + i in LadderOf(Abs(c), s) <==> Levels(c, s)[i].total != 0 {
      assert c.base + i - c.base == i;
    }
  }

  // Outward from level i, a scan finds the next occupied price and skips none.
  ghost predicate NextOut(words: seq<Word>, s: Side, i: nat, r: nat) {
    if s.Bid? then (if i == 0 then r == NO_LEVEL else HighestAtOrBelow(words, i - 1, r))
    else LowestAtOrAbove(words, i + 1, r)
  }

  lemma BitIsOccupied(c: Core, words: seq<Word>, s: Side, i: nat)
    requires Inv(c) && BitsOk(words, Levels(c, s))
    ensures BitAt(words, i) ==> i < Window(c) && Window(c) <= NO_LEVEL
    ensures i < Window(c) ==> (BitAt(words, i) <==> c.base + i in LadderOf(Abs(c), s))
  {
    hide Abs, LadderOf, WellFormed;
    assert BitMeans(words, Levels(c, s), i);
    if i < Window(c) {
      Occupancy(c, s, i);
      QueueAtAbs(c, s, c.base + i);
    }
  }

  lemma NextOutPrice(c: Core, words: seq<Word>, s: Side, i: nat, r: nat)
    requires Inv(c) && BitsOk(words, Levels(c, s)) && i < Window(c) && NextOut(words, s, i, r)
    ensures r != NO_LEVEL ==>
              r < Window(c) && c.base + r in LadderOf(Abs(c), s) && Better(s, c.base + i, c.base + r)
  {
    hide Abs, LadderOf, Inv;
    if r != NO_LEVEL {
      BitIsOccupied(c, words, s, r);
    }
  }

  lemma NextOutSkipsNone(c: Core, words: seq<Word>, s: Side, i: nat, r: nat, p: Ticks)
    requires Inv(c) && BitsOk(words, Levels(c, s)) && i < Window(c) && NextOut(words, s, i, r)
    requires p in LadderOf(Abs(c), s) && Better(s, c.base + i, p)
    ensures r != NO_LEVEL && (p == c.base + r || Better(s, c.base + r, p))
  {
    hide Abs, LadderOf;
    QueueAtAbs(c, s, p);
    assert c.base + (p - c.base) == p;
    BitIsOccupied(c, words, s, p - c.base);
  }

  lemma NextOutIsNext(c: Core, words: seq<Word>, s: Side, i: nat, r: nat)
    requires Inv(c) && BitsOk(words, Levels(c, s)) && i < Window(c) && NextOut(words, s, i, r)
    ensures NextPrice(Abs(c), s, c.base + i, r != NO_LEVEL, c.base + r)
  {
    hide Abs, LadderOf, Inv, BitsOk, NextOut, Better;
    NextOutPrice(c, words, s, i, r);
    forall p | p in LadderOf(Abs(c), s) && Better(s, c.base + i, p)
      ensures r != NO_LEVEL && (p == c.base + r || Better(s, c.base + r, p))
    {
      NextOutSkipsNone(c, words, s, i, r, p);
    }
  }

  lemma TouchStartsDepth(c: Core, s: Side, best: nat)
    requires Inv(c) && IsTouch(Levels(c, s), s, best)
    ensures DepthSoFar(Abs(c), s, [], [], best != NO_LEVEL, c.base + best)
  {
    hide Abs, LadderOf, Inv, IsTouch;
    TouchIsBest(c, s, best);
  }

  lemma DepthAtLevel(c: Core, s: Side, prices: seq<Ticks>, qtys: seq<Qty>, i: nat)
    requires Inv(c) && DepthSoFar(Abs(c), s, prices, qtys, true, c.base + i)
    ensures i < Window(c) && i < |Levels(c, s)| && Levels(c, s)[i].total == Total(QueueAt(Abs(c), s, c.base + i))
  {
    hide Abs, LadderOf, Inv;
    Shapely(c);
    PriceLevel(c, s, i);
  }
}
