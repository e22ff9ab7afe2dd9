// The book's own consistency check, performed on any book the operations can
// reach: it never fails.
module BookAudit {
  import opened Types
  import opened Bits
  import opened Queues
  import opened BookSpec
  import opened OrderMaps
  import opened LevelQueue
  import opened BookCore
  import opened Touch
  import opened OrderBooks

  // ---- what a walk along a level's links meets ----

  lemma NodeFacts(c: Core, s: Side, i: nat, k: nat)
    requires Inv(c) && i < Window(c) && k < |ChainAt(c, s, i)|
    ensures Window(c) <= |Levels(c, s)|
    ensures var ch := ChainAt(c, s, i);
            var x := ch[k];
            && x < |c.pool| <= NULL
            && var o := c.pool[x];
               && o.level == i && o.side == s && o.prev == Link(ch, k - 1) && o.next == Link(ch, k + 1) && o.qty > 0
               && o.id in c.index && c.index[o.id] == x
               && (k > 0 ==> ch[k - 1] < |c.pool| && c.pool[ch[k - 1]].rank < o.rank)
               && Total(QueueIn(c, s, i)[..k + 1]) == Total(QueueIn(c, s, i)[..k]) + o.qty
  {
    hide Abs, WellFormed, Total;
    var ch, q := ChainAt(c, s, i), QueueIn(c, s, i);
    assert LevelAt(c, s, i);
    assert NodeOk(c.pool, ch, k, s, i, Levels(c, s)[i].nextRank);
    BookCore.OnChain(c, ch[k], s, i);
    assert SlotAt(c, ch[k]);
    if k > 0 {
      assert RankLess(c.pool, ch, k - 1, k);
    }
    PrefixTotal(q, k);
  }

  lemma PrefixTotal(q: Queue, k: nat)
    requires k < |q|
    ensures Total(q[..k + 1]) == Total(q[..k]) + q[k].qty
  {
    assert q[..k + 1] == q[..k] + [q[k]];
    TotalConcat(q[..k], [q[k]]);
    assert [q[k]][1..] == [];
  }

  // Walk one level's queue: links, sizes, ranks, the map, the count and the total.
  method WalkLevel(book: OrderBook, s: Side, i: nat) returns (good: bool, n: nat)
    requires book.Valid() && i < book.window
    ensures good && n == |ChainAt(book.State(), s, i)|
  {
    hide Inv, Abs, WellFormed, OrderMap.Valid, OrderMap.Contents, BitsOk, IsTouch, Total, Linked, QueueIn;
    ghost var c := book.State();
    ghost var ch, q := ChainAt(c, s, i), QueueIn(c, s, i);
    book.RoomInMap();
    Occupancy(c, s, i);
    var lv := book.LevelsOf(s)[i];
    good, n := true, 0;
    if lv.total == 0 {
      good := lv.head == NULL && lv.tail == NULL && lv.count == 0;
      return;
    }
    var cur, prev, sum, lastRank := lv.head, NULL, 0, 0;
    NoneAhead(q);
    LevelTotals(c, s, i);
    while cur != NULL
      invariant n <= |ch| && good && cur == Link(ch, n) && prev == Link(ch, n - 1) && sum == Total(q[..n])
      invariant n > 0 ==> ch[n - 1] < |c.pool| && lastRank == c.pool[ch[n - 1]].rank
      decreases |ch| - n
    {
      NodeFacts(c, s, i, n);
      var o := book.pool[cur];
      var found := book.ids.Find(o.id);
      good := good && o.level == i && o.side == s && o.prev == prev && o.qty > 0
              && (n == 0 || o.rank > lastRank) && found != EMPTY && n + 1 <= lv.count + 1;
      lastRank, prev := o.rank, cur;
      sum, n, cur := sum + o.qty, n + 1, o.next;
    }
    if n < |ch| {
      NodeFacts(c, s, i, n);
    }
    assert q[..|q|] == q;
    good := good && prev == lv.tail && sum == lv.total && n == lv.count;
  }

  lemma NoneAhead(q: Queue)
    ensures Total(q[..0]) == 0
  {
  }

  lemma LevelTotals(c: Core, s: Side, i: nat)
    requires Inv(c) && i < Window(c)
    ensures Shape(c) && |QueueIn(c, s, i)| == |ChainAt(c, s, i)|
    ensures var lv, ch := Levels(c, s)[i], ChainAt(c, s, i);
            lv.head == Link(ch, 0) && lv.tail == Link(ch, |ch| - 1) && lv.count == |ch|
              && lv.total == Total(QueueIn(c, s, i))
  {
    assert LevelAt(c, s, i);
  }

  // ---- the orders linked add up to the orders mapped ----

  function ChainSum(c: Core, s: Side, n: nat): nat {
    if n == 0 then 0 else ChainSum(c, s, n - 1) + |ChainAt(c, s, n - 1)|
  }

  function LinkedBelow(c: Core, s: Side, n: nat): set<nat> {
    set x: nat | x < |c.pool| && LinkedAt(c, s, n, x)
  }

  predicate LinkedAt(c: Core, s: Side, n: nat, x: nat) {
    Live(c, x) && c.pool[x].side == s && c.pool[x].level < n
  }

  function Members(ch: Chain): set<nat> {
    set x | x in ch
  }

  lemma {:induction false} AsManySlots(ch: Chain)
    requires forall j, k | 0 <= j < k < |ch| :: ch[j] != ch[k]
    ensures |Members(ch)| == |ch|
  {
    if ch != [] {
      var t, last := ch[..|ch| - 1], ch[|ch| - 1];
      AsManySlots(t);
      assert ch == t + [last] && last !in t;
      assert Members(ch) == Members(t) + {last};
    }
  }

  function UpTo(n: nat): (r: set<nat>)
    ensures |r| == n && forall x: nat :: x in r <==> x < n
  {
    if n == 0 then {} else UpTo(n - 1) + {n - 1}
  }

  lemma {:induction false} LinkedCount(c: Core, s: Side, n: nat)
    requires Inv(c) && n <= Window(c)
    ensures |LinkedBelow(c, s, n)| == ChainSum(c, s, n)
  {
    hide Inv, Live;
    if n == 0 {
      assert LinkedBelow(c, s, n) == {};
    } else {
      LinkedCount(c, s, n - 1);
      LinkedNext(c, s, n - 1);
    }
  }

  lemma DistinctOn(c: Core, s: Side, i: nat)
    requires Inv(c) && i < Window(c)
    ensures |Members(ChainAt(c, s, i))| == |ChainAt(c, s, i)|
  {
    hide Abs, WellFormed;
    var ch := ChainAt(c, s, i);
    assert LevelAt(c, s, i);
    forall j, k | 0 <= j < k < |ch| ensures ch[j] != ch[k] {
      ChainDistinct(c.pool, ch, s, i, Levels(c, s)[i].nextRank, j, k);
    }
    AsManySlots(ch);
  }

  // One more level links exactly the slots on its chain.
  lemma LinkedHere(c: Core, s: Side, i: nat, x: nat)
    requires Inv(c) && i < Window(c)
    ensures LinkedAt(c, s, i + 1, x) <==> LinkedAt(c, s, i, x) || x in ChainAt(c, s, i)
    ensures x in ChainAt(c, s, i) ==> x < |c.pool| && !LinkedAt(c, s, i, x)
  {
    hide Abs, WellFormed, LevelAt, SlotAt, OwnAt, OwnComplete, IndexAt;
    if x in ChainAt(c, s, i) {
      BookCore.OnChain(c, x, s, i);
    }
  }

  lemma LinkedNext(c: Core, s: Side, i: nat)
    requires Inv(c) && i < Window(c)
    ensures |LinkedBelow(c, s, i + 1)| == |LinkedBelow(c, s, i)| + |ChainAt(c, s, i)|
  {
    hide Inv, LinkedAt;
    DistinctOn(c, s, i);
    var before, here := LinkedBelow(c, s, i), Members(ChainAt(c, s, i));
    forall x: nat ensures x in LinkedBelow(c, s, i + 1) <==> x in before || x in here {
      LinkedHere(c, s, i, x);
    }
    forall x | x in here ensures x !in before {
      LinkedHere(c, s, i, x);
    }
    assert LinkedBelow(c, s, i + 1) == before + here;
  }

  // A slot is linked, on one side or the other, or free.
  lemma LinkedOrFree(c: Core, x: nat)
    requires Inv(c)
    ensures var b, a := LinkedAt(c, Bid, Window(c), x), LinkedAt(c, Ask, Window(c), x);
            (b || a <==> x < |c.pool| && x !in c.free) && !(b && a) && (x in c.free ==> x < |c.pool|)
  {
    hide Abs, WellFormed, LevelAt, OwnAt, OwnComplete, IndexAt;
    assert SlotAt(c, x);
  }

  // The orders reachable from the levels are as many as the map holds.
  lemma AllLinked(c: Core)
    requires Inv(c)
    ensures ChainSum(c, Bid, Window(c)) + ChainSum(c, Ask, Window(c)) == |c.index|
  {
    hide LinkedAt, LevelAt, SlotAt, OwnAt, OwnComplete, IndexAt, WellFormed, Abs;
    var bids, asks := LinkedBelow(c, Bid, Window(c)), LinkedBelow(c, Ask, Window(c));
    LinkedCount(c, Bid, Window(c));
    LinkedCount(c, Ask, Window(c));
    AsManySlots(c.free);
    CountParts(bids, asks, Members(c.free), UpTo(|c.pool|), c);
  }

  lemma CountParts(bids: set<nat>, asks: set<nat>, free: set<nat>, all: set<nat>, c: Core)
    requires Inv(c) && bids == LinkedBelow(c, Bid, Window(c)) && asks == LinkedBelow(c, Ask, Window(c))
    requires free == Members(c.free) && all == UpTo(|c.pool|)
    ensures |bids| + |asks| + |free| == |c.pool|
  {
    hide Inv, LinkedAt;
    forall x: nat ensures (x in bids || x in asks <==> x in all && x !in free) && !(x in bids && x in asks)
      && (x in free ==> x in all) {
      LinkedOrFree(c, x);
    }
    assert bids !! asks && free !! (bids + asks);
    assert bids + asks + free == all;
  }

  // ---- own orders ----

  ghost predicate TracksAt(c: Core, k: nat, x: nat, p: nat) {
    && k < |c.own|
    && var o := c.own[k];
       var ch := ChainAt(c, o.side, o.level);
       && x < |c.pool| && c.pool[x].id == o.id && c.pool[x].rank == o.rank && o.level < Window(c)
       && p < |ch| && ch[p] == x && p == IndexOf(QueueIn(c, o.side, o.level), o.id)
       && o.ahead == Ahead(QueueIn(c, o.side, o.level), o.id)
  }

  lemma OwnPlace(c: Core, k: nat) returns (x: nat, p: nat)
    requires Inv(c) && k < |c.own|
    ensures TracksAt(c, k, x, p)
    ensures var o := c.own[k];
            var lv, ch := Levels(c, o.side)[o.level], ChainAt(c, o.side, o.level);
            && |Levels(c, o.side)| == Window(c) && lv.head == Link(ch, 0)
            && |QueueIn(c, o.side, o.level)| == |ch| && o.ahead == Total(QueueIn(c, o.side, o.level)[..p])
  {
    hide Abs, WellFormed, QueueIn, Total, Linked;
    x, p := LocateOwn(c, k);
    LevelTotals(c, c.own[k].side, c.own[k].level);
  }

  // Along the walk: the own order is met at its place, and all before it rank lower.
  lemma OwnStep(c: Core, k: nat, x: nat, p: nat, n: nat)
    requires Inv(c) && TracksAt(c, k, x, p) && n <= p
    ensures var o := c.own[k];
            var y := ChainAt(c, o.side, o.level)[n];
            y < |c.pool| && (c.pool[y].id == o.id <==> n == p) && (n < p ==> c.pool[y].rank < o.rank)
  {
    hide Abs, WellFormed, Total, Live;
    var o := c.own[k];
    var ch := ChainAt(c, o.side, o.level);
    assert LevelAt(c, o.side, o.level);
    assert NodeOk(c.pool, ch, n, o.side, o.level, Levels(c, o.side)[o.level].nextRank);
    PositionUnique(c, o.side, o.level, n);
    RankIsPosition(Levels(c, o.side)[o.level], c.pool, ch, o.side, o.level, n, p);
  }

  // Walk the level from the front to the own order: it is there, and what is
  // ahead of it is what the record says.
  method WalkOwn(book: OrderBook, k: nat) returns (good: bool)
    requires book.Valid() && k < |book.own|
    ensures good
  {
    hide Inv, Abs, WellFormed, OrderMap.Valid, OrderMap.Contents, BitsOk, IsTouch, Total, Linked, QueueIn, Live;
    ghost var c := book.State();
    var own := book.own[k];
    ghost var x, p := OwnPlace(c, k);
    ghost var ch, q := ChainAt(c, own.side, own.level), QueueIn(c, own.side, own.level);
    var lv := book.LevelsOf(own.side)[own.level];
    var cur, ahead, found := lv.head, 0, false;
    ghost var n := 0;
    NoneAhead(q);
    while cur != NULL
      invariant n <= p && cur == Link(ch, n) && ahead == Total(q[..n]) && !found
      decreases p - n
    {
      NodeFacts(c, own.side, own.level, n);
      OwnStep(c, k, x, p, n);
      var o := book.pool[cur];
      if o.id == own.id {
        found := true;
        break;
      }
      if o.rank < own.rank {
        ahead := ahead + o.qty;
      }
      cur, n := o.next, n + 1;
    }
    if !found {
      NodeFacts(c, own.side, own.level, n);
    }
    good := found && ahead == own.ahead;
  }

  // ---- bits and touches ----

  lemma BitsSay(words: seq<Word>, levels: seq<Level>, i: nat)
    requires BitsOk(words, levels) && i < |levels|
    ensures i / 64 < |words| && (TestBit(words[i / 64], i % 64) <==> levels[i].total != 0)
  {
    assert BitMeans(words, levels, i);
  }

  // A scan of the whole side finds the cached touch.
  lemma ScanIsTouch(words: seq<Word>, levels: seq<Level>, s: Side, best: nat, r: nat)
    requires BitsOk(words, levels) && |levels| <= NO_LEVEL && IsTouch(levels, s, best)
    requires if s.Ask? then LowestAtOrAbove(words, 0, r)
             else if |levels| == 0 then r == NO_LEVEL else HighestAtOrBelow(words, |levels| - 1, r)
    ensures r == best
  {
    forall i: nat ensures BitAt(words, i) <==> i < |levels| && levels[i].total != 0 {
      assert BitMeans(words, levels, i);
    }
  }

  method CheckTouch(book: OrderBook, s: Side) returns (good: bool)
    requires book.Valid()
    ensures good
  {
    hide Abs, WellFormed, OrderMap.Valid, OrderMap.Contents, IsTouch, LevelAt, SlotAt, OwnAt, OwnComplete, IndexAt,
         HighestAtOrBelow, LowestAtOrAbove;
    var found;
    if s.Bid? {
      found := NO_LEVEL;
      if book.window != 0 {
        found := ScanDown(book.bidBits, book.window - 1);
      }
    } else {
      forall j: nat | NO_LEVEL <= j ensures !BitAt(book.askBits, j) {
        assert BitMeans(book.askBits, book.ask, j);
      }
      found := ScanUp(book.askBits, 0);
    }
    ScanIsTouch(book.BitsOf(s), book.LevelsOf(s), s, book.BestOf(s), found);
    good := found == book.BestOf(s);
  }

  method WalkSide(book: OrderBook, s: Side) returns (good: bool, counted: nat)
    requires book.Valid()
    ensures good && counted == ChainSum(book.State(), s, book.window)
  {
    hide Inv, Abs, WellFormed, OrderMap.Valid, OrderMap.Contents, BitsOk, IsTouch;
    Shapely(book.State());
    good, counted := true, 0;
    for i := 0 to book.window
      invariant good && counted == ChainSum(book.State(), s, i)
    {
      BitsSay(book.BitsOf(s), book.LevelsOf(s), i);
      var bit := TestBit(book.BitsOf(s)[i / 64], i % 64);
      var ok, n := WalkLevel(book, s, i);
      good := good && (book.LevelsOf(s)[i].total != 0) == bit && ok;
      counted := counted + n;
    }
  }

  // The best bid is below the best ask.
  method CheckUncrossed(book: OrderBook) returns (good: bool)
    requires book.Valid()
    ensures good
  {
    hide OrderBook.Valid, OrderBook.Book, OrderMap.Valid, OrderMap.Contents;
    ghost var b := book.Book();
    book.BookWellFormed();
    assert LadderOf(b, Bid) == b.bids && LadderOf(b, Ask) == b.asks;
    var hasBid := book.HasBest(Bid);
    var hasAsk := book.HasBest(Ask);
    good := true;
    if hasBid && hasAsk {
      var bid := book.Best(Bid);
      var ask := book.Best(Ask);
      assert BidBelowAsk(b, bid, ask);
      good := bid < ask;
    }
  }

  // Every check passes on every book that is valid, and every operation keeps a
  // book valid: no run of operations can make the book's own check fail.
  method CheckInvariants(book: OrderBook) returns (good: bool)
    requires book.Valid()
    ensures good
  {
    hide Inv, Abs, WellFormed, OrderMap.Valid, OrderMap.Contents, BitsOk, IsTouch;
    Shapely(book.State());
    AllLinked(book.State());
    MapCounts(book);
    var uncrossed := CheckUncrossed(book);
    var bidsGood, bids := WalkSide(book, Bid);
    var asksGood, asks := WalkSide(book, Ask);
    var bidTouch := CheckTouch(book, Bid);
    var askTouch := CheckTouch(book, Ask);
    good := uncrossed && bidsGood && asksGood && bids + asks == book.ids.size && bidTouch && askTouch;
    for k := 0 to |book.own|
      invariant good
    {
      var tracked := WalkOwn(book, k);
      good := good && tracked;
    }
  }

  lemma MapCounts(book: OrderBook)
    requires book.Valid()
    ensures book.ids.size == |book.State().index|
  {
    hide Inv, Abs, BitsOk, IsTouch;
  }
}
