// The fast book's state as one value, the invariant that ties its structures
// together, and the abstract book it stands for. Each operation of the class is
// a function on this value; the lemmas say that it keeps the invariant and
// performs the abstract operation.
//
// Every invariant is "for all" of a named predicate about one level, slot, id
// or own order, so a proof only ever looks at the items it mentions.
module BookCore {
  import opened Types
  import opened Queues
  import opened BookSpec
  import opened BookViews
  import opened LevelQueue

  // kNoLevel: no price level.
  const NO_LEVEL: nat := 0xFFFF_FFFF

  // The tracking record of an order of ours: where it rests, and the size ahead.
  datatype Own = Own(id: OrderId, level: nat, rank: nat, ahead: Qty, side: Side)

  datatype Core = Core(
    base: Ticks,
    pool: Pool,
    bid: seq<Level>,
    ask: seq<Level>,
    bidChains: seq<Chain>,
    askChains: seq<Chain>,
    free: seq<nat>,
    index: map<OrderId, nat>,
    own: seq<Own>)

  function Levels(c: Core, s: Side): seq<Level> {
    if s.Bid? then c.bid else c.ask
  }

  function Chains(c: Core, s: Side): seq<Chain> {
    if s.Bid? then c.bidChains else c.askChains
  }

  function ChainAt(c: Core, s: Side, i: int): Chain {
    if 0 <= i < |Chains(c, s)| then Chains(c, s)[i] else []
  }

  function WithLevel(c: Core, s: Side, i: nat, lv: Level): Core
    requires i < |Levels(c, s)|
  {
    if s.Bid? then c.(bid := c.bid[i := lv]) else c.(ask := c.ask[i := lv])
  }

  function WithChain(c: Core, s: Side, i: nat, ch: Chain): Core
    requires i < |Chains(c, s)|
  {
    if s.Bid? then c.(bidChains := c.bidChains[i := ch]) else c.(askChains := c.askChains[i := ch])
  }

  function Window(c: Core): nat {
    |c.bid|
  }

  // ---- the invariant ----

  predicate Shape(c: Core) {
    |c.bid| == |c.ask| == |c.bidChains| == |c.askChains| <= NO_LEVEL && |c.pool| <= NULL
  }

  ghost predicate LevelAt(c: Core, s: Side, i: nat) {
    i < |Levels(c, s)| ==> LevelOk(Levels(c, s)[i], c.pool, ChainAt(c, s, i), s, i)
  }

  // The slot is linked into the chain its own record names.
  predicate Live(c: Core, x: nat) {
    x < |c.pool| && c.pool[x].level < Window(c) && x in ChainAt(c, c.pool[x].side, c.pool[x].level)
  }

  // Free slots and linked slots partition the pool, and the map knows the linked.
  ghost predicate SlotAt(c: Core, x: nat) {
    && (x in c.free <==> x < |c.pool| && !Live(c, x))
    && (Live(c, x) ==> c.pool[x].id in c.index && c.index[c.pool[x].id] == x)
  }

  ghost predicate IndexAt(c: Core, id: OrderId) {
    id in c.index ==> Live(c, c.index[id]) && c.pool[c.index[id]].id == id
  }

  ghost predicate FreeDistinct(c: Core) {
    forall j, k | 0 <= j < k < |c.free| :: c.free[j] != c.free[k]
  }

  function QueueIn(c: Core, s: Side, i: int): Queue {
    EntriesOf(c.pool, ChainAt(c, s, i))
  }

  // The tracked position equals the size of the orders actually in front.
  ghost predicate OwnAt(c: Core, k: nat) {
    k < |c.own| ==>
      var o := c.own[k];
      && o.id in c.index && c.index[o.id] < |c.pool|
      && var r := c.pool[c.index[o.id]];
      && r.mine && r.level == o.level && r.side == o.side && r.rank == o.rank
      && o.ahead == Ahead(QueueIn(c, o.side, o.level), o.id)
  }

  ghost predicate OwnDistinct(own: seq<Own>) {
    forall j, k | 0 <= j < k < |own| :: own[j].id != own[k].id
  }

  ghost predicate OwnKnown(own: seq<Own>, id: OrderId) {
    exists k :: 0 <= k < |own| && own[k].id == id
  }

  ghost predicate OwnComplete(c: Core, x: nat) {
    Live(c, x) && c.pool[x].mine ==> OwnKnown(c.own, c.pool[x].id)
  }

  ghost predicate Inv(c: Core) {
    && Shape(c)
    && (forall s, i: nat :: LevelAt(c, s, i))
    && (forall x: nat :: SlotAt(c, x))
    && (forall id: OrderId :: IndexAt(c, id))
    && FreeDistinct(c) && |c.free| + |c.index| == |c.pool|
    && (forall k: nat :: OwnAt(c, k))
    && (forall x: nat :: OwnComplete(c, x))
    && OwnDistinct(c.own)
    && WellFormed(Abs(c))
  }

  // ---- the abstract book ----

  predicate Occupied(c: Core, s: Side, p: Ticks) {
    ChainAt(c, s, p - c.base) != []
  }

  function PriceQueue(c: Core, s: Side, p: Ticks): Queue {
    QueueIn(c, s, p - c.base)
  }

  ghost function LadderIn(c: Core, s: Side): Ladder {
    map p: Ticks | c.base <= p < c.base + Window(c) && Occupied(c, s, p) :: PriceQueue(c, s, p)
  }

  ghost function IndexIn(c: Core): map<OrderId, Loc> {
    map id | id in c.index && c.index[id] < |c.pool| ::
      Loc(c.pool[c.index[id]].side, c.base + c.pool[c.index[id]].level)
  }

  ghost function Abs(c: Core): Book {
    Book(LadderIn(c, Bid), LadderIn(c, Ask), IndexIn(c))
  }

  lemma LadderInAt(c: Core, s: Side, p: Ticks)
    requires |Chains(c, s)| == Window(c)
    ensures p in LadderIn(c, s) <==> ChainAt(c, s, p - c.base) != []
    ensures p in LadderIn(c, s) ==> LadderIn(c, s)[p] == QueueIn(c, s, p - c.base)
  {
    assert Occupied(c, s, p) <==> ChainAt(c, s, p - c.base) != [];
    assert PriceQueue(c, s, p) == QueueIn(c, s, p - c.base);
  }

  lemma QueueAtAbs(c: Core, s: Side, p: Ticks)
    requires Shape(c)
    ensures QueueAt(Abs(c), s, p) == QueueIn(c, s, p - c.base)
    ensures p in LadderOf(Abs(c), s) <==> ChainAt(c, s, p - c.base) != []
  {
    LadderInAt(c, s, p);
  }

  lemma IndexAbs(c: Core, id: OrderId)
    requires Inv(c)
    ensures id in Abs(c).index <==> id in c.index
    ensures |Abs(c).index| == |c.index|
  {
    forall i ensures i in IndexIn(c) <==> i in c.index {
      assert IndexAt(c, i);
    }
    assert IndexIn(c).Keys == c.index.Keys;
  }

  // Where an indexed order is linked.
  lemma Locate(c: Core, id: OrderId) returns (x: nat, k: nat)
    requires Inv(c) && id in c.index
    ensures x == c.index[id] && Live(c, x) && c.pool[x].id == id
    ensures var o := c.pool[x];
            var ch := ChainAt(c, o.side, o.level);
            k < |ch| && ch[k] == x && LevelOk(Levels(c, o.side)[o.level], c.pool, ch, o.side, o.level)
  {
    assert IndexAt(c, id);
    x := c.index[id];
    var o := c.pool[x];
    assert LevelAt(c, o.side, o.level);
    k :| 0 <= k < |ChainAt(c, o.side, o.level)| && ChainAt(c, o.side, o.level)[k] == x;
  }

  lemma PositionUnique(c: Core, s: Side, i: nat, k: nat)
    requires Inv(c) && k < |ChainAt(c, s, i)|
    ensures IndexOf(QueueIn(c, s, i), QueueIn(c, s, i)[k].id) == k
  {
    QueueAtAbs(c, s, c.base + i);
    assert QueueOk(Abs(c), s, c.base + i);
    IndexUnique(QueueIn(c, s, i), k);
  }

  // Where the abstract book has it: the same queue, at the same position.
  lemma LocateAbs(c: Core, x: nat, k: nat)
    requires Inv(c) && Live(c, x) && k < |ChainAt(c, c.pool[x].side, c.pool[x].level)|
    requires ChainAt(c, c.pool[x].side, c.pool[x].level)[k] == x
    ensures var o, b := c.pool[x], Abs(c);
            && o.id in c.index && c.index[o.id] == x
            && o.id in b.index && b.index[o.id] == Loc(o.side, c.base + o.level)
            && QueueOf(b, o.id) == QueueIn(c, o.side, o.level)
            && IndexOf(QueueIn(c, o.side, o.level), o.id) == k && Holds(QueueOf(b, o.id), o.id)
            && EntryOf(b, o.id) == Entry(o.id, o.qty, o.mine)
  {
    var o := c.pool[x];
    assert SlotAt(c, x);
    QueueAtAbs(c, o.side, c.base + o.level);
    PositionUnique(c, o.side, o.level, k);
  }

  // The id map and the abstract book know the same orders.
  lemma IndexedHeld(c: Core, id: OrderId)
    requires Inv(c)
    ensures Holds(QueueOf(Abs(c), id), id) <==> id in c.index
    ensures id in Abs(c).index <==> id in c.index
  {
    hide Abs, QueueOf;
    HeldIsIndexed(Abs(c), id);
    IndexAbs(c, id);
  }

  // An id the map does not know is in no queue.
  lemma Unqueued(c: Core, id: OrderId, s: Side, i: nat)
    requires Inv(c) && id !in c.index
    ensures !Holds(QueueIn(c, s, i), id)
  {
    hide QueueIn;
    QueueAtAbs(c, s, c.base + i);
    HeldOnlyThere(Abs(c), s, c.base + i, id);
    IndexAbs(c, id);
  }

  // A free slot is on no chain.
  lemma FreeUnlinked(c: Core, x: nat, s: Side, i: nat)
    requires Inv(c) && x in c.free
    ensures x < |c.pool| && x !in ChainAt(c, s, i)
  {
    assert SlotAt(c, x);
    if i < Window(c) && x in ChainAt(c, s, i) {
      OnChain(c, x, s, i);
    }
  }

  // A slot is only on the chain its own record names.
  lemma OnChain(c: Core, x: nat, s: Side, i: nat)
    requires Inv(c) && x in ChainAt(c, s, i)
    ensures x < |c.pool| && c.pool[x].side == s && c.pool[x].level == i && Live(c, x)
  {
    var ch := ChainAt(c, s, i);
    assert LevelAt(c, s, i);
    var k: nat :| k < |ch| && ch[k] == x;
    assert NodeOk(c.pool, ch, k, s, i, Levels(c, s)[i].nextRank);
  }

  // ---- one level changes ----

  // The slot's order is still the same order, wherever its links now point.
  predicate SameOrder(o: Order, o': Order) {
    o.id == o'.id && o.level == o'.level && o.side == o'.side && o.rank == o'.rank && o.mine == o'.mine
  }

  ghost predicate Kept(c: Core, c': Core, s: Side, i: nat, y: nat)
    requires y < |c.pool| && y < |c'.pool|
  {
    SameOrder(c.pool[y], c'.pool[y]) && (y in ChainAt(c, s, i) || c'.pool[y] == c.pool[y])
  }

  predicate SameLevel(c: Core, c': Core, t: Side, j: nat) {
    ChainAt(c', t, j) == ChainAt(c, t, j)
    && (j < |Levels(c, t)| && j < |Levels(c', t)| ==> Levels(c', t)[j] == Levels(c, t)[j])
  }

  // c' differs from c in one level, its chain, and pool records on that chain,
  // besides the record of slot x.
  ghost predicate OneLevel(c: Core, c': Core, s: Side, i: nat, x: nat) {
    && Shape(c) && i < Window(c) && c'.base == c.base && |c'.pool| == |c.pool|
    && Shape(c') && Window(c') == Window(c)
    && (forall t, j: nat | t != s || j != i :: SameLevel(c, c', t, j))
    && (forall y: nat | y < |c.pool| && y != x :: Kept(c, c', s, i, y))
    && (forall y: nat | y != x :: y in ChainAt(c', s, i) <==> y in ChainAt(c, s, i))
  }

  lemma OtherLevel(c: Core, c': Core, s: Side, i: nat, x: nat, s': Side, i': nat)
    requires Inv(c) && OneLevel(c, c', s, i, x) && (s' != s || i' != i)
    requires x in ChainAt(c, s, i) || x in c.free
    ensures ChainAt(c', s', i') == ChainAt(c, s', i')
    ensures LevelAt(c', s', i') && QueueIn(c', s', i') == QueueIn(c, s', i')
  {
    var ch := ChainAt(c, s', i');
    assert LevelAt(c, s', i');
    assert SameLevel(c, c', s', i');
    if i' < Window(c) {
      forall k | 0 <= k < |ch| ensures ch[k] < |c.pool| && c'.pool[ch[k]] == c.pool[ch[k]] {
        OnChain(c, ch[k], s', i');
        if x in c.free {
          FreeUnlinked(c, x, s', i');
        } else {
          OnChain(c, x, s, i);
        }
        if ch[k] in ChainAt(c, s, i) {
          OnChain(c, ch[k], s, i);
        }
        assert Kept(c, c', s, i, ch[k]);
      }
      LevelFrame(Levels(c, s')[i'], c.pool, c'.pool, ch, s', i');
    }
  }

  lemma QueueInAfter(c: Core, c': Core, s: Side, i: nat, x: nat, t: Side, p: Ticks)
    requires Inv(c) && OneLevel(c, c', s, i, x)
    requires x in ChainAt(c, s, i) || x in c.free
    ensures ReplacedAt(Abs(c), Abs(c'), s, c.base + i, QueueIn(c', s, i), t, p)
  {
    hide Abs, WellFormed, QueueAt, LadderOf;
    QueueAtAbs(c, t, p);
    QueueAtAbs(c', t, p);
    if c.base <= p && (t != s || p != c.base + i) {
      OtherLevel(c, c', s, i, x, t, p - c.base);
    }
  }

  // The abstract book changes in that one queue and nowhere else.
  lemma AbsAfter(c: Core, c': Core, s: Side, i: nat, x: nat)
    requires Inv(c) && OneLevel(c, c', s, i, x)
    requires x in ChainAt(c, s, i) || x in c.free
    ensures Replaced(Abs(c), Abs(c'), s, c.base + i, QueueIn(c', s, i))
  {
    hide Abs, WellFormed, QueueIn;
    var b, b1, p0, q := Abs(c), Abs(c'), c.base + i, QueueIn(c', s, i);
    forall t, p ensures ReplacedAt(b, b1, s, p0, q, t, p) {
      QueueInAfter(c, c', s, i, x, t, p);
    }
  }

  lemma LiveAfter(c: Core, c': Core, s: Side, i: nat, x: nat, y: nat)
    requires Inv(c) && OneLevel(c, c', s, i, x) && y != x
    requires x in ChainAt(c, s, i) || x in c.free
    ensures Live(c', y) <==> Live(c, y)
  {
    if y < |c.pool| {
      assert Kept(c, c', s, i, y);
      var o := c.pool[y];
      if o.side != s || o.level != i {
        OtherLevel(c, c', s, i, x, o.side, o.level);
      }
    }
  }

  // Writing one level and one chain touches no other.
  lemma WroteLevel(c: Core, c1: Core, s: Side, i: nat, lv: Level, ch: Chain)
    requires Shape(c) && i < Window(c) && |c1.pool| == |c.pool| && c1.base == c.base
    requires c1.bid == c.bid && c1.ask == c.ask && c1.bidChains == c.bidChains && c1.askChains == c.askChains
    ensures i < |Levels(c1, s)| && i < |Chains(WithLevel(c1, s, i, lv), s)|
    ensures var c' := WithChain(WithLevel(c1, s, i, lv), s, i, ch);
            && Shape(c') && Window(c') == Window(c)
            && i < |Levels(c', s)| && Levels(c', s)[i] == lv && ChainAt(c', s, i) == ch
            && c'.base == c1.base && c'.pool == c1.pool && c'.free == c1.free && c'.index == c1.index
               && c'.own == c1.own
            && forall t, j: nat | t != s || j != i :: SameLevel(c, c', t, j)
  {
  }

  // ---- own orders ----

  // on_qty_removed_at: size left at `rank`, so our orders behind it move up.
  function Aged(o: Own, s: Side, i: nat, rank: nat, qty: Qty): Own {
    if o.level == i && o.side == s && rank < o.rank then o.(ahead := o.ahead - qty) else o
  }

  function AgedAll(own: seq<Own>, s: Side, i: nat, rank: nat, qty: Qty): (r: seq<Own>)
    ensures |r| == |own|
  {
    seq(|own|, k requires 0 <= k < |own| => Aged(own[k], s, i, rank, qty))
  }

  // drop_own: the last record takes the dropped one's place.
  function OwnIndex(own: seq<Own>, id: OrderId): (k: nat)
    ensures k <= |own|
    ensures k < |own| ==> own[k].id == id
    ensures forall j | 0 <= j < k :: own[j].id != id
  {
    if own == [] then 0 else if own[0].id == id then 0 else 1 + OwnIndex(own[1..], id)
  }

  lemma OwnIndexIs(own: seq<Own>, id: OrderId, k: nat)
    requires k <= |own| && (k < |own| ==> own[k].id == id)
    requires forall j | 0 <= j < k :: own[j].id != id
    ensures OwnIndex(own, id) == k
  {
  }

  function Dropped(own: seq<Own>, id: OrderId): seq<Own> {
    var k := OwnIndex(own, id);
    if k < |own| then own[k := own[|own| - 1]][..|own| - 1] else own
  }

  lemma DroppedKeeps(own: seq<Own>, id: OrderId)
    requires OwnDistinct(own)
    ensures OwnDistinct(Dropped(own, id))
    ensures forall j | 0 <= j < |Dropped(own, id)| :: Dropped(own, id)[j] in own && Dropped(own, id)[j].id != id
  {
    var k, d := OwnIndex(own, id), Dropped(own, id);
    forall j | 0 <= j < |d| ensures d[j] in own && d[j].id != id {
      assert d[j] == own[if j == k then |own| - 1 else j];
    }
    forall j, j' | 0 <= j < j' < |d| ensures d[j].id != d[j'].id {
      assert d[j] == own[if j == k then |own| - 1 else j];
      assert d[j'] == own[if j' == k then |own| - 1 else j'];
    }
  }

  lemma DroppedKnown(own: seq<Own>, id: OrderId, other: OrderId)
    requires OwnKnown(own, other) && other != id
    ensures OwnKnown(Dropped(own, id), other)
  {
    var j :| 0 <= j < |own| && own[j].id == other;
    var k, d := OwnIndex(own, id), Dropped(own, id);
    if k < |own| {
      assert d[if j == |own| - 1 then k else j].id == other;
    }
  }

  lemma AgedKnown(own: seq<Own>, s: Side, i: nat, rank: nat, qty: Qty, id: OrderId)
    ensures OwnKnown(AgedAll(own, s, i, rank, qty), id) <==> OwnKnown(own, id)
  {
    var a := AgedAll(own, s, i, rank, qty);
    assert forall j | 0 <= j < |own| :: a[j].id == own[j].id;
    if OwnKnown(own, id) {
      var j :| 0 <= j < |own| && own[j].id == id;
      assert a[j].id == id;
    }
    if OwnKnown(a, id) {
      var j :| 0 <= j < |a| && a[j].id == id;
      assert own[j].id == id;
    }
  }

  // Ranks along a chain order exactly as positions do.
  lemma RankIsPosition(lv: Level, pool: Pool, ch: Chain, s: Side, i: nat, j: nat, k: nat)
    requires LevelOk(lv, pool, ch, s, i) && j < |ch| && k < |ch| && ch[j] < |pool| && ch[k] < |pool|
    ensures pool[ch[j]].rank < pool[ch[k]].rank <==> j < k
  {
    if j < k {
      assert RankLess(pool, ch, j, k);
    } else if k < j {
      assert RankLess(pool, ch, k, j);
    }
  }

  // An own record, and the order it tracks.
  lemma LocateOwn(c: Core, k: nat) returns (x: nat, p: nat)
    requires Inv(c) && k < |c.own|
    ensures var o := c.own[k];
            var ch := ChainAt(c, o.side, o.level);
            && o.id in c.index && x == c.index[o.id] && Live(c, x) && c.pool[x].id == o.id && c.pool[x].mine
            && c.pool[x].side == o.side && c.pool[x].level == o.level && c.pool[x].rank == o.rank
            && p < |ch| && ch[p] == x && p == IndexOf(QueueIn(c, o.side, o.level), o.id)
            && LevelOk(Levels(c, o.side)[o.level], c.pool, ch, o.side, o.level)
            && o.ahead == Ahead(QueueIn(c, o.side, o.level), o.id)
  {
    assert OwnAt(c, k);
    x, p := Locate(c, c.own[k].id);
    PositionUnique(c, c.own[k].side, c.own[k].level, p);
  }

  // The clamp at zero guards against a tracked position below zero.
  ghost predicate NoClamp(own: seq<Own>, s: Side, i: nat, rank: nat, qty: Qty) {
    forall k | 0 <= k < |own| :: Aged(own[k], s, i, rank, qty).ahead >= 0
  }

  lemma AllPositiveAt(c: Core, s: Side, i: nat)
    requires Inv(c)
    ensures AllPositive(QueueIn(c, s, i))
  {
    hide QueueIn, Abs;
    QueueAtAbs(c, s, c.base + i);
    assert QueueOk(Abs(c), s, c.base + i);
  }

  lemma AheadNonNegative(q: Queue, id: OrderId)
    requires AllPositive(q)
    ensures Ahead(q, id) >= 0
  {
    TotalNonNegative(q[..IndexOf(q, id)]);
  }

  // Every tracked position is the size of a queue prefix, so none is negative.
  lemma OwnNonNegative(c: Core, k: nat)
    requires Inv(c) && k < |c.own|
    ensures c.own[k].ahead >= 0
  {
    hide Abs, WellFormed, LevelOk, QueueIn;
    assert OwnAt(c, k);
    AllPositiveAt(c, c.own[k].side, c.own[k].level);
    AheadNonNegative(QueueIn(c, c.own[k].side, c.own[k].level), c.own[k].id);
  }

  lemma Occupancy(c: Core, s: Side, i: nat)
    requires Inv(c) && i < Window(c)
    ensures Shape(c) && LevelOk(Levels(c, s)[i], c.pool, ChainAt(c, s, i), s, i)
    ensures Levels(c, s)[i].total >= 0 && (Levels(c, s)[i].total == 0 <==> ChainAt(c, s, i) == [])
  {
    assert LevelAt(c, s, i);
    TotalZero(Levels(c, s)[i], c.pool, ChainAt(c, s, i), s, i);
  }

  // An own record reports its order's place in the abstract queue.
  lemma OwnIsMine(c: Core, k: nat)
    requires Inv(c) && k < |c.own|
    ensures IsMineSpec(Abs(c), c.own[k].id) && c.own[k].ahead == QueueAhead(Abs(c), c.own[k].id)
  {
    hide Abs, WellFormed, LevelOk, QueueOf, EntryOf, QueueIn, Ahead;
    var x, p := LocateOwn(c, k);
    LocateAbs(c, x, p);
  }

  // Every own order has a record.
  lemma MineIsOwn(c: Core, id: OrderId)
    requires Inv(c) && forall k | 0 <= k < |c.own| :: c.own[k].id != id
    ensures !IsMineSpec(Abs(c), id)
  {
    hide Abs, WellFormed, LevelOk, QueueOf, EntryOf, QueueIn;
    IndexedHeld(c, id);
    if id in c.index {
      var x, p := Locate(c, id);
      LocateAbs(c, x, p);
      assert OwnComplete(c, x);
    }
  }

  lemma PriceLevel(c: Core, s: Side, i: nat)
    requires Inv(c) && c.base + i in LadderOf(Abs(c), s)
    ensures i < Window(c) && Levels(c, s)[i].total == Total(QueueAt(Abs(c), s, c.base + i))
  {
    hide Abs, LadderOf, WellFormed;
    QueueAtAbs(c, s, c.base + i);
    if i < Window(c) {
      Occupancy(c, s, i);
    }
  }

  // ---- the empty book ----

  // Slots are handed out front to back, so the list holds them back to front.
  function FreeList(n: nat): (f: seq<nat>)
    ensures |f| == n && forall k | 0 <= k < n :: f[k] == n - 1 - k
  {
    seq(n, k requires 0 <= k < n => n - 1 - k)
  }

  function NoLevels(n: nat): (lvs: seq<Level>)
    ensures |lvs| == n && forall k | 0 <= k < n :: lvs[k] == EMPTY_LEVEL
  {
    seq(n, k requires 0 <= k < n => EMPTY_LEVEL)
  }

  function NoChains(n: nat): (chs: seq<Chain>)
    ensures |chs| == n && forall k | 0 <= k < n :: chs[k] == []
  {
    seq(n, k requires 0 <= k < n => [])
  }

  ghost predicate IsEmptyCore(c: Core) {
    && Shape(c) && c.free == FreeList(|c.pool|) && c.index == map[] && c.own == []
    && (forall i: nat | i < Window(c) :: c.bidChains[i] == [] && c.askChains[i] == [])
    && forall i: nat | i < Window(c) :: c.bid[i] == EMPTY_LEVEL && c.ask[i] == EMPTY_LEVEL
  }

  lemma Shapely(c: Core)
    requires Inv(c)
    ensures Shape(c)
  {
  }

  lemma EmptiedCore(c: Core)
    requires Shape(c) && c.free == FreeList(|c.pool|) && c.index == map[] && c.own == []
    requires c.bidChains == c.askChains == NoChains(Window(c)) && c.bid == c.ask == NoLevels(Window(c))
    ensures Inv(c) && Abs(c) == EMPTY_BOOK
  {
    hide Inv, Abs;
    EmptyInv(c);
  }

  lemma EmptyInv(c: Core)
    requires IsEmptyCore(c)
    ensures Inv(c) && Abs(c) == EMPTY_BOOK
  {
    forall x: nat ensures SlotAt(c, x) {
      if x < |c.pool| {
        assert c.free[|c.pool| - 1 - x] == x;
      }
    }
    forall s, p ensures p !in LadderIn(c, s) {
      LadderInAt(c, s, p);
    }
    assert LadderIn(c, Bid) == map[] && LadderIn(c, Ask) == map[];
    assert IndexIn(c) == map[];
    EmptyWellFormed();
  }
}
