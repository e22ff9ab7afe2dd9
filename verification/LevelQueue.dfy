// One price level of the fast book, as a list linked both ways through slots of
// the order pool. The ghost `chain` lists the linked slots front first,
// and says what the level's head, tail, count, total and every link must be.
module LevelQueue {
  import opened Types
  import opened Queues

  // kNullOrder: no slot.
  const NULL: nat := 0xFFFF_FFFF

  // A later order of the level has a greater `rank`.
  datatype Order = Order(
    id: OrderId, qty: Qty, level: nat, prev: nat, next: nat, rank: nat, side: Side, mine: bool)

  datatype Level = Level(total: Qty, head: nat, tail: nat, count: int, nextRank: nat)

  const EMPTY_LEVEL := Level(0, NULL, NULL, 0, 0)

  type Pool = seq<Order>
  type Chain = seq<nat>

  // The slot at position k, or no slot off either end.
  function Link(ch: Chain, k: int): nat {
    if 0 <= k < |ch| then ch[k] else NULL
  }

  function EntryIn(pool: Pool, x: nat): Entry {
    if x < |pool| then Entry(pool[x].id, pool[x].qty, pool[x].mine) else Entry(0, 0, false)
  }

  // The queue of entries a chain of slots stands for.
  function EntriesOf(pool: Pool, ch: Chain): (q: Queue)
    ensures |q| == |ch|
  {
    seq(|ch|, k requires 0 <= k < |ch| => EntryIn(pool, ch[k]))
  }

  predicate NodeOk(pool: Pool, ch: Chain, k: nat, s: Side, i: nat, nextRank: nat)
    requires k < |ch|
  {
    ch[k] < |pool|
    && var o := pool[ch[k]];
    && o.level == i && o.side == s && o.qty > 0 && o.rank < nextRank
    && o.prev == Link(ch, k - 1) && o.next == Link(ch, k + 1)
  }

  predicate RankLess(pool: Pool, ch: Chain, j: nat, k: nat)
    requires j < |ch| && k < |ch|
  {
    ch[j] < |pool| && ch[k] < |pool| && pool[ch[j]].rank < pool[ch[k]].rank
  }

  // Symmetric links, strictly increasing ranks.
  ghost predicate Linked(pool: Pool, ch: Chain, s: Side, i: nat, nextRank: nat) {
    && (forall k | 0 <= k < |ch| :: NodeOk(pool, ch, k, s, i, nextRank))
    && (forall j, k | 0 <= j < k < |ch| :: RankLess(pool, ch, j, k))
  }

  ghost predicate LevelOk(lv: Level, pool: Pool, ch: Chain, s: Side, i: nat) {
    && Linked(pool, ch, s, i, lv.nextRank)
    && lv.head == Link(ch, 0)
    && lv.tail == Link(ch, |ch| - 1)
    && lv.count == |ch|
    && lv.total == Total(EntriesOf(pool, ch))
  }

  lemma ChainDistinct(pool: Pool, ch: Chain, s: Side, i: nat, nextRank: nat, j: nat, k: nat)
    requires Linked(pool, ch, s, i, nextRank) && j < |ch| && k < |ch| && j != k
    ensures ch[j] != ch[k]
  {
    assert if j < k then RankLess(pool, ch, j, k) else RankLess(pool, ch, k, j);
  }

  // A level's total is zero exactly when nothing rests there.
  lemma TotalZero(lv: Level, pool: Pool, ch: Chain, s: Side, i: nat)
    requires LevelOk(lv, pool, ch, s, i)
    ensures lv.total >= 0 && (lv.total == 0 <==> ch == [])
  {
    var q := EntriesOf(pool, ch);
    forall k | 0 <= k < |q| ensures q[k].qty > 0 {
      assert NodeOk(pool, ch, k, s, i, lv.nextRank);
    }
    TotalNonNegative(q);
  }

  ghost predicate AgreeOn(pool: Pool, pool': Pool, ch: Chain) {
    |pool| == |pool'| && forall k | 0 <= k < |ch| :: ch[k] < |pool| ==> pool'[ch[k]] == pool[ch[k]]
  }

  // A level sees only the slots on its own chain.
  lemma LevelFrame(lv: Level, pool: Pool, pool': Pool, ch: Chain, s: Side, i: nat)
    requires LevelOk(lv, pool, ch, s, i) && AgreeOn(pool, pool', ch)
    ensures LevelOk(lv, pool', ch, s, i) && EntriesOf(pool', ch) == EntriesOf(pool, ch)
  {
    forall k | 0 <= k < |ch| ensures NodeOk(pool', ch, k, s, i, lv.nextRank) {
      assert NodeOk(pool, ch, k, s, i, lv.nextRank);
    }
    forall j, k | 0 <= j < k < |ch| ensures RankLess(pool', ch, j, k) {
      assert RankLess(pool, ch, j, k);
    }
    assert EntriesOf(pool', ch) == EntriesOf(pool, ch);
  }

  // ---- joining the back ----

  // `NULL` is no index, so the guard is the test for a null link.
  function AppendPool(pool: Pool, tail: nat, slot: nat, o: Order): Pool
    requires slot < |pool|
  {
    var p := pool[slot := o];
    if tail < |pool| then p[tail := p[tail].(next := slot)] else p
  }

  function AppendLevel(lv: Level, slot: nat, qty: Qty): Level {
    Level(lv.total + qty, if lv.tail == NULL then slot else lv.head, slot, lv.count + 1, lv.nextRank + 1)
  }

  ghost predicate Joins(lv: Level, o: Order, s: Side, i: nat) {
    o.level == i && o.side == s && o.qty > 0 && o.prev == lv.tail && o.next == NULL && o.rank == lv.nextRank
  }

  lemma AppendNodes(lv: Level, pool: Pool, ch: Chain, s: Side, i: nat, slot: nat, o: Order, k: nat)
    requires LevelOk(lv, pool, ch, s, i) && slot < |pool| <= NULL && slot !in ch && Joins(lv, o, s, i) && k <= |ch|
    ensures lv.tail == NULL || lv.tail < |pool|
    ensures var pool', ch' := AppendPool(pool, lv.tail, slot, o), ch + [slot];
            NodeOk(pool', ch', k, s, i, lv.nextRank + 1)
            && pool'[ch'[k]].rank == (if k < |ch| then pool[ch[k]].rank else lv.nextRank)
            && EntryIn(pool', ch'[k]) == if k < |ch| then EntryIn(pool, ch[k]) else Entry(o.id, o.qty, o.mine)
  {
    if ch != [] {
      assert NodeOk(pool, ch, |ch| - 1, s, i, lv.nextRank);
    }
    if k < |ch| {
      assert NodeOk(pool, ch, k, s, i, lv.nextRank);
      if k < |ch| - 1 {
        ChainDistinct(pool, ch, s, i, lv.nextRank, k, |ch| - 1);
      }
    }
  }

  lemma LevelAppend(lv: Level, pool: Pool, ch: Chain, s: Side, i: nat, slot: nat, o: Order)
    requires LevelOk(lv, pool, ch, s, i) && slot < |pool| <= NULL && slot !in ch && Joins(lv, o, s, i)
    ensures lv.tail == NULL || (lv.tail < |pool| && lv.tail in ch)
    ensures var pool' := AppendPool(pool, lv.tail, slot, o);
            LevelOk(AppendLevel(lv, slot, o.qty), pool', ch + [slot], s, i)
            && EntriesOf(pool', ch + [slot]) == EntriesOf(pool, ch) + [Entry(o.id, o.qty, o.mine)]
  {
    AppendNodes(lv, pool, ch, s, i, slot, o, |ch|);
    var pool', ch', lv' := AppendPool(pool, lv.tail, slot, o), ch + [slot], AppendLevel(lv, slot, o.qty);
    if ch != [] {
      assert NodeOk(pool, ch, |ch| - 1, s, i, lv.nextRank);
    }
    forall k | 0 <= k < |ch'|
      ensures NodeOk(pool', ch', k, s, i, lv'.nextRank)
      ensures EntriesOf(pool', ch')[k] == (EntriesOf(pool, ch) + [Entry(o.id, o.qty, o.mine)])[k]
    {
      AppendNodes(lv, pool, ch, s, i, slot, o, k);
    }
    forall j, k | 0 <= j < k < |ch'| ensures RankLess(pool', ch', j, k) {
      AppendNodes(lv, pool, ch, s, i, slot, o, j);
      AppendNodes(lv, pool, ch, s, i, slot, o, k);
      assert NodeOk(pool, ch, j, s, i, lv.nextRank);
      assert k < |ch| ==> RankLess(pool, ch, j, k);
    }
    var e := Entry(o.id, o.qty, o.mine);
    assert EntriesOf(pool', ch') == EntriesOf(pool, ch) + [e];
    TotalConcat(EntriesOf(pool, ch), [e]);
    assert Total([e]) == e.qty;
  }

  // ---- losing size in place ----

  lemma LevelReduce(lv: Level, pool: Pool, ch: Chain, s: Side, i: nat, k: nat, cut: Qty)
    requires LevelOk(lv, pool, ch, s, i) && k < |ch| && ch[k] < |pool| && 0 < cut < pool[ch[k]].qty
    ensures var pool' := pool[ch[k] := pool[ch[k]].(qty := pool[ch[k]].qty - cut)];
            LevelOk(lv.(total := lv.total - cut), pool', ch, s, i)
            && EntriesOf(pool', ch) == Shrunk(EntriesOf(pool, ch), k, cut)
  {
    var pool' := pool[ch[k] := pool[ch[k]].(qty := pool[ch[k]].qty - cut)];
    forall j | 0 <= j < |ch|
      ensures NodeOk(pool', ch, j, s, i, lv.nextRank)
      ensures EntriesOf(pool', ch)[j] == Shrunk(EntriesOf(pool, ch), k, cut)[j]
    {
      assert NodeOk(pool, ch, j, s, i, lv.nextRank);
      if j != k {
        ChainDistinct(pool, ch, s, i, lv.nextRank, j, k);
      }
    }
    forall j, j' | 0 <= j < j' < |ch| ensures RankLess(pool', ch, j, j') {
      assert RankLess(pool, ch, j, j');
    }
    assert EntriesOf(pool', ch) == Shrunk(EntriesOf(pool, ch), k, cut);
    TotalShrunk(EntriesOf(pool, ch), k, cut);
  }

  // ---- leaving the queue ----

  // unlink(): repair the neighbours' links, then clear the slot's own.
  function UnlinkPool(pool: Pool, x: nat): Pool
    requires x < |pool|
  {
    var o := pool[x];
    var p := if o.prev < |pool| then pool[o.prev := pool[o.prev].(next := o.next)] else pool;
    var p' := if o.next < |pool| then p[o.next := p[o.next].(prev := o.prev)] else p;
    p'[x := p'[x].(prev := NULL, next := NULL)]
  }

  function UnlinkLevel(lv: Level, o: Order): Level {
    lv.(head := if o.prev == NULL then o.next else lv.head,
        tail := if o.next == NULL then o.prev else lv.tail,
        count := lv.count - 1)
  }

  lemma UnlinkNeighbours(lv: Level, pool: Pool, ch: Chain, s: Side, i: nat, k: nat)
    requires LevelOk(lv, pool, ch, s, i) && k < |ch| && |pool| <= NULL
    ensures ch[k] < |pool|
    ensures var o := pool[ch[k]];
            && o.prev == (if k == 0 then NULL else ch[k - 1])
            && o.next == (if k == |ch| - 1 then NULL else ch[k + 1])
            && (o.prev == NULL || (o.prev < |pool| && o.prev in ch))
            && (o.next == NULL || (o.next < |pool| && o.next in ch))
            && (o.prev == NULL <==> k == 0) && (o.next == NULL <==> k == |ch| - 1)
  {
    assert NodeOk(pool, ch, k, s, i, lv.nextRank);
    if k > 0 {
      assert NodeOk(pool, ch, k - 1, s, i, lv.nextRank);
    }
    if k < |ch| - 1 {
      assert NodeOk(pool, ch, k + 1, s, i, lv.nextRank);
    }
  }

  // A slot left on the chain keeps everything but the links around the gap.
  lemma UnlinkNodes(lv: Level, pool: Pool, ch: Chain, s: Side, i: nat, k: nat, j: nat)
    requires LevelOk(lv, pool, ch, s, i) && k < |ch| && |pool| <= NULL && j < |ch| - 1
    requires ch[k] < |pool|
    ensures var pool', ch' := UnlinkPool(pool, ch[k]), Without(ch, k);
            var j' := if j < k then j else j + 1;
            ch'[j] == ch[j'] && ch[j'] < |pool|
            && NodeOk(pool', ch', j, s, i, lv.nextRank)
            && pool'[ch'[j]].rank == pool[ch[j']].rank && EntryIn(pool', ch'[j]) == EntryIn(pool, ch[j'])
  {
    UnlinkNeighbours(lv, pool, ch, s, i, k);
    var j' := if j < k then j else j + 1;
    assert NodeOk(pool, ch, j', s, i, lv.nextRank);
    ChainDistinct(pool, ch, s, i, lv.nextRank, j', k);
    if k > 0 && j' != k - 1 {
      ChainDistinct(pool, ch, s, i, lv.nextRank, j', k - 1);
    }
    if k < |ch| - 1 && j' != k + 1 {
      ChainDistinct(pool, ch, s, i, lv.nextRank, j', k + 1);
    }
    if 0 < k < |ch| - 1 {
      ChainDistinct(pool, ch, s, i, lv.nextRank, k - 1, k + 1);
    }
  }

  lemma LevelUnlink(lv: Level, pool: Pool, ch: Chain, s: Side, i: nat, k: nat)
    requires LevelOk(lv, pool, ch, s, i) && k < |ch| && |pool| <= NULL
    ensures ch[k] < |pool|
    ensures var o := pool[ch[k]];
            (o.prev == NULL || (o.prev < |pool| && o.prev in ch))
              && (o.next == NULL || (o.next < |pool| && o.next in ch))
    ensures var o, pool', ch' := pool[ch[k]], UnlinkPool(pool, ch[k]), Without(ch, k);
            var lv' := UnlinkLevel(lv, o);
            LevelOk(lv'.(total := lv'.total - o.qty), pool', ch', s, i)
            && EntriesOf(pool', ch') == Without(EntriesOf(pool, ch), k)
  {
    UnlinkNeighbours(lv, pool, ch, s, i, k);
    var o, pool', ch' := pool[ch[k]], UnlinkPool(pool, ch[k]), Without(ch, k);
    forall j | 0 <= j < |ch'|
      ensures NodeOk(pool', ch', j, s, i, lv.nextRank)
      ensures EntriesOf(pool', ch')[j] == Without(EntriesOf(pool, ch), k)[j]
    {
      UnlinkNodes(lv, pool, ch, s, i, k, j);
    }
    forall j, j2 | 0 <= j < j2 < |ch'| ensures RankLess(pool', ch', j, j2) {
      UnlinkNodes(lv, pool, ch, s, i, k, j);
      UnlinkNodes(lv, pool, ch, s, i, k, j2);
      assert RankLess(pool, ch, if j < k then j else j + 1, if j2 < k then j2 else j2 + 1);
    }
    assert EntriesOf(pool', ch') == Without(EntriesOf(pool, ch), k);
    TotalWithout(EntriesOf(pool, ch), k);
  }
}
