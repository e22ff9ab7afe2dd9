// Adding an order: the last slot of the free list becomes the tail of its level.
module BookAdd {
  import opened Types
  import opened Queues
  import opened BookSpec
  import opened LevelQueue
  import opened BookCore

  function NewOrder(lv: Level, id: OrderId, s: Side, i: nat, qty: Qty, mine: bool): Order {
    Order(id, qty, i, lv.tail, NULL, lv.nextRank, s, mine)
  }

  function NextSlot(c: Core): nat
    requires c.free != []
  {
    c.free[|c.free| - 1]
  }

  predicate CanAdd(c: Core, s: Side, i: nat) {
    i < |Levels(c, s)| && i < |Chains(c, s)| && c.free != [] && NextSlot(c) < |c.pool|
  }

  // Everything already at the level is ahead of an own order that joins it.
  function AddCore(c: Core, id: OrderId, s: Side, i: nat, qty: Qty, mine: bool): Core
    requires CanAdd(c, s, i)
  {
    var lv, x := Levels(c, s)[i], NextSlot(c);
    var o := NewOrder(lv, id, s, i, qty, mine);
    var c1 := c.(pool := AppendPool(c.pool, lv.tail, x, o),
                 free := c.free[..|c.free| - 1],
                 index := c.index[id := x],
                 own := if mine then c.own + [Own(id, i, lv.nextRank, lv.total, s)] else c.own);
    WithChain(WithLevel(c1, s, i, AppendLevel(lv, x, qty)), s, i, ChainAt(c, s, i) + [x])
  }

  lemma AddCoreIs(c: Core, c': Core, id: OrderId, s: Side, i: nat, qty: Qty, mine: bool)
    requires CanAdd(c, s, i) && c'.base == c.base && c'.free == c.free[..|c.free| - 1]
    requires c'.index == c.index[id := NextSlot(c)]
    requires c'.pool
             == AppendPool(c.pool, Levels(c, s)[i].tail, NextSlot(c), NewOrder(Levels(c, s)[i], id, s, i, qty, mine))
    requires var lv := Levels(c, s)[i];
             c'.own == if mine then c.own + [Own(id, i, lv.nextRank, lv.total, s)] else c.own
    requires Levels(c', s) == Levels(c, s)[i := AppendLevel(Levels(c, s)[i], NextSlot(c), qty)]
    requires Chains(c', s) == Chains(c, s)[i := ChainAt(c, s, i) + [NextSlot(c)]]
    requires Levels(c', Opposite(s)) == Levels(c, Opposite(s)) && Chains(c', Opposite(s)) == Chains(c, Opposite(s))
    ensures c' == AddCore(c, id, s, i, qty, mine)
  {
  }

  ghost predicate AddReady(c: Core, id: OrderId, s: Side, i: nat, qty: Qty) {
    Inv(c) && i < Window(c) && c.free != [] && qty > 0 && id !in c.index && !Crossing(Abs(c), s, c.base + i)
  }

  lemma AddSlot(c: Core, s: Side, i: nat)
    requires Inv(c) && i < Window(c) && c.free != []
    ensures CanAdd(c, s, i) && !Live(c, NextSlot(c)) && NextSlot(c) !in ChainAt(c, s, i)
    ensures NextSlot(c) in c.free && NextSlot(c) !in c.free[..|c.free| - 1]
    ensures Shape(c) && LevelOk(Levels(c, s)[i], c.pool, ChainAt(c, s, i), s, i)
  {
    assert LevelAt(c, s, i);
    var x := NextSlot(c);
    assert SlotAt(c, x);
    FreeUnlinked(c, x, s, i);
  }

  // What an add may rely on before it writes anything.
  lemma AddLinks(c: Core, s: Side, i: int)
    requires Inv(c)
    ensures Shape(c) && |c.free| + |c.index| == |c.pool|
    ensures c.free != [] ==> NextSlot(c) < |c.pool|
    ensures 0 <= i < Window(c) ==>
              var lv := Levels(c, s)[i];
              (lv.tail == NULL || lv.tail < |c.pool|) && lv.total >= 0
  {
    if c.free != [] {
      assert SlotAt(c, NextSlot(c));
    }
    if 0 <= i < Window(c) {
      var ch := ChainAt(c, s, i);
      assert LevelAt(c, s, i);
      TotalZero(Levels(c, s)[i], c.pool, ch, s, i);
      if ch != [] {
        assert NodeOk(c.pool, ch, |ch| - 1, s, i, Levels(c, s)[i].nextRank);
      }
    }
  }

  // Everything the invariant needs to know about the state after an add.
  ghost predicate AddStep(c: Core, c': Core, id: OrderId, s: Side, i: nat, qty: Qty, mine: bool) {
    && Inv(c) && i < Window(c) && c.free != []
    && var x := NextSlot(c);
    && x < |c.pool| && x in c.free && x !in c'.free && x !in ChainAt(c, s, i)
    && OneLevel(c, c', s, i, x) && LevelAt(c', s, i)
    && x in ChainAt(c', s, i) && QueueIn(c', s, i) == QueueIn(c, s, i) + [Entry(id, qty, mine)]
    && c'.pool[x].id == id && c'.pool[x].side == s && c'.pool[x].level == i
    && c'.pool[x].mine == mine && c'.pool[x].rank == Levels(c, s)[i].nextRank
    && c'.free == c.free[..|c.free| - 1] && c'.index == c.index[id := x]
    && c'.own == if mine then c.own + [Own(id, i, Levels(c, s)[i].nextRank, Levels(c, s)[i].total, s)] else c.own
  }

  lemma AddTakesStep(c: Core, id: OrderId, s: Side, i: nat, qty: Qty, mine: bool)
    requires AddReady(c, id, s, i, qty)
    ensures CanAdd(c, s, i) && AddStep(c, AddCore(c, id, s, i, qty, mine), id, s, i, qty, mine)
  {
    hide Inv, LevelOk, EntriesOf;
    AddSlot(c, s, i);
    var lv, x, ch := Levels(c, s)[i], NextSlot(c), ChainAt(c, s, i);
    var o := NewOrder(lv, id, s, i, qty, mine);
    LevelAppend(lv, c.pool, ch, s, i, x, o);
    var c1 := c.(pool := AppendPool(c.pool, lv.tail, x, o),
                 free := c.free[..|c.free| - 1],
                 index := c.index[id := x],
                 own := if mine then c.own + [Own(id, i, lv.nextRank, lv.total, s)] else c.own);
    WroteLevel(c, c1, s, i, AppendLevel(lv, x, qty), ch + [x]);
    hide WithLevel, WithChain;
    AddTouches(c, AddCore(c, id, s, i, qty, mine), lv, s, i, x, o);
  }

  lemma AddTouches(c: Core, c': Core, lv: Level, s: Side, i: nat, x: nat, o: Order)
    requires Shape(c) && Shape(c') && Window(c') == Window(c) && c'.base == c.base && i < Window(c)
    requires x < |c.pool| && c'.pool == AppendPool(c.pool, lv.tail, x, o)
    requires lv.tail == NULL || (lv.tail < |c.pool| && lv.tail in ChainAt(c, s, i))
    requires ChainAt(c', s, i) == ChainAt(c, s, i) + [x]
    requires forall t, j: nat | t != s || j != i :: SameLevel(c, c', t, j)
    ensures OneLevel(c, c', s, i, x)
  {
    forall y: nat | y < |c.pool| && y != x ensures Kept(c, c', s, i, y) {
    }
  }

  lemma AddIndex(c: Core, c': Core, id: OrderId, s: Side, i: nat, qty: Qty, mine: bool, k: OrderId)
    requires AddStep(c, c', id, s, i, qty, mine)
    ensures var m, m' := IndexIn(c)[id := Loc(s, c.base + i)], IndexIn(c');
            (k in m <==> k in m') && (k in m ==> m[k] == m'[k])
  {
    assert IndexAt(c, k);
    if k in c.index && k != id {
      assert c.index[k] != NextSlot(c) by {
        assert SlotAt(c, NextSlot(c));
      }
      assert Kept(c, c', s, i, c.index[k]);
    }
  }

  lemma AddIndexes(c: Core, c': Core, id: OrderId, s: Side, i: nat, qty: Qty, mine: bool)
    requires AddStep(c, c', id, s, i, qty, mine)
    ensures Abs(c').index == Abs(c).index[id := Loc(s, c.base + i)]
  {
    hide AddStep, IndexIn, LadderIn;
    var m, m' := IndexIn(c)[id := Loc(s, c.base + i)], IndexIn(c');
    forall k: OrderId
      ensures k in m <==> k in m'
      ensures k in m ==> m[k] == m'[k]
    {
      AddIndex(c, c', id, s, i, qty, mine, k);
    }
    assert m == m';
  }

  lemma AddAbs(c: Core, c': Core, id: OrderId, s: Side, i: nat, qty: Qty, mine: bool)
    requires AddStep(c, c', id, s, i, qty, mine)
    ensures Abs(c') == Appended(Abs(c), s, c.base + i, Entry(id, qty, mine))
  {
    hide Abs, Appended;
    AddIndexes(c, c', id, s, i, qty, mine);
    QueueAtAbs(c, s, c.base + i);
    AbsAfter(c, c', s, i, NextSlot(c));
    AppendedIs(Abs(c), Abs(c'), s, c.base + i, Entry(id, qty, mine));
  }

  lemma AddSlots(c: Core, c': Core, id: OrderId, s: Side, i: nat, qty: Qty, mine: bool, y: nat)
    requires AddStep(c, c', id, s, i, qty, mine) && id !in c.index
    ensures SlotAt(c', y) && OwnComplete(c', y)
  {
    var x := NextSlot(c);
    assert SlotAt(c, y);
    assert OwnComplete(c, y);
    if y != x {
      LiveAfter(c, c', s, i, x, y);
      assert y in c.free <==> y in c'.free;
      if Live(c, y) {
        assert Kept(c, c', s, i, y);
        if c.pool[y].mine {
          OwnGrows(c, c', id, s, i, qty, mine, c.pool[y].id);
        }
      }
    } else if mine {
      assert c'.own[|c.own|].id == id;
    }
  }

  lemma OwnGrows(c: Core, c': Core, id: OrderId, s: Side, i: nat, qty: Qty, mine: bool, k: OrderId)
    requires AddStep(c, c', id, s, i, qty, mine) && OwnKnown(c.own, k)
    ensures OwnKnown(c'.own, k)
  {
    var j :| 0 <= j < |c.own| && c.own[j].id == k;
    assert c'.own[j].id == k;
  }

  // A tracked position does not change when someone joins behind.
  lemma AddOwnKept(c: Core, c': Core, id: OrderId, s: Side, i: nat, qty: Qty, mine: bool, k: nat)
    requires AddStep(c, c', id, s, i, qty, mine) && id !in c.index && k < |c.own|
    ensures OwnAt(c', k)
  {
    hide Abs, WellFormed, LevelOk;
    var x, p := LocateOwn(c, k);
    var o := c.own[k];
    assert SlotAt(c, NextSlot(c));
    assert Kept(c, c', s, i, x);
    assert c'.own[k] == o;
    if o.side == s && o.level == i {
      AheadAppend(QueueIn(c, s, i), Entry(id, qty, mine), o.id);
    } else {
      OtherLevel(c, c', s, i, NextSlot(c), o.side, o.level);
    }
  }

  // Our own new order starts behind everything at its level.
  lemma AddOwnNew(c: Core, c': Core, id: OrderId, s: Side, i: nat, qty: Qty)
    requires AddStep(c, c', id, s, i, qty, true) && id !in c.index
    ensures OwnAt(c', |c.own|)
  {
    hide WellFormed, Abs;
    assert LevelAt(c, s, i);
    Unqueued(c, id, s, i);
    AheadAppend(QueueIn(c, s, i), Entry(id, qty, true), id);
  }

  lemma AddOwns(c: Core, c': Core, id: OrderId, s: Side, i: nat, qty: Qty, mine: bool)
    requires AddStep(c, c', id, s, i, qty, mine) && id !in c.index
    ensures (forall k: nat :: OwnAt(c', k)) && OwnDistinct(c'.own)
  {
    hide Abs, WellFormed, LevelOk, OneLevel;
    forall k: nat ensures OwnAt(c', k) {
      if k < |c.own| {
        AddOwnKept(c, c', id, s, i, qty, mine, k);
      } else if mine && k == |c.own| {
        AddOwnNew(c, c', id, s, i, qty);
      }
    }
    forall k | 0 <= k < |c.own| ensures c.own[k].id != id {
      assert OwnAt(c, k);
    }
  }

  lemma AddLevels(c: Core, c': Core, id: OrderId, s: Side, i: nat, qty: Qty, mine: bool, t: Side, j: nat)
    requires AddStep(c, c', id, s, i, qty, mine)
    ensures LevelAt(c', t, j)
  {
    if t != s || j != i {
      OtherLevel(c, c', s, i, NextSlot(c), t, j);
    }
  }

  lemma AddIndexed(c: Core, c': Core, id: OrderId, s: Side, i: nat, qty: Qty, mine: bool, k: OrderId)
    requires AddStep(c, c', id, s, i, qty, mine) && id !in c.index
    ensures IndexAt(c', k)
  {
    hide Abs, WellFormed, LevelOk;
    assert IndexAt(c, k);
    assert SlotAt(c, NextSlot(c));
    if k in c.index {
      LiveAfter(c, c', s, i, NextSlot(c), c.index[k]);
      assert Kept(c, c', s, i, c.index[k]);
    }
  }

  // An accepted add keeps every invariant and appends to the abstract queue.
  lemma AddKeepsInv(c: Core, id: OrderId, s: Side, i: nat, qty: Qty, mine: bool)
    requires AddReady(c, id, s, i, qty)
    ensures CanAdd(c, s, i) && Inv(AddCore(c, id, s, i, qty, mine))
    ensures Abs(AddCore(c, id, s, i, qty, mine)) == Appended(Abs(c), s, c.base + i, Entry(id, qty, mine))
  {
    hide Abs, WellFormed, LevelAt, SlotAt, OwnAt, OwnComplete, IndexAt, Appended, Crossing;
    AddTakesStep(c, id, s, i, qty, mine);
    var c' := AddCore(c, id, s, i, qty, mine);
    hide AddCore;
    AddAbs(c, c', id, s, i, qty, mine);
    IndexAbs(c, id);
    AppendedWellFormed(Abs(c), s, c.base + i, Entry(id, qty, mine));
    AddOwns(c, c', id, s, i, qty, mine);
    forall t, j: nat ensures LevelAt(c', t, j) {
      AddLevels(c, c', id, s, i, qty, mine, t, j);
    }
    forall y: nat ensures SlotAt(c', y) && OwnComplete(c', y) {
      AddSlots(c, c', id, s, i, qty, mine, y);
    }
    forall k: OrderId ensures IndexAt(c', k) {
      AddIndexed(c, c', id, s, i, qty, mine, k);
    }
  }
}
