// Taking an order out of the book: unlink it, give its slot back, forget its
// id, and move our orders behind it up by its size.
module BookRemove {
  import opened Types
  import opened Queues
  import opened BookSpec
  import opened LevelQueue
  import opened BookCore

  predicate CanRemove(c: Core, x: nat, k: nat) {
    && Shape(c) && x < |c.pool| && c.pool[x].level < Window(c)
    && k < |ChainAt(c, c.pool[x].side, c.pool[x].level)|
  }

  function EmptiedLevel(lv: Level, o: Order): Level {
    var l := UnlinkLevel(lv, o);
    l.(total := l.total - o.qty)
  }

  function OwnAfterRemove(own: seq<Own>, o: Order): seq<Own> {
    var aged := AgedAll(own, o.side, o.level, o.rank, o.qty);
    if o.mine then Dropped(aged, o.id) else aged
  }

  // k is the slot's position in its chain.
  function RemoveCore(c: Core, x: nat, k: nat): Core
    requires CanRemove(c, x, k)
  {
    var o := c.pool[x];
    var ch := ChainAt(c, o.side, o.level);
    var c1 := c.(pool := UnlinkPool(c.pool, x),
                 free := c.free + [x],
                 index := c.index - {o.id},
                 own := OwnAfterRemove(c.own, o));
    WithChain(WithLevel(c1, o.side, o.level, EmptiedLevel(Levels(c, o.side)[o.level], o)), o.side, o.level,
              Without(ch, k))
  }

  ghost predicate Linkable(c: Core, x: nat, k: nat) {
    && Inv(c) && Live(c, x)
    && k < |ChainAt(c, c.pool[x].side, c.pool[x].level)| && ChainAt(c, c.pool[x].side, c.pool[x].level)[k] == x
  }

  ghost predicate RemoveStep(c: Core, c': Core, x: nat, k: nat) {
    && Linkable(c, x, k)
    && var o := c.pool[x];
    && OneLevel(c, c', o.side, o.level, x) && LevelAt(c', o.side, o.level)
    && x !in ChainAt(c', o.side, o.level)
    && QueueIn(c', o.side, o.level) == Without(QueueIn(c, o.side, o.level), k)
    && SameOrder(o, c'.pool[x])
    && c'.free == c.free + [x] && c'.index == c.index - {o.id}
    && c'.own == OwnAfterRemove(c.own, o)
  }

  lemma RemoveTouches(c: Core, c': Core, x: nat, k: nat)
    requires Shape(c) && Shape(c') && Window(c') == Window(c) && c'.base == c.base
    requires x < |c.pool| && c.pool[x].level < Window(c)
    requires var o, ch := c.pool[x], ChainAt(c, c.pool[x].side, c.pool[x].level);
             && (o.prev == NULL || (o.prev < |c.pool| && o.prev in ch))
             && (o.next == NULL || (o.next < |c.pool| && o.next in ch))
             && k < |ch| && ch[k] == x
             && ChainAt(c', o.side, o.level) == Without(ch, k)
             && forall t, j: nat | t != o.side || j != o.level :: SameLevel(c, c', t, j)
    requires c'.pool == UnlinkPool(c.pool, x)
    ensures OneLevel(c, c', c.pool[x].side, c.pool[x].level, x) && SameOrder(c.pool[x], c'.pool[x])
  {
    var o, ch := c.pool[x], ChainAt(c, c.pool[x].side, c.pool[x].level);
    forall y: nat | y < |c.pool| && y != x ensures Kept(c, c', o.side, o.level, y) {
    }
    forall y: nat | y != x ensures y in Without(ch, k) <==> y in ch {
      ChainWithoutMembers(ch, k, y);
    }
  }

  lemma ChainWithoutMembers(ch: Chain, k: nat, y: nat)
    requires k < |ch| && y != ch[k]
    ensures y in Without(ch, k) <==> y in ch
  {
    if y in ch {
      var j: nat :| j < |ch| && ch[j] == y;
      assert Without(ch, k)[if j < k then j else j - 1] == y;
    }
  }

  lemma ChainLosesSlot(lv: Level, pool: Pool, ch: Chain, s: Side, i: nat, k: nat)
    requires LevelOk(lv, pool, ch, s, i) && k < |ch|
    ensures ch[k] !in Without(ch, k)
  {
    forall j: nat | j < |ch| - 1 ensures Without(ch, k)[j] != ch[k] {
      ChainDistinct(pool, ch, s, i, lv.nextRank, if j < k then j else j + 1, k);
    }
  }

  lemma RemoveTakesStep(c: Core, x: nat, k: nat)
    requires Linkable(c, x, k)
    ensures CanRemove(c, x, k) && RemoveStep(c, RemoveCore(c, x, k), x, k)
  {
    hide Inv, LevelOk, EntriesOf, UnlinkPool;
    var o := c.pool[x];
    Occupancy(c, o.side, o.level);
    var lv, ch := Levels(c, o.side)[o.level], ChainAt(c, o.side, o.level);
    LevelUnlink(lv, c.pool, ch, o.side, o.level, k);
    ChainLosesSlot(lv, c.pool, ch, o.side, o.level, k);
    var c1 := c.(pool := UnlinkPool(c.pool, x),
                 free := c.free + [x],
                 index := c.index - {o.id},
                 own := OwnAfterRemove(c.own, o));
    assert |c1.pool| == |c.pool| by {
      UnlinkLength(c.pool, x);
    }
    WroteLevel(c, c1, o.side, o.level, EmptiedLevel(lv, o), Without(ch, k));
    hide WithLevel, WithChain, Without;
    RemoveTouches(c, RemoveCore(c, x, k), x, k);
  }

  lemma UnlinkLength(pool: Pool, x: nat)
    requires x < |pool|
    ensures |UnlinkPool(pool, x)| == |pool|
  {
  }

  lemma RemoveLive(c: Core, c': Core, x: nat, k: nat, y: nat)
    requires RemoveStep(c, c', x, k)
    ensures Live(c', y) <==> Live(c, y) && y != x
    ensures y < |c.pool| ==> SameOrder(c.pool[y], c'.pool[y])
  {
    if y != x {
      LiveAfter(c, c', c.pool[x].side, c.pool[x].level, x, y);
      if y < |c.pool| {
        assert Kept(c, c', c.pool[x].side, c.pool[x].level, y);
      }
    }
  }

  lemma SlotOf(c: Core, x: nat)
    requires Inv(c) && Live(c, x)
    ensures c.pool[x].id in c.index && c.index[c.pool[x].id] == x
  {
    assert SlotAt(c, x);
  }

  // Another id names another slot.
  lemma OtherSlot(c: Core, x: nat, id: OrderId)
    requires Inv(c) && Live(c, x) && id in c.index && id != c.pool[x].id
    ensures c.index[id] != x && Live(c, c.index[id]) && c.pool[c.index[id]].id == id
  {
    assert IndexAt(c, id);
  }

  lemma RemoveIndex(c: Core, c': Core, x: nat, k: nat, id: OrderId)
    requires RemoveStep(c, c', x, k)
    ensures id in IndexIn(c') <==> id in IndexIn(c) && id != c.pool[x].id
    ensures id in IndexIn(c') ==> IndexIn(c')[id] == IndexIn(c)[id]
  {
    hide LadderIn, WellFormed, LevelOk;
    if id in c.index && id != c.pool[x].id {
      OtherSlot(c, x, id);
      RemoveLive(c, c', x, k, c.index[id]);
    }
  }

  lemma RemoveIndexes(c: Core, c': Core, x: nat, k: nat)
    requires RemoveStep(c, c', x, k)
    ensures Abs(c').index == Abs(c).index - {c.pool[x].id}
  {
    var m, m', gone := IndexIn(c), IndexIn(c'), c.pool[x].id;
    forall id: OrderId
      ensures id in m' <==> id in m && id != gone
      ensures id in m' ==> m'[id] == m[id]
    {
      RemoveIndex(c, c', x, k, id);
    }
    hide RemoveStep, IndexIn, LadderIn;
    WithoutKey(m, m', gone);
  }

  lemma RemoveAbs(c: Core, c': Core, x: nat, k: nat)
    requires RemoveStep(c, c', x, k)
    ensures Holds(QueueOf(Abs(c), c.pool[x].id), c.pool[x].id)
    ensures Abs(c') == Removed(Abs(c), c.pool[x].id)
  {
    hide Abs, Removed, Replaced, QueueOf, QueueIn, EntryOf;
    RemoveIndexes(c, c', x, k);
    LocateAbs(c, x, k);
    AbsAfter(c, c', c.pool[x].side, c.pool[x].level, x);
    RemovedIs(Abs(c), Abs(c'), c.pool[x].id);
  }

  lemma RemoveKnown(own: seq<Own>, o: Order, id: OrderId)
    requires OwnKnown(own, id) && id != o.id
    ensures OwnKnown(OwnAfterRemove(own, o), id)
  {
    hide OwnKnown, AgedAll, Dropped;
    AgedKnown(own, o.side, o.level, o.rank, o.qty, id);
    if o.mine {
      DroppedKnown(AgedAll(own, o.side, o.level, o.rank, o.qty), o.id, id);
    }
  }

  lemma RemoveSlots(c: Core, c': Core, x: nat, k: nat, y: nat)
    requires RemoveStep(c, c', x, k)
    ensures SlotAt(c', y) && OwnComplete(c', y)
  {
    hide Abs, WellFormed, LevelOk, OwnAfterRemove, OwnKnown;
    assert SlotAt(c, y);
    assert SlotAt(c, x);
    assert OwnComplete(c, y);
    RemoveLive(c, c', x, k, y);
    assert y in c'.free <==> y in c.free || y == x;
    if Live(c, y) && y != x {
      assert c.pool[y].id != c.pool[x].id;
      if c.pool[y].mine {
        RemoveKnown(c.own, c.pool[x], c.pool[y].id);
      }
    }
  }

  lemma RemoveIndexed(c: Core, c': Core, x: nat, k: nat, id: OrderId)
    requires RemoveStep(c, c', x, k)
    ensures IndexAt(c', id)
  {
    hide Abs, WellFormed, LevelOk;
    if id in c.index && id != c.pool[x].id {
      OtherSlot(c, x, id);
      RemoveLive(c, c', x, k, c.index[id]);
    }
  }

  // An own record that survives the removal, after ageing.
  lemma SurvivingOwn(own: seq<Own>, o: Order, j: nat) returns (i: nat)
    requires OwnDistinct(own) && j < |OwnAfterRemove(own, o)|
    ensures i < |own| && OwnAfterRemove(own, o)[j] == Aged(own[i], o.side, o.level, o.rank, o.qty)
    ensures o.mine ==> own[i].id != o.id
  {
    var aged := AgedAll(own, o.side, o.level, o.rank, o.qty);
    assert forall a | 0 <= a < |own| :: aged[a].id == own[a].id;
    if o.mine {
      DroppedKeeps(aged, o.id);
      var d := Dropped(aged, o.id)[j];
      i :| 0 <= i < |aged| && aged[i] == d;
    } else {
      i := j;
    }
  }

  // Our orders behind the one that left gain its size; the others gain nothing.
  lemma AgedPosition(c: Core, x: nat, k: nat, i: nat)
    requires Linkable(c, x, k) && i < |c.own| && c.own[i].id != c.pool[x].id
    requires c.own[i].side == c.pool[x].side && c.own[i].level == c.pool[x].level
    ensures var o, r := c.own[i], c.pool[x];
            Aged(o, r.side, r.level, r.rank, r.qty).ahead == Ahead(Without(QueueIn(c, o.side, o.level), k), o.id)
  {
    hide Abs, WellFormed, LevelOk, OwnDistinct, Ahead, IndexOf;
    var y, p := LocateOwn(c, i);
    var o := c.own[i];
    RankIsPosition(Levels(c, o.side)[o.level], c.pool, ChainAt(c, o.side, o.level), o.side, o.level, k, p);
    AheadWithout(QueueIn(c, o.side, o.level), k, o.id);
  }

  lemma RemoveOwn(c: Core, c': Core, x: nat, k: nat, j: nat)
    requires RemoveStep(c, c', x, k) && j < |c'.own|
    ensures OwnAt(c', j)
  {
    hide Abs, WellFormed, LevelOk, OwnAfterRemove, Without, EntriesOf, Ahead, IndexOf;
    var r := c.pool[x];
    SlotOf(c, x);
    var i := SurvivingOwn(c.own, r, j);
    var y, p := LocateOwn(c, i);
    var o := c.own[i];
    RemoveLive(c, c', x, k, y);
    assert o.id != r.id;
    if o.side == r.side && o.level == r.level {
      AgedPosition(c, x, k, i);
    } else {
      OtherLevel(c, c', r.side, r.level, x, o.side, o.level);
    }
  }

  lemma RemoveOwns(c: Core, c': Core, x: nat, k: nat)
    requires RemoveStep(c, c', x, k)
    ensures (forall j: nat :: OwnAt(c', j)) && OwnDistinct(c'.own)
  {
    hide Abs, WellFormed, LevelOk, OneLevel;
    forall j: nat ensures OwnAt(c', j) {
      if j < |c'.own| {
        RemoveOwn(c, c', x, k, j);
      }
    }
    var o := c.pool[x];
    var aged := AgedAll(c.own, o.side, o.level, o.rank, o.qty);
    assert forall a | 0 <= a < |c.own| :: aged[a].id == c.own[a].id;
    if o.mine {
      DroppedKeeps(aged, o.id);
    }
  }

  lemma RemoveLevels(c: Core, c': Core, x: nat, k: nat, t: Side, j: nat)
    requires RemoveStep(c, c', x, k)
    ensures LevelAt(c', t, j)
  {
    if t != c.pool[x].side || j != c.pool[x].level {
      OtherLevel(c, c', c.pool[x].side, c.pool[x].level, x, t, j);
    }
  }

  lemma RemoveFree(c: Core, c': Core, x: nat, k: nat)
    requires RemoveStep(c, c', x, k)
    ensures FreeDistinct(c') && |c'.free| + |c'.index| == |c'.pool|
  {
    hide Abs, WellFormed, LevelOk;
    assert SlotAt(c, x);
    assert |c'.index| == |c.index| - 1;
  }

  lemma RemoveKeepsInv(c: Core, x: nat, k: nat)
    requires Linkable(c, x, k)
    ensures CanRemove(c, x, k) && Inv(RemoveCore(c, x, k))
    ensures Holds(QueueOf(Abs(c), c.pool[x].id), c.pool[x].id)
    ensures Abs(RemoveCore(c, x, k)) == Removed(Abs(c), c.pool[x].id)
  {
    hide Abs, WellFormed, LevelAt, SlotAt, OwnAt, OwnComplete, IndexAt, Removed, QueueOf, EntryOf, OneLevel;
    RemoveTakesStep(c, x, k);
    var c' := RemoveCore(c, x, k);
    hide RemoveCore;
    RemoveAbs(c, c', x, k);
    RemovedWellFormed(Abs(c), c.pool[x].id);
    RemoveOwns(c, c', x, k);
    RemoveFree(c, c', x, k);
    forall t, j: nat ensures LevelAt(c', t, j) {
      RemoveLevels(c, c', x, k, t, j);
    }
    forall y: nat ensures SlotAt(c', y) && OwnComplete(c', y) {
      RemoveSlots(c, c', x, k, y);
    }
    forall id: OrderId ensures IndexAt(c', id) {
      RemoveIndexed(c, c', x, k, id);
    }
    RemoveShape(c, c', x, k);
  }

  lemma RemoveShape(c: Core, c': Core, x: nat, k: nat)
    requires RemoveStep(c, c', x, k)
    ensures Shape(c')
  {
  }

  // The clamp in the position update never fires on a full removal.
  lemma RemoveNoClamp(c: Core, x: nat, k: nat)
    requires Linkable(c, x, k)
    ensures NoClamp(c.own, c.pool[x].side, c.pool[x].level, c.pool[x].rank, c.pool[x].qty)
  {
    hide Inv, Ahead, LevelOk;
    var r := c.pool[x];
    forall j: nat | j < |c.own| ensures Aged(c.own[j], r.side, r.level, r.rank, r.qty).ahead >= 0 {
      var o := c.own[j];
      OwnNonNegative(c, j);
      var y, p := LocateOwn(c, j);
      if o.side == r.side && o.level == r.level && o.id != r.id {
        AgedPosition(c, x, k, j);
        AllPositiveAt(c, r.side, r.level);
        assert AllPositive(Without(QueueIn(c, r.side, r.level), k));
        AheadNonNegative(Without(QueueIn(c, r.side, r.level), k), o.id);
      } else if o.id == r.id {
        SlotOf(c, x);
      }
    }
  }

  lemma RemoveCoreIs(c: Core, c': Core, x: nat, k: nat)
    requires CanRemove(c, x, k) && c'.base == c.base
    requires var o := c.pool[x];
             && c'.free == c.free + [x] && c'.index == c.index - {o.id}
             && c'.pool == UnlinkPool(c.pool, x)
             && c'.own == OwnAfterRemove(c.own, o)
             && Levels(c', o.side) == Levels(c, o.side)[o.level := EmptiedLevel(Levels(c, o.side)[o.level], o)]
             && Chains(c', o.side) == Chains(c, o.side)[o.level := Without(ChainAt(c, o.side, o.level), k)]
             && Levels(c', Opposite(o.side)) == Levels(c, Opposite(o.side))
             && Chains(c', Opposite(o.side)) == Chains(c, Opposite(o.side))
    ensures c' == RemoveCore(c, x, k)
  {
  }

  // What a removal may rely on before it writes anything, and what its level is
  // afterwards: with no size left, no queue is left.
  lemma RemoveLinks(c: Core, x: nat, k: nat)
    requires Linkable(c, x, k)
    ensures var o := c.pool[x];
            && Shape(c) && CanRemove(c, x, k)
            && (o.prev == NULL || o.prev < |c.pool|) && (o.next == NULL || o.next < |c.pool|)
            && var before := Levels(c, o.side)[o.level];
            && var after := EmptiedLevel(before, o);
            && before.total != 0
            && (after.total == 0 ==> after.head == after.tail == NULL && after.count == 0)
  {
    hide Abs, WellFormed;
    var o := c.pool[x];
    Occupancy(c, o.side, o.level);
    UnlinkNeighbours(Levels(c, o.side)[o.level], c.pool, ChainAt(c, o.side, o.level), o.side, o.level, k);
    RemoveTakesStep(c, x, k);
    var c' := RemoveCore(c, x, k);
    TotalZero(Levels(c', o.side)[o.level], c'.pool, ChainAt(c', o.side, o.level), o.side, o.level);
  }
}
