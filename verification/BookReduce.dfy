// Taking part of an order's size without moving it, by cancel or by fill: ranks
// stand, and our orders behind it move up by what left.
module BookReduce {
  import opened Types
  import opened Queues
  import opened BookSpec
  import opened LevelQueue
  import opened BookCore

  predicate CanReduce(c: Core, x: nat) {
    Shape(c) && x < |c.pool| && c.pool[x].level < Window(c)
  }

  function ReduceCore(c: Core, x: nat, cut: Qty): Core
    requires CanReduce(c, x)
  {
    var o := c.pool[x];
    var lv := Levels(c, o.side)[o.level];
    var c1 := c.(pool := c.pool[x := o.(qty := o.qty - cut)],
                 own := AgedAll(c.own, o.side, o.level, o.rank, cut));
    WithChain(WithLevel(c1, o.side, o.level, lv.(total := lv.total - cut)), o.side, o.level,
      ChainAt(c, o.side, o.level))
  }

  ghost predicate ReduceStep(c: Core, c': Core, x: nat, k: nat, cut: Qty) {
    && Inv(c) && Live(c, x) && cut > 0
    && var o := c.pool[x];
    && var ch := ChainAt(c, o.side, o.level);
    && k < |ch| && ch[k] == x
    && OneLevel(c, c', o.side, o.level, x) && LevelAt(c', o.side, o.level)
    && ChainAt(c', o.side, o.level) == ch
    && QueueIn(c', o.side, o.level) == Shrunk(QueueIn(c, o.side, o.level), k, cut)
    && SameOrder(o, c'.pool[x])
    && c'.free == c.free && c'.index == c.index
    && c'.own == AgedAll(c.own, o.side, o.level, o.rank, cut)
  }

  lemma ReduceTakesStep(c: Core, x: nat, k: nat, cut: Qty)
    requires Inv(c) && Live(c, x) && 0 < cut < c.pool[x].qty
    requires k < |ChainAt(c, c.pool[x].side, c.pool[x].level)| && ChainAt(c, c.pool[x].side, c.pool[x].level)[k] == x
    ensures CanReduce(c, x) && ReduceStep(c, ReduceCore(c, x, cut), x, k, cut)
  {
    hide Inv, LevelOk, EntriesOf;
    var o := c.pool[x];
    Occupancy(c, o.side, o.level);
    var lv, ch := Levels(c, o.side)[o.level], ChainAt(c, o.side, o.level);
    LevelReduce(lv, c.pool, ch, o.side, o.level, k, cut);
    var c1 := c.(pool := c.pool[x := o.(qty := o.qty - cut)],
                 own := AgedAll(c.own, o.side, o.level, o.rank, cut));
    WroteLevel(c, c1, o.side, o.level, lv.(total := lv.total - cut), ch);
    hide WithLevel, WithChain;
    var c' := ReduceCore(c, x, cut);
    forall y: nat | y < |c.pool| && y != x ensures Kept(c, c', o.side, o.level, y) {
    }
  }

  lemma ReduceLive(c: Core, c': Core, x: nat, k: nat, cut: Qty, y: nat)
    requires ReduceStep(c, c', x, k, cut)
    ensures Live(c', y) <==> Live(c, y)
    ensures y < |c.pool| ==> SameOrder(c.pool[y], c'.pool[y])
  {
    if y != x {
      LiveAfter(c, c', c.pool[x].side, c.pool[x].level, x, y);
      if y < |c.pool| {
        assert Kept(c, c', c.pool[x].side, c.pool[x].level, y);
      }
    }
  }

  lemma ReduceIndexes(c: Core, c': Core, x: nat, k: nat, cut: Qty)
    requires ReduceStep(c, c', x, k, cut)
    ensures Abs(c').index == Abs(c).index
  {
    var m, m' := IndexIn(c), IndexIn(c');
    forall id: OrderId
      ensures id in m <==> id in m'
      ensures id in m ==> m[id] == m'[id]
    {
      hide LadderIn, WellFormed;
      if id in c.index {
        ReduceLive(c, c', x, k, cut, c.index[id]);
      }
    }
    assert m == m';
  }

  lemma ReduceAbs(c: Core, c': Core, x: nat, k: nat, cut: Qty)
    requires ReduceStep(c, c', x, k, cut)
    ensures Holds(QueueOf(Abs(c), c.pool[x].id), c.pool[x].id)
    ensures Abs(c') == Reduced(Abs(c), c.pool[x].id, cut)
  {
    hide Abs, Reduced, Replaced, QueueOf, QueueIn, EntryOf;
    ReduceIndexes(c, c', x, k, cut);
    LocateAbs(c, x, k);
    AbsAfter(c, c', c.pool[x].side, c.pool[x].level, x);
    ReducedIs(Abs(c), Abs(c'), c.pool[x].id, cut);
  }

  lemma ReduceSlots(c: Core, c': Core, x: nat, k: nat, cut: Qty, y: nat)
    requires ReduceStep(c, c', x, k, cut)
    ensures SlotAt(c', y) && OwnComplete(c', y)
  {
    hide Abs, WellFormed, LevelOk;
    assert SlotAt(c, y);
    assert OwnComplete(c, y);
    ReduceLive(c, c', x, k, cut, y);
    if Live(c, y) {
      AgedKnown(c.own, c.pool[x].side, c.pool[x].level, c.pool[x].rank, cut, c.pool[y].id);
    }
  }

  lemma ReduceIndexed(c: Core, c': Core, x: nat, k: nat, cut: Qty, id: OrderId)
    requires ReduceStep(c, c', x, k, cut)
    ensures IndexAt(c', id)
  {
    hide Abs, WellFormed, LevelOk;
    assert IndexAt(c, id);
    if id in c.index {
      ReduceLive(c, c', x, k, cut, c.index[id]);
    }
  }

  // Our orders behind gain exactly what left; those in front gain nothing.
  lemma ReduceOwn(c: Core, c': Core, x: nat, k: nat, cut: Qty, j: nat)
    requires ReduceStep(c, c', x, k, cut) && j < |c.own|
    ensures OwnAt(c', j)
  {
    hide Abs, WellFormed, LevelOk;
    var y, p := LocateOwn(c, j);
    var o, r := c.own[j], c.pool[x];
    ReduceLive(c, c', x, k, cut, y);
    assert c'.own[j] == Aged(o, r.side, r.level, r.rank, cut);
    if o.side == r.side && o.level == r.level {
      RankIsPosition(Levels(c, o.side)[o.level], c.pool, ChainAt(c, o.side, o.level), o.side, o.level, k, p);
      AheadShrunk(QueueIn(c, o.side, o.level), k, cut, o.id);
    } else {
      OtherLevel(c, c', r.side, r.level, x, o.side, o.level);
    }
  }

  lemma ReduceOwns(c: Core, c': Core, x: nat, k: nat, cut: Qty)
    requires ReduceStep(c, c', x, k, cut)
    ensures (forall j: nat :: OwnAt(c', j)) && OwnDistinct(c'.own)
  {
    hide Abs, WellFormed, LevelOk, OneLevel;
    forall j: nat ensures OwnAt(c', j) {
      if j < |c.own| {
        ReduceOwn(c, c', x, k, cut, j);
      }
    }
    assert forall j | 0 <= j < |c.own| :: c'.own[j].id == c.own[j].id;
  }

  lemma ReduceLevels(c: Core, c': Core, x: nat, k: nat, cut: Qty, t: Side, j: nat)
    requires ReduceStep(c, c', x, k, cut)
    ensures LevelAt(c', t, j)
  {
    if t != c.pool[x].side || j != c.pool[x].level {
      OtherLevel(c, c', c.pool[x].side, c.pool[x].level, x, t, j);
    }
  }

  lemma ReduceKeepsInv(c: Core, x: nat, k: nat, cut: Qty)
    requires Inv(c) && Live(c, x) && 0 < cut < c.pool[x].qty
    requires k < |ChainAt(c, c.pool[x].side, c.pool[x].level)| && ChainAt(c, c.pool[x].side, c.pool[x].level)[k] == x
    ensures CanReduce(c, x) && Inv(ReduceCore(c, x, cut))
    ensures Holds(QueueOf(Abs(c), c.pool[x].id), c.pool[x].id)
    ensures Abs(ReduceCore(c, x, cut)) == Reduced(Abs(c), c.pool[x].id, cut)
  {
    hide Abs, WellFormed, LevelAt, SlotAt, OwnAt, OwnComplete, IndexAt, Reduced, QueueOf, EntryOf;
    ReduceTakesStep(c, x, k, cut);
    var c' := ReduceCore(c, x, cut);
    hide ReduceCore;
    ReduceAbs(c, c', x, k, cut);
    LocateAbs(c, x, k);
    ReducedWellFormed(Abs(c), c.pool[x].id, cut);
    ReduceOwns(c, c', x, k, cut);
    forall t, j: nat ensures LevelAt(c', t, j) {
      ReduceLevels(c, c', x, k, cut, t, j);
    }
    forall y: nat ensures SlotAt(c', y) && OwnComplete(c', y) {
      ReduceSlots(c, c', x, k, cut, y);
    }
    forall id: OrderId ensures IndexAt(c', id) {
      ReduceIndexed(c, c', x, k, cut, id);
    }
  }

  // The clamp in the position update never fires on a partial removal.
  lemma ReduceNoClamp(c: Core, x: nat, k: nat, cut: Qty)
    requires Inv(c) && Live(c, x) && 0 < cut < c.pool[x].qty
    requires k < |ChainAt(c, c.pool[x].side, c.pool[x].level)| && ChainAt(c, c.pool[x].side, c.pool[x].level)[k] == x
    ensures NoClamp(c.own, c.pool[x].side, c.pool[x].level, c.pool[x].rank, cut)
  {
    hide Inv, WithLevel, WithChain;
    ReduceKeepsInv(c, x, k, cut);
    forall j: nat | j < |c.own|
      ensures Aged(c.own[j], c.pool[x].side, c.pool[x].level, c.pool[x].rank, cut).ahead >= 0
    {
      ReduceTakesStep(c, x, k, cut);
      OwnNonNegative(ReduceCore(c, x, cut), j);
    }
  }

  lemma ReduceCoreIs(c: Core, c': Core, x: nat, cut: Qty)
    requires CanReduce(c, x) && c'.base == c.base && c'.free == c.free && c'.index == c.index
    requires var o := c.pool[x];
             && c'.pool == c.pool[x := o.(qty := o.qty - cut)]
             && c'.own == AgedAll(c.own, o.side, o.level, o.rank, cut)
             && Levels(c', o.side) == Levels(c, o.side)[o.level :=
                Levels(c, o.side)[o.level].(total := Levels(c, o.side)[o.level].total - cut)]
             && Levels(c', Opposite(o.side)) == Levels(c, Opposite(o.side))
    requires c'.bidChains == c.bidChains && c'.askChains == c.askChains
    ensures c' == ReduceCore(c, x, cut)
  {
  }

  // A partial removal leaves size at the level.
  lemma StillOccupied(c: Core, x: nat, k: nat, cut: Qty)
    requires Inv(c) && Live(c, x) && 0 < cut < c.pool[x].qty
    requires k < |ChainAt(c, c.pool[x].side, c.pool[x].level)| && ChainAt(c, c.pool[x].side, c.pool[x].level)[k] == x
    ensures var lv := Levels(c, c.pool[x].side)[c.pool[x].level];
            lv.total != 0 && lv.total - cut != 0
  {
    hide Inv, Abs;
    ReduceTakesStep(c, x, k, cut);
    var o, c' := c.pool[x], ReduceCore(c, x, cut);
    Occupancy(c, o.side, o.level);
    TotalZero(Levels(c', o.side)[o.level], c'.pool, ChainAt(c', o.side, o.level), o.side, o.level);
  }
}
