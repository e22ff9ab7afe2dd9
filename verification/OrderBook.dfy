// The fast market-by-order book: flat price levels, occupancy words, a slot pool
// with a free list, an id map, and incrementally tracked own-order positions.
//
// `State` is the whole of it as one value and `Book` the abstract book it stands
// for. Every operation performs its abstract operation on `Book` and keeps
// `Valid`, whether it accepts or refuses. The vectors are sequence fields; the
// id map is an object of its own.
module OrderBooks {
  import opened Types
  import opened Bits
  import opened Queues
  import opened BookSpec
  import opened BookViews
  import opened OrderMaps
  import opened LevelQueue
  import opened BookCore
  import opened BookAdd
  import opened BookReduce
  import opened BookRemove
  import opened Touch

  class OrderBook {
    const base: Ticks
    const window: nat
    const maxOrders: nat
    var bid: seq<Level>
    var ask: seq<Level>
    var bidBits: seq<Word>
    var askBits: seq<Word>
    var bestBid: nat
    var bestAsk: nat
    var pool: seq<Order>
    var free: seq<nat>
    const ids: OrderMap
    var own: seq<Own>
    ghost var bidChains: seq<Chain>
    ghost var askChains: seq<Chain>

    ghost const Owned: set<object> := {this, ids, ids.slots}

    function LevelsOf(s: Side): seq<Level>
      reads this
    {
      if s.Bid? then bid else ask
    }

    function BitsOf(s: Side): seq<Word>
      reads this
    {
      if s.Bid? then bidBits else askBits
    }

    function BestOf(s: Side): nat
      reads this
    {
      if s.Bid? then bestBid else bestAsk
    }

    function ToPrice(i: nat): Ticks {
      if i == NO_LEVEL then 0 else base + i
    }

    predicate Inside(p: Ticks) {
      base <= p < base + window
    }

    // The state apart from the id map's contents, which are passed in.
    ghost function With(index: map<OrderId, nat>): Core
      reads this
    {
      Core(base, pool, bid, ask, bidChains, askChains, free, index, own)
    }

    ghost function State(): Core
      requires ids.Valid()
      reads Owned
    {
      With(ids.Contents())
    }

    ghost predicate SideOk(s: Side)
      reads this
    {
      BitsOk(BitsOf(s), LevelsOf(s)) && IsTouch(LevelsOf(s), s, BestOf(s))
    }

    ghost predicate Valid()
      reads Owned
      ensures Valid() ==> ids.Valid()
    {
      && ids.Valid() && |bid| == window && |pool| == maxOrders && 2 * maxOrders <= ids.slots.Length
      && Inv(State()) && SideOk(Bid) && SideOk(Ask)
    }

    ghost function Book(): BookSpec.Book
      requires ids.Valid()
      reads Owned
    {
      Abs(State())
    }

    ghost function Limits(): Limits {
      Limited(base, window, maxOrders)
    }

    lemma BookWellFormed()
      requires Valid()
      ensures WellFormed(Book())
    {
    }

    // `maxOrders` slots, handed out front to back.
    constructor (base: Ticks, window: nat, maxOrders: nat, hash: Hash)
      requires window <= NO_LEVEL && maxOrders <= NULL
      ensures Valid() && fresh(Owned) && this.base == base && this.window == window && this.maxOrders == maxOrders
      ensures Book() == EMPTY_BOOK
    {
      this.base := base;
      this.window := window;
      this.maxOrders := maxOrders;
      bid, ask := NoLevels(window), NoLevels(window);
      bidBits, askBits := NoBits(window), NoBits(window);
      bestBid, bestAsk := NO_LEVEL, NO_LEVEL;
      pool := seq(maxOrders, _ => Order(0, 0, 0, NULL, NULL, 0, Bid, false));
      free := FreeList(maxOrders);
      ids := new OrderMap(maxOrders, hash);
      own := [];
      bidChains, askChains := NoChains(window), NoChains(window);
      new;
      EmptyInv(State());
      EmptySide(bidBits, bid, Bid);
      EmptySide(askBits, ask, Ask);
    }

    // ---- pieces of the operations ----

    method SetLevel(s: Side, i: nat, lv: Level)
      requires i < |LevelsOf(s)|
      modifies this`bid, this`ask
      ensures LevelsOf(s) == old(LevelsOf(s))[i := lv] && LevelsOf(Opposite(s)) == old(LevelsOf(Opposite(s)))
    {
      if s.Bid? {
        bid := bid[i := lv];
      } else {
        ask := ask[i := lv];
      }
    }

    ghost method SetChain(s: Side, i: nat, ch: Chain)
      requires i < |bidChains| == |askChains|
      modifies this`bidChains, this`askChains
      ensures bidChains == if s.Bid? then old(bidChains)[i := ch] else old(bidChains)
      ensures askChains == if s.Bid? then old(askChains) else old(askChains)[i := ch]
    {
      if s.Bid? {
        bidChains := bidChains[i := ch];
      } else {
        askChains := askChains[i := ch];
      }
    }

    // The slot becomes the tail of its level, with the level's next rank.
    method Enqueue(x: nat, id: OrderId, s: Side, i: nat, qty: Qty, mine: bool)
      requires i < |LevelsOf(s)| && x < |pool| <= NULL
      requires LevelsOf(s)[i].tail == NULL || LevelsOf(s)[i].tail < |pool|
      modifies this`bid, this`ask, this`pool
      ensures pool == AppendPool(old(pool), old(LevelsOf(s)[i].tail), x,
                                 NewOrder(old(LevelsOf(s)[i]), id, s, i, qty, mine))
      ensures LevelsOf(s) == old(LevelsOf(s))[i := AppendLevel(old(LevelsOf(s)[i]), x, qty)] && |pool| == old(|pool|)
      ensures LevelsOf(Opposite(s)) == old(LevelsOf(Opposite(s)))
    {
      var lv := LevelsOf(s)[i];
      pool := pool[x := Order(id, qty, i, lv.tail, NULL, lv.nextRank, s, mine)];
      if lv.tail != NULL {
        pool := pool[lv.tail := pool[lv.tail].(next := x)];
        lv := lv.(tail := x);
      } else {
        lv := lv.(head := x, tail := x);
      }
      SetLevel(s, i, lv.(total := lv.total + qty, count := lv.count + 1, nextRank := lv.nextRank + 1));
    }

    // A level just gained size: set its bit and improve the touch if it was empty.
    method MarkFilled(s: Side, i: nat, wasEmpty: bool, ghost before: seq<Level>)
      requires i < |before| == |LevelsOf(s)| <= NO_LEVEL
      requires LevelsOf(s) == before[i := LevelsOf(s)[i]] && LevelsOf(s)[i].total != 0
      requires wasEmpty <==> before[i].total == 0
      requires BitsOk(BitsOf(s), before) && IsTouch(before, s, BestOf(s)) && SideOk(Opposite(s))
      modifies this`bestBid, this`bestAsk, this`bidBits, this`askBits
      ensures SideOk(Bid) && SideOk(Ask)
    {
      hide BitsOk, IsTouch, SetBit;
      ghost var lv := LevelsOf(s)[i];
      if wasEmpty {
        BitsAfterSet(BitsOf(s), before, i, lv);
        TouchAfterFill(before, s, BestOf(s), i, lv);
        if s.Bid? {
          bidBits := bidBits[i / 64 := SetBit(bidBits[i / 64], i % 64)];
          if bestBid == NO_LEVEL || i > bestBid {
            bestBid := i;
          }
        } else {
          askBits := askBits[i / 64 := SetBit(askBits[i / 64], i % 64)];
          if bestAsk == NO_LEVEL || i < bestAsk {
            bestAsk := i;
          }
        }
      } else {
        BitsUnchanged(BitsOf(s), before, i, lv);
        TouchUnchanged(before, s, BestOf(s), i, lv);
      }
    }

    // Would an order at this price trade with the cached touch of the other side?
    predicate CrossesTouch(s: Side, price: Ticks)
      reads this
    {
      if s.Bid? then bestAsk != NO_LEVEL && price >= ToPrice(bestAsk)
      else bestBid != NO_LEVEL && price <= ToPrice(bestBid)
    }

    lemma CrossesMeans(s: Side, price: Ticks)
      requires Valid()
      ensures CrossesTouch(s, price) <==> Crossing(Book(), s, price)
    {
      CrossingByTouch(State(), s, BestOf(Opposite(s)), price);
    }

    // The id is in the map; put the order in the book.
    method Rest(id: OrderId, s: Side, i: nat, qty: Qty, mine: bool, ghost c: Core)
      requires AddReady(c, id, s, i, qty) && With(c.index) == c && SideOk(Bid) && SideOk(Ask)
      modifies this
      ensures CanAdd(c, s, i) && SideOk(Bid) && SideOk(Ask)
      ensures With(c.index[id := NextSlot(c)]) == AddCore(c, id, s, i, qty, mine)
      ensures |bid| == old(|bid|) && |pool| == old(|pool|)
    {
      hide Inv, Crossing, AppendPool, BitsOk, IsTouch, LevelOk, AddCore;
      AddLinks(c, s, i);
      AddSlot(c, s, i);
      var x := free[|free| - 1];
      free := free[..|free| - 1];
      var lv := LevelsOf(s)[i];
      Enqueue(x, id, s, i, qty, mine);
      MarkFilled(s, i, lv.total == 0, Levels(c, s));
      own := if mine then own + [Own(id, i, lv.nextRank, lv.total, s)] else own;
      SetChain(s, i, ChainAt(c, s, i) + [x]);
      AddCoreIs(c, With(c.index[id := x]), id, s, i, qty, mine);
    }

    // The faults an add is refused for before anything is written, in order.
    function Refusal(s: Side, price: Ticks, qty: Qty): BookError
      reads this
    {
      if qty <= 0 then BadQuantity
      else if !Inside(price) then PriceOutOfWindow
      else if free == [] then PoolExhausted
      else if CrossesTouch(s, price) then CrossedBook
      else Ok
    }

    lemma RefusalMeans(id: OrderId, s: Side, price: Ticks, qty: Qty)
      requires Valid()
      ensures AddError(Book(), Limits(), id, s, price, qty)
              == if !Refusal(s, price, qty).Ok? then Refusal(s, price, qty)
                 else if id in ids.Contents() then DuplicateOrder else Ok
      ensures Refusal(s, price, qty).Ok? && id !in ids.Contents() ==> AddReady(State(), id, s, price - base, qty)
      ensures ids.size < ids.slots.Length
    {
      IndexAbs(State(), id);
      CrossesMeans(s, price);
      AddLinks(State(), s, price - base);
    }

    method Add(id: OrderId, s: Side, price: Ticks, qty: Qty, mine: bool) returns (r: BookError)
      requires Valid()
      modifies Owned
      ensures Valid()
      ensures Outcome(Book(), r) == AddOp(old(Book()), Limits(), id, s, price, qty, mine)
    {
      hide Abs, Inv, AddError, AddReady, Appended, BitsOk, IsTouch, OrderMap.Valid, OrderMap.Contents, AddCore;
      ghost var c := State();
      RefusalMeans(id, s, price, qty);
      r := Refusal(s, price, qty);
      if !r.Ok? {
        return r;
      }
      var inserted := ids.Insert(id, free[|free| - 1]);
      if !inserted {
        return DuplicateOrder;
      }
      AddKeepsInv(c, id, s, price - base, qty, mine);
      Rest(id, s, price - base, qty, mine, c);
    }

    // ---- taking size away ----

    // `qty` left the level at arrival rank `rank`: our orders behind it move up.
    method OnQtyRemoved(i: nat, s: Side, rank: nat, qty: Qty)
      requires NoClamp(own, s, i, rank, qty)
      modifies this`own
      ensures own == AgedAll(old(own), s, i, rank, qty)
    {
      ghost var before := own;
      var k := 0;
      while k < |own|
        invariant k <= |own| == |before|
        invariant forall j | 0 <= j < |own| :: own[j] == if j < k then Aged(before[j], s, i, rank, qty) else before[j]
      {
        var o := own[k];
        if o.level == i && o.side == s && rank < o.rank {
          var ahead := o.ahead - qty;
          if ahead < 0 {
            ahead := 0;
          }
          own := own[k := o.(ahead := ahead)];
        }
        k := k + 1;
      }
    }

    method DropOwn(id: OrderId)
      modifies this`own
      ensures own == Dropped(old(own), id)
    {
      var k := 0;
      while k < |own|
        invariant k <= |own| && forall j | 0 <= j < k :: own[j].id != id
        invariant own == old(own)
      {
        if own[k].id == id {
          OwnIndexIs(own, id, k);
          own := own[k := own[|own| - 1]][..|own| - 1];
          return;
        }
        k := k + 1;
      }
      OwnIndexIs(own, id, k);
    }

    method MoveOwnUp(o: Order)
      requires NoClamp(own, o.side, o.level, o.rank, o.qty)
      modifies this`own
      ensures own == OwnAfterRemove(old(own), o)
    {
      OnQtyRemoved(o.level, o.side, o.rank, o.qty);
      if o.mine {
        DropOwn(o.id);
      }
    }

    // Repair the neighbours' links and the level's ends around slot x.
    method Unlink(x: nat)
      requires x < |pool| <= NULL && pool[x].level < |LevelsOf(pool[x].side)|
      requires pool[x].prev == NULL || pool[x].prev < |pool|
      requires pool[x].next == NULL || pool[x].next < |pool|
      modifies this`bid, this`ask, this`pool
      ensures pool == UnlinkPool(old(pool), x) && |pool| == old(|pool|)
      ensures var o := old(pool[x]);
              && LevelsOf(o.side)
                 == old(LevelsOf(pool[x].side))[o.level := UnlinkLevel(old(LevelsOf(pool[x].side)[pool[x].level]), o)]
              && LevelsOf(Opposite(o.side)) == old(LevelsOf(Opposite(pool[x].side)))
    {
      var o := pool[x];
      var lv := LevelsOf(o.side)[o.level];
      if o.prev != NULL {
        pool := pool[o.prev := pool[o.prev].(next := o.next)];
      } else {
        lv := lv.(head := o.next);
      }
      if o.next != NULL {
        pool := pool[o.next := pool[o.next].(prev := o.prev)];
      } else {
        lv := lv.(tail := o.prev);
      }
      pool := pool[x := pool[x].(prev := NULL, next := NULL)];
      SetLevel(o.side, o.level, lv.(count := lv.count - 1));
    }

    // A level just lost size: when it emptied, clear its bit, and when it was the
    // touch, scan for the next occupied level.
    method MarkEmptied(s: Side, i: nat, ghost before: seq<Level>)
      requires i < |before| == |LevelsOf(s)| <= NO_LEVEL
      requires LevelsOf(s) == before[i := LevelsOf(s)[i]] && before[i].total != 0
      requires var lv := LevelsOf(s)[i]; lv.total == 0 ==> lv.head == lv.tail == NULL && lv.count == 0
      requires BitsOk(BitsOf(s), before) && IsTouch(before, s, BestOf(s)) && SideOk(Opposite(s))
      modifies this`bid, this`ask, this`bestBid, this`bestAsk, this`bidBits, this`askBits
      ensures SideOk(Bid) && SideOk(Ask) && bid == old(bid) && ask == old(ask)
    {
      hide BitsOk, IsTouch, ClearBit, HighestAtOrBelow, LowestAtOrAbove;
      var lv := LevelsOf(s)[i];
      if lv.total != 0 {
        BitsUnchanged(BitsOf(s), before, i, lv);
        TouchUnchanged(before, s, BestOf(s), i, lv);
        return;
      }
      SetLevel(s, i, lv.(head := NULL, tail := NULL, count := 0));
      assert LevelsOf(s) == before[i := lv];
      BitsAfterClear(BitsOf(s), before, i, lv);
      if s.Bid? {
        bidBits := bidBits[i / 64 := ClearBit(bidBits[i / 64], i % 64)];
        if i == bestBid {
          RescanBid(i, before);
        } else {
          TouchAfterEmpty(before, s, bestBid, i, lv);
        }
      } else {
        askBits := askBits[i / 64 := ClearBit(askBits[i / 64], i % 64)];
        if i == bestAsk {
          RescanAsk(i, before);
        } else {
          TouchAfterEmpty(before, s, bestAsk, i, lv);
        }
      }
    }

    method RescanBid(i: nat, ghost before: seq<Level>)
      requires i < |before| == |bid| <= NO_LEVEL && bid == before[i := bid[i]] && bid[i].total == 0
      requires BitsOk(bidBits, bid) && IsTouch(before, Bid, i)
      modifies this`bestBid
      ensures IsTouch(bid, Bid, bestBid)
    {
      var r := NO_LEVEL;
      if i != 0 {
        r := ScanDown(bidBits, i - 1);
      }
      BidTouchAfterScan(bidBits, before, i, bid[i], r);
      bestBid := r;
    }

    method RescanAsk(i: nat, ghost before: seq<Level>)
      requires i < |before| == |ask| <= NO_LEVEL && ask == before[i := ask[i]] && ask[i].total == 0
      requires BitsOk(askBits, ask) && IsTouch(before, Ask, i)
      modifies this`bestAsk
      ensures IsTouch(ask, Ask, bestAsk)
    {
      forall j: nat | NO_LEVEL <= j ensures !BitAt(askBits, j) {
        assert BitMeans(askBits, ask, j);
      }
      var r := ScanUp(askBits, i + 1);
      AskTouchAfterScan(askBits, before, i, ask[i], r);
      bestAsk := r;
    }

    // Unlink slot x and take its size off its level.
    method TakeOut(x: nat)
      requires x < |pool| <= NULL && pool[x].level < |LevelsOf(pool[x].side)|
      requires pool[x].prev == NULL || pool[x].prev < |pool|
      requires pool[x].next == NULL || pool[x].next < |pool|
      modifies this`bid, this`ask, this`pool
      ensures pool == UnlinkPool(old(pool), x) && |pool| == old(|pool|)
      ensures var o, lv := old(pool[x]), old(LevelsOf(pool[x].side)[pool[x].level]);
              && LevelsOf(o.side) == old(LevelsOf(pool[x].side))[o.level := EmptiedLevel(lv, o)]
              && LevelsOf(Opposite(o.side)) == old(LevelsOf(Opposite(pool[x].side)))
    {
      hide UnlinkPool;
      var o := pool[x];
      Unlink(x);
      var lv := LevelsOf(o.side)[o.level];
      SetLevel(o.side, o.level, lv.(total := lv.total - o.qty));
    }

    // Take the order in slot x out of its queue, its level and the own records,
    // and free the slot; the id map is the caller's to update.
    method Withdraw(x: nat, ghost k: nat, ghost c: Core)
      requires With(c.index) == c && Linkable(c, x, k) && SideOk(Bid) && SideOk(Ask)
      modifies this
      ensures CanRemove(c, x, k) && SideOk(Bid) && SideOk(Ask)
      ensures With(c.index - {c.pool[x].id}) == RemoveCore(c, x, k)
      ensures |bid| == old(|bid|) && |pool| == old(|pool|)
    {
      hide Inv, Linkable, BitsOk, IsTouch, LevelOk, RemoveCore, UnlinkPool, NoClamp, OwnAfterRemove, Without;
      RemoveLinks(c, x, k);
      RemoveNoClamp(c, x, k);
      var o := pool[x];
      TakeOut(x);
      MoveOwnUp(o);
      MarkEmptied(o.side, o.level, Levels(c, o.side));
      free := free + [x];
      SetChain(o.side, o.level, Without(ChainAt(c, o.side, o.level), k));
      RemoveCoreIs(c, With(c.index - {o.id}), x, k);
    }

    // ---- the operations ----

    method Remove(id: OrderId) returns (r: BookError)
      requires Valid()
      modifies Owned
      ensures Valid()
      ensures Outcome(Book(), r) == RemoveOp(old(Book()), id)
    {
      hide Abs, Inv, WellFormed, BitsOk, IsTouch, OrderMap.Valid, OrderMap.Contents, RemoveCore, QueueOf, Removed,
           EntryOf, Live;
      ghost var c := State();
      RoomInMap();
      IndexedHeld(c, id);
      var x := ids.Find(id);
      if x == EMPTY {
        return UnknownOrder;
      }
      ghost var y, k := Locate(c, id);
      RemoveKeepsInv(c, x, k);
      Withdraw(x, k, c);
      var erased := ids.Erase(id);
      return Ok;
    }

    // The id map always has an unused slot to end a probe at.
    lemma RoomInMap()
      requires Valid()
      ensures ids.size < ids.slots.Length
      ensures |pool| <= NULL
      ensures forall id | id in ids.Contents() :: ids.Contents()[id] < |pool|
    {
      forall id | id in ids.Contents() ensures ids.Contents()[id] < |pool| {
        assert IndexAt(State(), id);
      }
    }

    method Reduce(id: OrderId, cut: Qty) returns (r: BookError)
      requires Valid()
      modifies Owned
      ensures Valid()
      ensures Outcome(Book(), r) == ReduceOp(old(Book()), id, cut)
    {
      hide Abs, Inv, WellFormed, BitsOk, IsTouch, OrderMap.Valid, OrderMap.Contents, ReduceCore, QueueOf, Removed,
           Reduced, EntryOf, Live;
      ghost var c := State();
      RoomInMap();
      IndexedHeld(c, id);
      var x := ids.Find(id);
      if x == EMPTY {
        return UnknownOrder;
      }
      ghost var y, k := Locate(c, id);
      LocateAbs(c, x, k);
      if cut <= 0 || cut > pool[x].qty {
        return BadQuantity;
      }
      if cut == pool[x].qty {
        r := Remove(id);
        return r;
      }
      ReduceKeepsInv(c, x, k, cut);
      Shrink(x, k, cut, c);
      return Ok;
    }

    // Take size from the order in place.
    method Shrink(x: nat, ghost k: nat, cut: Qty, ghost c: Core)
      requires With(c.index) == c && Linkable(c, x, k) && 0 < cut < c.pool[x].qty && SideOk(Bid) && SideOk(Ask)
      modifies this
      ensures CanReduce(c, x) && SideOk(Bid) && SideOk(Ask)
      ensures With(c.index) == ReduceCore(c, x, cut)
      ensures |bid| == old(|bid|) && |pool| == old(|pool|)
    {
      hide Inv, BitsOk, IsTouch, LevelOk, ReduceCore, NoClamp, AgedAll;
      RemoveLinks(c, x, k);
      ReduceNoClamp(c, x, k, cut);
      StillOccupied(c, x, k, cut);
      var o := pool[x];
      var lv := LevelsOf(o.side)[o.level];
      BitsUnchanged(BitsOf(o.side), LevelsOf(o.side), o.level, lv.(total := lv.total - cut));
      TouchUnchanged(LevelsOf(o.side), o.side, BestOf(o.side), o.level, lv.(total := lv.total - cut));
      pool := pool[x := o.(qty := o.qty - cut)];
      SetLevel(o.side, o.level, lv.(total := lv.total - cut));
      OnQtyRemoved(o.level, o.side, o.rank, cut);
      ReduceCoreIs(c, With(c.index), x, cut);
    }

    // A fill: the book changes as it does for a partial or a full cancel.
    method Execute(id: OrderId, qty: Qty) returns (r: BookError)
      requires Valid()
      modifies Owned
      ensures Valid()
      ensures Outcome(Book(), r) == ReduceOp(old(Book()), id, qty)
    {
      hide Abs, Inv, WellFormed, BitsOk, IsTouch, OrderMap.Valid, OrderMap.Contents, ReduceCore, QueueOf, Removed,
           Reduced, EntryOf, Live;
      ghost var c := State();
      RoomInMap();
      IndexedHeld(c, id);
      var x := ids.Find(id);
      if x == EMPTY {
        return UnknownOrder;
      }
      ghost var y, k := Locate(c, id);
      LocateAbs(c, x, k);
      if qty <= 0 || qty > pool[x].qty {
        return BadQuantity;
      }
      if qty == pool[x].qty {
        r := Remove(id);
        return r;
      }
      ReduceKeepsInv(c, x, k, qty);
      Shrink(x, k, qty, c);
      return Ok;
    }

    // The old order is gone even when the new one is refused.
    method Replace(oldId: OrderId, newId: OrderId, price: Ticks, qty: Qty) returns (r: BookError)
      requires Valid()
      modifies Owned
      ensures Valid()
      ensures Outcome(Book(), r) == ReplaceOp(old(Book()), Limits(), oldId, newId, price, qty)
    {
      hide Abs, Inv, WellFormed, BitsOk, IsTouch, OrderMap.Valid, OrderMap.Contents, QueueOf, Removed, EntryOf, Live,
           AddOp;
      ghost var c := State();
      RoomInMap();
      IndexedHeld(c, oldId);
      var x := ids.Find(oldId);
      if x == EMPTY {
        return UnknownOrder;
      }
      ghost var y, k := Locate(c, oldId);
      LocateAbs(c, x, k);
      var side, mine := pool[x].side, pool[x].mine;
      r := Remove(oldId);
      r := Add(newId, side, price, qty, mine);
    }

    // Every slot goes back on the free list; arrival ranks start again from zero.
    method ClearFields()
      requires window <= NO_LEVEL && |pool| <= NULL
      modifies this
      ensures Inv(With(map[])) && Abs(With(map[])) == EMPTY_BOOK && SideOk(Bid) && SideOk(Ask)
      ensures |bid| == window && |pool| == old(|pool|)
    {
      hide Inv, BitsOk, IsTouch, IsEmptyCore, Abs;
      bid, ask := NoLevels(window), NoLevels(window);
      bidBits, askBits := NoBits(window), NoBits(window);
      bestBid, bestAsk := NO_LEVEL, NO_LEVEL;
      own := [];
      free := FreeList(|pool|);
      bidChains, askChains := NoChains(window), NoChains(window);
      EmptiedCore(With(map[]));
      EmptySide(bidBits, bid, Bid);
      EmptySide(askBits, ask, Ask);
    }

    method Clear()
      requires Valid()
      modifies Owned
      ensures Valid() && Book() == EMPTY_BOOK
    {
      hide Inv, OrderMap.Valid, OrderMap.Contents, BitsOk, IsTouch, Abs;
      Shapely(State());
      ClearFields();
      ids.Clear();
    }

    method ApplyEvent(e: BookEvent) returns (r: BookError)
      requires Valid()
      modifies Owned
      ensures Valid()
      ensures Outcome(Book(), r) == Apply(old(Book()), Limits(), e)
    {
      hide Abs, Inv, AddOp, ReduceOp, RemoveOp, ReplaceOp, BitsOk, IsTouch, OrderMap.Valid, OrderMap.Contents;
      match e.kind {
        case Add => r := Add(e.orderId, e.side, e.price, e.qty, false);
        case Reduce => r := Reduce(e.orderId, e.qty);
        case Delete => r := Remove(e.orderId);
        case Execute => r := Execute(e.orderId, e.qty);
        case Replace => r := Replace(e.orderId, e.newId, e.price, e.qty);
        case Clear => Clear(); r := Ok;
        case Aggress => r := Ok;
      }
    }

    // ---- reading the book ----

    method QtyAt(s: Side, price: Ticks) returns (q: Qty)
      requires Valid()
      ensures q == Total(QueueAt(Book(), s, price))
    {
      hide Abs, WellFormed, OrderMap.Valid, OrderMap.Contents, BitsOk, IsTouch, Linked;
      QueueAtAbs(State(), s, price);
      if !Inside(price) {
        return 0;
      }
      assert LevelAt(State(), s, price - base);
      return LevelsOf(s)[price - base].total;
    }

    method OrdersAt(s: Side, price: Ticks) returns (n: int)
      requires Valid()
      ensures n == |QueueAt(Book(), s, price)|
    {
      hide Abs, WellFormed, OrderMap.Valid, OrderMap.Contents, BitsOk, IsTouch, Linked;
      QueueAtAbs(State(), s, price);
      if !Inside(price) {
        return 0;
      }
      assert LevelAt(State(), s, price - base);
      return LevelsOf(s)[price - base].count;
    }

    method FrontOrderAt(s: Side, price: Ticks) returns (id: OrderId)
      requires Valid()
      ensures id == FrontSpec(Book(), s, price)
    {
      hide Abs, WellFormed, OrderMap.Valid, OrderMap.Contents, BitsOk, IsTouch;
      QueueAtAbs(State(), s, price);
      if !Inside(price) {
        return 0;
      }
      var i := price - base;
      assert LevelAt(State(), s, i);
      ghost var ch := ChainAt(State(), s, i);
      assert ch != [] ==> NodeOk(pool, ch, 0, s, i, LevelsOf(s)[i].nextRank);
      var head := LevelsOf(s)[i].head;
      return if head == NULL then 0 else pool[head].id;
    }

    method QtyOf(id: OrderId) returns (q: Qty)
      requires Valid()
      ensures q == QtyOfSpec(Book(), id)
    {
      hide Abs, Inv, OrderMap.Valid, OrderMap.Contents, BitsOk, IsTouch, QueueOf, EntryOf, Live;
      RoomInMap();
      IndexedHeld(State(), id);
      var x := ids.Find(id);
      if x == EMPTY {
        return 0;
      }
      ghost var y, k := Locate(State(), id);
      LocateAbs(State(), x, k);
      return pool[x].qty;
    }

    method IsMine(id: OrderId) returns (m: bool)
      requires Valid()
      ensures m == IsMineSpec(Book(), id)
    {
      hide Abs, Inv, OrderMap.Valid, OrderMap.Contents, BitsOk, IsTouch, QueueOf, EntryOf, Live;
      RoomInMap();
      IndexedHeld(State(), id);
      var x := ids.Find(id);
      if x == EMPTY {
        return false;
      }
      ghost var y, k := Locate(State(), id);
      LocateAbs(State(), x, k);
      return pool[x].mine;
    }

    // The tracked position of an own order is what a walk of its queue would find.
    method QueueAheadOf(id: OrderId) returns (ahead: Qty)
      requires Valid()
      ensures ahead == if IsMineSpec(Book(), id) then QueueAhead(Book(), id) else -1
    {
      hide Abs, Inv, OrderMap.Valid, OrderMap.Contents, BitsOk, IsTouch, QueueOf, EntryOf, QueueIn, Ahead;
      var k := 0;
      while k < |own|
        invariant k <= |own| && forall j | 0 <= j < k :: own[j].id != id
      {
        if own[k].id == id {
          OwnIsMine(State(), k);
          return own[k].ahead;
        }
        k := k + 1;
      }
      MineIsOwn(State(), id);
      return -1;
    }

    method LiveOrders() returns (n: nat)
      requires Valid()
      ensures n == |Book().index|
    {
      hide Abs, Inv, BitsOk, IsTouch, ContentsOf, Sound, Unique;
      IndexAbs(State(), 0);
      n := ids.size;
    }

    method HasBest(s: Side) returns (has: bool)
      requires Valid()
      ensures has <==> exists p :: p in LadderOf(Book(), s)
    {
      hide Abs, Inv, OrderMap.Valid, OrderMap.Contents, BitsOk, LadderOf;
      TouchIsBest(State(), s, BestOf(s));
      return BestOf(s) != NO_LEVEL;
    }

    method Best(s: Side) returns (p: Ticks)
      requires Valid()
      ensures if exists q :: q in LadderOf(Book(), s) then IsBest(LadderOf(Book(), s), s, p) else p == 0
    {
      hide Abs, Inv, OrderMap.Valid, OrderMap.Contents, BitsOk, LadderOf;
      TouchIsBest(State(), s, BestOf(s));
      return ToPrice(BestOf(s));
    }

    // The next occupied level away from the touch.
    method StepOut(s: Side, i: nat) returns (r: nat)
      requires Valid() && i < window
      ensures NextOut(BitsOf(s), s, i, r)
    {
      hide Abs, OrderMap.Valid, OrderMap.Contents, IsTouch, LevelAt, SlotAt, OwnAt, OwnComplete, IndexAt, WellFormed;
      Shapely(State());
      forall j: nat | NO_LEVEL <= j ensures !BitAt(askBits, j) {
        assert BitMeans(askBits, ask, j);
      }
      if s.Bid? {
        r := NO_LEVEL;
        if i != 0 {
          r := ScanDown(bidBits, i - 1);
        }
      } else {
        r := ScanUp(askBits, i + 1);
      }
    }

    // The n best occupied prices, or all there are, each with its total.
    method Depth(s: Side, n: nat) returns (prices: seq<Ticks>, qtys: seq<Qty>)
      requires Valid()
      ensures IsDepth(Book(), s, n, prices, qtys)
    {
      hide Abs, Inv, OrderMap.Valid, OrderMap.Contents, BitsOk, IsTouch, LadderOf, NextOut, DepthSoFar, NextPrice,
           IsDepth;
      ghost var c := State();
      var i := BestOf(s);
      TouchStartsDepth(c, s, i);
      prices, qtys := [], [];
      while |prices| < n && i != NO_LEVEL
        invariant |prices| <= n && DepthSoFar(Abs(c), s, prices, qtys, i != NO_LEVEL, c.base + i)
        decreases n - |prices|
      {
        DepthAtLevel(c, s, prices, qtys, i);
        var r := StepOut(s, i);
        NextOutIsNext(c, BitsOf(s), s, i, r);
        DepthStep(Abs(c), s, prices, qtys, c.base + i, r != NO_LEVEL, c.base + r);
        prices, qtys := prices + [ToPrice(i)], qtys + [LevelsOf(s)[i].total];
        i := r;
      }
      DepthDone(Abs(c), s, n, prices, qtys, i != NO_LEVEL, c.base + i);
    }
  }
}
