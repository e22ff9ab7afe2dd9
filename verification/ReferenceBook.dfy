// The deliberately naive book: ordered maps of price to queue, and an index.
// Its branches that guard against the index and a queue disagreeing are shown
// unreachable where they would be taken.
module ReferenceBooks {
  import opened Types
  import opened Queues
  import opened BookSpec
  import opened BookViews

  class ReferenceBook {
    var bids: Ladder
    var asks: Ladder
    var index: map<OrderId, Loc>

    ghost function State(): Book
      reads this
    {
      Book(bids, asks, index)
    }

    ghost predicate Valid()
      reads this
    {
      WellFormed(State())
    }

    constructor ()
      ensures Valid() && State() == EMPTY_BOOK
    {
      bids, asks, index := map[], map[], map[];
      new;
      EmptyWellFormed();
    }

    method HasBest(s: Side) returns (has: bool)
      ensures has <==> exists p :: p in LadderOf(State(), s)
    {
      var l := if s.Bid? then bids else asks;
      if p :| p in l {
        assert p in LadderOf(State(), s);
        has := true;
      } else {
        has := false;
      }
    }

    // The best price, or zero when the side is empty.
    method Best(s: Side) returns (best: Ticks)
      ensures if exists p :: p in LadderOf(State(), s) then IsBest(LadderOf(State(), s), s, best) else best == 0
    {
      var l := if s.Bid? then bids else asks;
      if p :| p in l {
        assert p in LadderOf(State(), s);
        ghost var known := BestExists(l, s, p);
        best :| best in l && forall p' | p' in l :: Through(s, best, p');
      } else {
        best := 0;
      }
    }

    method LiveOrders() returns (n: nat)
      ensures n == |State().index|
    {
      n := |index|;
    }

    method OrdersAt(s: Side, price: Ticks) returns (n: nat)
      ensures n == |QueueAt(State(), s, price)|
    {
      n := |QueueAt(Book(bids, asks, index), s, price)|;
    }

    // The size of a resting order, zero when it does not rest.
    method QtyOf(id: OrderId) returns (qty: Qty)
      requires Valid()
      ensures qty == QtyOfSpec(State(), id)
    {
      HeldIsIndexed(State(), id);
      if id !in index {
        return 0;
      }
      var q := QueueAt(Book(bids, asks, index), index[id].side, index[id].price);
      var k := FindEntry(q, id);
      qty := if k < |q| then q[k].qty else 0;
    }

    method WouldCross(s: Side, price: Ticks) returns (crossed: bool)
      ensures crossed <==> Crossing(State(), s, price)
    {
      var l := if s.Bid? then asks else bids;
      if p :| p in l {
        assert p in LadderOf(State(), Opposite(s));
        var best := Best(Opposite(s));
        crossed := Through(s, price, best);
      } else {
        crossed := false;
      }
    }

    method Place(s: Side, p: Ticks, q: Queue)
      modifies this
      ensures State() == WithQueue(old(State()), s, p, q)
    {
      if s.Bid? {
        bids := Placed(bids, p, q);
      } else {
        asks := Placed(asks, p, q);
      }
    }

    method Add(id: OrderId, s: Side, price: Ticks, qty: Qty, mine: bool) returns (r: BookError)
      requires Valid()
      modifies this
      ensures Valid()
      ensures Outcome(State(), r) == AddOp(old(State()), Unlimited, id, s, price, qty, mine)
    {
      AddKeepsWellFormed(State(), Unlimited, id, s, price, qty, mine);
      if qty <= 0 {
        return BadQuantity;
      }
      if id in index {
        return DuplicateOrder;
      }
      var crossed := WouldCross(s, price);
      if crossed {
        return CrossedBook;
      }
      var q := QueueAt(Book(bids, asks, index), s, price);
      index := index[id := Loc(s, price)];
      Place(s, price, q + [Entry(id, qty, mine)]);
      return Ok;
    }

    // Walks the queue for the order; the length of the queue means "not found".
    method FindEntry(q: Queue, id: OrderId) returns (k: nat)
      ensures k == IndexOf(q, id)
    {
      k := 0;
      while k < |q| && q[k].id != id
        invariant k <= |q| && forall j | 0 <= j < k :: q[j].id != id
      {
        k := k + 1;
      }
      IndexIs(q, id, k);
    }

    method Remove(id: OrderId) returns (r: BookError)
      requires Valid()
      modifies this
      ensures Valid()
      ensures Outcome(State(), r) == RemoveOp(old(State()), id)
    {
      HeldIsIndexed(State(), id);
      if id !in index {
        return UnknownOrder;
      }
      RemovedWellFormed(State(), id);
      var loc := index[id];
      var q := QueueAt(Book(bids, asks, index), loc.side, loc.price);
      var k := FindEntry(q, id);
      assert k < |q|;
      index := index - {id};
      Place(loc.side, loc.price, Without(q, k));
      return Ok;
    }

    method Reduce(id: OrderId, cut: Qty) returns (r: BookError)
      requires Valid()
      modifies this
      ensures Valid()
      ensures Outcome(State(), r) == ReduceOp(old(State()), id, cut)
    {
      HeldIsIndexed(State(), id);
      ReduceKeepsWellFormed(State(), id, cut);
      if id !in index {
        return UnknownOrder;
      }
      var loc := index[id];
      var q := QueueAt(Book(bids, asks, index), loc.side, loc.price);
      var k := FindEntry(q, id);
      assert k < |q|;
      if cut <= 0 || cut > q[k].qty {
        return BadQuantity;
      }
      if cut == q[k].qty {
        r := Remove(id);
        return r;
      }
      Place(loc.side, loc.price, Shrunk(q, k, cut));
      return Ok;
    }

    // A fill changes this book exactly as a partial cancel does.
    method Execute(id: OrderId, qty: Qty) returns (r: BookError)
      requires Valid()
      modifies this
      ensures Valid()
      ensures Outcome(State(), r) == ReduceOp(old(State()), id, qty)
    {
      HeldIsIndexed(State(), id);
      ReduceKeepsWellFormed(State(), id, qty);
      if id !in index {
        return UnknownOrder;
      }
      var loc := index[id];
      var q := QueueAt(Book(bids, asks, index), loc.side, loc.price);
      var k := FindEntry(q, id);
      assert k < |q|;
      if qty <= 0 || qty > q[k].qty {
        return BadQuantity;
      }
      if qty == q[k].qty {
        r := Remove(id);
        return r;
      }
      Place(loc.side, loc.price, Shrunk(q, k, qty));
      return Ok;
    }

    method Replace(oldId: OrderId, newId: OrderId, price: Ticks, qty: Qty) returns (r: BookError)
      requires Valid()
      modifies this
      ensures Valid()
      ensures Outcome(State(), r) == ReplaceOp(old(State()), Unlimited, oldId, newId, price, qty)
    {
      HeldIsIndexed(State(), oldId);
      if oldId !in index {
        return UnknownOrder;
      }
      var loc := index[oldId];
      var q := QueueAt(Book(bids, asks, index), loc.side, loc.price);
      var k := FindEntry(q, oldId);
      assert k < |q|;
      var mine := q[k].mine;
      r := Remove(oldId);
      r := Add(newId, loc.side, price, qty, mine);
    }

    method ApplyEvent(e: BookEvent) returns (r: BookError)
      requires Valid()
      modifies this
      ensures Valid()
      ensures Outcome(State(), r) == Apply(old(State()), Unlimited, e)
    {
      match e.kind {
        case Add => r := Add(e.orderId, e.side, e.price, e.qty, false);
        case Reduce => r := Reduce(e.orderId, e.qty);
        case Delete => r := Remove(e.orderId);
        case Execute => r := Execute(e.orderId, e.qty);
        case Replace => r := Replace(e.orderId, e.newId, e.price, e.qty);
        case Clear =>
          bids, asks, index := map[], map[], map[];
          EmptyWellFormed();
          r := Ok;
        case Aggress => r := Ok;
      }
    }

    // Size ahead of an order, by walking its queue.
    method QueueAheadOf(id: OrderId) returns (ahead: Qty)
      requires Valid()
      ensures ahead == QueueAhead(State(), id)
    {
      HeldIsIndexed(State(), id);
      if id !in index {
        return -1;
      }
      var q := QueueAt(Book(bids, asks, index), index[id].side, index[id].price);
      ahead := 0;
      var k := 0;
      assert q[..0] == [];
      while q[k].id != id
        invariant k <= IndexOf(q, id) < |q| && ahead == Total(q[..k])
        decreases |q| - k
      {
        assert q[..k + 1] == q[..k] + [q[k]];
        TotalConcat(q[..k], [q[k]]);
        ahead := ahead + q[k].qty;
        k := k + 1;
      }
      IndexIs(q, id, k);
    }

    method QtyAt(s: Side, price: Ticks) returns (sum: Qty)
      ensures sum == Total(QueueAt(State(), s, price))
    {
      var q := QueueAt(Book(bids, asks, index), s, price);
      sum := 0;
      var k := 0;
      assert q[..0] == [];
      while k < |q|
        invariant k <= |q| && sum == Total(q[..k])
      {
        assert q[..k + 1] == q[..k] + [q[k]];
        TotalConcat(q[..k], [q[k]]);
        sum := sum + q[k].qty;
        k := k + 1;
      }
      assert q[..k] == q;
    }

    // Up to n prices from the touch outwards, as an ordered map is walked.
    method LadderTop(s: Side, n: nat) returns (prices: seq<Ticks>, qtys: seq<Qty>)
      requires Valid()
      ensures IsDepth(State(), s, n, prices, qtys)
    {
      var l := if s.Bid? then bids else asks;
      prices, qtys := [], [];
      var more, next := NextOf(s, l);
      while |prices| < n && more
        invariant |prices| <= n && DepthSoFar(State(), s, prices, qtys, more, next)
        decreases n - |prices|
      {
        var total := QtyAt(s, next);
        var rest := map p | p in l && Better(s, next, p) :: l[p];
        var more', next' := NextOf(s, rest);
        assert forall p | p in LadderOf(State(), s) && Better(s, next, p) :: p in rest;
        DepthStep(State(), s, prices, qtys, next, more', next');
        prices, qtys := prices + [next], qtys + [total];
        more, next := more', next';
      }
      DepthDone(State(), s, n, prices, qtys, more, next);
    }

    // The best price of a ladder, if it has one.
    method NextOf(s: Side, l: Ladder) returns (more: bool, p: Ticks)
      ensures more ==> IsBest(l, s, p)
      ensures !more ==> forall q :: q !in l
    {
      if q :| q in l {
        ghost var known := BestExists(l, s, q);
        p :| p in l && forall p' | p' in l :: Through(s, p, p');
        more := true;
      } else {
        more, p := false, 0;
      }
    }
  }
}
