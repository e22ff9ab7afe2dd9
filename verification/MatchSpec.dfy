// What an incoming order should do: consume the opposite side's price-time list
// greedily from the head, dropping or stopping at our own orders as the venue's
// self-match rule says.
module MatchSpec {
  import opened Types
  import opened Queues
  import opened BookSpec
  import opened BookViews
  import opened Flatten

  datatype SelfMatch = Allow | CancelResting | CancelIncoming

  // One thing that happens to the head of the list: it trades, or it is an own
  // order dropped to avoid trading with ourselves.
  datatype Hit =
    | Traded(id: OrderId, price: Ticks, qty: Qty, restingMine: bool)
    | Dropped(id: OrderId)

  // `blocked`: stopped at an own order, under CancelIncoming.
  datatype Sweep = Sweep(hits: seq<Hit>, rest: Flat, remaining: Qty, blocked: bool)

  // The incoming order: its side, its limit if it has one, whether it is ours.
  datatype Incoming = Incoming(side: Side, limit: Option<Ticks>, mine: bool, rule: SelfMatch)

  predicate Reaches(a: Incoming, p: Ticks) {
    a.limit.Some? ==> Through(a.side, a.limit.value, p)
  }

  function After(h: Hit, g: Sweep): Sweep {
    g.(hits := [h] + g.hits)
  }

  // Nothing more to meet: the list is done or out of reach. Id 0 is the engine's mark
  // of an empty level, so an order under it goes unseen and ends the list too.
  predicate Ends(f: Flat, a: Incoming) {
    f == [] || !Reaches(a, f[0].price) || f[0].e.id == 0
  }

  function Greedy(f: Flat, a: Incoming, qty: Qty): Sweep {
    if qty <= 0 || Ends(f, a) then Sweep([], f, qty, false)
    else
      var top := f[0].e;
      if a.mine && top.mine && a.rule.CancelResting? then After(Dropped(top.id), Greedy(f[1..], a, qty))
      else if a.mine && top.mine && a.rule.CancelIncoming? then Sweep([], f, qty, true)
      else if qty >= top.qty then
        After(Traded(top.id, f[0].price, top.qty, top.mine), Greedy(f[1..], a, qty - top.qty))
      else
        Sweep([Traded(top.id, f[0].price, qty, top.mine)], [Smaller(f[0], qty)] + f[1..], 0, false)
  }

  // ---- measures of a sweep ----

  function TradedQty(hits: seq<Hit>): Qty {
    if hits == [] then 0 else (if hits[0].Traded? then hits[0].qty else 0) + TradedQty(hits[1..])
  }

  function Volume(f: Flat): Qty {
    if f == [] then 0 else f[0].e.qty + Volume(f[1..])
  }

  // Size of the own orders a sweep drops.
  function DroppedQty(f: Flat, hits: seq<Hit>): Qty {
    if hits == [] || f == [] then 0
    else (if hits[0].Dropped? then f[0].e.qty else 0) + DroppedQty(f[1..], hits[1..])
  }

  ghost predicate PositiveFlat(f: Flat) {
    forall k | 0 <= k < |f| :: f[k].e.qty > 0
  }

  // Nothing is created or lost: what traded is what the order gave up and what
  // the resting side gave up.
  lemma {:induction false} GreedyConserves(f: Flat, a: Incoming, qty: Qty)
    requires PositiveFlat(f) && qty >= 0
    ensures var g := Greedy(f, a, qty);
            && 0 <= g.remaining <= qty && TradedQty(g.hits) == qty - g.remaining
            && Volume(f) == Volume(g.rest) + TradedQty(g.hits) + DroppedQty(f, g.hits)
            && PositiveFlat(g.rest)
    decreases |f|
  {
    if qty <= 0 || Ends(f, a) {
    } else {
      var top, g := f[0].e, Greedy(f, a, qty);
      assert forall k | 0 <= k < |f[1..]| :: f[1..][k] == f[k + 1];
      if a.mine && top.mine && a.rule.CancelResting? {
        GreedyConserves(f[1..], a, qty);
        assert g.hits[1..] == Greedy(f[1..], a, qty).hits;
      } else if a.mine && top.mine && a.rule.CancelIncoming? {
      } else if qty >= top.qty {
        GreedyConserves(f[1..], a, qty - top.qty);
        assert g.hits[1..] == Greedy(f[1..], a, qty - top.qty).hits;
      } else {
        assert g.rest[1..] == f[1..];
        assert g.hits[1..] == [];
      }
    }
  }

  // The list with our own orders left out, as CancelResting trades it.
  function Tradable(f: Flat, a: Incoming): Flat {
    if f == [] then []
    else if a.mine && f[0].e.mine && a.rule.CancelResting? then Tradable(f[1..], a)
    else [f[0]] + Tradable(f[1..], a)
  }

  function Trades(hits: seq<Hit>): seq<Hit> {
    if hits == [] then []
    else if hits[0].Traded? then [hits[0]] + Trades(hits[1..]) else Trades(hits[1..])
  }

  // A trade takes this order: whole, or in part when it is the sweep's last.
  predicate Takes(h: Hit, r: Resting, last: bool) {
    h.Traded? && h.id == r.e.id && h.price == r.price && h.restingMine == r.e.mine
    && (if last then 0 < h.qty <= r.e.qty else h.qty == r.e.qty)
  }

  // The trades are exactly a prefix of the tradable list, each order whole but
  // possibly the last.
  lemma {:induction false} TradesArePrefix(f: Flat, a: Incoming, qty: Qty)
    requires PositiveFlat(f)
    ensures var t, l := Trades(Greedy(f, a, qty).hits), Tradable(f, a);
            |t| <= |l| && forall k | 0 <= k < |t| :: Takes(t[k], l[k], k == |t| - 1)
    decreases |f|
  {
    if qty <= 0 || Ends(f, a) {
    } else {
      var top, g := f[0].e, Greedy(f, a, qty);
      assert forall k | 0 <= k < |f[1..]| :: f[1..][k] == f[k + 1];
      if a.mine && top.mine && a.rule.CancelResting? {
        TradesArePrefix(f[1..], a, qty);
        assert g.hits[1..] == Greedy(f[1..], a, qty).hits;
      } else if a.mine && top.mine && a.rule.CancelIncoming? {
      } else if qty >= top.qty {
        TradesArePrefix(f[1..], a, qty - top.qty);
        assert g.hits[1..] == Greedy(f[1..], a, qty - top.qty).hits;
        var t, t1, l1 := Trades(g.hits), Trades(g.hits[1..]), Tradable(f[1..], a);
        assert t == [g.hits[0]] + t1 && Tradable(f, a) == [f[0]] + l1;
      } else {
        assert g.hits[1..] == [];
      }
    }
  }

  // Why a sweep stops: filled, nothing left to meet, or blocked by an own order.
  lemma {:induction false} GreedyStops(f: Flat, a: Incoming, qty: Qty)
    requires PositiveFlat(f) && qty > 0
    ensures var g := Greedy(f, a, qty);
            && (g.remaining > 0 && !g.blocked ==> Ends(g.rest, a))
            && (g.blocked ==> g.remaining > 0 && a.mine && a.rule.CancelIncoming?
                              && !Ends(g.rest, a) && g.rest[0].e.mine)
    decreases |f|
  {
    if Ends(f, a) {
    } else {
      var top := f[0].e;
      assert forall k | 0 <= k < |f[1..]| :: f[1..][k] == f[k + 1];
      if a.mine && top.mine && a.rule.CancelResting? {
        GreedyStops(f[1..], a, qty);
      } else if a.mine && top.mine && a.rule.CancelIncoming? {
      } else if qty > top.qty {
        GreedyStops(f[1..], a, qty - top.qty);
      }
    }
  }

  // Every trade is within the limit, and no trade has both sides ours unless the
  // venue allows it.
  lemma {:induction false} TradesInReach(f: Flat, a: Incoming, qty: Qty)
    requires PositiveFlat(f)
    ensures forall h | h in Greedy(f, a, qty).hits && h.Traded? ::
              h.qty > 0 && Reaches(a, h.price) && (a.mine && h.restingMine ==> a.rule.Allow?)
    decreases |f|
  {
    if qty <= 0 || Ends(f, a) {
    } else {
      var top := f[0].e;
      assert forall k | 0 <= k < |f[1..]| :: f[1..][k] == f[k + 1];
      if a.mine && top.mine && a.rule.CancelResting? {
        TradesInReach(f[1..], a, qty);
      } else if a.mine && top.mine && a.rule.CancelIncoming? {
      } else if qty >= top.qty {
        TradesInReach(f[1..], a, qty - top.qty);
      }
    }
  }

  // Prices only ever get worse for the incoming order.
  lemma PricesWorsen(f: Flat, a: Incoming, qty: Qty, s: Side, j: nat, k: nat)
    requires PositiveFlat(f) && BestFirst(f, s)
    requires j < k < |Trades(Greedy(f, a, qty).hits)|
    ensures var t := Trades(Greedy(f, a, qty).hits);
            t[j].Traded? && t[k].Traded? && !Better(s, t[k].price, t[j].price)
  {
    TradesArePrefix(f, a, qty);
    var t, l := Trades(Greedy(f, a, qty).hits), Tradable(f, a);
    assert Takes(t[j], l[j], j == |t| - 1) && Takes(t[k], l[k], k == |t| - 1);
    TradableOrdered(f, a, s);
  }

  lemma {:induction false} TradableOrdered(f: Flat, a: Incoming, s: Side)
    requires BestFirst(f, s)
    ensures BestFirst(Tradable(f, a), s)
    ensures forall r | r in Tradable(f, a) :: r in f
  {
    if f != [] {
      assert forall k | 0 <= k < |f[1..]| :: f[1..][k] == f[k + 1];
      TradableOrdered(f[1..], a, s);
      var t := Tradable(f[1..], a);
      forall k | 0 <= k < |t| ensures !Better(s, t[k].price, f[0].price) && t[k] in f {
        assert t[k] in f[1..];
      }
    }
  }

  // ---- the same events, applied to the book ----

  function EventOf(h: Hit, side: Side): BookEvent {
    if h.Traded? then BookEvent(0, 0, h.id, 0, 0, h.qty, Execute, side)
    else BookEvent(0, 0, h.id, 0, 0, 0, Delete, side)
  }

  function EventsOf(hits: seq<Hit>, side: Side): (es: seq<BookEvent>)
    ensures |es| == |hits| && forall k | 0 <= k < |hits| :: es[k] == EventOf(hits[k], side)
  {
    seq(|hits|, k requires 0 <= k < |hits| => EventOf(hits[k], side))
  }

  // The order of the head of the list, taken whole or dropped: the book loses it.
  lemma HeadLeaves(b: Book, lim: Limits, s: Side, f: Flat, h: Hit)
    requires WellFormed(b) && IsFlat(b, s, f) && f != []
    requires h == Dropped(f[0].e.id) || h == Traded(f[0].e.id, f[0].price, f[0].e.qty, f[0].e.mine)
    ensures var b' := Apply(b, lim, EventOf(h, s)).book;
            Apply(b, lim, EventOf(h, s)).error.Ok? && WellFormed(b') && IsFlat(b', s, f[1..])
            && LadderOf(b', Opposite(s)) == LadderOf(b, Opposite(s)) && b'.index == b.index - {f[0].e.id}
  {
    hide WellFormed, IsFlat, LadderOf, WithQueue;
    FlatHead(b, s, f);
    FlatAfterRemove(b, s, f);
    RemovedWellFormed(b, f[0].e.id);
    RemovedIndex(b, f[0].e.id);
  }

  lemma RemovedIndex(b: Book, id: OrderId)
    requires Holds(QueueOf(b, id), id)
    ensures Removed(b, id).index == b.index - {id}
  {
  }

  lemma HeadShrinks(b: Book, lim: Limits, s: Side, f: Flat, cut: Qty)
    requires WellFormed(b) && IsFlat(b, s, f) && f != [] && 0 < cut < f[0].e.qty
    ensures var o := Apply(b, lim, EventOf(Traded(f[0].e.id, f[0].price, cut, f[0].e.mine), s));
            o.error.Ok? && WellFormed(o.book) && IsFlat(o.book, s, [Smaller(f[0], cut)] + f[1..])
            && LadderOf(o.book, Opposite(s)) == LadderOf(b, Opposite(s)) && o.book.index == b.index
  {
    hide WellFormed, IsFlat, LadderOf, WithQueue;
    FlatHead(b, s, f);
    FlatAfterReduce(b, s, f, cut);
    ReducedWellFormed(b, f[0].e.id, cut);
    ReducedIndex(b, f[0].e.id, cut);
  }

  lemma ReducedIndex(b: Book, id: OrderId, cut: Qty)
    requires Holds(QueueOf(b, id), id)
    ensures Reduced(b, id, cut).index == b.index
  {
  }
}
